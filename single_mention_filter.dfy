/**
 * Filter "Single mention": a message made of one user mention `<@digits>`
 * and nothing else, matched by `/^\<\@([0-9]+)\>$/i`.
 */
module SingleMentionFilter {

  import opened Options
  import opened Text
  import opened Platform
  import opened ChannelLogger
  import opened FilterReport

  predicate AllDigits(s: string) { forall i :: 0 <= i < |s| ==> IsDigit(s[i]) }

  /** The whole content is `<@`, one or more digits, then `>`. */
  predicate IsMention(content: string)
  {
    |content| >= 4 && content[0] == '<' && content[1] == '@' && content[|content| - 1] == '>'
    && AllDigits(content[2..|content| - 1])
  }

  /** The mention of the user with id `id`. */
  function MentionOf(id: string): (m: string)
    requires |id| > 0 && AllDigits(id)
    ensures |m| == |id| + 3 && m[..2] == "<@" && m[|m| - 1] == '>'
  {
    "<@" + id + ">"
  }

  /** The id inside a mention. */
  function MentionedId(content: string): (id: string)
    requires IsMention(content)
    ensures |id| > 0 && AllDigits(id)
  {
    content[2..|content| - 1]
  }

  /** Mentions and ids correspond one to one. */
  lemma MentionRoundTrip(id: string, content: string)
    requires |id| > 0 && AllDigits(id)
    ensures IsMention(MentionOf(id)) && MentionedId(MentionOf(id)) == id
    ensures IsMention(content) ==> MentionOf(MentionedId(content)) == content
  {
    var m := MentionOf(id);
    assert m[2..|m| - 1] == id;
    if IsMention(content) {
      assert MentionOf(MentionedId(content)) == content by {
        var n := MentionOf(MentionedId(content));
        assert |n| == |content|;
        forall i | 0 <= i < |n| ensures n[i] == content[i] { }
      }
    }
  }

  function Response(msg: Message, channel: Option<Id>, net: Net): Run
  {
    if IsMention(msg.content)
    then Report(msg.id, msg.content, SingleMentionWarning, SingleMentionLog(msg.content), None, channel, net)
    else Run([], Done)
  }

  method Apply(logger: Logger, msg: Message, net: Net) returns (r: Run)
    ensures r == Response(msg, logger.channel, net)
  {
    var content := msg.content;
    if IsMention(content) {
      // the match is anchored at both ends, so `match[0]` is the whole content
      r := Deliver(logger, msg.id, content, SingleMentionWarning, SingleMentionLog(content), None, net);
    } else {
      r := Run([], Done);
    }
  }

  /** A content is a mention exactly when it is the mention of some id. */
  lemma IsMentionIff(content: string)
    ensures IsMention(content) <==> exists id :: |id| > 0 && AllDigits(id) && content == MentionOf(id)
  {
    if IsMention(content) {
      MentionRoundTrip(MentionedId(content), content);
    }
    if exists id :: |id| > 0 && AllDigits(id) && content == MentionOf(id) {
      var id :| |id| > 0 && AllDigits(id) && content == MentionOf(id);
      MentionRoundTrip(id, content);
    }
  }

  /** It fires exactly on the mention of some id; the log names that mention, which is the whole content. */
  lemma FiresOnMentionsOnly(msg: Message, channel: Id, net: Net)
    requires net.replyOk && net.sendOk && net.logReplyOk
    ensures Response(msg, Some(channel), net).effects != [] <==>
              exists id :: |id| > 0 && AllDigits(id) && msg.content == MentionOf(id)
    ensures IsMention(msg.content) ==>
              Response(msg, Some(channel), net).effects[1] ==
                Logged(channel, None, SingleMentionLog(MentionOf(MentionedId(msg.content))))
  {
    IsMentionIff(msg.content);
    if IsMention(msg.content) {
      var id := MentionedId(msg.content);
      MentionRoundTrip(id, msg.content);
    }
  }

  /** Anything around the mention, an empty id, or the nickname form `<@!…>` keeps it quiet. */
  lemma NearMissesAreQuiet(content: string)
    requires IsMention(content)
    ensures !IsMention(" " + content) && !IsMention(content + " ") && !IsMention(content + "!")
    ensures !IsMention("<@>") && !IsMention("<@!123>")
    ensures IsMention("<@123>")
  {
    assert ("<@!123>")[2] == '!';
    assert (content + " ")[|content|] == ' ';
    assert (content + "!")[|content|] == '!';
  }
}
