/**
 * Filter "LMGTFY": a message containing a "let me google that for you" link,
 * `/(lmgtfy\.(app|com)|letmegooglethat\.com|googlethatforyou\.com)/i`.
 */
module LmgtfyFilter {

  import opened Options
  import opened Text
  import opened Platform
  import opened ChannelLogger
  import opened FilterReport
  import opened LiteralSearch

  /** The alternatives, in the order the expression tries them at one position. */
  const Links: seq<string> := ["lmgtfy.app", "lmgtfy.com", "letmegooglethat.com", "googlethatforyou.com"]

  predicate Fires(content: string)
  {
    Search(content, Links, false).Some?
  }

  /** `match[0]`: the link as the message spells it. */
  function Link(content: string): (l: string)
    requires Fires(content)
    ensures Lower(l) in Links
  {
    var h := Search(content, Links, false).value;
    LinksAreLowerCase();
    OccurrenceFolds(content, h.pos, Links[h.alt]);
    Matched(content, Links, h)
  }

  lemma LinksAreLowerCase()
    ensures forall k :: 0 <= k < |Links| ==> Lower(Links[k]) == Links[k]
  {
    assert Lower(Links[0]) == Links[0];
    assert Lower(Links[1]) == Links[1];
    assert Lower(Links[2]) == Links[2];
    assert Lower(Links[3]) == Links[3];
  }

  function Response(msg: Message, channel: Option<Id>, net: Net): Run
  {
    if Fires(msg.content)
    then Report(msg.id, msg.content, LmgtfyWarning, LmgtfyLog(Link(msg.content)), None, channel, net)
    else Run([], Done)
  }

  method Apply(logger: Logger, msg: Message, net: Net) returns (r: Run)
    ensures r == Response(msg, logger.channel, net)
  {
    var content := msg.content;
    var found := Search(content, Links, false);
    if found.Some? {
      var link := Matched(content, Links, found.value);
      r := Deliver(logger, msg.id, content, LmgtfyWarning, LmgtfyLog(link), None, net);
    } else {
      r := Run([], Done);
    }
  }

  /** It fires exactly when one of the four sites occurs anywhere; the log names the link in the message's casing. */
  lemma FiresIff(msg: Message, channel: Id, net: Net)
    requires net.replyOk && net.sendOk && net.logReplyOk
    ensures Response(msg, Some(channel), net).effects != [] <==>
              exists p: nat, k :: 0 <= k < |Links| && OccursAt(msg.content, p, Links[k])
    ensures Fires(msg.content) ==>
              Response(msg, Some(channel), net).effects[1] == Logged(channel, None, LmgtfyLog(Link(msg.content)))
  {
    assert forall p: nat, k | 0 <= k < |Links| :: MatchesAt(msg.content, p, Links[k], false) <==> OccursAt(msg.content, p, Links[k]);
  }

  /** No word boundary is required: a link inside any surrounding text still fires. */
  lemma FiringSurvivesContext(before: string, content: string, after: string)
    requires Fires(content)
    ensures Fires(before + content + after)
  {
    UnframedSurvivesContext(content, before, after, Links);
  }

  /** The dot is literal: another character in its place is not a link. */
  lemma DotIsLiteral()
    ensures !Fires("lmgtfyXcom")
    ensures Fires("LMGTFY.COM") && Link("LMGTFY.COM") == "LMGTFY.COM"
  {
    AnyOtherCharacterIsQuiet();
    UpperCaseLinkFires();
  }

  lemma AnyOtherCharacterIsQuiet()
    ensures !Fires("lmgtfyXcom")
  {
    var s := "lmgtfyXcom";
    forall q: nat, k | 0 <= k < |Links| ensures !MatchesAt(s, q, Links[k], false) {
      if q == 0 && k < 2 { assert !SameLetter(s[6], Links[k][6]); }
    }
  }

  lemma UpperCaseLinkFires()
    ensures Fires("LMGTFY.COM") && Link("LMGTFY.COM") == "LMGTFY.COM"
  {
    var t := "LMGTFY.COM";
    assert !SameLetter(t[7], Links[0][7]);
    assert OccursAt(t, 0, Links[1]);
    SearchFinds(t, Links, false, Hit(0, 1));
  }
}
