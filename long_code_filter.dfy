/** Filter "Long code": more than 3 code punctuation characters and more than 20 line breaks. */
module LongCodeFilter {

  import opened Options
  import opened Text
  import opened Platform
  import opened ChannelLogger
  import opened FilterReport

  /** The class `[\{\}\[\]$;]` of `regexCode`. */
  const CodeChars: set<char> := {'{', '}', '[', ']', '$', ';'}

  /** Number of matches of `regexCode`, `0` when there are none. */
  function CodeCount(content: string): nat { CountIn(content, CodeChars) }

  /** Number of matches of `regexLineBreak`. */
  function LineBreaks(content: string): nat { CountIn(content, {'\n'}) }

  /** Both thresholds are strict and both must hold. */
  predicate Fires(content: string)
  {
    CodeCount(content) > 3 && LineBreaks(content) > 20
  }

  function Response(msg: Message, channel: Option<Id>, net: Net): Run
  {
    if Fires(msg.content)
    then Report(msg.id, msg.content, LongCodeWarning, LongCodeLog, None, channel, net)
    else Run([], Done)
  }

  method Apply(logger: Logger, msg: Message, net: Net) returns (r: Run)
    ensures r == Response(msg, logger.channel, net)
  {
    var content := msg.content;
    var codeCount := CountIn(content, CodeChars);
    var lineBreaks := CountIn(content, {'\n'});
    if codeCount > 3 && lineBreaks > 20 {
      r := Deliver(logger, msg.id, content, LongCodeWarning, LongCodeLog, None, net);
    } else {
      r := Run([], Done);
    }
  }

  /** Exactly 3 code characters, or exactly 20 line breaks, never fire: neither threshold alone is enough. */
  lemma ThresholdsStrict(content: string)
    ensures CodeCount(content) <= 3 ==> !Fires(content)
    ensures LineBreaks(content) <= 20 ==> !Fires(content)
  {
  }

  /** Text added before or after a firing message keeps it firing: both counts only grow. */
  lemma FiringSurvivesAppend(pre: string, content: string, post: string)
    requires Fires(content)
    ensures Fires(pre + content + post)
  {
    CountInAppend(pre, content, CodeChars);
    CountInAppend(pre + content, post, CodeChars);
    CountInAppend(pre, content, {'\n'});
    CountInAppend(pre + content, post, {'\n'});
  }

  /** A message without any code character never fires, however many lines it has. */
  lemma NoCodeNoFire(content: string)
    requires forall i :: 0 <= i < |content| ==> content[i] !in CodeChars
    ensures !Fires(content)
  {
    CountInPositive(content, CodeChars);
  }

  /** Firing with every call succeeding gives reply, log, log-reply with the content; not firing gives nothing. */
  lemma Trace(msg: Message, channel: Id, net: Net)
    requires net.replyOk && net.sendOk && net.logReplyOk
    ensures Fires(msg.content) ==>
              Response(msg, Some(channel), net).effects ==
              [Reply(msg.id, LongCodeWarning), Logged(channel, None, LongCodeLog), LogReply(msg.id, msg.content)]
    ensures !Fires(msg.content) ==> Response(msg, Some(channel), net) == Run([], Done)
  {
  }
}
