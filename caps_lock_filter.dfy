/**
 * Filter "Caps lock": a message longer than ten UTF-16 code units that is its
 * own upper-case form. JavaScript's `length` counts code units, so a character
 * beyond the Basic Multilingual Plane, such as most emoji, counts twice.
 */
module CapsLockFilter {

  import opened Options
  import opened Text
  import opened Platform
  import opened ChannelLogger
  import opened FilterReport

  /** The test at the head of `run`. */
  predicate Fires(content: string)
  {
    content == Upper(content) && Utf16Length(content) > 10
  }

  /** The filter's run on `msg`: the report when it fires, nothing otherwise. */
  function Response(msg: Message, channel: Option<Id>, net: Net): Run
  {
    if Fires(msg.content)
    then Report(msg.id, msg.content, CapsLockWarning, CapsLockLog, None, channel, net)
    else Run([], Done)
  }

  method Apply(logger: Logger, msg: Message, net: Net) returns (r: Run)
    ensures r == Response(msg, logger.channel, net)
  {
    var content := msg.content;
    if content == Upper(content) && Utf16Length(content) > 10 {
      r := Deliver(logger, msg.id, content, CapsLockWarning, CapsLockLog, None, net);
    } else {
      r := Run([], Done);
    }
  }

  /** It fires exactly on messages longer than ten code units without a lower-case letter. */
  lemma FiresIff(content: string)
    ensures Fires(content) <==> Utf16Length(content) > 10 && forall i :: 0 <= i < |content| ==> !IsLower(content[i])
  {
    if Utf16Length(content) > 10 && forall i :: 0 <= i < |content| ==> !IsLower(content[i]) {
      assert content == Upper(content);
    }
    if Fires(content) {
      forall i | 0 <= i < |content| ensures !IsLower(content[i]) {
        assert Upper(content)[i] == content[i];
      }
    }
  }

  /**
   * Ten code units or fewer never fire, whatever their case, and so neither do
   * five characters or fewer; a lower-case letter anywhere prevents firing.
   */
  lemma NeverFires(content: string, i: nat)
    ensures Utf16Length(content) <= 10 ==> !Fires(content)
    ensures |content| <= 5 ==> !Fires(content)
    ensures i < |content| && IsLower(content[i]) ==> !Fires(content)
  {
    if i < |content| && IsLower(content[i]) {
      assert Upper(content)[i] != content[i];
    }
  }

  /** Eleven digits, with no letter at all, do fire. */
  lemma DigitsFire()
    ensures Fires("12345678901")
  {
    FiresIff("12345678901");
    Utf16LengthOfBmp("12345678901");
  }

  /**
   * Six emoji are twelve code units and have no case, so they fire; five are
   * ten code units and do not.
   */
  lemma EmojiCountTwice()
    ensures Fires("\U{1F602}\U{1F602}\U{1F602}\U{1F602}\U{1F602}\U{1F602}")
    ensures !Fires("\U{1F602}\U{1F602}\U{1F602}\U{1F602}\U{1F602}")
  {
    var six := "\U{1F602}\U{1F602}\U{1F602}\U{1F602}\U{1F602}\U{1F602}";
    Utf16LengthOfAstral(six);
    FiresIff(six);
    Utf16LengthOfAstral(six[..5]);
    assert six[..5] == "\U{1F602}\U{1F602}\U{1F602}\U{1F602}\U{1F602}";
  }

  /** When it fires and every call succeeds, the trace is reply, log, then a log-reply quoting the content verbatim. */
  lemma FiringTrace(msg: Message, channel: Id, net: Net)
    requires Fires(msg.content) && net.replyOk && net.sendOk && net.logReplyOk
    ensures Response(msg, Some(channel), net) ==
            Run([Reply(msg.id, CapsLockWarning), Logged(channel, None, CapsLockLog), LogReply(msg.id, msg.content)], Done)
  {
  }

  /** When it does not fire, nothing happens, whatever the logger or the network. */
  lemma QuietTrace(msg: Message, channel: Option<Id>, net: Net)
    requires !Fires(msg.content)
    ensures Response(msg, channel, net) == Run([], Done)
  {
  }
}
