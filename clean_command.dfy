/**
 * The `nettoyer` slash command: bulk-delete the latest messages of a channel,
 * confirm, announce it in the channel when a reason was given, log it, and
 * copy every deleted message under the log entry.
 */
module CleanCommand {

  import opened Options
  import opened Platform
  import opened GenericTypes
  import opened ChannelLogger
  import opened ModerationFlow

  const Name: string := "nettoyer"

  /** A message of the channel's history, as the copy loop reads it. */
  datatype HistoryMessage = HistoryMessage(id: Id, cleanContent: string, embeds: nat)

  /** The text that stands for a message made only of embeds. */
  const EmbedPlaceholder: string :=
    "*Ce message était une intégration. Son contenu est disponible en réponse à ce message.*"

  function Reason(input: ChatInput): string
  {
    StringOr(input.reason, NoReasonGiven)
  }

  /** `channel`: the `salon` option when it is a text channel, else the channel the command came from, if any. */
  function TargetChannel(input: ChatInput): (c: Option<Id>)
    ensures input.channelOption.Some? && input.channelOption.value.TextChannel? ==> c == Some(input.channelOption.value.id)
    ensures c.None? <==> !(input.channelOption.Some? && input.channelOption.value.TextChannel?) && input.channel.None?
  {
    match input.channelOption
    case Some(TextChannel(id)) => Some(id)
    case _ => if input.channel.Some? then Some(input.channel.value.id) else None
  }

  /** `messages.fetch({ limit: quantity })`: the newest `quantity` messages, or all of them when there are fewer. */
  function Fetched(history: seq<HistoryMessage>, quantity: int): (fetched: seq<HistoryMessage>)
    ensures fetched <= history
    ensures |fetched| <= |history| && (quantity >= 0 ==> |fetched| <= quantity)
    ensures quantity >= 0 ==> |fetched| == if quantity < |history| then quantity else |history|
  {
    if quantity <= 0 then [] else if quantity < |history| then history[..quantity] else history
  }

  function Ids(messages: seq<HistoryMessage>): (ids: seq<Id>)
    ensures |ids| == |messages| && forall i :: 0 <= i < |messages| ==> ids[i] == messages[i].id
  {
    if messages == [] then [] else Ids(messages[..|messages| - 1]) + [messages[|messages| - 1].id]
  }

  /** A message is shown as the placeholder when it has no text but has embeds. */
  predicate IsEmbedOnly(m: HistoryMessage)
  {
    m.cleanContent == "" && m.embeds > 0
  }

  /** The content of the copy of `m`. */
  function Shown(m: HistoryMessage): (s: string)
    ensures IsEmbedOnly(m) ==> s == EmbedPlaceholder
    ensures !IsEmbedOnly(m) ==> s == m.cleanContent
  {
    if IsEmbedOnly(m) then EmbedPlaceholder else m.cleanContent
  }

  /** The copy of one message: a reply to the log entry and, for an embed-only message, a reply carrying the embeds. */
  function Copy(m: HistoryMessage): (c: seq<Effect>)
    ensures |c| == if IsEmbedOnly(m) then 2 else 1
    ensures c[0] == LogReply(m.id, Shown(m))
  {
    [LogReply(m.id, Shown(m))] + (if IsEmbedOnly(m) then [EmbedsReply(m.id, m.embeds)] else [])
  }

  /** The copies of the messages, in the order the collection lists them. */
  function Copies(messages: seq<HistoryMessage>): seq<Effect>
  {
    if messages == [] then [] else Copies(messages[..|messages| - 1]) + Copy(messages[|messages| - 1])
  }

  /** The copy loop over the fetched messages; each copy's replies fail exactly when `replyOk` is false. */
  method CopyMessages(messages: seq<HistoryMessage>, replyOk: bool) returns (effects: seq<Effect>)
    ensures effects == if replyOk then Copies(messages) else []
  {
    effects := [];
    if !replyOk {
      return;
    }
    var i := 0;
    while i < |messages|
      invariant 0 <= i <= |messages|
      invariant effects == Copies(messages[..i])
    {
      assert messages[..i + 1][..i] == messages[..i];
      effects := effects + Copy(messages[i]);
      i := i + 1;
    }
    assert messages[..i] == messages;
  }

  /** The notice posted in the cleaned channel: only when a reason was given. */
  function Announcement(c: Id, reason: string, count: nat): (e: seq<Effect>)
    ensures |e| <= 1 && (e != [] <==> reason != NoReasonGiven)
  {
    if reason != NoReasonGiven then [ChannelNotice(c, CleanedNotice(reason, count))] else []
  }

  /** How far the try block got: the effects it made, and whether it ran to its end. */
  datatype Attempted = Attempted(effects: seq<Effect>, completed: bool)

  /** The try block, after the deferral, for the target channel `c`. */
  function Try(input: ChatInput, c: Id, history: seq<HistoryMessage>, channel: Option<Id>, net: Net): (a: Attempted)
    requires input.number.Some?
    ensures [DeferReply] <= a.effects
  {
    var quantity, reason := input.number.value, Reason(input);
    var fetched := Fetched(history, quantity);
    if !net.fetchOk || !net.deleteOk then Attempted([DeferReply], false)
    else
      var deleted := [DeferReply, BulkDelete(c, Ids(fetched))];
      if !net.replyOk then Attempted(deleted, false)
      else
        var confirmed := deleted + [EditReply(Cleaned(reason, c, |fetched|))];
        if reason != NoReasonGiven && !net.sendOk then Attempted(confirmed, false)
        else
          var announced := confirmed + Announcement(c, reason, |fetched|);
          Logging(announced, Post(channel, None, CleanedLog(|fetched|, reason, c, input.author), net.sendOk), fetched, net.logReplyOk)
  }

  /** The end of the try block: the log entry, then the copies, which are not awaited. */
  function Logging(announced: seq<Effect>, posting: Posting, fetched: seq<HistoryMessage>, logReplyOk: bool): (a: Attempted)
    ensures announced <= a.effects && (a.completed <==> posting.Posted?)
  {
    match posting
    case NotPosted(_) => Attempted(announced, false)
    case Posted(entry) => Attempted(announced + [entry] + (if logReplyOk then Copies(fetched) else []), true)
  }

  /** The command's run, given the channel's history, newest first. `quantité` is a required option. */
  function Response(input: ChatInput, history: seq<HistoryMessage>, channel: Option<Id>, net: Net): Run
    requires input.number.Some?
  {
    if !net.deferOk then Run([], Threw(CallFailed(DeferCall)))
    else match TargetChannel(input)
      case None => Run([DeferReply], Done)
      case Some(c) =>
        var a := Try(input, c, history, channel, net);
        if a.completed then Run(a.effects, Done)
        else Recover(a.effects, CleanFailed(input.number.value),
                     CleanFailedLog(input.number.value, Reason(input), input.author), channel, net)
  }

  /** The try block, statement by statement. */
  method TryClean(logger: Logger, input: ChatInput, c: Id, history: seq<HistoryMessage>, net: Net)
    returns (a: Attempted)
    requires input.number.Some?
    ensures a == Try(input, c, history, logger.channel, net)
  {
    var quantity, reason := input.number.value, Reason(input);
    var effects := [DeferReply];
    if !net.fetchOk {
      return Attempted(effects, false);
    }
    var messages := Fetched(history, quantity);
    if !net.deleteOk {
      return Attempted(effects, false);
    }
    effects := effects + [BulkDelete(c, Ids(messages))];
    if !net.replyOk {
      return Attempted(effects, false);
    }
    effects := effects + [EditReply(Cleaned(reason, c, |messages|))];
    if reason != NoReasonGiven {
      if !net.sendOk {
        return Attempted(effects, false);
      }
      effects := effects + [ChannelNotice(c, CleanedNotice(reason, |messages|))];
    }
    ghost var announced := effects;
    var posting := logger.Log(None, CleanedLog(|messages|, reason, c, input.author), net.sendOk);
    assert Try(input, c, history, logger.channel, net) == Logging(announced, posting, messages, net.logReplyOk);
    if posting.NotPosted? {
      return Attempted(effects, false);
    }
    effects := effects + [posting.entry];
    // the per-message copies are not awaited: their failures never reach the catch block
    var copies := CopyMessages(messages, net.logReplyOk);
    a := Attempted(effects + copies, true);
  }

  method Execute(logger: Logger, input: ChatInput, history: seq<HistoryMessage>, net: Net) returns (r: Run)
    requires input.number.Some?
    ensures r == Response(input, history, logger.channel, net)
  {
    if !net.deferOk {
      return Run([], Threw(CallFailed(DeferCall)));
    }
    var target := TargetChannel(input);
    if target.None? {
      return Run([DeferReply], Done);
    }
    var a := TryClean(logger, input, target.value, history, net);
    if a.completed {
      return Run(a.effects, Done);
    }
    // catch
    var quantity := input.number.value;
    var effects := a.effects;
    if !net.replyOk {
      return Run(effects, Threw(CallFailed(ReplyCall)));
    }
    effects := effects + [EditReply(CleanFailed(quantity))];
    var posting := logger.Log(None, CleanFailedLog(quantity, Reason(input), input.author), net.sendOk);
    if posting.NotPosted? {
      return Run(effects, Threw(posting.cause));
    }
    r := Run(effects + [posting.entry], Done);
  }

  /** The ids of the messages the log-replies are about, in order. */
  function ReplyTargets(effects: seq<Effect>): seq<Id>
  {
    if effects == [] then []
    else ReplyTargets(effects[..|effects| - 1])
         + (if effects[|effects| - 1].LogReply? then [effects[|effects| - 1].about] else [])
  }

  lemma {:induction false} ReplyTargetsAppend(a: seq<Effect>, b: seq<Effect>)
    ensures ReplyTargets(a + b) == ReplyTargets(a) + ReplyTargets(b)
    decreases |b|
  {
    if b != [] {
      assert (a + b)[..|a + b| - 1] == a + b[..|b| - 1];
      assert (a + b)[|a + b| - 1] == b[|b| - 1];
      ReplyTargetsAppend(a, b[..|b| - 1]);
    } else {
      assert a + b == a;
    }
  }

  /** Exactly one log-reply per copied message, in the collection's order. */
  lemma {:induction false} OneReplyPerMessage(messages: seq<HistoryMessage>)
    ensures ReplyTargets(Copies(messages)) == Ids(messages)
  {
    if messages != [] {
      var init, last := messages[..|messages| - 1], messages[|messages| - 1];
      OneReplyPerMessage(init);
      ReplyTargetsAppend(Copies(init), Copy(last));
      assert ReplyTargets(Copy(last)) == [last.id] by {
        var first := [LogReply(last.id, Shown(last))];
        assert first[..0] == [];
        assert ReplyTargets(first) == [last.id];
        if IsEmbedOnly(last) {
          assert Copy(last)[..1] == first;
        } else {
          assert Copy(last) == first;
        }
      }
      assert Ids(messages) == Ids(init) + [last.id];
    }
  }

  /** Number of embed-only messages. */
  function EmbedOnlyCount(messages: seq<HistoryMessage>): nat
  {
    if messages == [] then 0
    else EmbedOnlyCount(messages[..|messages| - 1]) + (if IsEmbedOnly(messages[|messages| - 1]) then 1 else 0)
  }

  /** One extra reply, carrying the embeds, for each embed-only message and for no other. */
  lemma {:induction false} EmbedRepliesForEmbedOnly(messages: seq<HistoryMessage>)
    ensures |Copies(messages)| == |messages| + EmbedOnlyCount(messages)
  {
    if messages != [] {
      EmbedRepliesForEmbedOnly(messages[..|messages| - 1]);
    }
  }

  /** The ids bulk-deleted by a run, if any. */
  function DeletedIds(effects: seq<Effect>): seq<Id>
  {
    if |effects| >= 2 && effects[1].BulkDelete? then effects[1].messages else []
  }

  /** The effects of a clean that goes through, before the copies. */
  function SuccessHead(input: ChatInput, c: Id, fetched: seq<HistoryMessage>, logs: Id): (head: seq<Effect>)
    ensures forall e :: e in head ==> !e.LogReply?
  {
    [DeferReply, BulkDelete(c, Ids(fetched)), EditReply(Cleaned(Reason(input), c, |fetched|))]
    + Announcement(c, Reason(input), |fetched|)
    + [Logged(logs, None, CleanedLog(|fetched|, Reason(input), c, input.author))]
  }

  lemma SuccessShape(input: ChatInput, history: seq<HistoryMessage>, logs: Id, net: Net)
    requires input.number.Some? && TargetChannel(input).Some?
    requires net.deferOk && net.fetchOk && net.deleteOk && net.replyOk && net.sendOk
    ensures var fetched := Fetched(history, input.number.value);
            Response(input, history, Some(logs), net)
              == Run(SuccessHead(input, TargetChannel(input).value, fetched, logs)
                     + (if net.logReplyOk then Copies(fetched) else []), Done)
  {
  }

  /**
   * A clean that goes through deletes the newest `quantité` messages (all of
   * them when there are fewer), reports that number, and copies every deleted
   * message exactly once under the log entry, in the same order.
   */
  lemma DeletedAreCopied(input: ChatInput, history: seq<HistoryMessage>, logs: Id, net: Net)
    requires input.number.Some? && input.number.value >= 0 && TargetChannel(input).Some?
    requires net.deferOk && net.fetchOk && net.deleteOk && net.replyOk && net.sendOk && net.logReplyOk
    ensures var r, q := Response(input, history, Some(logs), net), input.number.value;
            var count := if q < |history| then q else |history|;
            r.outcome == Done
            && DeletedIds(r.effects) == Ids(history[..count])
            && r.effects[2] == EditReply(Cleaned(Reason(input), TargetChannel(input).value, count))
            && ReplyTargets(r.effects) == DeletedIds(r.effects)
  {
    var c, q := TargetChannel(input).value, input.number.value;
    var fetched := Fetched(history, q);
    assert fetched == history[..|fetched|];
    var head := SuccessHead(input, c, fetched, logs);
    SuccessShape(input, history, logs, net);
    assert (head + Copies(fetched))[1] == BulkDelete(c, Ids(fetched));
    OneReplyPerMessage(fetched);
    NoRepliesIn(head);
    ReplyTargetsAppend(head, Copies(fetched));
  }

  lemma {:induction false} NoRepliesIn(effects: seq<Effect>)
    requires forall e :: e in effects ==> !e.LogReply?
    ensures ReplyTargets(effects) == []
  {
    if effects != [] {
      NoRepliesIn(effects[..|effects| - 1]);
    }
  }

  /** The channel notice is posted exactly when a reason other than the default was given; the default typed in by hand counts as none. */
  lemma NoticeOnlyWithReason(input: ChatInput, history: seq<HistoryMessage>, logs: Id, net: Net)
    requires input.number.Some? && TargetChannel(input).Some?
    requires net.deferOk && net.fetchOk && net.deleteOk && net.replyOk && net.sendOk
    ensures var r := Response(input, history, Some(logs), net);
            r.outcome == Done && (r.effects[3].ChannelNotice? <==> Reason(input) != NoReasonGiven)
  {
    SuccessShape(input, history, logs, net);
    var fetched := Fetched(history, input.number.value);
    var head := SuccessHead(input, TargetChannel(input).value, fetched, logs);
    assert Response(input, history, Some(logs), net).effects[3] == head[3];
  }

  /** The explicit "no reason" text announces nothing either: no notice anywhere in the run. */
  lemma NoNoticeWithoutReason(input: ChatInput, history: seq<HistoryMessage>, logs: Id, net: Net)
    requires input.number.Some? && TargetChannel(input).Some?
    requires net.deferOk && net.fetchOk && net.deleteOk && net.replyOk && net.sendOk
    requires input.reason == Some(NoReasonGiven)
    ensures forall e :: e in Response(input, history, Some(logs), net).effects ==> !e.ChannelNotice?
  {
    SuccessShape(input, history, logs, net);
    var fetched := Fetched(history, input.number.value);
    var head := SuccessHead(input, TargetChannel(input).value, fetched, logs);
    var tail: seq<Effect> := if net.logReplyOk then Copies(fetched) else [];
    NoNoticeInCopies(fetched);
    forall e | e in head + tail
      ensures !e.ChannelNotice?
    {
      if e !in head {
        assert e in tail;
      }
    }
  }

  lemma {:induction false} NoNoticeInCopies(messages: seq<HistoryMessage>)
    ensures forall e :: e in Copies(messages) ==> e.LogReply? || e.EmbedsReply?
  {
    if messages != [] {
      NoNoticeInCopies(messages[..|messages| - 1]);
    }
  }

  /**
   * The copies run in callbacks nobody awaits, so a refused copy never reaches
   * the catch block: the outcome and everything before the copies are the same
   * as when every copy goes through. The refused callback's own rejection
   * escapes unhandled; the run does not record it.
   */
  lemma CopyFailuresMissTheCatch(input: ChatInput, history: seq<HistoryMessage>, channel: Option<Id>, net: Net)
    requires input.number.Some?
    ensures var ok, refused := Response(input, history, channel, net.(logReplyOk := true)),
                               Response(input, history, channel, net.(logReplyOk := false));
            ok.outcome == refused.outcome && refused.effects <= ok.effects
  {
  }

  /** A refused fetch or bulk deletion: nothing is deleted; one error reply and one error log. */
  lemma FailureTrace(input: ChatInput, history: seq<HistoryMessage>, logs: Id, net: Net)
    requires input.number.Some? && TargetChannel(input).Some?
    requires net.deferOk && (!net.fetchOk || !net.deleteOk) && net.replyOk && net.sendOk
    ensures var q := input.number.value;
            Response(input, history, Some(logs), net) ==
              Run([DeferReply, EditReply(CleanFailed(q)), Logged(logs, None, CleanFailedLog(q, Reason(input), input.author))], Done)
  {
  }

  /** Without a channel to clean, nothing follows the deferral. */
  lemma NoChannelTrace(input: ChatInput, history: seq<HistoryMessage>, channel: Option<Id>, net: Net)
    requires input.number.Some? && net.deferOk
    requires input.channelOption.None? && input.channel.None?
    ensures Response(input, history, channel, net) == Run([DeferReply], Done)
  {
  }
}
