/**
 * The `sourdine` slash command: `ajouter` times a member out, `retirer` ends
 * the timeout by replacing it with one of a single millisecond.
 */
module MuteCommand {

  import opened Options
  import opened Platform
  import opened GenericTypes
  import opened ChannelLogger
  import opened ModerationFlow

  const Name: string := "sourdine"

  /** The default reason, spelt out in the command rather than taken from the shared enumeration. */
  const DefaultMuteReason: string := "Aucune raison donnée."

  /** `duration`, in seconds: the option when non-zero, else ten minutes. */
  function Duration(input: ChatInput): int
  {
    NumberOr(input.number, Seconds(TenMinutes))
  }

  function Reason(input: ChatInput): string
  {
    StringOr(input.reason, DefaultMuteReason)
  }

  /** `_muteAdd`: a timeout of `duration * 1000` milliseconds with the reason. */
  function AddPlan(input: ChatInput): Option<Plan>
  {
    match input.member
    case None => None
    case Some(target) =>
      var reason, duration := Reason(input), Duration(input);
      Some(Plan(Timeout(target.id, duration * 1000, Some(reason)), TimeoutCall,
                MuteAdded(target.id, reason, duration), MuteAddedLog(target.id, reason, duration, input.author),
                DirectMessage(target.id, MutedDm(reason)),
                MuteAddFailed(target.id), MuteAddFailedLog(target.id, input.author)))
  }

  /** `_muteRemove`: a timeout of 1 ms, without a reason, stands in for lifting it. */
  function RemovePlan(input: ChatInput): Option<Plan>
  {
    match input.member
    case None => None
    case Some(target) =>
      Some(Plan(Timeout(target.id, 1, None), TimeoutCall,
                MuteRemoved(target.id), MuteRemovedLog(target.id, input.author),
                DirectMessage(target.id, UnmutedDm),
                MuteRemoveFailed(target.id), MuteRemoveFailedLog(target.id, input.author)))
  }

  function Response(input: ChatInput, channel: Option<Id>, net: Net): Run
  {
    if input.subcommand == "ajouter" then Moderate(AddPlan(input), channel, net)
    else if input.subcommand == "retirer" then Moderate(RemovePlan(input), channel, net)
    else Run([], Threw(UnknownSubcommand(input.subcommand)))
  }

  method Execute(logger: Logger, input: ChatInput, net: Net) returns (r: Run)
    ensures r == Response(input, logger.channel, net)
  {
    match input.subcommand {
      case "ajouter" =>
        r := ModerationFlow.Execute(logger, AddPlan(input), net);
      case "retirer" =>
        r := ModerationFlow.Execute(logger, RemovePlan(input), net);
      case _ =>
        r := Run([], Threw(UnknownSubcommand(input.subcommand)));
    }
  }

  /** The spelt-out default is the shared default reason. */
  lemma DefaultIsSharedReason()
    ensures DefaultMuteReason == NoReasonGiven
  {
  }

  /** Routing as for the ban command. */
  lemma Routing(input: ChatInput, channel: Option<Id>, net: Net)
    ensures input.subcommand !in {"ajouter", "retirer"} ==>
              Response(input, channel, net) == Run([], Threw(UnknownSubcommand(input.subcommand)))
    ensures input.subcommand in {"ajouter", "retirer"} && net.deferOk ==>
              Response(input, channel, net).effects[0] == DeferReply
    ensures input.subcommand in {"ajouter", "retirer"} && net.deferOk && input.member.None? ==>
              Response(input, channel, net) == Run([DeferReply], Done)
  {
  }

  /** The timeout asked for is the chosen duration in milliseconds; absent or zero means 600 000 ms; every offered choice is kept. */
  lemma TimeoutLength(input: ChatInput, channel: Option<Id>, net: Net)
    requires input.subcommand == "ajouter" && input.member.Some? && net.deferOk && net.timeoutOk
    ensures var r := Response(input, channel, net);
            |r.effects| >= 2 && r.effects[1].Timeout? && r.effects[1].ms == 1000 * Duration(input)
    ensures input.number.None? || input.number == Some(0) ==> Response(input, channel, net).effects[1].ms == 600000
    ensures forall d: Duration :: d != Zero && input.number == Some(Seconds(d)) ==>
              Response(input, channel, net).effects[1].ms == 1000 * Seconds(d)
  {
  }

  /** Lifting a mute is a timeout of exactly one millisecond with no reason. */
  lemma UnmuteIsOneMillisecond(input: ChatInput, channel: Option<Id>, net: Net)
    requires input.subcommand == "retirer" && input.member.Some? && net.deferOk && net.timeoutOk
    ensures Response(input, channel, net).effects[1] == Timeout(input.member.value.id, 1, None)
  {
  }

  /** A mute that goes through: defer, time out, confirm, log, then tell the member why. */
  lemma AddTrace(input: ChatInput, channel: Id, net: Net)
    requires input.subcommand == "ajouter" && input.member.Some?
    requires net.deferOk && net.timeoutOk && net.replyOk && net.sendOk && net.dmOk
    ensures var t, why, d := input.member.value.id, Reason(input), Duration(input);
            Response(input, Some(channel), net) ==
              Run([DeferReply, Timeout(t, d * 1000, Some(why)), EditReply(MuteAdded(t, why, d)),
                   Logged(channel, None, MuteAddedLog(t, why, d, input.author)), DirectMessage(t, MutedDm(why))], Done)
  {
    SuccessTrace(AddPlan(input).value, channel, net);
  }

  /** A refused timeout when muting: the mute error reply, then the mute error log naming the author; no direct message. */
  lemma AddFailureTrace(input: ChatInput, channel: Id, net: Net)
    requires input.subcommand == "ajouter" && input.member.Some?
    requires net.deferOk && !net.timeoutOk && net.replyOk && net.sendOk
    ensures var t := input.member.value.id;
            Response(input, Some(channel), net) ==
              Run([DeferReply, EditReply(MuteAddFailed(t)), Logged(channel, None, MuteAddFailedLog(t, input.author))], Done)
  {
    ActionFailureTrace(AddPlan(input).value, channel, net);
  }

  /** A refused timeout when unmuting: the unmute error reply, then the unmute error log naming the author. */
  lemma RemoveFailureTrace(input: ChatInput, channel: Id, net: Net)
    requires input.subcommand == "retirer" && input.member.Some?
    requires net.deferOk && !net.timeoutOk && net.replyOk && net.sendOk
    ensures var t := input.member.value.id;
            Response(input, Some(channel), net) ==
              Run([DeferReply, EditReply(MuteRemoveFailed(t)), Logged(channel, None, MuteRemoveFailedLog(t, input.author))], Done)
  {
    ActionFailureTrace(RemovePlan(input).value, channel, net);
  }
}
