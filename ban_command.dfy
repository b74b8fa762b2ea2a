/**
 * The `bannir` slash command: `ajouter` bans a member, `retirer` lifts a ban.
 * Both follow the moderation flow; this module supplies the defaults and
 * what each subcommand does and says.
 */
module BanCommand {

  import opened Options
  import opened Platform
  import opened GenericTypes
  import opened ChannelLogger
  import opened ModerationFlow

  const Name: string := "bannir"

  /** `reason`: the option when it is a non-empty string, else the default reason. */
  function Reason(input: ChatInput): string
  {
    StringOr(input.reason, NoReasonGiven)
  }

  /** `deleteHistory` as written: `optionDeleteHistory ? optionDeleteHistory : OneHour`. */
  function DeleteHistory(input: ChatInput): int
  {
    NumberOr(input.number, Seconds(OneHour))
  }

  /** `deleteHistory` as evidently intended, `optionDeleteHistory ?? OneHour`: only an absent option is replaced. */
  function IntendedDeleteHistory(input: ChatInput): (s: int)
    ensures input.number.Some? ==> s == input.number.value
  {
    if input.number.Some? then input.number.value else Seconds(OneHour)
  }

  /** `_banAdd`: ban the member given as `membre`, if it resolved to a guild member. */
  function AddPlan(input: ChatInput): Option<Plan>
  {
    match input.member
    case None => None
    case Some(target) =>
      var reason, history := Reason(input), DeleteHistory(input);
      Some(Plan(Ban(target.id, history, reason), BanCall,
                BanAdded(target.id, reason, history), BanAddedLog(target.id, reason, history, input.author),
                DirectMessage(target.id, BannedDm(reason)),
                BanAddFailed(target.id), BanAddFailedLog(target.id, reason, input.author)))
  }

  /** The confirmation text of an unban as written: single quotes, so the placeholder is not filled in. */
  const LiteralUnbannedText: string := "Le membre <@${target.id}> a été débannis."

  /** The confirmation text as evidently intended, and as the log entry already has it. */
  function UnbannedText(id: Id): (t: string)
    ensures |t| == |id| + 29 && t[12..12 + |id|] == id
  {
    "Le membre <@" + id + "> a été débannis."
  }

  /** What `_banRemove` would do to a guild member `target`, with the texts as written. */
  function RemovePlanFor(input: ChatInput, target: Id): Plan
  {
    Plan(Unban(target), BanCall,
         Unbanned(LiteralUnbannedText), UnbannedLog(UnbannedText(target), input.author),
         DirectMessage(target, UnbannedDm),
         UnbanFailed(target), UnbanFailedLog(target, input.author))
  }

  /**
   * `_banRemove` as written: the target comes from `getUser`, which yields a
   * user and never a guild member, so the `instanceof GuildMember` guard
   * always fails and there is no plan.
   */
  function RemovePlan(input: ChatInput): Option<Plan>
  {
    None
  }

  /** `_banRemove` as evidently intended: lift the ban on the user given, with the reply text filled in. */
  function IntendedRemovePlan(input: ChatInput): (p: Plan)
    ensures p.action == Unban(input.user)
  {
    RemovePlanFor(input, input.user).(okReply := Unbanned(UnbannedText(input.user)))
  }

  /** `run`: route on the subcommand; an unknown one throws. */
  function Response(input: ChatInput, channel: Option<Id>, net: Net): Run
  {
    if input.subcommand == "ajouter" then Moderate(AddPlan(input), channel, net)
    else if input.subcommand == "retirer" then Moderate(RemovePlan(input), channel, net)
    else Run([], Threw(UnknownSubcommand(input.subcommand)))
  }

  method Execute(logger: Logger, input: ChatInput, net: Net) returns (r: Run)
    ensures r == Response(input, logger.channel, net)
  {
    match input.subcommand {
      case "ajouter" =>
        r := ModerationFlow.Execute(logger, AddPlan(input), net);
      case "retirer" =>
        r := ModerationFlow.Execute(logger, RemovePlan(input), net);
      case _ =>
        r := Run([], Threw(UnknownSubcommand(input.subcommand)));
    }
  }

  /** Routing: the two subcommands defer first; anything else throws before any effect. */
  lemma Routing(input: ChatInput, channel: Option<Id>, net: Net)
    ensures input.subcommand !in {"ajouter", "retirer"} ==>
              Response(input, channel, net) == Run([], Threw(UnknownSubcommand(input.subcommand)))
    ensures input.subcommand in {"ajouter", "retirer"} && net.deferOk ==>
              Response(input, channel, net).effects[0] == DeferReply
  {
  }

  /** The defaults: an absent or empty reason gives the default reason, an absent or zero period gives an hour. */
  lemma Defaults(input: ChatInput)
    ensures input.reason.None? || input.reason == Some("") ==> Reason(input) == NoReasonGiven
    ensures input.reason.Some? && input.reason.value != "" ==> Reason(input) == input.reason.value
    ensures input.number.None? || input.number == Some(0) ==> DeleteHistory(input) == 3600
    ensures input.number.Some? && input.number.value != 0 ==> DeleteHistory(input) == input.number.value
  {
  }

  /** A ban that goes through: defer, ban with the defaults applied, confirm, log with the author, then the member is told. */
  lemma AddTrace(input: ChatInput, channel: Id, net: Net)
    requires input.subcommand == "ajouter" && input.member.Some?
    requires net.deferOk && net.banOk && net.replyOk && net.sendOk && net.dmOk
    ensures var t, why, h := input.member.value.id, Reason(input), DeleteHistory(input);
            Response(input, Some(channel), net) ==
              Run([DeferReply, Ban(t, h, why), EditReply(BanAdded(t, why, h)),
                   Logged(channel, None, BanAddedLog(t, why, h, input.author)), DirectMessage(t, BannedDm(why))], Done)
  {
    SuccessTrace(AddPlan(input).value, channel, net);
  }

  /** A refused ban: one error reply and one error log, nothing else after the deferral. */
  lemma AddFailureTrace(input: ChatInput, channel: Id, net: Net)
    requires input.subcommand == "ajouter" && input.member.Some?
    requires net.deferOk && !net.banOk && net.replyOk && net.sendOk
    ensures var t := input.member.value.id;
            Response(input, Some(channel), net) ==
              Run([DeferReply, EditReply(BanAddFailed(t)), Logged(channel, None, BanAddFailedLog(t, Reason(input), input.author))], Done)
  {
    ActionFailureTrace(AddPlan(input).value, channel, net);
  }

  /** Choosing "delete nothing" (`Zero`) still deletes the last hour of messages. */
  lemma ZeroChoiceDeletesAnHour(input: ChatInput, channel: Id, net: Net)
    requires input.subcommand == "ajouter" && input.member.Some? && input.number == Some(Seconds(Zero))
    requires net.deferOk && net.banOk
    ensures Response(input, Some(channel), net).effects[1] ==
              Ban(input.member.value.id, 3600, Reason(input))
  {
  }

  /** With `??`, every offered choice is honoured, `Zero` included. */
  lemma IntendedHistoryHonoursChoice(input: ChatInput, d: Duration)
    requires input.number == Some(Seconds(d))
    ensures IntendedDeleteHistory(input) == Seconds(d)
    ensures d != Zero ==> DeleteHistory(input) == IntendedDeleteHistory(input)
    ensures d == Zero ==> DeleteHistory(input) != IntendedDeleteHistory(input)
  {
  }

  /** `retirer` as written never unbans anyone: whatever the input, nothing follows the deferral. */
  lemma RemoveNeverUnbans(input: ChatInput, channel: Option<Id>, net: Net)
    requires input.subcommand == "retirer"
    ensures Response(input, channel, net).effects <= [DeferReply]
    ensures forall e :: e in Response(input, channel, net).effects ==> !e.Unban?
  {
  }

  /** The intended `retirer` lifts the ban on the given user and confirms with a text naming that user. */
  lemma IntendedRemoveTrace(input: ChatInput, channel: Id, net: Net)
    requires net.deferOk && net.banOk && net.replyOk && net.sendOk && net.dmOk
    ensures var u := input.user;
            Moderate(Some(IntendedRemovePlan(input)), Some(channel), net) ==
              Run([DeferReply, Unban(u), EditReply(Unbanned(UnbannedText(u))),
                   Logged(channel, None, UnbannedLog(UnbannedText(u), input.author)), DirectMessage(u, UnbannedDm)], Done)
  {
    SuccessTrace(IntendedRemovePlan(input), channel, net);
  }

  /** As written, the confirmation is the same text for every target and names none; the log entry's text does name it. */
  lemma LiteralTextNamesNobody(input: ChatInput, a: Id, b: Id)
    ensures RemovePlanFor(input, a).okReply == RemovePlanFor(input, b).okReply
    ensures a != b ==> RemovePlanFor(input, a).okLog != RemovePlanFor(input, b).okLog
  {
    if a != b && UnbannedText(a) == UnbannedText(b) {
      TextNamesTarget(a, b);
    }
  }

  /** Distinct ids give distinct texts: the filled-in text identifies its target. */
  lemma TextNamesTarget(a: Id, b: Id)
    requires UnbannedText(a) == UnbannedText(b)
    ensures a == b
  {
    var ta, tb := UnbannedText(a), UnbannedText(b);
    assert ta[12..12 + |a|] == a && tb[12..12 + |b|] == b;
  }
}
