/**
 * The shape shared by the four moderation subcommands (ban, unban, mute,
 * unmute): defer the reply; if there is a target, try { act, confirm in the
 * reply, log, then a direct message whose failure is ignored } catch { an
 * error reply, then an error log }. A failure inside the catch block escapes.
 */
module ModerationFlow {

  import opened Options
  import opened Platform
  import opened ChannelLogger

  /** What one subcommand does to its target, and what it says about it. */
  datatype Plan = Plan(
    action: Effect,        // the moderation call itself
    call: Call,            // the kind of that call, for its verdict
    okReply: Notice,       // the confirmation written into the deferred reply
    okLog: Notice,         // the log entry on success
    dm: Effect,            // the direct message to the target
    errReply: Notice,      // the reply written by the catch block
    errLog: Notice)        // the log entry written by the catch block

  /** The catch block, entered after the effects `done`. */
  function Recover(done: seq<Effect>, errReply: Notice, errLog: Notice, channel: Option<Id>, net: Net): (r: Run)
    ensures done <= r.effects && |r.effects| <= |done| + 2
    ensures r.outcome.Done? <==> net.replyOk && channel.Some? && net.sendOk
    ensures r.outcome.Done? ==> r.effects == done + [EditReply(errReply), Logged(channel.value, None, errLog)]
  {
    if !net.replyOk then Run(done, Threw(CallFailed(ReplyCall)))
    else match Post(channel, None, errLog, net.sendOk)
      case NotPosted(cause) => Run(done + [EditReply(errReply)], Threw(cause))
      case Posted(entry) => Run(done + [EditReply(errReply), entry], Done)
  }

  /** The try block, entered after the effects `done`. */
  function Attempt(done: seq<Effect>, p: Plan, channel: Option<Id>, net: Net): Run
  {
    if !Verdict(net, p.call) then Recover(done, p.errReply, p.errLog, channel, net)
    else if !net.replyOk then Recover(done + [p.action], p.errReply, p.errLog, channel, net)
    else match Post(channel, None, p.okLog, net.sendOk)
      case NotPosted(_) => Recover(done + [p.action, EditReply(p.okReply)], p.errReply, p.errLog, channel, net)
      case Posted(entry) =>
        var confirmed := done + [p.action, EditReply(p.okReply), entry];
        if net.dmOk then Run(confirmed + [p.dm], Done) else Run(confirmed, Done)
  }

  /** The whole subcommand; `plan` is `None` when there is no guild member to act on. */
  function Moderate(plan: Option<Plan>, channel: Option<Id>, net: Net): Run
  {
    if !net.deferOk then Run([], Threw(CallFailed(DeferCall)))
    else match plan
      case None => Run([DeferReply], Done)
      case Some(p) => Attempt([DeferReply], p, channel, net)
  }

  /** The subcommand as the source runs it, statement by statement. */
  method Execute(logger: Logger, plan: Option<Plan>, net: Net) returns (r: Run)
    ensures r == Moderate(plan, logger.channel, net)
  {
    if !net.deferOk {
      return Run([], Threw(CallFailed(DeferCall)));
    }
    var effects := [DeferReply];
    if plan.None? {
      return Run(effects, Done);
    }
    var p := plan.value;
    // try
    var failed := false;
    if !Verdict(net, p.call) {
      failed := true;
    } else {
      effects := effects + [p.action];
      if !net.replyOk {
        failed := true;
      } else {
        effects := effects + [EditReply(p.okReply)];
        var posting := logger.Log(None, p.okLog, net.sendOk);
        if posting.NotPosted? {
          failed := true;
        } else {
          effects := effects + [posting.entry];
          if net.dmOk {
            effects := effects + [p.dm];
          }
        }
      }
    }
    if !failed {
      return Run(effects, Done);
    }
    // catch
    if !net.replyOk {
      return Run(effects, Threw(CallFailed(ReplyCall)));
    }
    effects := effects + [EditReply(p.errReply)];
    var posting := logger.Log(None, p.errLog, net.sendOk);
    if posting.NotPosted? {
      return Run(effects, Threw(posting.cause));
    }
    r := Run(effects + [posting.entry], Done);
  }

  /** With every call succeeding: defer, act, confirm, log, then the direct message. */
  lemma SuccessTrace(p: Plan, channel: Id, net: Net)
    requires net.deferOk && Verdict(net, p.call) && net.replyOk && net.sendOk && net.dmOk
    ensures Moderate(Some(p), Some(channel), net) ==
            Run([DeferReply, p.action, EditReply(p.okReply), Logged(channel, None, p.okLog), p.dm], Done)
  {
  }

  /** The try block ran to its end: every awaited call in it succeeded. */
  predicate Succeeds(plan: Option<Plan>, channel: Option<Id>, net: Net)
  {
    net.deferOk && plan.Some? && Verdict(net, plan.value.call) && net.replyOk && channel.Some? && net.sendOk
  }

  /** A refused direct message is swallowed: the outcome is the same, and only the message itself is missing. */
  lemma DirectMessageNeverDecides(plan: Option<Plan>, channel: Option<Id>, net: Net)
    ensures Moderate(plan, channel, net.(dmOk := true)).outcome == Moderate(plan, channel, net.(dmOk := false)).outcome
    ensures Moderate(plan, channel, net.(dmOk := true)).effects ==
            Moderate(plan, channel, net.(dmOk := false)).effects + (if Succeeds(plan, channel, net) then [plan.value.dm] else [])
  {
    if Succeeds(plan, channel, net) {
      SucceedingDirectMessage(plan.value, channel.value, net);
    } else {
      FailingDirectMessage(plan, channel, net);
    }
  }

  lemma SucceedingDirectMessage(p: Plan, c: Id, net: Net)
    requires Succeeds(Some(p), Some(c), net)
    ensures var confirmed := [DeferReply, p.action, EditReply(p.okReply), Logged(c, None, p.okLog)];
            Moderate(Some(p), Some(c), net.(dmOk := true)) == Run(confirmed + [p.dm], Done)
            && Moderate(Some(p), Some(c), net.(dmOk := false)) == Run(confirmed, Done)
  {
  }

  lemma FailingDirectMessage(plan: Option<Plan>, channel: Option<Id>, net: Net)
    requires !Succeeds(plan, channel, net)
    ensures Moderate(plan, channel, net.(dmOk := true)) == Moderate(plan, channel, net.(dmOk := false))
  {
    if net.deferOk && plan.Some? {
      FailedAttemptIgnoresDirectMessage([DeferReply], plan.value, channel, net);
    }
  }

  lemma FailedAttemptIgnoresDirectMessage(done: seq<Effect>, p: Plan, channel: Option<Id>, net: Net)
    requires !(Verdict(net, p.call) && net.replyOk && channel.Some? && net.sendOk)
    ensures Attempt(done, p, channel, net.(dmOk := true)) == Attempt(done, p, channel, net.(dmOk := false))
  {
    VerdictIgnoresDirectMessage(net, p.call);
    if !Verdict(net, p.call) {
      RecoverIgnoresDirectMessage(done, p, channel, net);
    } else if !net.replyOk {
      RecoverIgnoresDirectMessage(done + [p.action], p, channel, net);
    } else {
      assert Post(channel, None, p.okLog, net.sendOk).NotPosted?;
      RecoverIgnoresDirectMessage(done + [p.action, EditReply(p.okReply)], p, channel, net);
    }
  }

  lemma VerdictIgnoresDirectMessage(net: Net, call: Call)
    ensures Verdict(net.(dmOk := true), call) == Verdict(net, call)
    ensures Verdict(net.(dmOk := false), call) == Verdict(net, call)
  {
  }

  lemma RecoverIgnoresDirectMessage(done: seq<Effect>, p: Plan, channel: Option<Id>, net: Net)
    ensures Recover(done, p.errReply, p.errLog, channel, net.(dmOk := true))
            == Recover(done, p.errReply, p.errLog, channel, net.(dmOk := false))
  {
  }

  /** A failed action: one error reply and one error log, and neither the confirmation, the success log nor the message. */
  lemma ActionFailureTrace(p: Plan, channel: Id, net: Net)
    requires net.deferOk && !Verdict(net, p.call) && net.replyOk && net.sendOk
    ensures Moderate(Some(p), Some(channel), net) ==
            Run([DeferReply, EditReply(p.errReply), Logged(channel, None, p.errLog)], Done)
  {
  }

  /** Without a target nothing follows the deferral. */
  lemma NoTargetTrace(channel: Option<Id>, net: Net)
    requires net.deferOk
    ensures Moderate(None, channel, net) == Run([DeferReply], Done)
  {
  }

  /** The deferral always comes first, and the next effect is the action or, when the action failed, the error reply. */
  lemma ActionPrecedesReports(p: Plan, channel: Option<Id>, net: Net)
    ensures var r := Moderate(Some(p), channel, net);
            r.effects != [] ==> r.effects[0] == DeferReply
    ensures var r := Moderate(Some(p), channel, net);
            |r.effects| >= 2 ==> r.effects[1] in {p.action, EditReply(p.errReply)}
  {
  }
}
