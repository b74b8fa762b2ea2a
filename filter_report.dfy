/**
 * The reaction every warning filter shares once it has decided to act:
 * reply to the message with a warning, post an entry in the logs channel,
 * then reply to that entry with the message's content. Each step is awaited,
 * so a step that throws ends the run there.
 */
module FilterReport {

  import opened Options
  import opened Platform
  import opened ChannelLogger

  /** The three effects of a report that went through. */
  function FullReport(about: Id, content: string, warn: Notice, log: Notice, ping: Option<Id>, channel: Id): seq<Effect>
  {
    [Reply(about, warn), Logged(channel, ping, log), LogReply(about, content)]
  }

  /**
   * The run of the reply / log / log-reply sequence about message `about`,
   * given the logs channel (`None` while unset) and the call verdicts.
   */
  function Report(about: Id, content: string, warn: Notice, log: Notice, ping: Option<Id>,
                  channel: Option<Id>, net: Net): (r: Run)
    ensures r.outcome.Done? <==> net.replyOk && channel.Some? && net.sendOk && net.logReplyOk
    ensures r.outcome.Done? ==> r.effects == FullReport(about, content, warn, log, ping, channel.value)
    ensures channel.Some? ==> r.effects <= FullReport(about, content, warn, log, ping, channel.value)
    ensures !net.replyOk ==> r == Run([], Threw(CallFailed(ReplyCall)))
    ensures net.replyOk && channel.None? ==> r == Run([Reply(about, warn)], Threw(LoggerNotReady))
  {
    if !net.replyOk then Run([], Threw(CallFailed(ReplyCall)))
    else match Post(channel, ping, log, net.sendOk)
      case NotPosted(cause) => Run([Reply(about, warn)], Threw(cause))
      case Posted(entry) =>
        if !net.logReplyOk then Run([Reply(about, warn), entry], Threw(CallFailed(LogReplyCall)))
        else Run([Reply(about, warn), entry, LogReply(about, content)], Done)
  }

  /** The awaited sequence itself: reply, log, log-reply. */
  method Deliver(logger: Logger, about: Id, content: string, warn: Notice, log: Notice, ping: Option<Id>, net: Net)
    returns (r: Run)
    ensures r == Report(about, content, warn, log, ping, logger.channel, net)
  {
    if !net.replyOk {
      return Run([], Threw(CallFailed(ReplyCall)));
    }
    var effects := [Reply(about, warn)];
    var posting := logger.Log(ping, log, net.sendOk);
    if posting.NotPosted? {
      return Run(effects, Threw(posting.cause));
    }
    effects := effects + [posting.entry];
    if !net.logReplyOk {
      return Run(effects, Threw(CallFailed(LogReplyCall)));
    }
    effects := effects + [LogReply(about, content)];
    r := Run(effects, Done);
  }
}
