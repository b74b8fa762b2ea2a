/**
 * The three reaction responses ("Report", "Big brain", "Dry"). They share one
 * shape: when the reaction's emoji is the configured one, fetch the message
 * if it is partial, remove the reaction, then reply / log / log-reply about
 * the message. They differ in their emoji, whether they need privilege,
 * what they say, and whether the log entry pings the moderator.
 */
module ReactionResponses {

  import opened Options
  import opened Platform
  import opened ChannelLogger
  import opened FilterReport

  datatype ResponseKind = ReportResponse | BigBrainResponse | DryResponse

  /** The emoji name each response is constructed with. */
  function Emoji(kind: ResponseKind, config: Config): string
  {
    match kind
    case ReportResponse => config.reportEmoji
    case BigBrainResponse => config.bigBrainEmoji
    case DryResponse => config.dryEmoji
  }

  /** `needsPriviledge`, as each constructor sets it. */
  function NeedsPrivilege(kind: ResponseKind): (b: bool)
    ensures b <==> kind != ReportResponse
  {
    kind != ReportResponse
  }

  /** The reply to the reacted message. */
  function Warning(kind: ResponseKind, reactor: Id): Notice
  {
    match kind
    case ReportResponse => ReportWarning(reactor)
    case BigBrainResponse => BigBrainWarning
    case DryResponse => DryWarning
  }

  /** The log entry; it names the member who reacted. */
  function LogEntry(kind: ResponseKind, reactor: Id): Notice
  {
    match kind
    case ReportResponse => ReportLog(reactor)
    case BigBrainResponse => BigBrainLog(reactor)
    case DryResponse => DryLog(reactor)
  }

  /** Only a report pings the moderator from the log entry. */
  function Ping(kind: ResponseKind, config: Config): (p: Option<Id>)
    ensures p.Some? <==> kind == ReportResponse
  {
    if kind == ReportResponse then Some(config.moderator) else None
  }

  /**
   * The run of one response for a reaction added by `reactor`. A partial
   * message is fetched (`view.message` stands for what the fetch returns).
   */
  function Response(kind: ResponseKind, config: Config, reaction: Reaction, reactor: Id,
                    channel: Option<Id>, net: Net): Run
  {
    if reaction.emoji != Emoji(kind, config) then Run([], Done)
    else if reaction.view.partial && !net.fetchOk then Run([], Threw(CallFailed(FetchCall)))
    else
      var message := reaction.view.message;
      if !net.removeOk then Run([], Threw(CallFailed(RemoveCall)))
      else
        var tail := Report(message.id, message.content, Warning(kind, reactor), LogEntry(kind, reactor),
                           Ping(kind, config), channel, net);
        Run([RemoveReaction(message.id, reaction.emoji)] + tail.effects, tail.outcome)
  }

  method Apply(kind: ResponseKind, config: Config, logger: Logger, reaction: Reaction, reactor: Id, net: Net)
    returns (r: Run)
    ensures r == Response(kind, config, reaction, reactor, logger.channel, net)
  {
    if reaction.emoji != Emoji(kind, config) {
      return Run([], Done);
    }
    var message: Message;
    if reaction.view.partial {
      if !net.fetchOk {
        return Run([], Threw(CallFailed(FetchCall)));
      }
      message := reaction.view.message;
    } else {
      message := reaction.view.message;
    }
    if !net.removeOk {
      return Run([], Threw(CallFailed(RemoveCall)));
    }
    var tail := Deliver(logger, message.id, message.content, Warning(kind, reactor), LogEntry(kind, reactor),
                        Ping(kind, config), net);
    r := Run([RemoveReaction(message.id, reaction.emoji)] + tail.effects, tail.outcome);
  }

  /** Another emoji leaves everything untouched; with the configured one, the first effect is always the removal of the reaction. */
  lemma RemovalComesFirst(kind: ResponseKind, config: Config, reaction: Reaction, reactor: Id,
                          channel: Option<Id>, net: Net)
    ensures reaction.emoji != Emoji(kind, config) ==> Response(kind, config, reaction, reactor, channel, net) == Run([], Done)
    ensures var r := Response(kind, config, reaction, reactor, channel, net);
            r.effects != [] ==> r.effects[0] == RemoveReaction(reaction.view.message.id, Emoji(kind, config))
    ensures var r := Response(kind, config, reaction, reactor, channel, net);
            r.effects != [] <==> reaction.emoji == Emoji(kind, config)
                                 && (!reaction.view.partial || net.fetchOk) && net.removeOk
  {
  }

  /** When every call succeeds: remove, warn, log (pinging the moderator for a report only), then quote the message. */
  lemma FullTrace(kind: ResponseKind, config: Config, reaction: Reaction, reactor: Id, channel: Id, net: Net)
    requires reaction.emoji == Emoji(kind, config)
    requires net.fetchOk && net.removeOk && net.replyOk && net.sendOk && net.logReplyOk
    ensures var m := reaction.view.message;
            Response(kind, config, reaction, reactor, Some(channel), net) ==
              Run([RemoveReaction(m.id, reaction.emoji), Reply(m.id, Warning(kind, reactor)),
                   Logged(channel, if kind == ReportResponse then Some(config.moderator) else None, LogEntry(kind, reactor)),
                   LogReply(m.id, m.content)], Done)
  {
  }

  /** A partial message is fetched before anything else: when the fetch fails nothing at all is done. */
  lemma FetchGuards(kind: ResponseKind, config: Config, reaction: Reaction, reactor: Id, channel: Option<Id>, net: Net)
    requires reaction.emoji == Emoji(kind, config) && reaction.view.partial && !net.fetchOk
    ensures Response(kind, config, reaction, reactor, channel, net) == Run([], Threw(CallFailed(FetchCall)))
  {
  }

  /** Whether the message was partial does not change what is done, once the fetch succeeds. */
  lemma PartialIsTransparent(kind: ResponseKind, config: Config, reaction: Reaction, reactor: Id, channel: Option<Id>, net: Net)
    requires net.fetchOk
    ensures Response(kind, config, reaction, reactor, channel, net) ==
            Response(kind, config, reaction.(view := reaction.view.(partial := !reaction.view.partial)), reactor, channel, net)
  {
  }
}
