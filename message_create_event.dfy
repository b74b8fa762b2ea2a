/**
 * The `messageCreate` receiver: a message from a user (not a bot) goes
 * through every registered filter whose scope is the message, in registry
 * order. The filters are started without being awaited, so one filter's
 * failure stops none of the others; they are modelled one after another.
 */
module MessageCreateEvent {

  import opened Options
  import opened Platform
  import opened ChannelLogger
  import opened OrderedMaps
  import opened Units
  import opened Registry
  import CapsLockFilter
  import LongCodeFilter
  import KnownErrorFilter
  import SingleMentionFilter
  import ChocopainFilter
  import LmgtfyFilter
  import DiscordInviteFilter

  /** One filter started on the message, and what it did. */
  datatype FilterRun = FilterRun(kind: FilterKind, run: Run)

  /** `filter.run(client, message)`. */
  function FilterResponse(kind: FilterKind, msg: Message, moderator: Id, channel: Option<Id>, net: Net): Run
  {
    match kind
    case CapsLock => CapsLockFilter.Response(msg, channel, net)
    case LongCode => LongCodeFilter.Response(msg, channel, net)
    case KnownError => KnownErrorFilter.Response(msg, channel, net)
    case SingleMention => SingleMentionFilter.Response(msg, channel, net)
    case Chocopain => ChocopainFilter.Response(msg, channel, net)
    case Lmgtfy => LmgtfyFilter.Response(msg, channel, net)
    case DiscordInvite => DiscordInviteFilter.Response(msg, moderator, channel, net)
  }

  method ApplyFilter(kind: FilterKind, logger: Logger, moderator: Id, msg: Message, net: Net) returns (r: Run)
    ensures r == FilterResponse(kind, msg, moderator, logger.channel, net)
  {
    match kind {
      case CapsLock => r := CapsLockFilter.Apply(logger, msg, net);
      case LongCode => r := LongCodeFilter.Apply(logger, msg, net);
      case KnownError => r := KnownErrorFilter.Apply(logger, msg, net);
      case SingleMention => r := SingleMentionFilter.Apply(logger, msg, net);
      case Chocopain => r := ChocopainFilter.Apply(logger, msg, net);
      case Lmgtfy => r := LmgtfyFilter.Apply(logger, msg, net);
      case DiscordInvite => r := DiscordInviteFilter.Apply(logger, moderator, msg, net);
    }
  }

  /** The filters started on the message, in registry order: those of the message scope. */
  function Invocations(filters: seq<Filter>, msg: Message, moderator: Id, channel: Option<Id>, net: Net): seq<FilterRun>
  {
    if filters == [] then []
    else
      var last := filters[|filters| - 1];
      Invocations(filters[..|filters| - 1], msg, moderator, channel, net)
      + (if last.scope == MessageScope then [FilterRun(last.kind, FilterResponse(last.kind, msg, moderator, channel, net))] else [])
  }

  /** The receiver: nothing for a bot's message. */
  function Handling(filters: seq<Filter>, msg: Message, moderator: Id, channel: Option<Id>, net: Net): seq<FilterRun>
  {
    if msg.authorIsBot then [] else Invocations(filters, msg, moderator, channel, net)
  }

  method Handle(bot: Grafibot, config: Config, msg: Message, net: Net) returns (runs: seq<FilterRun>)
    requires bot.Valid()
    ensures runs == Handling(Values(bot.filters), msg, config.moderator, bot.logger.channel, net)
  {
    runs := [];
    if msg.authorIsBot {
      return;
    }
    var filters := Values(bot.filters);
    for i := 0 to |filters|
      invariant runs == Invocations(filters[..i], msg, config.moderator, bot.logger.channel, net)
    {
      assert filters[..i + 1][..i] == filters[..i];
      var filter := filters[i];
      if filter.scope == MessageScope {
        var r := ApplyFilter(filter.kind, bot.logger, config.moderator, msg, net);
        runs := runs + [FilterRun(filter.kind, r)];
      }
    }
    assert filters[..|filters|] == filters;
  }

  /** A bot's message goes through no filter. */
  lemma BotMessagesPass(filters: seq<Filter>, msg: Message, moderator: Id, channel: Option<Id>, net: Net)
    requires msg.authorIsBot
    ensures Handling(filters, msg, moderator, channel, net) == []
  {
  }

  /** Registry order is kept: the filters of a longer registry start after those of its prefix. */
  lemma {:induction false} InRegistryOrder(a: seq<Filter>, b: seq<Filter>, msg: Message, moderator: Id, channel: Option<Id>, net: Net)
    ensures Invocations(a + b, msg, moderator, channel, net)
            == Invocations(a, msg, moderator, channel, net) + Invocations(b, msg, moderator, channel, net)
    decreases |b|
  {
    if b == [] {
      assert a + b == a;
    } else {
      assert (a + b)[..|a + b| - 1] == a + b[..|b| - 1];
      InRegistryOrder(a, b[..|b| - 1], msg, moderator, channel, net);
    }
  }

  /**
   * Every run is that filter's response to the same message, and only
   * message-scoped filters are started.
   */
  lemma {:induction false} OnlyMessageFilters(filters: seq<Filter>, msg: Message, moderator: Id, channel: Option<Id>, net: Net)
    ensures var runs := Invocations(filters, msg, moderator, channel, net);
            (forall r :: r in runs ==> r.run == FilterResponse(r.kind, msg, moderator, channel, net))
            && (forall r :: r in runs ==> Filter(MessageScope, r.kind) in filters)
  {
    if filters != [] {
      var init := filters[..|filters| - 1];
      OnlyMessageFilters(init, msg, moderator, channel, net);
      forall r | r in Invocations(init, msg, moderator, channel, net)
        ensures Filter(MessageScope, r.kind) in filters
      {
        var i :| 0 <= i < |init| && init[i] == Filter(MessageScope, r.kind);
        assert filters[i] == init[i];
      }
    }
  }

  /** The indices of the message-scoped filters. */
  function MessageScoped(filters: seq<Filter>): set<nat>
  {
    set i | 0 <= i < |filters| && filters[i].scope == MessageScope
  }

  /** Each message-scoped filter is started once: as many runs as message-scoped filters. */
  lemma {:induction false} OneRunPerMessageFilter(filters: seq<Filter>, msg: Message, moderator: Id, channel: Option<Id>, net: Net)
    ensures |Invocations(filters, msg, moderator, channel, net)| == |MessageScoped(filters)|
  {
    if filters != [] {
      var init, last := filters[..|filters| - 1], filters[|filters| - 1];
      OneRunPerMessageFilter(init, msg, moderator, channel, net);
      assert MessageScoped(filters) == MessageScoped(init) + (if last.scope == MessageScope then {|init|} else {});
      assert |init| !in MessageScoped(init);
    }
  }

  /** When every registered filter is message-scoped, as every filter of the repository is, each starts exactly once, in order. */
  lemma {:induction false} AllFiltersRun(filters: seq<Filter>, msg: Message, moderator: Id, channel: Option<Id>, net: Net)
    requires forall f :: f in filters ==> f.scope == MessageScope
    ensures var runs := Invocations(filters, msg, moderator, channel, net);
            |runs| == |filters| && forall i :: 0 <= i < |filters| ==> runs[i].kind == filters[i].kind
  {
    if filters != [] {
      var init := filters[..|filters| - 1];
      assert forall f :: f in init ==> f in filters;
      AllFiltersRun(init, msg, moderator, channel, net);
    }
  }
}
