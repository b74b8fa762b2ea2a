/**
 * The `messageReactionAdd` receiver: fetch a partial reaction, ignore bots
 * and users that are not guild members, decide once whether the member is
 * privileged, then start every registered reaction response the member may
 * trigger, in registry order, without awaiting them.
 */
module ReactionAddEvent {

  import opened Options
  import opened Platform
  import opened ChannelLogger
  import opened OrderedMaps
  import opened Privilege
  import opened ReactionResponses
  import opened Registry

  /** One response started on the reaction, and what it did. */
  datatype ResponseRun = ResponseRun(kind: ResponseKind, run: Run)

  /** The responses started, and whether the receiver itself threw. */
  datatype Handled = Handled(runs: seq<ResponseRun>, outcome: Outcome)

  /** The gate, as written: needs privilege and privileged, or does not need it. */
  predicate MayRun(kind: ResponseKind, privileged: bool)
  {
    (NeedsPrivilege(kind) && privileged) || !NeedsPrivilege(kind)
  }

  function Invocations(kinds: seq<ResponseKind>, privileged: bool, config: Config, reaction: Reaction,
                       member: Id, channel: Option<Id>, net: Net): seq<ResponseRun>
  {
    if kinds == [] then []
    else
      var last := kinds[|kinds| - 1];
      Invocations(kinds[..|kinds| - 1], privileged, config, reaction, member, channel, net)
      + (if MayRun(last, privileged) then [ResponseRun(last, Response(last, config, reaction, member, channel, net))] else [])
  }

  /**
   * The receiver, for a reaction added by a user who is a bot or not, and
   * `member`, the guild member the user's id resolves to, if any. The fetch
   * of a partial reaction yields it complete.
   */
  function Handling(kinds: seq<ResponseKind>, config: Config, reaction: Reaction, userIsBot: bool,
                    member: Option<Member>, channel: Option<Id>, net: Net): Handled
  {
    if reaction.partial && !net.fetchOk then Handled([], Threw(CallFailed(FetchCall)))
    else
      var resolved := reaction.(partial := false);
      if userIsBot || member.None? then Handled([], Done)
      else
        var privileged := IsPrivileged(member.value, config.privilegedRole);
        Handled(Invocations(kinds, privileged, config, resolved, member.value.id, channel, net), Done)
  }

  method Handle(bot: Grafibot, config: Config, reaction: Reaction, userIsBot: bool, member: Option<Member>, net: Net)
    returns (h: Handled)
    requires bot.Valid()
    ensures h == Handling(Values(bot.responses), config, reaction, userIsBot, member, bot.logger.channel, net)
  {
    var r: Reaction;
    if reaction.partial {
      if !net.fetchOk {
        return Handled([], Threw(CallFailed(FetchCall)));
      }
      r := reaction.(partial := false);
    } else {
      r := reaction;
    }
    if userIsBot || member.None? {
      return Handled([], Done);
    }
    var m := member.value;
    var privileged := IsPrivileged(m, config.privilegedRole);
    var runs := StartResponses(bot.logger, Values(bot.responses), privileged, config, r, m.id, net);
    assert r == reaction.(partial := false);
    h := Handled(runs, Done);
  }

  /** `forEach` over the registered responses: the gate, then `response.run`, in registry order. */
  method StartResponses(logger: Logger, kinds: seq<ResponseKind>, privileged: bool, config: Config, reaction: Reaction,
                        member: Id, net: Net) returns (runs: seq<ResponseRun>)
    ensures runs == Invocations(kinds, privileged, config, reaction, member, logger.channel, net)
  {
    runs := [];
    for i := 0 to |kinds|
      invariant runs == Invocations(kinds[..i], privileged, config, reaction, member, logger.channel, net)
    {
      assert kinds[..i + 1][..i] == kinds[..i];
      var kind := kinds[i];
      if (NeedsPrivilege(kind) && privileged) || !NeedsPrivilege(kind) {
        var run := Apply(kind, config, logger, reaction, member, net);
        runs := runs + [ResponseRun(kind, run)];
      }
    }
    assert kinds[..|kinds|] == kinds;
  }

  /** The gate is: the response does not need privilege, or the member has it. */
  lemma GateIff(kind: ResponseKind, privileged: bool)
    ensures MayRun(kind, privileged) <==> kind == ReportResponse || privileged
  {
  }

  /** A partial reaction whose fetch fails starts nothing; once fetched, partiality changes nothing. */
  lemma FetchComesFirst(kinds: seq<ResponseKind>, config: Config, reaction: Reaction, userIsBot: bool,
                        member: Option<Member>, channel: Option<Id>, net: Net)
    ensures reaction.partial && !net.fetchOk ==>
              Handling(kinds, config, reaction, userIsBot, member, channel, net) == Handled([], Threw(CallFailed(FetchCall)))
    ensures net.fetchOk ==>
              Handling(kinds, config, reaction, userIsBot, member, channel, net)
              == Handling(kinds, config, reaction.(partial := !reaction.partial), userIsBot, member, channel, net)
  {
  }

  /** A bot, or a user who is not a guild member, starts nothing. */
  lemma NobodyToAnswer(kinds: seq<ResponseKind>, config: Config, reaction: Reaction, userIsBot: bool,
                       member: Option<Member>, channel: Option<Id>, net: Net)
    requires !reaction.partial || net.fetchOk
    requires userIsBot || member.None?
    ensures Handling(kinds, config, reaction, userIsBot, member, channel, net) == Handled([], Done)
  {
  }

  /**
   * Every run is a response allowed through the gate, answering the same
   * reaction on behalf of the same member; an allowed response is never skipped.
   */
  lemma {:induction false} GatedRuns(kinds: seq<ResponseKind>, privileged: bool, config: Config, reaction: Reaction,
                                      member: Id, channel: Option<Id>, net: Net)
    ensures var runs := Invocations(kinds, privileged, config, reaction, member, channel, net);
            (forall r :: r in runs ==> MayRun(r.kind, privileged) && r.kind in kinds
                                       && r.run == Response(r.kind, config, reaction, member, channel, net))
            && (forall k :: k in kinds && MayRun(k, privileged) ==> exists r :: r in runs && r.kind == k)
            && |runs| <= |kinds|
  {
    if kinds != [] {
      var init := kinds[..|kinds| - 1];
      GatedRuns(init, privileged, config, reaction, member, channel, net);
      assert forall k :: k in kinds ==> k in init || k == kinds[|kinds| - 1];
    }
  }

  /** A privileged member triggers every registered response, in order; anyone else only reports. */
  lemma {:induction false} PrivilegeDecides(kinds: seq<ResponseKind>, privileged: bool, config: Config, reaction: Reaction,
                                             member: Id, channel: Option<Id>, net: Net)
    ensures var runs := Invocations(kinds, privileged, config, reaction, member, channel, net);
            (privileged ==> |runs| == |kinds| && forall i :: 0 <= i < |kinds| ==> runs[i].kind == kinds[i])
            && (!privileged ==> forall r :: r in runs ==> r.kind == ReportResponse)
  {
    if kinds != [] {
      PrivilegeDecides(kinds[..|kinds| - 1], privileged, config, reaction, member, channel, net);
    }
  }

  /** With three different emojis configured, at most one kind of response acts on any one reaction. */
  lemma OneEmojiOneResponse(kinds: seq<ResponseKind>, privileged: bool, config: Config, reaction: Reaction,
                            member: Id, channel: Option<Id>, net: Net)
    requires config.reportEmoji != config.bigBrainEmoji && config.reportEmoji != config.dryEmoji
             && config.bigBrainEmoji != config.dryEmoji
    ensures var runs := Invocations(kinds, privileged, config, reaction, member, channel, net);
            forall i, j :: 0 <= i < |runs| && 0 <= j < |runs| && runs[i].run.effects != [] && runs[j].run.effects != []
                           ==> runs[i].kind == runs[j].kind
  {
    var runs := Invocations(kinds, privileged, config, reaction, member, channel, net);
    GatedRuns(kinds, privileged, config, reaction, member, channel, net);
    forall r | r in runs && r.run.effects != []
      ensures reaction.emoji == Emoji(r.kind, config)
    {
      RemovalComesFirst(r.kind, config, reaction, member, channel, net);
    }
    forall i, j | 0 <= i < |runs| && 0 <= j < |runs| && runs[i].run.effects != [] && runs[j].run.effects != []
      ensures runs[i].kind == runs[j].kind
    {
      assert runs[i] in runs && runs[j] in runs;
    }
  }
}
