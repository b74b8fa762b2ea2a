/**
 * The `interactionCreate` receiver: a chat-input command is looked up by its
 * exact name among the registered commands and, when found, started once
 * (without being awaited); any other interaction, or an unknown name, is
 * ignored.
 */
module InteractionCreateEvent {

  import opened Options
  import opened Platform
  import opened ChannelLogger
  import opened OrderedMaps
  import opened Units
  import opened Registry
  import BanCommand
  import MuteCommand
  import CleanCommand

  /** The command started, and what it did. */
  datatype CommandRun = CommandRun(kind: CommandKind, run: Run)

  /** `command.run(client, interaction)`; `history` is the channel history the clean command reads. */
  function CommandResponse(kind: CommandKind, input: ChatInput, history: seq<CleanCommand.HistoryMessage>,
                           channel: Option<Id>, net: Net): Run
    requires kind == CleanKind ==> input.number.Some?
  {
    match kind
    case BanKind => BanCommand.Response(input, channel, net)
    case MuteKind => MuteCommand.Response(input, channel, net)
    case CleanKind => CleanCommand.Response(input, history, channel, net)
  }

  method ApplyCommand(kind: CommandKind, logger: Logger, input: ChatInput, history: seq<CleanCommand.HistoryMessage>, net: Net)
    returns (r: Run)
    requires kind == CleanKind ==> input.number.Some?
    ensures r == CommandResponse(kind, input, history, logger.channel, net)
  {
    match kind {
      case BanKind => r := BanCommand.Execute(logger, input, net);
      case MuteKind => r := MuteCommand.Execute(logger, input, net);
      case CleanKind => r := CleanCommand.Execute(logger, input, history, net);
    }
  }

  /** The platform supplies every required option: the clean command's `quantité`. */
  predicate RequiredOptionsGiven(commands: OrderedMap<CommandKind>, interaction: Interaction)
  {
    interaction.ChatInputCommand? && Get(commands, interaction.input.commandName) == Some(CleanKind)
    ==> interaction.input.number.Some?
  }

  function Handling(commands: OrderedMap<CommandKind>, interaction: Interaction, history: seq<CleanCommand.HistoryMessage>,
                    channel: Option<Id>, net: Net): Option<CommandRun>
    requires RequiredOptionsGiven(commands, interaction)
  {
    match interaction
    case OtherInteraction => None
    case ChatInputCommand(input) =>
      match Get(commands, input.commandName)
      case None => None
      case Some(kind) => Some(CommandRun(kind, CommandResponse(kind, input, history, channel, net)))
  }

  method Handle(bot: Grafibot, interaction: Interaction, history: seq<CleanCommand.HistoryMessage>, net: Net)
    returns (started: Option<CommandRun>)
    requires bot.Valid() && RequiredOptionsGiven(bot.commands, interaction)
    ensures started == Handling(bot.commands, interaction, history, bot.logger.channel, net)
  {
    if !interaction.ChatInputCommand? {
      return None;
    }
    var input := interaction.input;
    var command := Get(bot.commands, input.commandName);
    if command.Some? {
      var r := ApplyCommand(command.value, bot.logger, input, history, net);
      return Some(CommandRun(command.value, r));
    }
    started := None;
  }

  /**
   * Only a chat-input command with a registered name starts anything, and
   * then the command registered under that exact name.
   */
  lemma ExactNameLookup(commands: OrderedMap<CommandKind>, interaction: Interaction, history: seq<CleanCommand.HistoryMessage>,
                        channel: Option<Id>, net: Net)
    requires OrderedMaps.Valid(commands) && KeyedByName(commands)
    requires RequiredOptionsGiven(commands, interaction)
    ensures var started := Handling(commands, interaction, history, channel, net);
            (started.Some? <==> interaction.ChatInputCommand? && interaction.input.commandName in commands.keys)
            && (started.Some? ==> CommandName(started.value.kind) == interaction.input.commandName)
  {
  }

  /**
   * After registering command files, a name starts a command exactly when some
   * file defines a command of that name, and then it is that command.
   */
  lemma RegisteredNamesOnly(files: seq<CommandKind>, input: ChatInput, history: seq<CleanCommand.HistoryMessage>,
                            channel: Option<Id>, net: Net)
    requires RequiredOptionsGiven(SetAll(Empty(), CommandEntries(files)), ChatInputCommand(input))
    ensures var started := Handling(SetAll(Empty(), CommandEntries(files)), ChatInputCommand(input), history, channel, net);
            (started.Some? <==> exists i :: 0 <= i < |files| && CommandName(files[i]) == input.commandName)
            && (forall i :: 0 <= i < |files| && CommandName(files[i]) == input.commandName ==>
                  (files[i] == CleanKind ==> input.number.Some?)
                  && started == Some(CommandRun(files[i], CommandResponse(files[i], input, history, channel, net))))
  {
    var entries := CommandEntries(files);
    var empty: OrderedMap<CommandKind> := Empty();
    LastWins(empty, entries, input.commandName);
    var found := LastWith(entries, input.commandName);
    assert found.Some? <==> exists i :: 0 <= i < |files| && CommandName(files[i]) == input.commandName by {
      assert forall i :: 0 <= i < |files| ==> entries[i].0 == CommandName(files[i]);
    }
    forall i | 0 <= i < |files| && CommandName(files[i]) == input.commandName
      ensures found == Some(files[i])
    {
      var j :| 0 <= j < |entries| && entries[j] == (input.commandName, found.value);
      CommandNamesDistinct(files[i], found.value);
    }
  }

  /** The registry built from the repository's three command files. */
  function RepositoryRegistry(): (m: OrderedMap<CommandKind>)
    ensures OrderedMaps.Valid(m)
  {
    SetAll(Empty(), CommandEntries([BanKind, MuteKind, CleanKind]))
  }

  /** Only `nettoyer` needs an option supplied: any other chat input meets the requirement, with or without a number. */
  lemma OnlyCleanNeedsNumber(input: ChatInput)
    ensures RequiredOptionsGiven(RepositoryRegistry(), ChatInputCommand(input)) <==>
              input.commandName != "nettoyer" || input.number.Some?
  {
    var files := [BanKind, MuteKind, CleanKind];
    var entries := CommandEntries(files);
    var empty: OrderedMap<CommandKind> := Empty();
    LastWins(empty, entries, input.commandName);
    var found := LastWith(entries, input.commandName);
    if found == Some(CleanKind) {
      var j :| 0 <= j < |entries| && entries[j] == (input.commandName, CleanKind);
      assert j == 2;
    }
    if input.commandName == "nettoyer" {
      assert entries[2].0 == input.commandName;
      assert "nettoyer"[0] != "bannir"[0] && "nettoyer"[0] != "sourdine"[0];
    }
  }

  /** Of the repository's commands, `bannir` starts the ban command. */
  lemma BannirStartsBan(input: ChatInput, history: seq<CleanCommand.HistoryMessage>, channel: Option<Id>, net: Net)
    requires RequiredOptionsGiven(RepositoryRegistry(), ChatInputCommand(input)) && input.commandName == "bannir"
    ensures Handling(RepositoryRegistry(), ChatInputCommand(input), history, channel, net)
            == Some(CommandRun(BanKind, BanCommand.Response(input, channel, net)))
  {
    var files := [BanKind, MuteKind, CleanKind];
    RegisteredNamesOnly(files, input, history, channel, net);
    assert CommandName(files[0]) == input.commandName;
  }

  /** A name nobody registered, such as `ban`, starts nothing. */
  lemma BanStartsNothing(input: ChatInput, history: seq<CleanCommand.HistoryMessage>, channel: Option<Id>, net: Net)
    requires RequiredOptionsGiven(RepositoryRegistry(), ChatInputCommand(input)) && input.commandName == "ban"
    ensures Handling(RepositoryRegistry(), ChatInputCommand(input), history, channel, net) == None
  {
    BanUnregistered();
  }

  lemma BanUnregistered()
    ensures Get(RepositoryRegistry(), "ban") == None
  {
    var entries := CommandEntries([BanKind, MuteKind, CleanKind]);
    var empty: OrderedMap<CommandKind> := Empty();
    LastWins(empty, entries, "ban");
    assert "ban" != "bannir" && "ban"[0] != "sourdine"[0] && "ban"[0] != "nettoyer"[0];
    assert forall i :: 0 <= i < |entries| ==> entries[i].0 != "ban";
  }
}
