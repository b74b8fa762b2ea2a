/**
 * The units the client registers: event receivers, slash commands, filters
 * and reaction responses. Each is identified by its kind; what the base
 * classes keep about it (scope, name, type, JSON) is a function of the kind.
 */
module Units {

  import BanCommand
  import MuteCommand
  import CleanCommand

  /** Which interactions a filter applies to. */
  datatype FilterScope = MessageScope | MemberScope

  datatype FilterKind = CapsLock | LongCode | KnownError | SingleMention | Chocopain | Lmgtfy | DiscordInvite

  /** A filter instance: its scope, as its constructor set it, and what it does. */
  datatype Filter = Filter(scope: FilterScope, kind: FilterKind)

  /** `new Filter()`: every filter of the repository is constructed with the message scope. */
  function NewFilter(kind: FilterKind): (f: Filter)
    ensures f.kind == kind && f.scope == MessageScope
  {
    Filter(MessageScope, kind)
  }

  datatype CommandKind = BanKind | MuteKind | CleanKind

  /** The part of a command's JSON description the model keeps: its name, subcommands and top-level options. */
  datatype CommandJson = CommandJson(name: string, subcommands: seq<string>, options: seq<string>)

  /** `command.name`. */
  function CommandName(kind: CommandKind): string
  {
    match kind
    case BanKind => BanCommand.Name
    case MuteKind => MuteCommand.Name
    case CleanKind => CleanCommand.Name
  }

  /** `command.commandJSON`, built from the same name. */
  function Json(kind: CommandKind): (j: CommandJson)
    ensures j.name == CommandName(kind)
  {
    match kind
    case BanKind => CommandJson(BanCommand.Name, ["ajouter", "retirer"], [])
    case MuteKind => CommandJson(MuteCommand.Name, ["ajouter", "retirer"], [])
    case CleanKind => CommandJson(CleanCommand.Name, [], ["quantité", "raison", "salon"])
  }

  /** The three commands have three different names, so none hides another in the registry. */
  lemma CommandNamesDistinct(a: CommandKind, b: CommandKind)
    ensures CommandName(a) == CommandName(b) <==> a == b
  {
    assert CommandName(BanKind) == "bannir" && CommandName(MuteKind) == "sourdine" && CommandName(CleanKind) == "nettoyer";
    assert "bannir"[0] != "sourdine"[0] && "bannir"[0] != "nettoyer"[0] && "sourdine"[0] != "nettoyer"[0];
  }

  datatype EventKind = MessageCreate | MessageReactionAdd | InteractionCreate

  /** `event.type`: the client event each receiver is constructed for. */
  function EventType(kind: EventKind): string
  {
    match kind
    case MessageCreate => "messageCreate"
    case MessageReactionAdd => "messageReactionAdd"
    case InteractionCreate => "interactionCreate"
  }

  lemma EventTypesDistinct(a: EventKind, b: EventKind)
    ensures EventType(a) == EventType(b) <==> a == b
  {
    assert "messageCreate"[7] != "messageReactionAdd"[7];
    assert "interactionCreate"[0] != "messageCreate"[0];
  }
}
