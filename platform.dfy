/**
 * The chat platform as the bot sees it: the payloads it receives, the calls it
 * makes (recorded as `Effect`s, in the order they are made) and, for each kind
 * of call that can fail, a verdict supplied from outside (`Net`).
 */
module Platform {

  import opened Options

  /** A platform snowflake (user, member, role, channel or message id). */
  type Id = string

  /** A guild member with the ids of the roles it holds. */
  datatype Member = Member(id: Id, roles: set<Id>)

  /**
   * A received message. `member` is `Some` exactly when `message.member` is a
   * `GuildMember`.
   */
  datatype Message = Message(
    id: Id,
    channel: Id,
    authorId: Id,
    authorIsBot: bool,
    content: string,
    member: Option<Member>)

  /** A channel as the client's cache or an option resolves it. */
  datatype Channel = TextChannel(id: Id) | OtherChannel(id: Id)

  /** A message as a reaction carries it: possibly partial, then fetched in full on demand. */
  datatype MessageView = MessageView(partial: bool, message: Message)

  /** A reaction as delivered; a partial one has to be fetched before use. */
  datatype Reaction = Reaction(partial: bool, emoji: string, view: MessageView)

  /** The environment identifiers the core reads. */
  datatype Config = Config(
    privilegedRole: Id,     // ROLE_ID_ACCUSTOMED
    logsChannel: Id,        // CHANNEL_ID_LOGS
    moderator: Id,          // USER_ID_GRAFIKART, pinged by some log entries
    reportEmoji: string,    // EMOJI_NAME_REPORT
    bigBrainEmoji: string,  // EMOJI_NAME_BIG_BRAIN
    dryEmoji: string)       // EMOJI_NAME_DRY

  /**
   * What a message says, reduced to the data the source puts into it. Colours,
   * titles, images and French wording are left out; the fields are the values
   * interpolated into the text.
   */
  datatype Notice =
    | CapsLockWarning | CapsLockLog
    | LongCodeWarning | LongCodeLog
    | KnownErrorWarning(url: string) | KnownErrorLog(key: string)
    | SingleMentionWarning | SingleMentionLog(mention: string)
    | ChocopainWarning | ChocopainLog(word: string)
    | LmgtfyWarning | LmgtfyLog(link: string)
    | InviteLog(offender: Id, reason: string, seconds: int)
    | MutedDm(reason: string)
    | ReportWarning(reporter: Id) | ReportLog(reporter: Id)
    | BigBrainWarning | BigBrainLog(reactor: Id)
    | DryWarning | DryLog(reactor: Id)
    | BanAdded(target: Id, reason: string, deleteSeconds: int)
    | BanAddedLog(target: Id, reason: string, deleteSeconds: int, author: Id)
    | BanAddFailed(target: Id) | BanAddFailedLog(target: Id, reason: string, author: Id)
    | BannedDm(reason: string)
    | Unbanned(text: string) | UnbannedLog(text: string, author: Id)
    | UnbanFailed(target: Id) | UnbanFailedLog(target: Id, author: Id)
    | UnbannedDm
    | MuteAdded(target: Id, reason: string, seconds: int)
    | MuteAddedLog(target: Id, reason: string, seconds: int, author: Id)
    | MuteAddFailed(target: Id) | MuteAddFailedLog(target: Id, author: Id)
    | MuteRemoved(target: Id) | MuteRemovedLog(target: Id, author: Id)
    | MuteRemoveFailed(target: Id) | MuteRemoveFailedLog(target: Id, author: Id)
    | UnmutedDm
    | Cleaned(reason: string, channel: Id, count: nat)
    | CleanedNotice(reason: string, count: nat)
    | CleanedLog(count: nat, reason: string, channel: Id, author: Id)
    | CleanFailed(quantity: int) | CleanFailedLog(quantity: int, reason: string, author: Id)

  /** One call into the platform that took effect. */
  datatype Effect =
    | Reply(message: Id, notice: Notice)                       // message.reply
    | Logged(channel: Id, ping: Option<Id>, notice: Notice)    // ChannelLogger.log: a post in the logs channel
    | LogReply(about: Id, content: string)                     // reply to the latest log post, quoting a message
    | EmbedsReply(about: Id, embeds: nat)                      // reply to that reply, carrying the original embeds
    | DeleteMessage(message: Id)
    | Timeout(member: Id, ms: int, why: Option<string>)
    | DirectMessage(member: Id, notice: Notice)
    | RemoveReaction(message: Id, emoji: string)
    | DeferReply
    | EditReply(notice: Notice)
    | Ban(member: Id, deleteSeconds: int, reason: string)
    | Unban(user: Id)
    | BulkDelete(channel: Id, messages: seq<Id>)
    | ChannelNotice(channel: Id, notice: Notice)

  /** The kinds of call whose failure the source lets escape or catches. */
  datatype Call = DeferCall | ReplyCall | DeleteCall | TimeoutCall | BanCall | SendCall
                | LogReplyCall | FetchCall | RemoveCall

  datatype Failure =
    | CallFailed(call: Call)
    | LoggerNotReady             // `log` before the logs channel was resolved
    | LogsChannelMissing         // the ready handler found no text channel
    | UnknownSubcommand(name: string)
    | DeployFailed

  /** How one handler invocation ended: normally, or with an exception that escaped it. */
  datatype Outcome = Done | Threw(cause: Failure)

  /** The effects of one invocation, in order, and how it ended. */
  datatype Run = Run(effects: seq<Effect>, outcome: Outcome)

  /**
   * A chat-input command as the handlers read it: the subcommand name and the
   * options, each `None` when absent. `member` is `getMember('membre')` when
   * it resolved to a guild member; `user` is the id behind `getUser('membre')`.
   * `channel` is the channel the command was typed in, if the platform gave one.
   */
  datatype ChatInput = ChatInput(
    commandName: string,
    subcommand: string,
    author: Id,
    member: Option<Member>,
    user: Id,
    reason: Option<string>,
    number: Option<int>,
    channelOption: Option<Channel>,
    channel: Option<Channel>)

  /** An interaction: a chat-input command or anything else (buttons, menus, ...). */
  datatype Interaction = ChatInputCommand(input: ChatInput) | OtherInteraction

  /**
   * The verdict for each kind of call during one event's handling: `true` if
   * that call succeeds. Direct messages are listed too, although their failure
   * is always swallowed.
   */
  datatype Net = Net(
    deferOk: bool, replyOk: bool, deleteOk: bool, timeoutOk: bool, banOk: bool,
    dmOk: bool, sendOk: bool, logReplyOk: bool, fetchOk: bool, removeOk: bool)

  /** The verdict on one kind of call. */
  function Verdict(net: Net, call: Call): bool
  {
    match call
    case DeferCall => net.deferOk
    case ReplyCall => net.replyOk
    case DeleteCall => net.deleteOk
    case TimeoutCall => net.timeoutOk
    case BanCall => net.banOk
    case SendCall => net.sendOk
    case LogReplyCall => net.logReplyOk
    case FetchCall => net.fetchOk
    case RemoveCall => net.removeOk
  }
}
