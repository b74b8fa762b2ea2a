# grafibot, the decision layer

A model of the core of grafibot, a Discord moderation bot written in
TypeScript, with proofs about it. The bot's work is almost entirely calls into
the Discord client library; what is modelled is the deterministic layer that
decides which of those calls to make, in which order, and what happens when one
of them fails.

The model has three parts:

- **Platform calls.** Every call into the platform is an `Effect`: reply,
  deferred reply, edit of the deferred reply, log entry, reply to the log
  entry, delete, bulk delete, ban, unban, timeout, direct message, reaction
  removal, channel notice.
- **Handlers.** Each handler yields a `Run`: the effects it made, in order,
  and whether it returned normally or threw.
- **Failure oracle.** Whether a call succeeds is an input, a `Net` record
  with one verdict per kind of call. A handler is written twice:
  - a specification function (`Response`, `Handling`, `Moderate`, `Try`);
  - a method (`Apply`, `Handle`, `Execute`, `TryClean`) that follows the
    source statement by statement and is proved equal to that function.

  The properties the code promises are lemmas about the specification
  functions.

Two parts of the source update state in place and are classes here:

- the channel logger (`ChannelLogger.Logger`, its one field the logs channel);
- the client (`Registry.Grafibot`, with four insertion-ordered registries and
  the list of event subscriptions).

What the model covers:

- **Filters.** The seven message filters: caps lock, long code, known error,
  single mention, chocopain, LMGTFY and Discord invite.
- **Reaction responses.** The three responses: report, big brain and dry.
- **Slash commands.** The three commands: `bannir`, `sourdine` and
  `nettoyer`.
- **Event receivers.** The three receivers: message created, reaction added
  and interaction created.
- **Client and logger.** The registration of all of these, the deployment
  of the command descriptions, and the logs-channel logger.
- **Helpers.** The privilege test, the timestamp formatting, and the shared
  duration and reason enumerations.

Regular expressions are modelled by what each fixed expression matches:

- `Text` holds ASCII case folding, case-insensitive occurrences, and counts
  of a character class.
- `LiteralSearch` holds the leftmost-match semantics of an alternation of
  literals, with or without `\b`.

## Model

| member | source | states |
|---|---|---|
| Text.Upper | src/filters/CapsLockFilter.ts:24 | `toUpperCase` keeps the length and changes exactly the lower-case letters |
| Text.FindFrom | src/filters/KnownErrorFilter.ts:44 | the result is the leftmost case-insensitive occurrence at or after the start, and none means no occurrence there |
| Text.Contains | src/filters/KnownErrorFilter.ts:44 | the case-insensitive substring test is true iff the literal occurs somewhere |
| Text.CountIn | src/filters/LongCodeFilter.ts:26-27 | a global match of a character class never has more matches than characters |
| Text.CountInAppend | src/filters/LongCodeFilter.ts:26-27 | the count of a concatenation is the sum of the counts |
| Text.CountInPositive | src/filters/LongCodeFilter.ts:26-29 | the count is positive iff some character belongs to the class |
| Text.OccurrenceFolds | src/filters/ChocopainFilter.ts:41 | the matched text of a lower-case literal folds back to that literal |
| GenericTypes.Seconds | src/utils/types/GenericTypes.ts:8-19 | every duration is a whole number of minutes |
| GenericTypes.DurationsIncreasing | src/utils/types/GenericTypes.ts:8-19 | ten durations, each listed once, strictly increasing in declaration order |
| GenericTypes.OnlyZeroFalsy | src/utils/types/GenericTypes.ts:9 | `Zero` is the only duration that `x ? x : d` replaces |
| GenericTypes.DurationRatios | src/utils/types/GenericTypes.ts:10-18 | week = 7 days, day = 24 hours, hour = 60 minutes, ten minutes = 2 × five minutes, three days = 3 days, twelve hours = 2 × six hours |
| GenericTypes.ReasonsDistinct | src/utils/types/GenericTypes.ts:24-27 | the two default reasons are distinct and non-empty |
| GenericTypes.NumberOr | src/commands/BanSlashCommand.ts:111 | `x ? x : d` on a number: an absent value or 0 gives the default, anything else is kept |
| GenericTypes.StringOr | src/commands/BanSlashCommand.ts:110 | `x ? x : d` on a string: an absent or empty value gives the default, anything else is kept |
| Privilege.PrivilegeMonotone | src/utils/helpers/isPrivileged.ts:8-10 | adding roles never removes privilege; an empty role set is never privileged; the member's id does not matter, only its roles |
| Privilege.IsPrivileged | src/utils/helpers/isPrivileged.ts:8-10 | defines privilege: the member holds the configured role |
| FormatedTimestamp.RoundToSeconds | src/utils/helpers/toFormatedTimestamp.ts:7 | `Math.round(ms / 1000)`: the nearest second, halves rounding up |
| FormatedTimestamp.NatToDecimal | src/utils/helpers/toFormatedTimestamp.ts:7 | decimal notation: non-empty digits without a leading zero |
| FormatedTimestamp.IntToDecimal | src/utils/helpers/toFormatedTimestamp.ts:7 | a negative number gets a minus sign before its digits |
| FormatedTimestamp.ToFormatedTimestamp | src/utils/helpers/toFormatedTimestamp.ts:7 | the output is wrapped in `<t:` and `:f>` |
| FormatedTimestamp.DecimalRoundTrip | src/utils/helpers/toFormatedTimestamp.ts:7 | reading the decimal notation back gives the number |
| FormatedTimestamp.TimestampReadsBack | src/utils/helpers/toFormatedTimestamp.ts:7 | the text between the markers reads back as the rounded seconds |
| FormatedTimestamp.RoundMonotone | src/utils/helpers/toFormatedTimestamp.ts:7 | rounding is monotone and never off by more than 500 ms |
| FormatedTimestamp.RoundExamples | src/utils/helpers/toFormatedTimestamp.ts:7 | whole seconds are exact; 1500 ms gives 2, 1499 ms gives 1, -1500 ms gives -1 |
| ChannelLogger.Post | src/utils/ChannelLogger.ts:27-33 | a post happens iff the channel is set and the send succeeds; an unset channel throws before sending |
| ChannelLogger.Logger.constructor | src/utils/ChannelLogger.ts:9-11 | the logs channel starts unset |
| ChannelLogger.Logger.OnReady | src/utils/ChannelLogger.ts:12-20 | a cached text channel is stored; anything else throws and leaves the channel as it was |
| ChannelLogger.Logger.Log | src/utils/ChannelLogger.ts:27-33 | one post in the current channel, or the logger's exception, and the channel is unchanged |
| ChannelLogger.Lifecycle | src/utils/ChannelLogger.ts:9-33 | logging before the ready signal throws; a ready signal without a text channel throws; after a good one the entry lands in that channel |
| FilterReport.Report | src/filters/CapsLockFilter.ts:32-53 | reply, log, log-reply in order; the run completes iff all three succeed; every partial run is a prefix of the full report |
| FilterReport.Deliver | src/filters/CapsLockFilter.ts:32-53 | the awaited reply, log and log-reply are the report |
| FilterReport.FullReport | src/filters/CapsLockFilter.ts:32-53 | defines the three effects of a report that went through: reply, log, log-reply with the content |
| CapsLockFilter.Apply | src/filters/CapsLockFilter.ts:21-57 | the filter's run is its specification `Response` |
| CapsLockFilter.Fires | src/filters/CapsLockFilter.ts:24 | defines the test: the content equals its upper-case form and is longer than ten UTF-16 code units |
| CapsLockFilter.Response | src/filters/CapsLockFilter.ts:21-57 | defines the run: the report when the test holds, no effect otherwise |
| CapsLockFilter.FiresIff | src/filters/CapsLockFilter.ts:24 | fires iff longer than ten UTF-16 code units with no lower-case letter |
| CapsLockFilter.NeverFires | src/filters/CapsLockFilter.ts:24 | ten code units or fewer, hence five characters or fewer, or any lower-case letter, never fire |
| CapsLockFilter.EmojiCountTwice | src/filters/CapsLockFilter.ts:24 | six emoji beyond the Basic Multilingual Plane fire, being twelve code units; five do not |
| Text.Utf16Length | src/filters/CapsLockFilter.ts:24 | `length` counts UTF-16 code units: between one and two per character |
| Text.Utf16LengthOfBmp | src/filters/CapsLockFilter.ts:24 | within the Basic Multilingual Plane `length` is the number of characters |
| Text.Utf16LengthOfAstral | src/filters/CapsLockFilter.ts:24 | beyond it every character counts two code units |
| CapsLockFilter.DigitsFire | src/filters/CapsLockFilter.ts:24 | eleven digits fire |
| CapsLockFilter.FiringTrace | src/filters/CapsLockFilter.ts:32-53 | on firing: reply, log, then a log-reply quoting the content verbatim |
| CapsLockFilter.QuietTrace | src/filters/CapsLockFilter.ts:24-56 | not firing: no effect at all |
| LongCodeFilter.Apply | src/filters/LongCodeFilter.ts:21-62 | the filter's run is its specification `Response` |
| LongCodeFilter.CodeCount | src/filters/LongCodeFilter.ts:22-26 | defines the number of matches of the code-character class, 0 when none |
| LongCodeFilter.LineBreaks | src/filters/LongCodeFilter.ts:23-27 | defines the number of line breaks, 0 when none |
| LongCodeFilter.Fires | src/filters/LongCodeFilter.ts:26-29 | defines the test: more than three code characters and more than twenty line breaks |
| LongCodeFilter.Response | src/filters/LongCodeFilter.ts:21-62 | defines the run: the report when the test holds, no effect otherwise |
| LongCodeFilter.ThresholdsStrict | src/filters/LongCodeFilter.ts:29 | three code characters or twenty line breaks are not enough: both thresholds are strict and both are needed |
| LongCodeFilter.FiringSurvivesAppend | src/filters/LongCodeFilter.ts:26-29 | text added before or after a firing message keeps it firing |
| LongCodeFilter.NoCodeNoFire | src/filters/LongCodeFilter.ts:22-29 | without any of `{ } [ ] $ ;` nothing fires, however many lines |
| LongCodeFilter.Trace | src/filters/LongCodeFilter.ts:37-58 | firing: reply, log, log-reply with the content; otherwise nothing |
| KnownErrorFilter.Selected | src/filters/KnownErrorFilter.ts:43-47 | the selection is an entry of the table |
| KnownErrorFilter.MatchesIn | src/filters/KnownErrorFilter.ts:44 | defines a match of one entry: its key occurs in the content, ignoring case |
| KnownErrorFilter.LastMatchBelow | src/filters/KnownErrorFilter.ts:43-47 | the last matching entry among the first `n`, always one of them |
| KnownErrorFilter.SelectError | src/filters/KnownErrorFilter.ts:43-47 | the loop selects an entry iff some key matches, and then a matching entry with no match after it |
| KnownErrorFilter.SelectedIsLastMatch | src/filters/KnownErrorFilter.ts:43-47 | the selection is the last matching entry in table order, and there is one iff some key matches |
| KnownErrorFilter.SelectionUnique | src/filters/KnownErrorFilter.ts:43-47 | the loop's characterisation determines one result, the last match |
| KnownErrorFilter.LaterKeyWins | src/filters/KnownErrorFilter.ts:43-47 | of two matching entries the earlier one is never selected |
| KnownErrorFilter.TableShape | src/filters/KnownErrorFilter.ts:10-18 | seven entries with distinct non-empty keys and non-empty links; two keys share one link |
| KnownErrorFilter.FirstKeyIsLiteral | src/filters/KnownErrorFilter.ts:12 | the first key has no regular-expression metacharacter |
| KnownErrorFilter.SecondKeyIsLiteral | src/filters/KnownErrorFilter.ts:13 | the second key has no metacharacter |
| KnownErrorFilter.ThirdKeyIsLiteral | src/filters/KnownErrorFilter.ts:14 | the third key has no metacharacter |
| KnownErrorFilter.FourthKeyIsLiteral | src/filters/KnownErrorFilter.ts:15 | the fourth key has no metacharacter |
| KnownErrorFilter.FifthKeyIsLiteral | src/filters/KnownErrorFilter.ts:16 | the fifth key has no metacharacter |
| KnownErrorFilter.SixthKeyIsLiteral | src/filters/KnownErrorFilter.ts:17 | the sixth key has no metacharacter |
| KnownErrorFilter.LastKeyIsLiteral | src/filters/KnownErrorFilter.ts:18 | the seventh key has no metacharacter |
| KnownErrorFilter.KeysAreLiteral | src/filters/KnownErrorFilter.ts:44 | no key has a metacharacter, so `new RegExp(key, 'mi')` is a case-insensitive substring test |
| KnownErrorFilter.Apply | src/filters/KnownErrorFilter.ts:38-82 | the filter's run, with the selection loop, is its specification `Response` |
| KnownErrorFilter.IsMeta | src/filters/KnownErrorFilter.ts:44 | defines the characters that are not literal inside `new RegExp` |
| KnownErrorFilter.Response | src/filters/KnownErrorFilter.ts:38-82 | defines the run: the report citing the last matching entry, no effect when no key matches |
| KnownErrorFilter.ResponseCitesSelection | src/filters/KnownErrorFilter.ts:49-78 | acts iff some key matches; the warning cites the selected link and the log the selected key |
| SingleMentionFilter.MentionOf | src/filters/SignleMentionFilter.ts:22 | a mention is `<@`, the id, then `>` |
| SingleMentionFilter.MentionedId | src/filters/SignleMentionFilter.ts:22-25 | the id inside a mention is a non-empty string of digits |
| SingleMentionFilter.MentionRoundTrip | src/filters/SignleMentionFilter.ts:22 | mentions and ids correspond one to one, in both directions |
| SingleMentionFilter.Apply | src/filters/SignleMentionFilter.ts:21-60 | the filter's run is its specification `Response` |
| SingleMentionFilter.IsMention | src/filters/SignleMentionFilter.ts:22-25 | defines the anchored test: `<@`, one or more digits, `>`, and nothing else |
| SingleMentionFilter.Response | src/filters/SignleMentionFilter.ts:21-60 | defines the run: the report quoting the whole content when it is a mention, no effect otherwise |
| SingleMentionFilter.IsMentionIff | src/filters/SignleMentionFilter.ts:22-25 | the anchored shape holds iff the content is the mention of some id |
| SingleMentionFilter.FiresOnMentionsOnly | src/filters/SignleMentionFilter.ts:25-44 | acts iff the whole content is a mention; the logged match is the whole content |
| SingleMentionFilter.NearMissesAreQuiet | src/filters/SignleMentionFilter.ts:22 | text around a mention, `<@>` and `<@!123>` do not fire; `<@123>` does |
| LiteralSearch.FirstAltAt | src/filters/ChocopainFilter.ts:22-25 | the first alternative, in written order, that matches at a position |
| LiteralSearch.WordBoundary | src/filters/ChocopainFilter.ts:22 | defines `\b`: exactly one side of the position is a word character |
| LiteralSearch.MatchesAt | src/filters/ChocopainFilter.ts:22 | defines a match of one alternative at a position, between two `\b` when framed |
| LiteralSearch.SearchFrom | src/filters/ChocopainFilter.ts:25 | the leftmost match at or after a position, with no earlier alternative matching there |
| LiteralSearch.Search | src/filters/ChocopainFilter.ts:25 | `match` finds nothing iff no alternative matches anywhere |
| LiteralSearch.Matched | src/filters/ChocopainFilter.ts:41 | `match[0]` has the alternative's length and letters, in the message's own casing |
| LiteralSearch.SearchFinds | src/filters/ChocopainFilter.ts:25 | a match with no earlier position and no earlier alternative is the one found |
| LiteralSearch.UnframedSurvivesContext | src/filters/LMGTFYFilter.ts:22-25 | without `\b`, a match survives any text around the message |
| LiteralSearch.FramedSurvivesSeparatedSuffix | src/filters/ChocopainFilter.ts:22 | with `\b`, a match survives text appended after a non-word character |
| ChocopainFilter.Word | src/filters/ChocopainFilter.ts:41 | the logged word folds to one of the two names |
| ChocopainFilter.WordsAreLowerCase | src/filters/ChocopainFilter.ts:22 | the alternatives are written in lower case |
| ChocopainFilter.Apply | src/filters/ChocopainFilter.ts:21-60 | the filter's run is its specification `Response` |
| ChocopainFilter.Fires | src/filters/ChocopainFilter.ts:22-27 | defines the test: the framed search for the two names finds something |
| ChocopainFilter.Response | src/filters/ChocopainFilter.ts:21-60 | defines the run: the report logging the word found, no effect otherwise |
| ChocopainFilter.FiresIff | src/filters/ChocopainFilter.ts:22-27 | acts iff one of the two names occurs as a whole word; the log names the word found |
| ChocopainFilter.CapitalisedWordFires | src/filters/ChocopainFilter.ts:22 | `CHOCOLATINE !` fires and logs `CHOCOLATINE` |
| ChocopainFilter.PartWordsAreQuiet | src/filters/ChocopainFilter.ts:22 | `chocolatines` and `xchocolatine` do not fire |
| ChocopainFilter.FiringSurvivesSeparatedSuffix | src/filters/ChocopainFilter.ts:22 | a firing message still fires when continued after a separator |
| LmgtfyFilter.Link | src/filters/LMGTFYFilter.ts:41 | the logged link folds to one of the four sites |
| LmgtfyFilter.LinksAreLowerCase | src/filters/LMGTFYFilter.ts:22 | the alternatives are written in lower case |
| LmgtfyFilter.Apply | src/filters/LMGTFYFilter.ts:21-60 | the filter's run is its specification `Response` |
| LmgtfyFilter.Fires | src/filters/LMGTFYFilter.ts:22-27 | defines the test: the unframed search for the four sites finds something |
| LmgtfyFilter.Response | src/filters/LMGTFYFilter.ts:21-60 | defines the run: the report logging the link found, no effect otherwise |
| LmgtfyFilter.FiresIff | src/filters/LMGTFYFilter.ts:22-27 | acts iff one of the four sites occurs anywhere, ignoring case; the log names the link found |
| LmgtfyFilter.FiringSurvivesContext | src/filters/LMGTFYFilter.ts:22 | no word boundary is needed: any surrounding text keeps it firing |
| LmgtfyFilter.DotIsLiteral | src/filters/LMGTFYFilter.ts:22 | `lmgtfyXcom` does not fire; `LMGTFY.COM` fires and is logged as written |
| LmgtfyFilter.AnyOtherCharacterIsQuiet | src/filters/LMGTFYFilter.ts:22 | `lmgtfyXcom` does not fire: the escaped dot matches only a dot |
| LmgtfyFilter.UpperCaseLinkFires | src/filters/LMGTFYFilter.ts:22 | `LMGTFY.COM` fires and the logged link keeps its upper case |
| DiscordInviteFilter.Apply | src/filters/DiscordInviteFilter.ts:22-75 | the filter's run is its specification `Response` |
| DiscordInviteFilter.InviteAt | src/filters/DiscordInviteFilter.ts:23 | defines a match at one position: a short link followed by an alphanumeric code, or an application path |
| DiscordInviteFilter.HasInvite | src/filters/DiscordInviteFilter.ts:23-29 | defines `match` not being null: a match at some position |
| DiscordInviteFilter.Response | src/filters/DiscordInviteFilter.ts:22-75 | defines the run: delete, timeout, log, log-reply, direct message for a guild member posting an invite |
| DiscordInviteFilter.CompletesIff | src/filters/DiscordInviteFilter.ts:31-71 | the run completes iff delete, timeout, log and log-reply succeed; the direct message never changes the outcome |
| DiscordInviteFilter.UncaughtFailuresStop | src/filters/DiscordInviteFilter.ts:32-71 | a refused delete or timeout throws with nothing after it; a refused direct message only drops that message |
| DiscordInviteFilter.FullTrace | src/filters/DiscordInviteFilter.ts:31-68 | delete, a 600 000 ms timeout with the invite reason, log pinging the moderator, log-reply, direct message |
| DiscordInviteFilter.QuietWithoutMemberOrInvite | src/filters/DiscordInviteFilter.ts:31 | without an invite, or without a guild member as author, nothing happens |
| DiscordInviteFilter.ShortLinkFires | src/filters/DiscordInviteFilter.ts:23 | `discord.gg/abc` is an invite |
| DiscordInviteFilter.AppLinkFires | src/filters/DiscordInviteFilter.ts:23 | `discordapp.com/INVITE` is an invite, whatever its case |
| DiscordInviteFilter.ShortLinkNeedsCode | src/filters/DiscordInviteFilter.ts:23 | `discord.gg/` with no code, or followed by `-`, is not an invite |
| ReactionResponses.NeedsPrivilege | src/reactionResponses/ReportReactionResponse.ts:12 | only the report response can be triggered without privilege |
| ReactionResponses.Ping | src/reactionResponses/ReportReactionResponse.ts:57 | only the report's log entry pings the moderator |
| ReactionResponses.Apply | src/reactionResponses/ReportReactionResponse.ts:21-73 | the response's run is its specification `Response` |
| ReactionResponses.Emoji | src/reactionResponses/ReportReactionResponse.ts:12 | defines the emoji each response is constructed with, from configuration |
| ReactionResponses.Warning | src/reactionResponses/ReportReactionResponse.ts:38-44 | defines the reply to the reacted message, naming the reporter for a report |
| ReactionResponses.LogEntry | src/reactionResponses/ReportReactionResponse.ts:47-57 | defines the log entry naming the member who reacted |
| ReactionResponses.Response | src/reactionResponses/ReportReactionResponse.ts:21-73 | defines the run: nothing for another emoji; else fetch, remove the reaction, then the report |
| ReactionResponses.RemovalComesFirst | src/reactionResponses/ReportReactionResponse.ts:24-35 | another emoji does nothing; with the configured one the first effect is the reaction's removal, and there is one iff the fetch and the removal succeed |
| ReactionResponses.FullTrace | src/reactionResponses/ReportReactionResponse.ts:24-69 | remove, warn, log (pinging for a report only), then quote the message |
| ReactionResponses.FetchGuards | src/reactionResponses/ReportReactionResponse.ts:28-29 | a failed fetch of a partial message does nothing and throws |
| ReactionResponses.PartialIsTransparent | src/reactionResponses/ReportReactionResponse.ts:28-32 | once the fetch succeeds, a partial message is handled like a complete one |
| ModerationFlow.Recover | src/commands/BanSlashCommand.ts:167-191 | the catch block adds at most an error reply and an error log, and completes iff both succeed |
| ModerationFlow.Attempt | src/commands/BanSlashCommand.ts:114-191 | defines the try block: act, confirm, log, direct message, with the catch block on the first refusal |
| ModerationFlow.Moderate | src/commands/BanSlashCommand.ts:99-192 | defines the subcommand: defer, then the try block when there is a target |
| ModerationFlow.Execute | src/commands/BanSlashCommand.ts:99-192 | the subcommand as written is its specification `Moderate` |
| ModerationFlow.SuccessTrace | src/commands/BanSlashCommand.ts:114-164 | defer, act, confirm, log, then the direct message |
| ModerationFlow.DirectMessageNeverDecides | src/commands/BanSlashCommand.ts:160-164 | a refused direct message changes neither the outcome nor any other effect |
| ModerationFlow.SucceedingDirectMessage | src/commands/BanSlashCommand.ts:160-164 | when the try block runs through, the direct message is last and the only difference |
| ModerationFlow.FailingDirectMessage | src/commands/BanSlashCommand.ts:160-164 | when the try block fails earlier, the direct message's verdict changes nothing |
| ModerationFlow.FailedAttemptIgnoresDirectMessage | src/commands/BanSlashCommand.ts:160-191 | when the action, the confirmation or the log fails, the try block's run does not depend on the direct message's verdict |
| ModerationFlow.VerdictIgnoresDirectMessage | src/commands/BanSlashCommand.ts:116 | the direct message's verdict never decides another call's verdict |
| ModerationFlow.RecoverIgnoresDirectMessage | src/commands/BanSlashCommand.ts:167-191 | the catch block does not depend on the direct message's verdict |
| ModerationFlow.ActionFailureTrace | src/commands/BanSlashCommand.ts:167-191 | a refused action gives one error reply and one error log, and no confirmation, success log or direct message |
| ModerationFlow.NoTargetTrace | src/commands/BanSlashCommand.ts:114 | without a target nothing follows the deferral |
| ModerationFlow.ActionPrecedesReports | src/commands/BanSlashCommand.ts:100-119 | the deferral comes first, then the action or the error reply |
| BanCommand.IntendedDeleteHistory | src/commands/BanSlashCommand.ts:111 | with `??`, a given period is kept as chosen |
| BanCommand.UnbannedText | src/commands/BanSlashCommand.ts:229 | the filled-in unban text contains the target's id at a fixed place |
| BanCommand.IntendedRemovePlan | src/commands/BanSlashCommand.ts:207-214 | the intended unban acts on the user given |
| BanCommand.Execute | src/commands/BanSlashCommand.ts:78-91 | the command's run is its specification `Response` |
| BanCommand.Reason | src/commands/BanSlashCommand.ts:106-110 | defines the reason: the option when non-empty, else the shared default |
| BanCommand.DeleteHistory | src/commands/BanSlashCommand.ts:107-111 | defines the history period as written: the option when non-zero, else one hour |
| BanCommand.AddPlan | src/commands/BanSlashCommand.ts:105-191 | defines `ajouter`: ban the guild member given with the reason and period, and its texts; none without a guild member |
| BanCommand.RemovePlanFor | src/commands/BanSlashCommand.ts:212-263 | defines what `retirer` would do to a guild member, with the texts as written |
| BanCommand.RemovePlan | src/commands/BanSlashCommand.ts:207-212 | defines `retirer` as written: never a target |
| BanCommand.Response | src/commands/BanSlashCommand.ts:78-91 | defines the routing: `ajouter` and `retirer` to their plans, anything else throws |
| BanCommand.Routing | src/commands/BanSlashCommand.ts:81-90 | an unknown subcommand throws before any effect; the two known ones defer first |
| BanCommand.Defaults | src/commands/BanSlashCommand.ts:110-111 | an absent or empty reason gives the default reason; an absent or zero period gives 3600 s; anything else is kept |
| BanCommand.AddTrace | src/commands/BanSlashCommand.ts:114-164 | defer, ban with the defaults applied, confirm, log, then the direct message |
| BanCommand.AddFailureTrace | src/commands/BanSlashCommand.ts:167-191 | a refused ban gives one error reply and one error log |
| BanCommand.ZeroChoiceDeletesAnHour | src/commands/BanSlashCommand.ts:111 | choosing `Zero` bans with 3600 s of history deleted |
| BanCommand.IntendedHistoryHonoursChoice | src/commands/BanSlashCommand.ts:111 | with `??` every choice is kept; the code as written differs on `Zero` only |
| BanCommand.RemoveNeverUnbans | src/commands/BanSlashCommand.ts:207-212 | `retirer` as written never unbans: nothing follows the deferral |
| BanCommand.IntendedRemoveTrace | src/commands/BanSlashCommand.ts:201-250 | the intended `retirer` unbans the given user, confirms naming them, logs, and tells them |
| BanCommand.LiteralTextNamesNobody | src/commands/BanSlashCommand.ts:220 | the confirmation as written is the same for every target, while the log entry differs |
| BanCommand.TextNamesTarget | src/commands/BanSlashCommand.ts:229 | the filled-in text determines the target |
| MuteCommand.Execute | src/commands/MuteSlashCommand.ts:77-90 | the command's run is its specification `Response` |
| MuteCommand.Duration | src/commands/MuteSlashCommand.ts:105-109 | defines the duration in seconds: the option when non-zero, else ten minutes |
| MuteCommand.Reason | src/commands/MuteSlashCommand.ts:106-110 | defines the reason: the option when non-empty, else the spelt-out default |
| MuteCommand.AddPlan | src/commands/MuteSlashCommand.ts:104-181 | defines `ajouter`: a timeout of the duration in milliseconds with the reason, and its texts; none without a guild member |
| MuteCommand.RemovePlan | src/commands/MuteSlashCommand.ts:197-263 | defines `retirer`: a 1 ms timeout without a reason, and its texts; none without a guild member |
| MuteCommand.Response | src/commands/MuteSlashCommand.ts:77-90 | defines the routing: `ajouter` and `retirer` to their plans, anything else throws |
| MuteCommand.DefaultIsSharedReason | src/commands/MuteSlashCommand.ts:110 | the spelt-out default reason is the shared one |
| MuteCommand.Routing | src/commands/MuteSlashCommand.ts:80-89 | an unknown subcommand throws before any effect; the known ones defer first, and without a target nothing follows |
| MuteCommand.TimeoutLength | src/commands/MuteSlashCommand.ts:109-115 | the timeout is the duration × 1000 ms; absent or zero means 600 000 ms; every other offered duration is kept |
| MuteCommand.UnmuteIsOneMillisecond | src/commands/MuteSlashCommand.ts:204 | unmuting is a 1 ms timeout without a reason |
| MuteCommand.AddTrace | src/commands/MuteSlashCommand.ts:114-155 | defer, time out, confirm, log, then the direct message |
| MuteCommand.AddFailureTrace | src/commands/MuteSlashCommand.ts:158-181 | a refused timeout in `ajouter`: defer, one error reply, one error log naming the author, and nothing else |
| MuteCommand.RemoveFailureTrace | src/commands/MuteSlashCommand.ts:241-263 | a refused timeout in `retirer`: defer, one error reply, one error log naming the author, and nothing else |
| CleanCommand.TargetChannel | src/commands/CleanSlashCommand.ts:57 | the text-channel option when given, else the invoking channel; none only when neither exists |
| CleanCommand.Reason | src/commands/CleanSlashCommand.ts:53-56 | defines the reason: the option when non-empty, else the shared default |
| CleanCommand.IsEmbedOnly | src/commands/CleanSlashCommand.ts:114 | defines an embed-only message: no text and at least one embed |
| CleanCommand.Copies | src/commands/CleanSlashCommand.ts:111-134 | defines the copies of the fetched messages, in order |
| CleanCommand.Fetched | src/commands/CleanSlashCommand.ts:63 | the newest `quantité` messages, or all of them when there are fewer |
| CleanCommand.Ids | src/commands/CleanSlashCommand.ts:66 | the ids of the fetched messages, in order |
| CleanCommand.Shown | src/commands/CleanSlashCommand.ts:114-118 | the placeholder iff the message has no text and some embeds, else its text |
| CleanCommand.Copy | src/commands/CleanSlashCommand.ts:111-134 | one log-reply with the shown text, plus a reply with the embeds for an embed-only message |
| CleanCommand.CopyMessages | src/commands/CleanSlashCommand.ts:111-134 | the copy loop makes the copies of all messages, in order |
| CleanCommand.Announcement | src/commands/CleanSlashCommand.ts:83-95 | one channel notice iff a reason other than the default is given |
| CleanCommand.Try | src/commands/CleanSlashCommand.ts:61-136 | the try block starts after the deferral |
| CleanCommand.Logging | src/commands/CleanSlashCommand.ts:109-134 | the log entry and the copies only extend the trace, and the block completes iff the entry is posted |
| CleanCommand.TryClean | src/commands/CleanSlashCommand.ts:61-136 | the try block as written is its specification `Try` |
| CleanCommand.Execute | src/commands/CleanSlashCommand.ts:46-163 | the command's run is its specification `Response` |
| CleanCommand.Response | src/commands/CleanSlashCommand.ts:46-163 | defines the command: defer, the try block in the target channel, the catch block when it fails |
| CleanCommand.OneReplyPerMessage | src/commands/CleanSlashCommand.ts:111-134 | exactly one log-reply per copied message, in the same order |
| CleanCommand.EmbedRepliesForEmbedOnly | src/commands/CleanSlashCommand.ts:131-133 | one extra reply per embed-only message and for no other |
| CleanCommand.SuccessHead | src/commands/CleanSlashCommand.ts:63-109 | nothing before the copies is a log-reply |
| CleanCommand.SuccessShape | src/commands/CleanSlashCommand.ts:61-134 | a successful clean: defer, bulk delete, confirm, notice if any, log, then the copies |
| CleanCommand.DeletedAreCopied | src/commands/CleanSlashCommand.ts:63-134 | the newest `quantité` messages are deleted, their number is reported, and each is copied once in order |
| CleanCommand.NoticeOnlyWithReason | src/commands/CleanSlashCommand.ts:83 | the fourth effect is a notice iff a reason other than the default was given |
| CleanCommand.NoNoticeWithoutReason | src/commands/CleanSlashCommand.ts:83-95 | typing the default reason by hand posts no notice anywhere |
| CleanCommand.CopyFailuresMissTheCatch | src/commands/CleanSlashCommand.ts:111-134 | refused copies never reach the catch block: the outcome and everything before the copies are unchanged |
| CleanCommand.FailureTrace | src/commands/CleanSlashCommand.ts:137-161 | a refused fetch or bulk delete deletes nothing and gives one error reply and one error log |
| CleanCommand.NoChannelTrace | src/commands/CleanSlashCommand.ts:60 | without a channel nothing follows the deferral |
| OrderedMaps.Empty | src/utils/Grafibot.ts:15-18 | a new registry has no keys and no values |
| OrderedMaps.Set | src/utils/Grafibot.ts:78 | `set` stores the value; a new key goes last and an existing key keeps its place |
| OrderedMaps.Values | src/utils/Grafibot.ts:163 | iteration yields each key's value, in key order |
| OrderedMaps.SetAll | src/utils/Grafibot.ts:74-81 | a series of `set` calls keeps the registry well formed |
| OrderedMaps.LastWith | src/utils/Grafibot.ts:95-100 | the value of the last entry with the key, if any |
| OrderedMaps.LastWins | src/utils/Grafibot.ts:95-100 | after a series of `set`, a key holds the value of its last entry |
| OrderedMaps.KeysGrowInPlace | src/utils/Grafibot.ts:95-100 | existing keys keep their positions, and each entry adds at most one key |
| OrderedMaps.KeysOfSetAll | src/utils/Grafibot.ts:95-100 | the keys afterwards are the keys before plus those of the entries |
| Units.NewFilter | src/filters/CapsLockFilter.ts:12-14 | every filter is constructed with the message scope |
| Units.Json | src/commands/BanSlashCommand.ts:62-70 | a command's description carries its own name |
| Units.CommandName | src/commands/BanSlashCommand.ts:65 | defines each command's name |
| Units.CommandNamesDistinct | src/commands/BanSlashCommand.ts:65 | the three command names are distinct |
| Units.EventTypesDistinct | src/events/MessageCreateEvent.ts:11-13 | the three event types are distinct |
| Units.EventType | src/events/MessageCreateEvent.ts:11-13 | defines the client event each receiver listens to |
| Registry.LastDot | src/utils/Grafibot.ts:118 | the position of the last dot, or none |
| Registry.BaseName | src/utils/Grafibot.ts:118 | `parse(file).name` is a prefix of the file name; it differs from the file name iff a dot follows the first character and the name is not `..`, and then exactly one extension, from the last dot, is dropped |
| Registry.ExtensionDropped | src/utils/Grafibot.ts:118 | a dotless name with an extension added gives back that name |
| Registry.BaseNameExamples | src/utils/Grafibot.ts:118 | `CapsLockFilter.ts` gives `CapsLockFilter`; `.env` and `..` are kept; `..a` gives `.`, `...` gives `..`, `a.b.c` gives `a.b` |
| Registry.EventEntries | src/utils/Grafibot.ts:78 | one entry per event file, keyed by `event.type` |
| Registry.CommandEntries | src/utils/Grafibot.ts:99 | one entry per command file, keyed by `command.name` |
| Registry.FileEntries | src/utils/Grafibot.ts:118 | one entry per file, keyed by its base name |
| Registry.Payload | src/utils/Grafibot.ts:161-165 | one description per registered command |
| Registry.AddEvents | src/utils/Grafibot.ts:74-81 | the loop leaves the registry equal to the series of `set` calls under each event type, and the subscriptions extended by every file, in order |
| Registry.AddCommands | src/utils/Grafibot.ts:95-100 | the loop leaves the registry equal to the series of `set` calls under each command name |
| Registry.AddFiles | src/utils/Grafibot.ts:114-119 | the loop leaves the registry equal to the series of `set` calls under each file's base name |
| Registry.Grafibot.constructor | src/utils/Grafibot.ts:24-28 | empty registries, no subscription, a fresh logger with no channel |
| Registry.Grafibot.RegisterEvents | src/utils/Grafibot.ts:68-84 | one `set` under the event type and one subscription per file; nothing else changes |
| Registry.Grafibot.RegisterCommands | src/utils/Grafibot.ts:89-103 | one `set` under the command name per file, each command stays under its own name; nothing else changes |
| Registry.Grafibot.RegisterFilters | src/utils/Grafibot.ts:108-122 | one `set` under the base name per file; nothing else changes |
| Registry.Grafibot.RegisterResponses | src/utils/Grafibot.ts:127-141 | one `set` under the base name per file; nothing else changes |
| Registry.Grafibot.RegisterAllComponents | src/utils/Grafibot.ts:146-155 | events, then commands, then filters, then reaction responses |
| Registry.Grafibot.DeployCommands | src/utils/Grafibot.ts:160-183 | the payload is built in registry order; a refused upload becomes one generic failure |
| Registry.SetKeepsNames | src/utils/Grafibot.ts:99 | setting a command under its name keeps every command under its own name |
| Registry.RegisteredByName | src/utils/Grafibot.ts:95-100 | after registration every command is keyed by its own name |
| Registry.PayloadOnePerName | src/utils/Grafibot.ts:161-165 | the payload follows the key order and never carries a name twice |
| Registry.SubscriptionsCanOutnumberEntries | src/utils/Grafibot.ts:78-80 | two receivers of one type give one registry entry |
| Registry.EntriesAtMostFiles | src/utils/Grafibot.ts:114-119 | a registry never has more entries than there were files |
| MessageCreateEvent.ApplyFilter | src/events/MessageCreateEvent.ts:24 | `filter.run` is that filter's specification |
| MessageCreateEvent.FilterResponse | src/events/MessageCreateEvent.ts:24 | defines `filter.run` for each filter kind |
| MessageCreateEvent.Invocations | src/events/MessageCreateEvent.ts:22-26 | defines the runs of the message-scoped filters, in registry order |
| MessageCreateEvent.Handling | src/events/MessageCreateEvent.ts:20-28 | defines the receiver: nothing for a bot's message, else the filter runs |
| MessageCreateEvent.Handle | src/events/MessageCreateEvent.ts:20-28 | the receiver's loop is its specification `Handling` |
| MessageCreateEvent.BotMessagesPass | src/events/MessageCreateEvent.ts:21 | a bot's message goes through no filter |
| MessageCreateEvent.InRegistryOrder | src/events/MessageCreateEvent.ts:22 | the filters start in registry order |
| MessageCreateEvent.OnlyMessageFilters | src/events/MessageCreateEvent.ts:22-26 | every run is the response of a registered message-scoped filter to this message |
| MessageCreateEvent.OneRunPerMessageFilter | src/events/MessageCreateEvent.ts:22-26 | exactly as many runs as message-scoped filters |
| MessageCreateEvent.AllFiltersRun | src/events/MessageCreateEvent.ts:22-26 | with only message-scoped filters, each starts exactly once, in order |
| ReactionAddEvent.Handle | src/events/MessageReactionAddEvent.ts:20-45 | the receiver as written is its specification `Handling` |
| ReactionAddEvent.MayRun | src/events/MessageReactionAddEvent.ts:37-41 | defines the gate as written: needs privilege and privileged, or does not need it |
| ReactionAddEvent.Invocations | src/events/MessageReactionAddEvent.ts:36-42 | defines the runs of the responses the gate lets through, in registry order |
| ReactionAddEvent.Handling | src/events/MessageReactionAddEvent.ts:20-45 | defines the receiver: fetch a partial reaction, nothing for a bot or a non-member, else the gated runs |
| ReactionAddEvent.StartResponses | src/events/MessageReactionAddEvent.ts:36-42 | the loop starts the gated responses in registry order |
| ReactionAddEvent.GateIff | src/events/MessageReactionAddEvent.ts:37-41 | a response runs iff it does not need privilege or the member is privileged |
| ReactionAddEvent.FetchComesFirst | src/events/MessageReactionAddEvent.ts:24-28 | a failed fetch of a partial reaction starts nothing; after a fetch partiality does not matter |
| ReactionAddEvent.NobodyToAnswer | src/events/MessageReactionAddEvent.ts:30-33 | a bot, or a user who is not a guild member, starts nothing |
| ReactionAddEvent.GatedRuns | src/events/MessageReactionAddEvent.ts:36-42 | each run is an allowed registered response to the same reaction and member; no allowed response is skipped |
| ReactionAddEvent.PrivilegeDecides | src/events/MessageReactionAddEvent.ts:34-42 | a privileged member triggers every response in order; anyone else only reports |
| ReactionAddEvent.OneEmojiOneResponse | src/events/MessageReactionAddEvent.ts:36-42 | with distinct emojis, at most one kind of response acts on one reaction |
| InteractionCreateEvent.ApplyCommand | src/events/InteractionCreateEvent.ts:24 | `command.run` is that command's specification |
| InteractionCreateEvent.CommandResponse | src/events/InteractionCreateEvent.ts:24 | defines `command.run` for each command kind |
| InteractionCreateEvent.RequiredOptionsGiven | src/commands/CleanSlashCommand.ts:52 | defines what the platform guarantees: `nettoyer` arrives with its required `quantité` |
| InteractionCreateEvent.Handling | src/events/InteractionCreateEvent.ts:19-27 | defines the receiver: a chat-input command whose name is registered starts that command |
| InteractionCreateEvent.Handle | src/events/InteractionCreateEvent.ts:19-27 | the receiver is its specification `Handling` |
| InteractionCreateEvent.ExactNameLookup | src/events/InteractionCreateEvent.ts:20-24 | a command starts iff a chat-input name is registered, and it is the command of that name |
| InteractionCreateEvent.RegisteredNamesOnly | src/events/InteractionCreateEvent.ts:21-24 | after registration a name starts a command iff some file defines it, and then that command |
| InteractionCreateEvent.RepositoryRegistry | src/utils/Grafibot.ts:89-103 | the registry of the repository's three commands is well formed |
| InteractionCreateEvent.BannirStartsBan | src/events/InteractionCreateEvent.ts:21-24 | `bannir` starts the ban command |
| InteractionCreateEvent.BanStartsNothing | src/events/InteractionCreateEvent.ts:23 | an unregistered name such as `ban` starts nothing and throws nothing |
| InteractionCreateEvent.OnlyCleanNeedsNumber | src/events/InteractionCreateEvent.ts:21-24 | in the repository's registry the requirement holds iff the command is not `nettoyer` or a number is given |

## Left out

- **Transport.** All platform transport is outside the model: the gateway, REST, login, the upload of the commands, channel and member caches. What reaches the model is the effects it asks for and the verdict on each kind of call (`Net`).
- **Shared verdicts.** Within one handled event, every call of one kind gets the same verdict.
- `src/index.ts` is not part of this model. The bot's start-up, its environment variables and its logging in are not modelled.
- **Configuration.** Configured ids and emoji names (moderator, role, emojis) are parameters.
- **Folder reading.** Reading the folders and importing the files is replaced by the list of what each file exports. Filters and reaction responses come with their file names.
- **Concurrency.** The `forEach(async …)` dispatch and the un-awaited `command.run` are not awaited in the source. The model runs them one after another in iteration order, with one shared `Net`, and does not model interleavings.
- **Not-awaited work as effects.** The per-message copies of the clean command are not awaited either. They are modelled as the effects they make, and their failure never reaches the catch block.
- CleanCommand.CopyFailuresMissTheCatch: a refused copy rejects the promise of its `forEach` callback, and nothing handles that rejection, so it escapes unhandled. The run records only the missing copies and still ends normally; the escaped rejections are not represented.
- **Regular expressions.** The regular-expression engine and Unicode case mapping are left out. Case-insensitivity and `toUpperCase` are ASCII-only, per character. Each fixed expression is modelled by what it matches.
- `KnownErrorFilter` relies on `new RegExp(key, 'mi')` being a substring test. That rests on `KeysAreLiteral`, which proves no key contains a metacharacter. The `m` flag is irrelevant without anchors.
- `FormatedTimestamp.RoundToSeconds` uses exact integer arithmetic. Floating-point `Math.round` on very large timestamps is not modelled.
- **Presentation.** Embed colours, titles, images, French wording, `setTimestamp` and `console` output are left out. Texts appear as `Notice` values carrying the data they show. The exceptions are texts a property depends on: the logged match or key, the help link, and the unban confirmation.
- **Guild-member lookups.** A failed lookup and a user who is not a guild member both appear as "no member".
- CleanCommand.Fetched: `quantité` is declared as a number option with no bounds, so the platform may deliver a fraction, zero or a negative number. The model takes it as a whole number; fractions are not modelled. For zero or less the model fetches nothing when the fetch is allowed, so the run deletes nothing and confirms 0 messages. How the platform actually answers such a limit is not modelled.
- **Message fetch.** The `fetch` of a partial message is given as the fetched message. The per-request limits of `messages.fetch` and `bulkDelete` (at most 100 messages, none older than 14 days) are not modelled. A refusal is the `fetchOk`/`deleteOk` verdict.
- **Clean command's fallback channel.** The cast `interaction.channel as TextChannel` is unchecked in the source. The model treats the invoking channel as a text channel.
- `InteractionCreateEvent.Handling` and `CleanCommand.Response` require the clean command's `quantité` option to be present. The command declares it required, so the platform always supplies it; the source reads it with a non-null assertion.
- **Type-only files and abstract bases.** These files have no behaviour. Their fields are folded into the datatypes: scope, name, JSON, event type, emoji and privilege flag.
- **Command descriptions.** `Units.Json` keeps only the name, subcommand names and top-level option names. Permissions and descriptions are not modelled.
- Registry.Grafibot.RegisterEvents, RegisterCommands, RegisterFilters and RegisterResponses run their loop on a registry value and store it in the field once, at the end. The source writes the field at each iteration. Nothing in the core reads a registry while registration is still running, so the state that can be observed is the same.
- **Known-error table.** The table is a constant, so `run` cannot modify it; the model has no separate statement of that.

## Findings

| source | as written | input that shows it | evidently intended | confidence | as-written member | corrected member |
|---|---|---|---|---|---|---|
| src/commands/BanSlashCommand.ts:111 | `optionDeleteHistory ? optionDeleteHistory : OneHour` treats the offered choice `Zero` (0 s) as absent | `bannir ajouter` with `supprimer_messages` = `Zero` bans with 3600 s of messages deleted | `??`: only an absent option falls back to an hour, so `Zero` deletes nothing | high, not executed | BanCommand.ZeroChoiceDeletesAnHour | BanCommand.IntendedHistoryHonoursChoice |
| src/commands/BanSlashCommand.ts:207-209 | the target is read with `getUser`, which yields a user and never a guild member, so the `instanceof GuildMember` guard always fails | `bannir retirer` on any banned user: nothing follows the deferral and nobody is unbanned | unban the given user by id, without the guild-member guard | high, not executed | BanCommand.RemoveNeverUnbans | BanCommand.IntendedRemoveTrace |
| src/commands/BanSlashCommand.ts:220 | the confirmation is in single quotes, so `${target.id}` is printed literally | any successful unban would confirm with the text `<@${target.id}>` for every target | a template literal naming the target, as the log entry at line 229 has | high, not executed | BanCommand.LiteralTextNamesNobody | BanCommand.TextNamesTarget |
