/**
 * Filter "Discord invite": a message carrying an invitation link to another
 * server, `/(discord\.(gg|io|me|li)\/[0-9A-Za-z]+|discordapp\.com\/(invite|oauth2))/i`.
 * The message is deleted, its author muted for ten minutes, the moderator
 * pinged in the logs, and the author told by direct message when possible.
 */
module DiscordInviteFilter {

  import opened Options
  import opened Text
  import opened Platform
  import opened GenericTypes
  import opened ChannelLogger

  /** The short-link hosts, each followed by `/` and an invitation code. */
  const ShortLinks: seq<string> := ["discord.gg/", "discord.io/", "discord.me/", "discord.li/"]

  /** The two complete paths on the application's own domain. */
  const AppLinks: seq<string> := ["discordapp.com/invite", "discordapp.com/oauth2"]

  /** The expression matches at `p`. */
  predicate InviteAt(s: string, p: nat)
  {
    (exists k :: 0 <= k < |ShortLinks| && OccursAt(s, p, ShortLinks[k]) && p + |ShortLinks[k]| < |s| && IsAlnum(s[p + |ShortLinks[k]|]))
    || (exists k :: 0 <= k < |AppLinks| && OccursAt(s, p, AppLinks[k]))
  }

  /** `messageContent.match(regex)` is not null. */
  predicate HasInvite(content: string)
  {
    exists p :: 0 <= p < |content| && InviteAt(content, p)
  }

  /** `DurationInSeconds.TenMinutes`, the mute length. */
  const MuteSeconds: nat := Seconds(TenMinutes)

  /**
   * The filter's run: nothing unless the content has an invite and the author
   * is a guild member; otherwise delete, timeout, log with a ping, log-reply,
   * each awaited, then a direct message whose failure is caught.
   */
  function Response(msg: Message, moderator: Id, channel: Option<Id>, net: Net): Run
  {
    if !(HasInvite(msg.content) && msg.member.Some?) then Run([], Done)
    else
      var author := msg.member.value.id;
      var mute := Timeout(author, MuteSeconds * 1000, Some(DiscordLink));
      if !net.deleteOk then Run([], Threw(CallFailed(DeleteCall)))
      else if !net.timeoutOk then Run([DeleteMessage(msg.id)], Threw(CallFailed(TimeoutCall)))
      else match Post(channel, Some(moderator), InviteLog(author, DiscordLink, MuteSeconds), net.sendOk)
        case NotPosted(cause) => Run([DeleteMessage(msg.id), mute], Threw(cause))
        case Posted(entry) =>
          if !net.logReplyOk then Run([DeleteMessage(msg.id), mute, entry], Threw(CallFailed(LogReplyCall)))
          else
            var logged := [DeleteMessage(msg.id), mute, entry, LogReply(msg.id, msg.content)];
            if net.dmOk then Run(logged + [DirectMessage(author, MutedDm(DiscordLink))], Done)
            else Run(logged, Done)
  }

  method Apply(logger: Logger, moderator: Id, msg: Message, net: Net) returns (r: Run)
    ensures r == Response(msg, moderator, logger.channel, net)
  {
    var content := msg.content;
    var reason := DiscordLink;
    var duration := Seconds(TenMinutes);
    if !(HasInvite(content) && msg.member.Some?) {
      return Run([], Done);
    }
    var author := msg.member.value;
    if !net.deleteOk {
      return Run([], Threw(CallFailed(DeleteCall)));
    }
    var effects := [DeleteMessage(msg.id)];
    if !net.timeoutOk {
      return Run(effects, Threw(CallFailed(TimeoutCall)));
    }
    effects := effects + [Timeout(author.id, duration * 1000, Some(reason))];
    var posting := logger.Log(Some(moderator), InviteLog(author.id, reason, duration), net.sendOk);
    if posting.NotPosted? {
      return Run(effects, Threw(posting.cause));
    }
    effects := effects + [posting.entry];
    if !net.logReplyOk {
      return Run(effects, Threw(CallFailed(LogReplyCall)));
    }
    effects := effects + [LogReply(msg.id, content)];
    if net.dmOk {
      effects := effects + [DirectMessage(author.id, MutedDm(reason))];
    }
    r := Run(effects, Done);
  }

  /** The run completes exactly when the four awaited calls succeed; the direct message never decides it. */
  lemma CompletesIff(msg: Message, moderator: Id, channel: Option<Id>, net: Net)
    requires HasInvite(msg.content) && msg.member.Some?
    ensures Response(msg, moderator, channel, net).outcome.Done? <==>
              net.deleteOk && net.timeoutOk && channel.Some? && net.sendOk && net.logReplyOk
    ensures Response(msg, moderator, channel, net).outcome ==
              Response(msg, moderator, channel, net.(dmOk := !net.dmOk)).outcome
  {
  }

  /**
   * A refused deletion or timeout is not caught: nothing after it happens. A
   * refused direct message comes last, after everything else has been done.
   */
  lemma UncaughtFailuresStop(msg: Message, moderator: Id, channel: Option<Id>, net: Net)
    requires HasInvite(msg.content) && msg.member.Some?
    ensures !net.deleteOk ==> Response(msg, moderator, channel, net) == Run([], Threw(CallFailed(DeleteCall)))
    ensures net.deleteOk && !net.timeoutOk ==>
              Response(msg, moderator, channel, net) == Run([DeleteMessage(msg.id)], Threw(CallFailed(TimeoutCall)))
    ensures Response(msg, moderator, channel, net.(dmOk := false)).effects
            <= Response(msg, moderator, channel, net.(dmOk := true)).effects
  {
  }

  /** When everything succeeds: the message goes, its author is muted for 600 000 ms, the moderator is pinged, then the author is told. */
  lemma FullTrace(msg: Message, moderator: Id, channel: Id, net: Net)
    requires HasInvite(msg.content) && msg.member.Some?
    requires net.deleteOk && net.timeoutOk && net.sendOk && net.logReplyOk && net.dmOk
    ensures var author := msg.member.value.id;
            Response(msg, moderator, Some(channel), net) ==
              Run([DeleteMessage(msg.id),
                   Timeout(author, 600000, Some(DiscordLink)),
                   Logged(channel, Some(moderator), InviteLog(author, DiscordLink, 600)),
                   LogReply(msg.id, msg.content),
                   DirectMessage(author, MutedDm(DiscordLink))], Done)
  {
  }

  /** Without a guild member as author, or without an invite, nothing at all happens. */
  lemma QuietWithoutMemberOrInvite(msg: Message, moderator: Id, channel: Option<Id>, net: Net)
    requires msg.member.None? || !HasInvite(msg.content)
    ensures Response(msg, moderator, channel, net) == Run([], Done)
  {
  }

  /** A short link followed by a code fires. */
  lemma ShortLinkFires()
    ensures HasInvite("discord.gg/abc")
  {
    assert InviteAt("discord.gg/abc", 0) by {
      assert OccursAt("discord.gg/abc", 0, ShortLinks[0]);
    }
  }

  /** Two occurrences side by side are an occurrence of the two patterns joined. */
  lemma OccursSideBySide(s: string, p: nat, a: string, b: string)
    requires OccursAt(s, p, a) && OccursAt(s, p + |a|, b)
    ensures OccursAt(s, p, a + b)
  {
    forall j | 0 <= j < |a + b| ensures SameLetter(s[p + j], (a + b)[j]) {
      if j >= |a| {
        assert s[p + j] == s[(p + |a|) + (j - |a|)];
      }
    }
  }

  /** An application link fires whatever its case. */
  lemma AppLinkFires()
    ensures HasInvite("discordapp.com/INVITE")
  {
    var s := "discordapp.com/INVITE";
    assert OccursAt(s, 0, "discordapp.com/");
    assert OccursAt(s, 15, "invite");
    OccursSideBySide(s, 0, "discordapp.com/", "invite");
    assert AppLinks[0] == "discordapp.com/" + "invite";
    assert InviteAt(s, 0);
  }

  /** A short link needs a code of letters or digits after the slash. */
  lemma ShortLinkNeedsCode()
    ensures !HasInvite("discord.gg/") && !HasInvite("discord.gg/-")
  {
    var s, t := "discord.gg/", "discord.gg/-";
    forall p | 0 <= p < |s| ensures !InviteAt(s, p) { }
    forall p | 0 <= p < |t| ensures !InviteAt(t, p) {
      assert !IsAlnum(t[11]);
    }
  }
}
