/**
 * The audit logger: one field, the logs channel, unset until the client
 * signals readiness; every log entry is a post in that channel.
 */
module ChannelLogger {

  import opened Options
  import opened Platform

  /** What `log` did: the post it made, or the exception it threw. */
  datatype Posting = Posted(entry: Effect) | NotPosted(cause: Failure)

  /**
   * The effect of `log` given the logs channel (`None` while unset) and the
   * verdict on the send.
   */
  function Post(channel: Option<Id>, ping: Option<Id>, notice: Notice, sendOk: bool): (p: Posting)
    ensures p.Posted? <==> channel.Some? && sendOk
    ensures p.Posted? ==> p.entry == Logged(channel.value, ping, notice)
    ensures channel.None? ==> p == NotPosted(LoggerNotReady)
    ensures channel.Some? && !sendOk ==> p == NotPosted(CallFailed(SendCall))
  {
    match channel
    case None => NotPosted(LoggerNotReady)
    case Some(c) => if sendOk then Posted(Logged(c, ping, notice)) else NotPosted(CallFailed(SendCall))
  }

  class Logger {
    /** `_channel`: the resolved logs channel, `None` until the ready handler has set it. */
    var channel: Option<Id>

    constructor ()
      ensures channel == None
    {
      channel := None;
    }

    /**
     * The `ClientReady` handler: looks the configured id up in the channel
     * cache (`cached`) and keeps it if it is a text channel, otherwise throws.
     */
    method OnReady(cached: Option<Channel>) returns (outcome: Outcome)
      modifies this
      ensures cached.Some? && cached.value.TextChannel? ==> channel == Some(cached.value.id) && outcome == Done
      ensures !(cached.Some? && cached.value.TextChannel?) ==>
                channel == old(channel) && outcome == Threw(LogsChannelMissing)
    {
      if cached.Some? && cached.value.TextChannel? {
        channel := Some(cached.value.id);
        outcome := Done;
      } else {
        outcome := Threw(LogsChannelMissing);
      }
    }

    /** `log`: one post in the logs channel, or an exception while the channel is unset. */
    method Log(ping: Option<Id>, notice: Notice, sendOk: bool) returns (p: Posting)
      ensures p == Post(channel, ping, notice, sendOk)
    {
      if channel.Some? {
        if sendOk {
          p := Posted(Logged(channel.value, ping, notice));
        } else {
          p := NotPosted(CallFailed(SendCall));
        }
      } else {
        p := NotPosted(LoggerNotReady);
      }
    }
  }

  /** Before the ready signal nothing can be logged; after a successful one every accepted send is a post in that channel. */
  method Lifecycle(textId: Id, notice: Notice) returns (early: Posting, refused: Outcome, late: Posting)
    ensures early == NotPosted(LoggerNotReady)
    ensures refused == Threw(LogsChannelMissing)
    ensures late == Posted(Logged(textId, None, notice))
  {
    var logger := new Logger();
    early := logger.Log(None, notice, true);
    refused := logger.OnReady(Some(OtherChannel(textId)));
    var ready := logger.OnReady(Some(TextChannel(textId)));
    late := logger.Log(None, notice, true);
  }
}
