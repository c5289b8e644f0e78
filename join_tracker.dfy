/**
 * The daily join tracker of one guild: the configured tracking channel, the
 * count of today's joins, the latest joiner and the id of the tracking
 * message. The configuration store scopes every one of these per guild, so a
 * `Tracker` object stands for one guild's scope.
 *
 * Whether the stored message was created before today (a time-zone date
 * comparison in the source) and every platform call are inputs.
 */
module JoinTracker {
  import opened Wrappers

  type UserId = int
  type ChannelId = int
  type MessageId = int

  /**
   * Fetching the stored tracking message to read its date: fetched, with
   * whether its date is before today, or the error fetching raised.
   */
  datatype DateCheck = Fetched(beforeToday: bool) | NotFound | Forbidden

  /** Posting a new tracking message: its id, or a Forbidden error. */
  datatype SendResult = Sent(id: MessageId) | SendForbidden

  /** `_check_and_reset_if_needed` resets exactly when a message id is stored and that message dates from before today. */
  predicate ResetsForNewDay(lastMessage: MessageId, check: DateCheck) {
    lastMessage != 0 && check == Fetched(true)
  }

  /**
   * The stored message id after `_update_join_message`: kept when a stored
   * message was fetched and edited, otherwise the id of the newly sent
   * message, and unchanged when sending was refused.
   */
  function MessageAfterUpdate(lastMessage: MessageId, edited: bool, send: SendResult): MessageId {
    if lastMessage != 0 && edited then lastMessage
    else
      match send
      case Sent(id) => id
      case SendForbidden => lastMessage
  }

  class Tracker {
    var trackChannel: Option<ChannelId>
    var joinCount: int
    var lastJoiner: Option<UserId>
    /** 0 when no tracking message has been stored. */
    var lastJoinMessage: MessageId

    /** The count is never negative, and it is 0 exactly when nobody is recorded as the latest joiner. */
    ghost predicate Valid()
      reads this
    {
      joinCount >= 0 && (joinCount == 0 <==> lastJoiner.None?)
    }

    /** A channel id is configured (`None` and `0` are both falsy in the source). */
    predicate Configured()
      reads this
    {
      trackChannel.Some? && trackChannel.value != 0
    }

    /** The registered defaults. */
    constructor ()
      ensures Valid()
      ensures trackChannel == None && joinCount == 0 && lastJoiner == None && lastJoinMessage == 0
    {
      trackChannel := None;
      joinCount := 0;
      lastJoiner := None;
      lastJoinMessage := 0;
    }

    /** `jointracker setchannel`. */
    method SetChannel(channel: ChannelId)
      requires Valid()
      modifies this
      ensures Valid()
      ensures trackChannel == Some(channel)
      ensures joinCount == old(joinCount) && lastJoiner == old(lastJoiner) && lastJoinMessage == old(lastJoinMessage)
    {
      trackChannel := Some(channel);
    }

    /** `jointracker reset`: clears the count and the latest joiner, and nothing else. */
    method Reset()
      requires Valid()
      modifies this
      ensures Valid()
      ensures joinCount == 0 && lastJoiner == None
      ensures trackChannel == old(trackChannel) && lastJoinMessage == old(lastJoinMessage)
    {
      joinCount := 0;
      lastJoiner := None;
    }

    /**
     * `_check_and_reset_if_needed`: without a stored message id, or when
     * fetching the message fails, nothing changes; a message dated before
     * today clears the count and the latest joiner.
     */
    method CheckAndResetIfNeeded(check: DateCheck)
      requires Valid()
      modifies this
      ensures Valid()
      ensures ResetsForNewDay(old(lastJoinMessage), check) ==> joinCount == 0 && lastJoiner == None
      ensures !ResetsForNewDay(old(lastJoinMessage), check) ==> joinCount == old(joinCount) && lastJoiner == old(lastJoiner)
      ensures trackChannel == old(trackChannel) && lastJoinMessage == old(lastJoinMessage)
    {
      if lastJoinMessage == 0 {
        return;
      }
      match check
      case Fetched(beforeToday) =>
        if beforeToday {
          joinCount := 0;
          lastJoiner := None;
        }
      case NotFound =>
      case Forbidden =>
    }

    /**
     * `_update_join_message`: edit the stored message when it can be fetched
     * and edited (`edited`), else send a new one and store its id.
     */
    method UpdateJoinMessage(edited: bool, send: SendResult)
      requires Valid()
      modifies this
      ensures Valid()
      ensures lastJoinMessage == MessageAfterUpdate(old(lastJoinMessage), edited, send)
      ensures trackChannel == old(trackChannel) && joinCount == old(joinCount) && lastJoiner == old(lastJoiner)
    {
      if lastJoinMessage != 0 && edited {
        return;
      }
      match send
      case Sent(id) =>
        lastJoinMessage := id;
      case SendForbidden =>
    }

    /**
     * `on_member_join`: nothing changes without a configured channel or when
     * the channel cannot be resolved; otherwise the new-day reset may apply,
     * the count grows by exactly one, the member becomes the latest joiner,
     * and the tracking message is edited or replaced.
     */
    method OnMemberJoin(member: UserId, channelFound: bool, check: DateCheck, edited: bool, send: SendResult)
      requires Valid()
      modifies this
      ensures Valid()
      ensures !old(Configured()) || !channelFound ==>
                && joinCount == old(joinCount) && lastJoiner == old(lastJoiner)
                && lastJoinMessage == old(lastJoinMessage) && trackChannel == old(trackChannel)
      ensures old(Configured()) && channelFound ==>
                && joinCount == (if ResetsForNewDay(old(lastJoinMessage), check) then 0 else old(joinCount)) + 1
                && lastJoiner == Some(member)
                && lastJoinMessage == MessageAfterUpdate(old(lastJoinMessage), edited, send)
                && trackChannel == old(trackChannel)
    {
      if !Configured() {
        return;
      }
      if !channelFound {
        return;
      }
      CheckAndResetIfNeeded(check);
      joinCount := joinCount + 1;
      lastJoiner := Some(member);
      UpdateJoinMessage(edited, send);
    }
  }
}
