/**
 * The lottery cog: the `lottery` command's duration check and timing, and the
 * draw that `_schedule_draw` performs once the duration has elapsed. The
 * platform calls are inputs (the outcome of posting the lottery message and
 * of confirming it, the re-fetched message or the error that fetching raised,
 * the users of a reaction or the error that listing them raised), and
 * `random.choice` is a nondeterministic pick among the participants.
 */
module Lottery {
  import opened Wrappers

  type UserId = int
  type MessageId = int

  datatype User = User(id: UserId, isBot: bool)

  /**
   * Listing the users of a reaction (`reaction.users()`): the users in
   * reaction order, or the NotFound or Forbidden error the listing raised.
   */
  datatype UsersListing = Users(users: seq<User>) | UsersNotFound | UsersForbidden

  /** A reaction on the lottery message: its emoji as a string and the listing of the users who reacted. */
  datatype Reaction = Reaction(emoji: string, users: UsersListing)

  /**
   * Posting the lottery message and adding the entry reaction: the posted
   * message's id, a Forbidden error, or another HTTP error (such as an invalid
   * emoji).
   */
  datatype PostResult = Posted(messageId: MessageId) | PostForbidden | PostHttpError

  /** What the `lottery` command ends in. */
  datatype StartOutcome =
    | InvalidDuration
    | EndOutOfRange                        // the end time lies past the last representable date
    | NoPermission
    | CreateFailed
    | ConfirmFailed(messageId: MessageId)  // posted, but the confirmation in the invoking channel raised
    | Scheduled(messageId: MessageId, endTimestamp: int, delaySeconds: int)

  /** 0001-01-01 00:00:00 UTC and 9999-12-31 23:59:59 UTC in seconds since the epoch: the range of a `datetime`. */
  const FirstTimestamp: int := -62135596800
  const LastTimestamp: int := 253402300799

  /** Adding the duration to the current time stays within the range of a `datetime`. */
  predicate EndInRange(duration: int, now: int) {
    now + duration * 60 <= LastTimestamp
  }

  /**
   * The `lottery` command for a duration in minutes, started at `now` (seconds
   * since the epoch, a reading of the clock and so a valid date). A
   * non-positive duration is refused before anything is computed; an end time
   * past the last date raises before anything is posted; otherwise a posted
   * message whose confirmation (`confirmed`) was sent gets a draw after
   * `duration * 60` seconds, at the announced end time `now + duration`
   * minutes.
   */
  function Start(duration: int, now: int, post: PostResult, confirmed: bool): (r: StartOutcome)
    requires FirstTimestamp <= now <= LastTimestamp
    ensures r.InvalidDuration? <==> duration <= 0
    ensures r.EndOutOfRange? <==> duration > 0 && !EndInRange(duration, now)
    ensures r.Scheduled? <==> duration > 0 && EndInRange(duration, now) && post.Posted? && confirmed
    ensures duration > 0 && EndInRange(duration, now) ==>
              && (post.PostForbidden? ==> r.NoPermission?)
              && (post.PostHttpError? ==> r.CreateFailed?)
              && (post.Posted? && !confirmed ==> r == ConfirmFailed(post.messageId))
    ensures r.Scheduled? ==> r.messageId == post.messageId
    ensures r.Scheduled? ==> r.delaySeconds > 0 && r.delaySeconds == duration * 60
    ensures r.Scheduled? ==> r.endTimestamp == now + r.delaySeconds && r.endTimestamp <= LastTimestamp
  {
    if duration <= 0 then InvalidDuration
    else if !EndInRange(duration, now) then EndOutOfRange
    else
      match post
      case PostForbidden => NoPermission
      case PostHttpError => CreateFailed
      case Posted(id) => if confirmed then Scheduled(id, now + duration * 60, duration * 60) else ConfirmFailed(id)
  }

  /** A lottery of 5,000,000,000 minutes started at the epoch ends past year 9999 and is never posted. */
  lemma HugeDurationOverflows()
    ensures Start(5000000000, 0, Posted(9), true) == EndOutOfRange
  {
  }

  // ---------------------------------------------------------------------------
  // The draw
  // ---------------------------------------------------------------------------

  /** Re-fetching the lottery message when the draw fires. */
  datatype Fetched = Message(reactions: seq<Reaction>) | MessageNotFound | MessageForbidden

  datatype DrawOutcome =
    | Silent                                        // the message is gone or unreadable
    | NoParticipants                                // no reaction with the lottery's emoji
    | NoValidParticipants                           // only bots reacted
    | Won(winner: User, totalParticipants: nat)

  /** The position of the first reaction whose emoji is `emoji`. */
  function TargetIndex(reactions: seq<Reaction>, emoji: string): (r: Option<nat>)
    ensures r.Some? ==> r.value < |reactions| && reactions[r.value].emoji == emoji
    ensures r.Some? ==> forall j :: 0 <= j < r.value ==> reactions[j].emoji != emoji
    ensures r.None? ==> forall j :: 0 <= j < |reactions| ==> reactions[j].emoji != emoji
  {
    if reactions == [] then None
    else if reactions[0].emoji == emoji then Some(0)
    else
      match TargetIndex(reactions[1..], emoji)
      case None => None
      case Some(j) => Some(j + 1)
  }

  /** The users that are not bots, in reaction order. */
  function Humans(users: seq<User>): seq<User> {
    if users == [] then [] else (if users[0].isBot then [] else [users[0]]) + Humans(users[1..])
  }

  lemma {:induction false} HumansConcat(a: seq<User>, b: seq<User>)
    ensures Humans(a + b) == Humans(a) + Humans(b)
  {
    if a != [] {
      HumansConcat(a[1..], b);
      assert (a + b)[1..] == a[1..] + b;
    } else {
      assert a + b == b;
    }
  }

  /** A participant is exactly a reacting user who is not a bot. */
  lemma {:induction false} HumansMembership(users: seq<User>, u: User)
    ensures u in Humans(users) <==> u in users && !u.isBot
  {
    if users != [] {
      HumansMembership(users[1..], u);
      assert users == [users[0]] + users[1..];
    }
  }

  /** There are no participants exactly when every reacting user is a bot. */
  lemma {:induction false} HumansEmptyIffAllBots(users: seq<User>)
    ensures Humans(users) == [] <==> forall i :: 0 <= i < |users| ==> users[i].isBot
  {
    if users != [] {
      HumansEmptyIffAllBots(users[1..]);
      assert forall i :: 1 <= i < |users| ==> users[i] == users[1..][i - 1];
    }
  }

  /** The first-match loop over the message's reactions. */
  method FindTargetReaction(reactions: seq<Reaction>, emoji: string) returns (target: Option<nat>)
    ensures target == TargetIndex(reactions, emoji)
  {
    target := None;
    var i := 0;
    while i < |reactions|
      invariant 0 <= i <= |reactions|
      invariant target == None
      invariant forall j :: 0 <= j < i ==> reactions[j].emoji != emoji
    {
      if reactions[i].emoji == emoji {
        target := Some(i);
        break;
      }
      i := i + 1;
    }
  }

  /** The loop that appends every reacting user who is not a bot. */
  method CollectParticipants(users: seq<User>) returns (participants: seq<User>)
    ensures participants == Humans(users)
  {
    participants := [];
    var i := 0;
    while i < |users|
      invariant 0 <= i <= |users|
      invariant participants == Humans(users[..i])
    {
      HumansConcat(users[..i], [users[i]]);
      assert users[..i + 1] == users[..i] + [users[i]];
      if !users[i].isBot {
        participants := participants + [users[i]];
      }
      i := i + 1;
    }
    assert users[..i] == users;
  }

  /**
   * The draw: a message that cannot be fetched ends it silently; no reaction
   * with the emoji means "No participants"; a users listing that raises
   * NotFound or Forbidden ends it silently too; only bots means "No valid
   * participants"; otherwise the winner is one of the participants (never a
   * bot) and the reported total is the number of participants.
   */
  method Draw(fetched: Fetched, emoji: string) returns (outcome: DrawOutcome)
    ensures !fetched.Message? ==> outcome == Silent
    ensures fetched.Message? && TargetIndex(fetched.reactions, emoji).None? ==> outcome == NoParticipants
    ensures fetched.Message? && TargetIndex(fetched.reactions, emoji).Some? ==>
              var listing := fetched.reactions[TargetIndex(fetched.reactions, emoji).value].users;
              && (!listing.Users? ==> outcome == Silent)
              && (listing.Users? ==>
                    var participants := Humans(listing.users);
                    && (participants == [] ==> outcome == NoValidParticipants)
                    && (participants != [] ==> outcome.Won? && outcome.winner in participants
                                               && outcome.totalParticipants == |participants|))
    ensures outcome.Won? ==> !outcome.winner.isBot
  {
    if !fetched.Message? {
      return Silent;
    }
    var target := FindTargetReaction(fetched.reactions, emoji);
    if target.None? {
      return NoParticipants;
    }
    var listing := fetched.reactions[target.value].users;
    if !listing.Users? {
      return Silent;
    }
    var users := listing.users;
    var participants := CollectParticipants(users);
    if participants == [] {
      return NoValidParticipants;
    }
    var k :| 0 <= k < |participants|;
    var winner := participants[k];
    HumansMembership(users, winner);
    outcome := Won(winner, |participants|);
  }
}
