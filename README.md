# Referral, lottery and join-tracker cogs: a Dafny model

This project models the state logic of three cogs of a chat-server bot:

- **Referral accumulation.** This is the main part.
  - The bot keeps an in-memory cache of each guild's invite use counts.
  - When a member joins, it works out which invite they used by comparing a fresh invite list with that cache.
  - It credits the invite's owner in a per-guild ledger. The ledger holds three stores: referral codes, referral edges (invited user to inviter) and points.
  - The ledger has two read-only views: the points leaderboard and the list of users one member invited.
- **Lottery.** The `lottery` command checks the duration and sets the timing. When the timer fires, the draw classifies the outcome: no matching reaction, only bots, or a winner.
- **Daily join tracker.** This is the counter state machine: a guard for an unconfigured or unresolvable channel, the new-day reset, the increment, the manual reset, and the choice between editing the tracking message and replacing it.

Modules:

| module | file | models |
|---|---|---|
| `Wrappers` | wrappers.dfy | `Option` (Python's `None`) |
| `Dicts` | dicts.dfy | insertion-ordered Python dicts as sequences of items |
| `ReferralLedger` | referral_ledger.dfy | snapshot, attribution rule, ledger updates, leaderboard, `myreferrals`, expiry arithmetic |
| `ReferralCog` | referral_cog.dfy | the cog object: invite cache and ledgers, event handlers, the two first-match loops |
| `Lottery` | lottery.dfy | duration check and timing, reaction selection, bot filtering, draw outcome |
| `JoinTracker` | join_tracker.dfy | one guild's tracker fields and their transitions |
| `DailyReset` | daily_reset.dfy | runs of joins over several days (the finding below) |

Modelling choices:

- **Dict order.** The configuration store's dicts are iterated in insertion order. That order decides three things: which owner is found first, how leaderboard ties are ordered, and the order of the `myreferrals` list. So these dicts are sequences of (key, value) items. Assigning to a present key replaces its value in place; assigning to a new key appends it.
- **Keys.** The source's keys are `str(id)`. Since `str` is injective on integers, they are modelled as the integer ids.
- **Missing guilds.** A guild with no stored configuration reads as the registered defaults.
- **The cache.** The invite cache is only read with `.get`, so it is a plain `map`.
- **Classes.** The cog state the source mutates (`invite_cache` and the configuration dicts; the tracker's four fields) lives in classes whose methods update fields.
- **Platform calls.** Every call to the platform becomes an input value or an error case. Random choice is a nondeterministic pick.

Referral edges are not first-write-wins: every attributed join overwrites the member's edge and gives the inviter another point. The lottery cog registers an `active_lotteries` setting but never reads or writes it; it has no weighted entries and no reruns, and a lottery lives only as long as its scheduled draw.

A consequence of rejoins re-crediting points is proved as an invariant of every ledger the cog builds: nobody is listed with more invitees than they have points.

## Model

| member | source | states |
|---|---|---|
| `Dicts.Lookup` | referralaccumulation/referralaccumulation.py:93 | a key's lookup is None exactly when no item has that key, and a found value belongs to an item with that key |
| `Dicts.Set` | referralaccumulation/referralaccumulation.py:88-93 | after `d[k] = v`, `k` maps to `v` and every other key keeps its lookup; the key order stays the same for a present key and gains `k` at the end for a new one |
| `Dicts.SetKeepsKeysDistinct` | referralaccumulation/referralaccumulation.py:133-134 | assigning to a dict with distinct keys keeps its keys distinct |
| `Dicts.LookupAt` | referralaccumulation/referralaccumulation.py:81-84 | in a dict with distinct keys, the item at any position is what its key looks up |
| `ReferralLedger.SnapshotContents` | referralaccumulation/referralaccumulation.py:74 | the cache entry built from an invite list has exactly the listed codes, each with the use count of its last listing |
| `ReferralLedger.UsedIndex` | referralaccumulation/referralaccumulation.py:63-71 | the credited invite is the first in list order whose uses exceed its cached count (an uncached code counts as 0); None exactly when no invite increased |
| `ReferralLedger.NewInviteCountsFromZero` | referralaccumulation/referralaccumulation.py:68-69 | with the cache `{code1: 5}` and the list `code1: 5, code2: 1`, `code2` is credited |
| `ReferralLedger.OwnerIndex` | referralaccumulation/referralaccumulation.py:78-84 | the owner found is the first user in the `invites` store whose code is the credited code; None when nobody stored it |
| `ReferralLedger.InviterOwnsUsedInvite` | referralaccumulation/referralaccumulation.py:76-86 | a credited inviter has a non-zero id, and their stored referral code is the code of the credited invite |
| `ReferralLedger.Credit` | referralaccumulation/referralaccumulation.py:88-93 | an attributed join sets `referrals[member]` to the inviter, overwriting any earlier value, and raises the inviter's points by exactly 1 from their old value (default 0); all other entries and the `invites` store are unchanged |
| `ReferralLedger.RecordInvite` | referralaccumulation/referralaccumulation.py:133-134 | the author's referral code becomes the new code; the other users' codes, the referrals and the points are unchanged |
| `ReferralLedger.InvitedByIff` | referralaccumulation/referralaccumulation.py:242-245 | a user is in the `myreferrals` list of `target` exactly when the store records `target` as their inviter |
| `ReferralLedger.InvitedBySetCount` | referralaccumulation/referralaccumulation.py:88-89 | overwriting one member's edge removes that member from the old inviter's list and adds them to the new inviter's list, and changes no other count |
| `ReferralLedger.EmptyLedgerConsistent` | referralaccumulation/referralaccumulation.py:14-18 | the registered defaults satisfy the ledger invariant |
| `ReferralLedger.CreditKeepsConsistent` | referralaccumulation/referralaccumulation.py:86-93 | an attributed join keeps the ledger invariant: distinct keys in each store, and no user listed with more invitees than points |
| `ReferralLedger.RecordInviteKeepsConsistent` | referralaccumulation/referralaccumulation.py:133-134 | storing a referral code keeps the ledger invariant |
| `ReferralLedger.RejoinRecredits` | referralaccumulation/referralaccumulation.py:88-93 | a second join of the same member through the same inviter keeps the edge, gives the inviter a second point, and adds no invitee |
| `ReferralLedger.ReattributionOverwrites` | referralaccumulation/referralaccumulation.py:88-93 | a member attributed to `a` and later to `b` is listed under `b` only, while both `a` and `b` keep exactly one new point |
| `ReferralLedger.SortByPointsCorrect` | referralaccumulation/referralaccumulation.py:177 | the leaderboard order is a permutation of the points entries with non-increasing points, and the entries with equal points keep their store order |
| `ReferralLedger.LeaderboardView` | referralaccumulation/referralaccumulation.py:170-201 | no board when no points are tracked; otherwise the first min(25, n) entries of the sorted order are shown, and the footer total is the number of all entries |
| `ReferralLedger.MyReferralsView` | referralaccumulation/referralaccumulation.py:238-276 | no page when the target has no invitees; otherwise the target's points (default 0), the first 25 invitees in store order, and a footer with the full count exactly when there are more than 25 |
| `ReferralLedger.ExpiryOf` | referralaccumulation/referralaccumulation.py:152-155 | "Never" exactly when `max_age` is not positive; otherwise minutes below 60, and the hours and minutes cover `max_age` up to under a minute of leftover seconds |
| `ReferralCog.RefreshedAllUntouched` | referralaccumulation/referralaccumulation.py:31-35 | at startup, a guild with no successful listing keeps its cache entry, or stays absent |
| `ReferralCog.RefreshedAllListed` | referralaccumulation/referralaccumulation.py:31-35 | at startup, a guild's last successful listing is its cache entry afterwards |
| `ReferralCog.FindUsedInvite` | referralaccumulation/referralaccumulation.py:66-71 | the first-match loop with `break` returns the credited invite of the attribution rule |
| `ReferralCog.FindOwner` | referralaccumulation/referralaccumulation.py:79-84 | the owner loop with `break` returns the first user whose stored code matches, or None |
| `ReferralCog.Cog.constructor` | referralaccumulation/referralaccumulation.py:14-21 | an empty cache and no stored ledgers, which satisfies the invariant |
| `ReferralCog.Cog.CacheInvites` | referralaccumulation/referralaccumulation.py:23-29 | a successful listing replaces the guild's cache entry with its snapshot; a Forbidden listing changes nothing; the ledgers are untouched |
| `ReferralCog.Cog.OnReady` | referralaccumulation/referralaccumulation.py:31-35 | the cache after refreshing every guild in turn |
| `ReferralCog.Cog.OnInviteCreate` | referralaccumulation/referralaccumulation.py:37-42 | sets exactly `cache[guild][code] = uses`, creating the guild's entry if it is missing |
| `ReferralCog.Cog.OnInviteDelete` | referralaccumulation/referralaccumulation.py:44-48 | removes only that code; a no-op when the guild is absent, and the same as no change when the code is absent |
| `ReferralCog.Cog.OnMemberJoin` | referralaccumulation/referralaccumulation.py:50-93 | a bot join or a Forbidden listing changes nothing. Otherwise the guild's cache becomes exactly the fetched snapshot, attributed or not, and the ledger changes only when a non-zero owner of the credited invite exists (then by `Credit`). The ledger invariant is kept |
| `ReferralCog.Cog.AwardReferral` | referralaccumulation/referralaccumulation.py:87-93 | the guild's ledger becomes `Credit` of its old ledger (edge set, inviter's points + 1), the ledger invariant is kept, and the cache and the other guilds are unchanged |
| `ReferralCog.Cog.CreateReferral` | referralaccumulation/referralaccumulation.py:120-137 | refused invite creation changes nothing; otherwise the code is stored as the author's and the guild's cache is refreshed |
| `Lottery.Start` | lottery/lottery.py:44-91 | for a clock reading within the date range (as `utcnow()` always is): a duration <= 0 is rejected whatever posting would do; a positive duration whose end time lies past 9999-12-31 raises before anything is posted. Otherwise the draw is scheduled exactly when posting succeeded and the confirmation was sent; it waits `duration * 60` seconds, and the end time is now plus that. Forbidden, other HTTP errors and a failed confirmation map to their own outcomes |
| `Lottery.HugeDurationOverflows` | lottery/lottery.py:49 | a lottery of 5,000,000,000 minutes started at the epoch overflows the date range and is never posted |
| `Lottery.TargetIndex` | lottery/lottery.py:97-102 | the target reaction is the first whose emoji string equals the lottery's emoji; None when none does |
| `Lottery.FindTargetReaction` | lottery/lottery.py:98-102 | the first-match loop with `break` finds the target reaction |
| `Lottery.HumansConcat` | lottery/lottery.py:116-120 | bot filtering keeps reaction order: filtering a concatenation is the concatenation of the filtered parts |
| `Lottery.HumansMembership` | lottery/lottery.py:116-120 | a user is a participant exactly when they reacted and are not a bot |
| `Lottery.HumansEmptyIffAllBots` | lottery/lottery.py:116-132 | there are no participants exactly when every reactor is a bot |
| `Lottery.CollectParticipants` | lottery/lottery.py:117-120 | the append loop yields exactly the non-bot reactors, in order |
| `Lottery.Draw` | lottery/lottery.py:93-166 | a message that is NotFound or Forbidden ends the draw silently. No matching reaction gives "No participants"; a NotFound or Forbidden while listing the reaction's users ends it silently; only bot reactors give "No valid participants". Otherwise the winner is an element of the participants, never a bot, and the reported total is their number |
| `JoinTracker.Tracker.constructor` | jointracker/jointracker.py:18-25 | the registered defaults: no channel, count 0, no latest joiner, no stored message |
| `JoinTracker.Tracker.SetChannel` | jointracker/jointracker.py:33-37 | sets the tracking channel and nothing else |
| `JoinTracker.Tracker.Reset` | jointracker/jointracker.py:70-75 | sets the count to 0 and the latest joiner to None, and touches nothing else |
| `JoinTracker.Tracker.CheckAndResetIfNeeded` | jointracker/jointracker.py:136-154 | resets the count and latest joiner exactly when a message id is stored and that message is fetched with a date before today. No stored id, NotFound or Forbidden leaves them unchanged |
| `JoinTracker.Tracker.UpdateJoinMessage` | jointracker/jointracker.py:156-184 | the stored id is unchanged when the stored message was fetched and edited. Otherwise the newly sent message's id is stored, and nothing changes when sending is Forbidden |
| `JoinTracker.Tracker.OnMemberJoin` | jointracker/jointracker.py:105-134 | nothing changes without a configured channel, or when the channel cannot be resolved. Otherwise the count becomes (0 if the new-day reset applies, else the old count) plus 1, the member becomes the latest joiner, and the message id follows `UpdateJoinMessage`. The count stays non-negative and is 0 exactly when there is no latest joiner |
| `DailyReset.CountAsWritten` | jointracker/jointracker.py:136-151 | with the source's date check, joins on non-decreasing days count correctly only while all fall on the first day; after that the count is 1 |
| `DailyReset.CountIntended` | jointracker/jointracker.py:136-151 | when the date check reads the day the message was last written, the count is the number of joins on the latest day |
| `DailyReset.SecondDayCounterexample` | jointracker/jointracker.py:144-150 | one join on day 1 and two on day 2: the source reports 1, the intended count is 2 |

## Findings

| source | as written | input that shows it | evidently intended | confidence | as-written member | corrected member |
|---|---|---|---|---|---|---|
| jointracker/jointracker.py:144-150 | the new-day test compares today with the creation date of the stored tracking message, and every later join edits that same message, so the date never moves | one join on day 1 and two joins on day 2, with the message always editable: after day 2 the counter reads 1 | reset when the message was last written on an earlier day, so day 2 reads 2 | high (not executed) | `DailyReset.CountAsWritten`, `DailyReset.SecondDayCounterexample` | `DailyReset.CountIntended` |

`JoinTracker.Tracker` takes the outcome of the date comparison as an input, so it models both versions. `DailyReset` supplies that input from the message's creation day, as written, or from the day of its last update, as intended.

## Left out

- Platform calls are inputs or error outcomes, not models:
  - listing, creating and deleting invites;
  - fetching, editing and sending messages;
  - adding reactions and iterating reaction users;
  - direct messages;
  - `guild.get_channel`.
- Deleting the author's previous invite in `referral` (referralaccumulation/referralaccumulation.py:106-118) is left out. It is a platform call with no effect on the cog's state, and the cache follows through `OnInviteDelete` and the refresh afterwards.
- Error paths left out:
  - HTTP errors other than Forbidden and NotFound raised inside `on_member_join`, `_update_join_message` or the draw;
  - the `lottery` command's confirmation failing is one outcome, whatever exception `ctx.send` raised (lottery/lottery.py:82);
  - the draw's catch-all that prints an error (lottery/lottery.py:167-168).

  These are unexpected-platform-failure paths with no state change to model.
- Lottery.Draw: when editing the message or posting the winner (lottery/lottery.py:113, 131, 158, 161) raises NotFound or Forbidden, the source ends silently after the outcome is decided. The model reports the decided outcome, because these failures change no state.
- Lottery.Draw: a users listing that fails part-way through is modelled as failing as a whole. The users gathered before the error are discarded in the source too.
- Embed and text rendering are left out: titles, medals, rank numbers, pluralisation, member mentions, and the join message template (jointracker/jointracker.py:162-167).
- Configuration persistence is left out. The store is in-memory maps, and `str(id)` keys are integer ids.
- Time zones and dates are left out. "The stored message's date is before today" is a boolean input.
- The lottery's end time uses integer seconds. The float `timestamp()` and its truncation are not modelled, and neither is how `timestamp()` reads the naive `utcnow()` value.
- ReferralCog.Cog.AwardReferral: the `referrals` write and the `points` write (referralaccumulation/referralaccumulation.py:88-93) happen as one step. The state between them could only be seen by a concurrent event, and concurrency is not modelled.
- `asyncio.sleep` scheduling and concurrency between simultaneous events are left out. Each event handler runs as one atomic step.
- `random.choice` and its random number generator are left out.
- Lottery.Draw: does not state that the winner is chosen uniformly, because the random choice is modelled as a nondeterministic pick from the participants.
- Read-only or configuration commands outside the modelled state logic are left out:
  - `referred` (referralaccumulation/referralaccumulation.py:205-230);
  - `settemplate`, `settimezone`, `status`;
  - `test`, which only calls `_update_join_message`.
- Invite use counts are integers. The platform may report none for some invites, and that case is not modelled.
