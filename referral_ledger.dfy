/**
 * The pure part of the referral cog: the invite-usage snapshot, the rule that
 * decides which invite a new member used, the ledger of referral edges and
 * points, and the two read-only views of that ledger (the points leaderboard
 * and the list of users one member invited).
 *
 * User ids are the configuration store's keys `str(id)`; since `str` is
 * injective on integers they are modelled as the integer ids themselves.
 */
module ReferralLedger {
  import opened Wrappers
  import opened Dicts

  type UserId = int
  type Code = string

  /** An invite as the platform lists it: its code and how often it was used. */
  datatype Invite = Invite(code: Code, uses: int)

  /** One guild's entry of the invite cache: invite code to last known use count. */
  type UsageCache = map<Code, int>

  const PageSize: nat := 25

  function Min(a: int, b: int): int {
    if a <= b then a else b
  }

  // ---------------------------------------------------------------------------
  // Invite-usage snapshots and the attribution rule
  // ---------------------------------------------------------------------------

  /** No invite after position `i` in `s` has the code of `s[i]`. */
  predicate LastWithCode(s: seq<Invite>, i: nat)
    requires i < |s|
  {
    forall j :: i < j < |s| ==> s[j].code != s[i].code
  }

  /** The cache entry built from a fresh invite list, `{inv.code: inv.uses for inv in s}`. */
  function Snapshot(s: seq<Invite>): UsageCache {
    if s == [] then map[]
    else Snapshot(s[..|s| - 1])[s[|s| - 1].code := s[|s| - 1].uses]
  }

  /**
   * A snapshot holds exactly the listed codes, each with the use count of its
   * last listing (later listings overwrite earlier ones).
   */
  lemma {:induction false} SnapshotContents(s: seq<Invite>)
    ensures forall code :: code in Snapshot(s) <==> exists i :: 0 <= i < |s| && s[i].code == code
    ensures forall i :: 0 <= i < |s| && LastWithCode(s, i) ==> Snapshot(s)[s[i].code] == s[i].uses
  {
    if s != [] {
      var n := |s| - 1;
      var t := s[..n];
      SnapshotContents(t);
      forall code | code in Snapshot(s)
        ensures exists i :: 0 <= i < |s| && s[i].code == code
      {
        if code != s[n].code {
          assert code in Snapshot(t);
          var i :| 0 <= i < |t| && t[i].code == code;
          assert s[i] == t[i];
        }
      }
      forall code | exists i :: 0 <= i < |s| && s[i].code == code
        ensures code in Snapshot(s)
      {
        var i :| 0 <= i < |s| && s[i].code == code;
        if i < n {
          assert t[i] == s[i];
        }
      }
      forall i | 0 <= i < |s| && LastWithCode(s, i)
        ensures Snapshot(s)[s[i].code] == s[i].uses
      {
        if i < n {
          assert s[n].code != s[i].code;
          assert LastWithCode(t, i) by {
            forall j | i < j < |t| ensures t[j].code != t[i].code {
              assert t[j] == s[j] && t[i] == s[i];
            }
          }
        }
      }
    }
  }

  /** `old_invites.get(code, 0)`: a code the cache does not know counts as never used. */
  function Cached(c: UsageCache, code: Code): int {
    if code in c then c[code] else 0
  }

  /** The invite was used since the cache last saw it. */
  predicate Increased(inv: Invite, c: UsageCache) {
    inv.uses > Cached(c, inv.code)
  }

  /**
   * The position of the invite credited for a join: the first one, in list
   * order, whose use count is strictly above its cached count; None when no
   * invite increased.
   */
  function UsedIndex(s: seq<Invite>, c: UsageCache): (r: Option<nat>)
    ensures r.Some? ==> r.value < |s| && Increased(s[r.value], c)
    ensures r.Some? ==> forall j :: 0 <= j < r.value ==> !Increased(s[j], c)
    ensures r.None? ==> forall j :: 0 <= j < |s| ==> !Increased(s[j], c)
  {
    if s == [] then None
    else if Increased(s[0], c) then Some(0)
    else
      match UsedIndex(s[1..], c)
      case None => None
      case Some(j) => Some(j + 1)
  }

  /**
   * The position, in the `invites` store (user to referral code), of the first
   * user whose stored code is `code`; None when nobody owns it.
   */
  function OwnerIndex(owners: Dict<UserId, Code>, code: Code): (r: Option<nat>)
    ensures r.Some? ==> r.value < |owners| && owners[r.value].1 == code
    ensures r.Some? ==> forall j :: 0 <= j < r.value ==> owners[j].1 != code
    ensures r.None? ==> forall j :: 0 <= j < |owners| ==> owners[j].1 != code
  {
    if owners == [] then None
    else if owners[0].1 == code then Some(0)
    else
      match OwnerIndex(owners[1..], code)
      case None => None
      case Some(j) => Some(j + 1)
  }

  /**
   * The user credited for a join, given the fresh invite list, the guild's
   * cache entry from before the join and the `invites` store. An owner whose
   * id is 0 is falsy in the source's `if inviter_id:` and credits nobody.
   */
  function Inviter(fetched: seq<Invite>, cache: UsageCache, owners: Dict<UserId, Code>): Option<UserId> {
    match UsedIndex(fetched, cache)
    case None => None
    case Some(i) =>
      match OwnerIndex(owners, fetched[i].code)
      case None => None
      case Some(j) => if owners[j].0 != 0 then Some(owners[j].0) else None
  }

  /** A credited inviter is a non-zero user whose stored referral code is the code of the credited invite. */
  lemma InviterOwnsUsedInvite(fetched: seq<Invite>, cache: UsageCache, owners: Dict<UserId, Code>, u: UserId)
    requires KeysDistinct(owners)
    requires Inviter(fetched, cache, owners) == Some(u)
    ensures u != 0
    ensures UsedIndex(fetched, cache).Some?
    ensures Lookup(owners, u) == Some(fetched[UsedIndex(fetched, cache).value].code)
  {
    var j := OwnerIndex(owners, fetched[UsedIndex(fetched, cache).value].code).value;
    LookupAt(owners, j);
  }

  /** The example of an invite that appears with one use after the cache was taken. */
  lemma NewInviteCountsFromZero()
    ensures UsedIndex([Invite("code1", 5), Invite("code2", 1)], map["code1" := 5]) == Some(1)
  {
  }

  // ---------------------------------------------------------------------------
  // The ledger: referral codes, referral edges and points of one guild
  // ---------------------------------------------------------------------------

  /**
   * One guild's configuration: `invites` (user to referral code),
   * `referrals` (invited user to inviter) and `points` (user to points).
   */
  datatype Ledger = Ledger(invites: Dict<UserId, Code>, referrals: Dict<UserId, UserId>, points: Dict<UserId, int>)

  /** The registered defaults of a guild that has no configuration yet. */
  const EmptyLedger := Ledger([], [], [])

  /** `points.get(str(u), 0)`. */
  function PointsOf(l: Ledger, u: UserId): int {
    Get(l.points, u, 0)
  }

  /**
   * The ledger after a join attributed to `inviter`: the member's edge is set
   * (overwriting an earlier one) and the inviter gains exactly one point.
   */
  function Credit(l: Ledger, member: UserId, inviter: UserId): (r: Ledger)
    ensures r.invites == l.invites
    ensures Lookup(r.referrals, member) == Some(inviter)
    ensures forall u :: u != member ==> Lookup(r.referrals, u) == Lookup(l.referrals, u)
    ensures PointsOf(r, inviter) == PointsOf(l, inviter) + 1
    ensures forall u :: u != inviter ==> Lookup(r.points, u) == Lookup(l.points, u)
  {
    l.(referrals := Set(l.referrals, member, inviter),
       points := Set(l.points, inviter, PointsOf(l, inviter) + 1))
  }

  /** The ledger after `create_referral` stores `code` as the author's referral code. */
  function RecordInvite(l: Ledger, author: UserId, code: Code): (r: Ledger)
    ensures Lookup(r.invites, author) == Some(code)
    ensures forall u :: u != author ==> Lookup(r.invites, u) == Lookup(l.invites, u)
    ensures r.referrals == l.referrals && r.points == l.points
  {
    l.(invites := Set(l.invites, author, code))
  }

  /** `[user for user, inviter in referrals.items() if inviter == target]`. */
  function InvitedBy(referrals: Dict<UserId, UserId>, target: UserId): seq<UserId> {
    if referrals == [] then []
    else (if referrals[0].1 == target then [referrals[0].0] else []) + InvitedBy(referrals[1..], target)
  }

  /** A user is listed as invited by `target` exactly when the store records `target` as their inviter. */
  lemma {:induction false} InvitedByIff(referrals: Dict<UserId, UserId>, target: UserId, u: UserId)
    requires KeysDistinct(referrals)
    ensures u in InvitedBy(referrals, target) <==> Lookup(referrals, u) == Some(target)
  {
    if referrals != [] {
      InvitedByIff(referrals[1..], target, u);
    }
  }

  /** Setting one edge moves at most one user between the inviters' lists. */
  lemma {:induction false} InvitedBySetCount(referrals: Dict<UserId, UserId>, m: UserId, v: UserId, t: UserId)
    ensures |InvitedBy(Set(referrals, m, v), t)|
         == |InvitedBy(referrals, t)| - (if Lookup(referrals, m) == Some(t) then 1 else 0) + (if v == t then 1 else 0)
  {
    var r := Set(referrals, m, v);
    if referrals == [] {
      assert r[1..] == [];
    } else if referrals[0].0 == m {
      assert r[1..] == referrals[1..];
    } else {
      InvitedBySetCount(referrals[1..], m, v, t);
      assert r[1..] == Set(referrals[1..], m, v);
    }
  }

  /**
   * What every ledger the cog builds satisfies: each store has distinct keys,
   * and nobody is listed with more invitees than points (a rejoin re-credits
   * without adding an invitee, and a re-attribution moves the invitee but
   * keeps the old inviter's point).
   */
  ghost predicate Consistent(l: Ledger) {
    && KeysDistinct(l.invites)
    && KeysDistinct(l.referrals)
    && KeysDistinct(l.points)
    && forall u :: |InvitedBy(l.referrals, u)| <= PointsOf(l, u)
  }

  lemma EmptyLedgerConsistent()
    ensures Consistent(EmptyLedger)
  {
  }

  lemma CreditKeepsConsistent(l: Ledger, member: UserId, inviter: UserId)
    requires Consistent(l)
    ensures Consistent(Credit(l, member, inviter))
  {
    var r := Credit(l, member, inviter);
    SetKeepsKeysDistinct(l.referrals, member, inviter);
    SetKeepsKeysDistinct(l.points, inviter, PointsOf(l, inviter) + 1);
    forall u
      ensures |InvitedBy(r.referrals, u)| <= PointsOf(r, u)
    {
      InvitedBySetCount(l.referrals, member, inviter, u);
    }
  }

  lemma RecordInviteKeepsConsistent(l: Ledger, author: UserId, code: Code)
    requires Consistent(l)
    ensures Consistent(RecordInvite(l, author, code))
  {
    SetKeepsKeysDistinct(l.invites, author, code);
  }

  /**
   * A member who joins twice through the same inviter keeps that inviter and
   * earns them two points, while the inviter's list of invitees does not grow
   * the second time: attribution is not first-write-wins.
   */
  lemma RejoinRecredits(l: Ledger, member: UserId, inviter: UserId)
    ensures var once := Credit(l, member, inviter);
            var twice := Credit(once, member, inviter);
            && Lookup(twice.referrals, member) == Some(inviter)
            && PointsOf(twice, inviter) == PointsOf(l, inviter) + 2
            && |InvitedBy(twice.referrals, inviter)| == |InvitedBy(once.referrals, inviter)|
  {
    var once := Credit(l, member, inviter);
    InvitedBySetCount(once.referrals, member, inviter, inviter);
  }

  /**
   * A member attributed first to `a` and later to `b` ends up recorded under
   * `b` only, and both inviters keep the point they were given.
   */
  lemma ReattributionOverwrites(l: Ledger, member: UserId, a: UserId, b: UserId)
    requires KeysDistinct(l.referrals)
    requires a != b
    ensures var twice := Credit(Credit(l, member, a), member, b);
            && Lookup(twice.referrals, member) == Some(b)
            && member !in InvitedBy(twice.referrals, a)
            && member in InvitedBy(twice.referrals, b)
            && PointsOf(twice, a) == PointsOf(l, a) + 1
            && PointsOf(twice, b) == PointsOf(l, b) + 1
  {
    var once := Credit(l, member, a);
    var twice := Credit(once, member, b);
    SetKeepsKeysDistinct(l.referrals, member, a);
    SetKeepsKeysDistinct(once.referrals, member, b);
    InvitedByIff(twice.referrals, a, member);
    InvitedByIff(twice.referrals, b, member);
  }

  // ---------------------------------------------------------------------------
  // The leaderboard: `sorted(points.items(), key=lambda x: x[1], reverse=True)`
  // ---------------------------------------------------------------------------

  type Entry = (UserId, int)

  predicate NonIncreasing(s: seq<Entry>) {
    forall i, j :: 0 <= i < j < |s| ==> s[i].1 >= s[j].1
  }

  /** The entries of `s` that have exactly `p` points, in their order in `s`. */
  function WithPoints(s: seq<Entry>, p: int): seq<Entry> {
    if s == [] then [] else (if s[0].1 == p then [s[0]] else []) + WithPoints(s[1..], p)
  }

  /** Puts `e` before the first entry that has no more points than `e`. */
  function InsertByPoints(e: Entry, s: seq<Entry>): (r: seq<Entry>)
    ensures |r| == |s| + 1
  {
    if s == [] || s[0].1 <= e.1 then [e] + s else [s[0]] + InsertByPoints(e, s[1..])
  }

  /**
   * Python's stable sort by points, descending (`reverse=True` keeps equal
   * entries in their original order), as an insertion sort.
   */
  function SortByPoints(s: seq<Entry>): (r: seq<Entry>)
    ensures |r| == |s|
  {
    if s == [] then [] else InsertByPoints(s[0], SortByPoints(s[1..]))
  }

  lemma {:induction false} InsertByPointsPermutes(e: Entry, s: seq<Entry>)
    ensures multiset(InsertByPoints(e, s)) == multiset(s) + multiset{e}
  {
    if s != [] && s[0].1 > e.1 {
      InsertByPointsPermutes(e, s[1..]);
      assert s == [s[0]] + s[1..];
    }
  }

  lemma {:induction false} InsertByPointsOrdered(e: Entry, s: seq<Entry>)
    requires NonIncreasing(s)
    ensures NonIncreasing(InsertByPoints(e, s))
  {
    if s != [] && s[0].1 > e.1 {
      var t := InsertByPoints(e, s[1..]);
      InsertByPointsOrdered(e, s[1..]);
      InsertByPointsPermutes(e, s[1..]);
      forall j | 0 <= j < |t|
        ensures s[0].1 >= t[j].1
      {
        assert t[j] in multiset(t);
        assert t[j] == e || t[j] in multiset(s[1..]);
      }
    }
  }

  lemma {:induction false} InsertByPointsStable(e: Entry, s: seq<Entry>, p: int)
    ensures WithPoints(InsertByPoints(e, s), p) == (if e.1 == p then [e] else []) + WithPoints(s, p)
  {
    var r := InsertByPoints(e, s);
    if s == [] || s[0].1 <= e.1 {
      assert r[1..] == s;
    } else {
      InsertByPointsStable(e, s[1..], p);
      assert r[1..] == InsertByPoints(e, s[1..]);
      assert s[0].1 == p ==> e.1 != p;
    }
  }

  /**
   * The leaderboard order is a permutation of the points entries, has
   * non-increasing points, and lists the entries of every points value in
   * their store order (ties are not reordered).
   */
  lemma {:induction false} SortByPointsCorrect(s: seq<Entry>)
    ensures multiset(SortByPoints(s)) == multiset(s)
    ensures NonIncreasing(SortByPoints(s))
    ensures forall p :: WithPoints(SortByPoints(s), p) == WithPoints(s, p)
  {
    if s != [] {
      var t := SortByPoints(s[1..]);
      SortByPointsCorrect(s[1..]);
      InsertByPointsPermutes(s[0], t);
      InsertByPointsOrdered(s[0], t);
      assert s == [s[0]] + s[1..];
      forall p
        ensures WithPoints(SortByPoints(s), p) == WithPoints(s, p)
      {
        InsertByPointsStable(s[0], t, p);
      }
    }
  }

  /** What the `referrals` command shows: at most 25 entries and the count of all. */
  datatype Board = Board(shown: seq<Entry>, total: nat)

  /** The leaderboard view; None ("No referrals tracked yet!") when no user has points. */
  function LeaderboardView(points: Dict<UserId, int>): (r: Option<Board>)
    ensures r.None? <==> points == []
    ensures r.Some? ==> r.value.total == |points|
    ensures r.Some? ==> |r.value.shown| == Min(PageSize, |points|)
    ensures r.Some? ==> r.value.shown == SortByPoints(points)[..|r.value.shown|]
  {
    if points == [] then None
    else
      var sorted := SortByPoints(points);
      Some(Board(sorted[..Min(PageSize, |sorted|)], |sorted|))
  }

  // ---------------------------------------------------------------------------
  // `myreferrals`: the users one member invited
  // ---------------------------------------------------------------------------

  /** What `myreferrals` shows for a target user with at least one invitee. */
  datatype ReferralsPage = ReferralsPage(totalPoints: int, listed: seq<UserId>, footer: Option<nat>)

  /**
   * The `myreferrals` view: None ("hasn't invited anyone yet") when nobody is
   * recorded as invited by `target`; otherwise the target's points, the first
   * 25 invitees in store order, and a footer with the full count only when
   * there are more than 25.
   */
  function MyReferralsView(l: Ledger, target: UserId): (r: Option<ReferralsPage>)
    ensures r.None? <==> InvitedBy(l.referrals, target) == []
    ensures r.Some? ==> r.value.totalPoints == PointsOf(l, target)
    ensures r.Some? ==> var all := InvitedBy(l.referrals, target);
                        r.value.listed == all[..Min(PageSize, |all|)]
    ensures r.Some? ==> (r.value.footer.Some? <==> |InvitedBy(l.referrals, target)| > PageSize)
    ensures r.Some? && r.value.footer.Some? ==> r.value.footer.value == |InvitedBy(l.referrals, target)|
  {
    var all := InvitedBy(l.referrals, target);
    if all == [] then None
    else
      Some(ReferralsPage(PointsOf(l, target), all[..Min(PageSize, |all|)],
                         if |all| > PageSize then Some(|all|) else None))
  }

  // ---------------------------------------------------------------------------
  // `referral`: the "Expires In" detail
  // ---------------------------------------------------------------------------

  /**
   * `max_age // 3600` hours and `(max_age % 3600) // 60` minutes, or None
   * ("Never") when `max_age` is not positive. The hours and minutes account
   * for `max_age` up to its leftover seconds.
   */
  function ExpiryOf(maxAge: int): (r: Option<(nat, nat)>)
    ensures r.None? <==> maxAge <= 0
    ensures r.Some? ==> r.value.1 < 60
    ensures r.Some? ==> r.value.0 * 3600 + r.value.1 * 60 <= maxAge < r.value.0 * 3600 + r.value.1 * 60 + 60
  {
    if maxAge <= 0 then None
    else
      var h, rest := maxAge / 3600, maxAge % 3600;
      assert maxAge == h * 3600 + rest;
      var m := rest / 60;
      assert rest == m * 60 + rest % 60;
      Some((h, m))
  }
}
