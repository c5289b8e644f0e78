/**
 * The stateful part of the referral cog: the in-memory invite cache
 * (guild to invite code to use count) and each guild's ledger in the
 * configuration store, updated by the platform's events and by the
 * `referral` command. Every platform call is an input: an invite listing
 * that may be refused, the code of a created invite or None when creation
 * was refused.
 */
module ReferralCog {
  import opened Wrappers
  import opened Dicts
  import opened ReferralLedger

  type GuildId = int

  datatype Member = Member(id: UserId, isBot: bool)

  /** What `await guild.invites()` gives: the current invites, or a Forbidden error. */
  datatype InviteListing = Listed(invites: seq<Invite>) | ListForbidden

  /** The cache after `cache_invites(g)` with the given listing. */
  function Refreshed(cache: map<GuildId, UsageCache>, g: GuildId, listing: InviteListing): map<GuildId, UsageCache> {
    match listing
    case Listed(s) => cache[g := Snapshot(s)]
    case ListForbidden => cache
  }

  /** The cache after `cache_invites` ran for each (guild, listing) in turn. */
  function RefreshedAll(cache: map<GuildId, UsageCache>, listings: seq<(GuildId, InviteListing)>): map<GuildId, UsageCache> {
    if listings == [] then cache
    else
      var n := |listings| - 1;
      Refreshed(RefreshedAll(cache, listings[..n]), listings[n].0, listings[n].1)
  }

  /** A guild that was never listed successfully keeps its cache entry, or its absence. */
  lemma {:induction false} RefreshedAllUntouched(cache: map<GuildId, UsageCache>, listings: seq<(GuildId, InviteListing)>, g: GuildId)
    requires forall i :: 0 <= i < |listings| ==> listings[i].0 != g || listings[i].1.ListForbidden?
    ensures (g in RefreshedAll(cache, listings)) == (g in cache)
    ensures g in cache ==> RefreshedAll(cache, listings)[g] == cache[g]
  {
    if listings != [] {
      var n := |listings| - 1;
      RefreshedAllUntouched(cache, listings[..n], g);
    }
  }

  /** The last listing of a guild, when it succeeded, is that guild's cache entry afterwards. */
  lemma {:induction false} RefreshedAllListed(cache: map<GuildId, UsageCache>, listings: seq<(GuildId, InviteListing)>, i: nat)
    requires i < |listings| && listings[i].1.Listed?
    requires forall j :: i < j < |listings| ==> listings[j].0 != listings[i].0
    ensures listings[i].0 in RefreshedAll(cache, listings)
    ensures RefreshedAll(cache, listings)[listings[i].0] == Snapshot(listings[i].1.invites)
  {
    var n := |listings| - 1;
    if i < n {
      RefreshedAllListed(cache, listings[..n], i);
    }
  }

  /** The first-match loop of `on_member_join`: which fresh invite is credited. */
  method FindUsedInvite(fetched: seq<Invite>, cache: UsageCache) returns (used: Option<nat>)
    ensures used == UsedIndex(fetched, cache)
  {
    used := None;
    var i := 0;
    while i < |fetched|
      invariant 0 <= i <= |fetched|
      invariant used == None
      invariant forall j :: 0 <= j < i ==> !Increased(fetched[j], cache)
    {
      if fetched[i].uses > Cached(cache, fetched[i].code) {
        used := Some(i);
        break;
      }
      i := i + 1;
    }
  }

  /** The first-match loop over the `invites` store: the first user owning `code`. */
  method FindOwner(owners: Dict<UserId, Code>, code: Code) returns (owner: Option<UserId>)
    ensures owner.Some? <==> OwnerIndex(owners, code).Some?
    ensures owner.Some? ==> owner.value == owners[OwnerIndex(owners, code).value].0
  {
    owner := None;
    var i := 0;
    while i < |owners|
      invariant 0 <= i <= |owners|
      invariant owner == None
      invariant forall j :: 0 <= j < i ==> owners[j].1 != code
    {
      if owners[i].1 == code {
        owner := Some(owners[i].0);
        assert OwnerIndex(owners, code) == Some(i);
        break;
      }
      i := i + 1;
    }
  }

  class Cog {
    /** `self.invite_cache`: guild to invite code to last known use count. */
    var inviteCache: map<GuildId, UsageCache>
    /** The configuration store, one ledger per guild that has written one. */
    var ledgers: map<GuildId, Ledger>

    /** `self.invite_cache.get(guild.id, {})`. */
    function CacheOf(g: GuildId): UsageCache
      reads this
    {
      if g in inviteCache then inviteCache[g] else map[]
    }

    /** `self.config.guild(g)`: a guild without stored data reads as the registered defaults. */
    function LedgerOf(g: GuildId): Ledger
      reads this
    {
      if g in ledgers then ledgers[g] else EmptyLedger
    }

    ghost predicate Valid()
      reads this
    {
      forall g :: g in ledgers ==> Consistent(ledgers[g])
    }

    constructor ()
      ensures Valid()
      ensures inviteCache == map[] && ledgers == map[]
    {
      inviteCache := map[];
      ledgers := map[];
    }

    /** `cache_invites`: replace the guild's entry by a snapshot; a Forbidden listing changes nothing. */
    method CacheInvites(g: GuildId, listing: InviteListing)
      requires Valid()
      modifies this
      ensures Valid()
      ensures inviteCache == Refreshed(old(inviteCache), g, listing)
      ensures ledgers == old(ledgers)
    {
      match listing
      case Listed(s) =>
        inviteCache := inviteCache[g := Snapshot(s)];
      case ListForbidden =>
    }

    /** `on_ready`: `cache_invites` for every guild, in turn. */
    method OnReady(listings: seq<(GuildId, InviteListing)>)
      requires Valid()
      modifies this
      ensures Valid()
      ensures inviteCache == RefreshedAll(old(inviteCache), listings)
      ensures ledgers == old(ledgers)
    {
      var i := 0;
      while i < |listings|
        invariant 0 <= i <= |listings|
        invariant Valid()
        invariant inviteCache == RefreshedAll(old(inviteCache), listings[..i])
        invariant ledgers == old(ledgers)
      {
        CacheInvites(listings[i].0, listings[i].1);
        assert listings[..i + 1][..i] == listings[..i];
        i := i + 1;
      }
      assert listings[..i] == listings;
    }

    /** `on_invite_create`: record the new invite's use count, creating the guild's entry if missing. */
    method OnInviteCreate(g: GuildId, code: Code, uses: int)
      requires Valid()
      modifies this
      ensures Valid()
      ensures inviteCache == old(inviteCache)[g := old(CacheOf(g))[code := uses]]
      ensures ledgers == old(ledgers)
    {
      if g !in inviteCache {
        inviteCache := inviteCache[g := map[]];
      }
      inviteCache := inviteCache[g := inviteCache[g][code := uses]];
    }

    /** `on_invite_delete`: drop only that code; nothing happens when the guild or the code is absent. */
    method OnInviteDelete(g: GuildId, code: Code)
      requires Valid()
      modifies this
      ensures Valid()
      ensures g in old(inviteCache) ==> inviteCache == old(inviteCache)[g := old(inviteCache)[g] - {code}]
      ensures g !in old(inviteCache) ==> inviteCache == old(inviteCache)
      ensures ledgers == old(ledgers)
    {
      if g in inviteCache {
        inviteCache := inviteCache[g := inviteCache[g] - {code}];
      }
    }

    /**
     * `on_member_join`: bots and a refused listing are ignored. Otherwise the
     * fresh listing is diffed against the cache, the cache is replaced by the
     * listing's snapshot, and when the credited invite has a (non-zero) owner
     * the member's referral edge is set and the owner gains a point.
     */
    method OnMemberJoin(g: GuildId, member: Member, listing: InviteListing)
      requires Valid()
      modifies this
      ensures Valid()
      ensures member.isBot || listing.ListForbidden? ==> inviteCache == old(inviteCache) && ledgers == old(ledgers)
      ensures !member.isBot && listing.Listed? ==> inviteCache == old(inviteCache)[g := Snapshot(listing.invites)]
      ensures !member.isBot && listing.Listed? ==>
                ledgers == match Inviter(listing.invites, old(CacheOf(g)), old(LedgerOf(g)).invites)
                           case None => old(ledgers)
                           case Some(u) => old(ledgers)[g := Credit(old(LedgerOf(g)), member.id, u)]
    {
      if member.isBot {
        return;
      }
      if listing.ListForbidden? {
        return;
      }
      var fetched := listing.invites;
      var cached := CacheOf(g);
      var used := FindUsedInvite(fetched, cached);
      inviteCache := inviteCache[g := Snapshot(fetched)];
      if used.Some? {
        var l := LedgerOf(g);
        var owner := FindOwner(l.invites, fetched[used.value].code);
        assert Inviter(fetched, cached, l.invites) == if owner.Some? && owner.value != 0 then owner else None;
        if owner.Some? && owner.value != 0 {
          AwardReferral(g, member.id, owner.value);
        }
      }
    }

    /**
     * Lines 88-93 of `on_member_join`: `referrals[member] = inviter`, then
     * `points[inviter] = points.get(inviter, 0) + 1`. The two scoped writes
     * are one step here: no other event runs between them in this model.
     */
    method AwardReferral(g: GuildId, member: UserId, inviter: UserId)
      requires Valid()
      modifies this
      ensures Valid()
      ensures ledgers == old(ledgers)[g := Credit(old(LedgerOf(g)), member, inviter)]
      ensures inviteCache == old(inviteCache)
    {
      var l := LedgerOf(g);
      CreditKeepsConsistent(l, member, inviter);
      ledgers := ledgers[g := Credit(l, member, inviter)];
    }

    /**
     * The state change of `referral`: when the platform created an invite,
     * its code becomes the author's referral code and the guild's cache is
     * refreshed; when creation was refused nothing changes.
     */
    method CreateReferral(g: GuildId, author: UserId, created: Option<Code>, refreshed: InviteListing)
      requires Valid()
      modifies this
      ensures Valid()
      ensures created.None? ==> inviteCache == old(inviteCache) && ledgers == old(ledgers)
      ensures created.Some? ==> ledgers == old(ledgers)[g := RecordInvite(old(LedgerOf(g)), author, created.value)]
      ensures created.Some? ==> inviteCache == Refreshed(old(inviteCache), g, refreshed)
    {
      if created.None? {
        return;
      }
      var l := LedgerOf(g);
      RecordInviteKeepsConsistent(l, author, created.value);
      ledgers := ledgers[g := RecordInvite(l, author, created.value)];
      CacheInvites(g, refreshed);
    }
  }
}
