/**
 * When room can be made for a listing: what is reserved for builds and for
 * listings that somebody holds has to leave enough, whatever else is cached.
 */
module DirectoryRoom {
  import opened DirectoryLedger
  import opened Wrappers

  /** What the listings cost that somebody holds. */
  function HeldCost(caches: seq<Cached>, leases: map<Id, nat>): nat {
    if caches == [] then 0
    else
      var last := caches[|caches| - 1];
      HeldCost(caches[..|caches| - 1], leases) + if Held(leases, last.id) > 0 then last.listing.cost else 0
  }

  function HeldCount(caches: seq<Cached>, leases: map<Id, nat>): nat {
    if caches == [] then 0
    else HeldCount(caches[..|caches| - 1], leases) + if Held(leases, caches[|caches| - 1].id) > 0 then 1 else 0
  }

  /** There is room for `charge` bytes beside all builds under way and all listings in use. */
  predicate HasRoom(l: Ledger, charge: nat, b: Bounds) {
    HeldCost(l.caches, l.leases) + Reserving(l.slots) + charge <= b.maxBytes
  }

  /** There is a place beside the listings in use. */
  predicate HasPlace(l: Ledger, b: Bounds) {
    HeldCount(l.caches, l.leases) < b.maxCaches
  }

  ghost predicate SameHolding(leases: map<Id, nat>, leases': map<Id, nat>) {
    forall id :: Held(leases', id) == Held(leases, id)
  }

  lemma {:induction false} HeldAlike(caches: seq<Cached>, leases: map<Id, nat>, leases': map<Id, nat>)
    requires SameHolding(leases, leases')
    ensures HeldCost(caches, leases') == HeldCost(caches, leases) && HeldCount(caches, leases') == HeldCount(caches, leases)
    decreases |caches|
  {
    if caches != [] { HeldAlike(caches[..|caches| - 1], leases, leases'); }
  }

  lemma {:induction false} IdleWithout(caches: seq<Cached>, k: nat, leases: map<Id, nat>)
    requires k < |caches| && Held(leases, caches[k].id) == 0
    ensures HeldCost(Without(caches, k), leases) == HeldCost(caches, leases)
    ensures HeldCount(Without(caches, k), leases) == HeldCount(caches, leases)
    decreases |caches|
  {
    var init := caches[..|caches| - 1];
    if k < |init| {
      IdleWithout(init, k, leases);
      var less := Without(caches, k);
      assert less[..|less| - 1] == Without(init, k) && less[|less| - 1] == caches[|caches| - 1];
    } else {
      assert Without(caches, k) == init;
    }
  }

  /** An idle listing that leaves takes nothing from those in use. */
  lemma IdleLeaves(l: Ledger, k: nat)
    requires k < |l.caches| && Held(l.leases, l.caches[k].id) == 0
    ensures HeldCost(Remove(l, k).caches, Remove(l, k).leases) == HeldCost(l.caches, l.leases)
    ensures HeldCount(Remove(l, k).caches, Remove(l, k).leases) == HeldCount(l.caches, l.leases)
  {
    IdleWithout(l.caches, k, l.leases);
    HeldAlike(Without(l.caches, k), l.leases, l.leases - {l.caches[k].id});
  }

  lemma {:induction false} PruneLeavesHeld(l: Ledger, k: nat, now: int)
    requires k <= |l.caches|
    ensures var m := PruneFrom(l, k, now);
            HeldCost(m.caches, m.leases) == HeldCost(l.caches, l.leases) && HeldCount(m.caches, m.leases) == HeldCount(l.caches, l.leases)
    decreases |l.caches| - k
  {
    if k < |l.caches| {
      if Expired(l, k, now) {
        IdleLeaves(l, k);
        PruneLeavesHeld(Remove(l, k), k, now);
      } else {
        PruneLeavesHeld(l, k + 1, now);
      }
    }
  }

  lemma {:induction false} HeldIsPart(caches: seq<Cached>, leases: map<Id, nat>)
    ensures HeldCost(caches, leases) <= Cost(caches) && HeldCount(caches, leases) <= |caches|
    decreases |caches|
  {
    if caches != [] { HeldIsPart(caches[..|caches| - 1], leases); }
  }

  lemma {:induction false} HeldIsAll(caches: seq<Cached>, leases: map<Id, nat>)
    requires forall k :: 0 <= k < |caches| ==> Held(leases, caches[k].id) > 0
    ensures HeldCost(caches, leases) == Cost(caches) && HeldCount(caches, leases) == |caches|
    decreases |caches|
  {
    if caches != [] { HeldIsAll(caches[..|caches| - 1], leases); }
  }

  lemma {:induction false} EvictionMakesRoom(l: Ledger, charge: nat, b: Bounds)
    requires l.reserved == Cost(l.caches) + Reserving(l.slots)
    ensures Affords(EvictForBytes(l, charge, b), charge, b) <==> HasRoom(l, charge, b)
    decreases |l.caches|
  {
    var k := FirstIdle(l.caches, l.leases);
    HeldIsPart(l.caches, l.leases);
    if l.reserved + charge > b.maxBytes {
      if k < |l.caches| {
        CostRemove(l.caches, k);
        IdleLeaves(l, k);
        EvictionMakesRoom(Remove(l, k), charge, b);
      } else {
        HeldIsAll(l.caches, l.leases);
      }
    }
  }

  lemma {:induction false} EvictionMakesPlace(l: Ledger, b: Bounds)
    ensures |EvictForCount(l, b).caches| < b.maxCaches <==> HasPlace(l, b)
    decreases |l.caches|
  {
    var k := FirstIdle(l.caches, l.leases);
    HeldIsPart(l.caches, l.leases);
    if |l.caches| >= b.maxCaches {
      if k < |l.caches| {
        IdleLeaves(l, k);
        EvictionMakesPlace(Remove(l, k), b);
      } else {
        HeldIsAll(l.caches, l.leases);
      }
    }
  }

  /** A name is afforded exactly if the builds under way and the listings in use leave room for it. */
  lemma RoomIsMade(l: Ledger, charge: nat, now: int, b: Bounds)
    requires Inv(l, b)
    ensures Affords(EvictForBytes(Prune(l, now), charge, b), charge, b) <==> HasRoom(l, charge, b)
  {
    PruneKeeps(l, 0, now, b);
    PruneLeavesHeld(l, 0, now);
    EvictionMakesRoom(Prune(l, now), charge, b);
  }

  /** A place is found exactly if fewer listings are in use than may be cached. */
  lemma PlaceIsMade(l: Ledger, now: int, b: Bounds)
    ensures |EvictForCount(Prune(l, now), b).caches| < b.maxCaches <==> HasPlace(l, b)
  {
    PruneLeavesHeld(l, 0, now);
    EvictionMakesPlace(Prune(l, now), b);
  }

  // ---------- what leaves, and in which order ----------

  /** What pruning leaves: all listings but those that have expired and nobody holds, in their order. */
  function Unexpired(caches: seq<Cached>, leases: map<Id, nat>, now: int): seq<Cached> {
    if caches == [] then []
    else (if caches[0].listing.expiry <= now && Held(leases, caches[0].id) == 0 then [] else [caches[0]]) + Unexpired(caches[1..], leases, now)
  }

  lemma {:induction false} UnexpiredAlike(caches: seq<Cached>, leases: map<Id, nat>, leases': map<Id, nat>, now: int)
    requires SameHolding(leases, leases')
    ensures Unexpired(caches, leases', now) == Unexpired(caches, leases, now)
    decreases |caches|
  {
    if caches != [] { UnexpiredAlike(caches[1..], leases, leases', now); }
  }

  lemma {:induction false} PruneFromIs(l: Ledger, k: nat, now: int)
    requires k <= |l.caches|
    ensures PruneFrom(l, k, now).caches == l.caches[..k] + Unexpired(l.caches[k..], l.leases, now)
    decreases |l.caches| - k
  {
    if k < |l.caches| {
      assert l.caches[k..][0] == l.caches[k] && l.caches[k..][1..] == l.caches[k + 1..];
      if Expired(l, k, now) {
        PruneFromIs(Remove(l, k), k, now);
        ExpiredLeaves(l, k, now);
      } else {
        PruneFromIs(l, k + 1, now);
        assert l.caches[..k + 1] == l.caches[..k] + [l.caches[k]];
      }
    }
  }

  lemma ExpiredLeaves(l: Ledger, k: nat, now: int)
    requires k < |l.caches| && Expired(l, k, now)
    ensures var m := Remove(l, k);
            m.caches[..k] == l.caches[..k] && Unexpired(m.caches[k..], m.leases, now) == Unexpired(l.caches[k..], l.leases, now)
  {
    var m := Remove(l, k);
    assert m.caches[k..] == l.caches[k + 1..] == l.caches[k..][1..];
    UnexpiredAlike(m.caches[k..], l.leases, m.leases, now);
  }

  lemma PruneIs(l: Ledger, now: int)
    ensures Prune(l, now).caches == Unexpired(l.caches, l.leases, now)
  {
    PruneFromIs(l, 0, now);
    assert l.caches[..0] == [] && l.caches[0..] == l.caches;
  }

  /** The listings without the first `n` of those that nobody holds. */
  function WithoutIdle(caches: seq<Cached>, leases: map<Id, nat>, n: nat): seq<Cached> {
    if caches == [] || n == 0 then caches
    else if Held(leases, caches[0].id) == 0 then WithoutIdle(caches[1..], leases, n - 1)
    else [caches[0]] + WithoutIdle(caches[1..], leases, n)
  }

  lemma {:induction false} WithoutIdleAlike(caches: seq<Cached>, leases: map<Id, nat>, leases': map<Id, nat>, n: nat)
    requires SameHolding(leases, leases')
    ensures WithoutIdle(caches, leases', n) == WithoutIdle(caches, leases, n)
    decreases |caches|
  {
    if caches != [] && n > 0 {
      WithoutIdleAlike(caches[1..], leases, leases', if Held(leases, caches[0].id) == 0 then n - 1 else n);
    }
  }

  lemma {:induction false} FirstIdleLeaves(caches: seq<Cached>, leases: map<Id, nat>, k: nat, n: nat)
    requires k < |caches| && Held(leases, caches[k].id) == 0 && forall j :: 0 <= j < k ==> Held(leases, caches[j].id) > 0
    ensures WithoutIdle(caches, leases, n + 1) == WithoutIdle(Without(caches, k), leases, n)
    decreases |caches|
  {
    if k == 0 {
      assert Without(caches, 0) == caches[1..];
    } else {
      FirstIdleLeaves(caches[1..], leases, k - 1, n);
      var rest := Without(caches, k);
      assert rest == [caches[0]] + Without(caches[1..], k - 1);
      assert rest[1..] == Without(caches[1..], k - 1);
      if n == 0 { assert WithoutIdle(Without(caches[1..], k - 1), leases, 0) == Without(caches[1..], k - 1); }
    }
  }

  /** What is reserved once the first `n` idle listings have left. */
  function ReservedWithout(l: Ledger, n: nat): int {
    l.reserved - Cost(l.caches) + Cost(WithoutIdle(l.caches, l.leases, n))
  }

  lemma OneEvicted(l: Ledger, k: nat, n: nat)
    requires k == FirstIdle(l.caches, l.leases) && k < |l.caches|
    ensures WithoutIdle(Remove(l, k).caches, Remove(l, k).leases, n) == WithoutIdle(l.caches, l.leases, n + 1)
    ensures ReservedWithout(Remove(l, k), n) == ReservedWithout(l, n + 1)
  {
    FirstIdleLeaves(l.caches, l.leases, k, n);
    WithoutIdleAlike(Without(l.caches, k), l.leases, Remove(l, k).leases, n);
    CostRemove(l.caches, k);
  }

  lemma FirstLeaves(l: Ledger, k: nat, n: nat)
    requires k == FirstIdle(l.caches, l.leases) && k < |l.caches|
    ensures WithoutIdle(Remove(l, k).caches, Remove(l, k).leases, n) == WithoutIdle(l.caches, l.leases, n + 1)
  {
    OneEvicted(l, k, n);
  }

  /** Before each of the first `n` evictions the reservation was still too large. */
  ghost predicate TooMuchUntil(l: Ledger, charge: nat, b: Bounds, n: nat) {
    forall j: nat :: j < n ==> ReservedWithout(l, j) + charge > b.maxBytes
  }

  ghost predicate TooManyUntil(l: Ledger, b: Bounds, n: nat) {
    forall j: nat :: j < n ==> |WithoutIdle(l.caches, l.leases, j)| >= b.maxCaches
  }

  lemma TooMuchBefore(l: Ledger, k: nat, charge: nat, b: Bounds, n: nat)
    requires k == FirstIdle(l.caches, l.leases) && k < |l.caches| && l.reserved + charge > b.maxBytes
    requires TooMuchUntil(Remove(l, k), charge, b, n)
    ensures TooMuchUntil(l, charge, b, n + 1)
  {
    forall j: nat | j < n + 1 ensures ReservedWithout(l, j) + charge > b.maxBytes {
      if j > 0 { OneEvicted(l, k, j - 1); }
    }
  }

  lemma TooManyBefore(l: Ledger, k: nat, b: Bounds, n: nat)
    requires k == FirstIdle(l.caches, l.leases) && k < |l.caches| && |l.caches| >= b.maxCaches
    requires TooManyUntil(Remove(l, k), b, n)
    ensures TooManyUntil(l, b, n + 1)
  {
    forall j: nat | j < n + 1 ensures |WithoutIdle(l.caches, l.leases, j)| >= b.maxCaches {
      if j > 0 { OneEvicted(l, k, j - 1); }
    }
  }

  /** The first `n` idle listings have left, none of them before that was called for. */
  ghost predicate EvictedForBytes(l: Ledger, left: seq<Cached>, charge: nat, b: Bounds, n: nat) {
    left == WithoutIdle(l.caches, l.leases, n) && TooMuchUntil(l, charge, b, n)
  }

  ghost predicate EvictedForCount(l: Ledger, left: seq<Cached>, b: Bounds, n: nat) {
    left == WithoutIdle(l.caches, l.leases, n) && TooManyUntil(l, b, n)
  }

  lemma OneMoreForBytes(l: Ledger, k: nat, left: seq<Cached>, charge: nat, b: Bounds, n: nat)
    requires k == FirstIdle(l.caches, l.leases) && k < |l.caches| && l.reserved + charge > b.maxBytes
    requires EvictedForBytes(Remove(l, k), left, charge, b, n)
    ensures EvictedForBytes(l, left, charge, b, n + 1)
  {
    FirstLeaves(l, k, n);
    TooMuchBefore(l, k, charge, b, n);
  }

  lemma OneMoreForCount(l: Ledger, k: nat, left: seq<Cached>, b: Bounds, n: nat)
    requires k == FirstIdle(l.caches, l.leases) && k < |l.caches| && |l.caches| >= b.maxCaches
    requires EvictedForCount(Remove(l, k), left, b, n)
    ensures EvictedForCount(l, left, b, n + 1)
  {
    FirstLeaves(l, k, n);
    TooManyBefore(l, k, b, n);
  }

  /** Listings are evicted for bytes in the order of the cache, those in use left out, and none that was not called for. */
  lemma {:induction false} EvictionForBytesIs(l: Ledger, charge: nat, b: Bounds) returns (n: nat)
    ensures EvictedForBytes(l, EvictForBytes(l, charge, b).caches, charge, b, n)
    decreases |l.caches|
  {
    n := 0;
    var k := FirstIdle(l.caches, l.leases);
    if l.reserved + charge > b.maxBytes && k < |l.caches| {
      var m := EvictionForBytesIs(Remove(l, k), charge, b);
      n := m + 1;
      OneMoreForBytes(l, k, EvictForBytes(Remove(l, k), charge, b).caches, charge, b, m);
    }
  }

  /** And so they are for want of a place. */
  lemma {:induction false} EvictionForCountIs(l: Ledger, b: Bounds) returns (n: nat)
    ensures EvictedForCount(l, EvictForCount(l, b).caches, b, n)
    decreases |l.caches|
  {
    n := 0;
    var k := FirstIdle(l.caches, l.leases);
    if |l.caches| >= b.maxCaches && k < |l.caches| {
      var m := EvictionForCountIs(Remove(l, k), b);
      n := m + 1;
      OneMoreForCount(l, k, EvictForCount(Remove(l, k), b).caches, b, m);
    }
  }
}
