/**
 * The ledger of directory listings: what is cached, who holds it, and what every
 * byte of the reservation is for. Each action is one section under the lock.
 */
module DirectoryLedger {
  import opened Sorting
  import opened Wrappers

  type Id = nat

  datatype Kind = Folder | File

  /** A name, as its UTF-8 bytes, and what it names. */
  datatype Entry = Entry(name: Key, kind: Kind)

  datatype Listing = Listing(binding: string, identity: nat, entries: seq<Entry>, expiry: int, cost: nat)

  function NameOf(e: Entry): Key { e.name }

  /** The entries that a scan has kept, each once, in the order of their names. */
  predicate Lists(listing: Listing, kept: seq<Entry>) {
    Sorted(listing.entries, NameOf) && Elements(listing.entries) == Elements(kept) && |listing.entries| == |kept|
  }

  datatype Cached = Cached(id: Id, listing: Listing)

  datatype Bounds = Bounds(maxBytes: nat, maxCaches: nat)

  /** `slots` are the builds under way, each with what it has reserved so far; `holders` are the requests that
      hold a listing; `published` remembers every listing there has been. */
  datatype Ledger = Ledger(caches: seq<Cached>, leases: map<Id, nat>, reserved: int, slots: seq<Option<nat>>,
                           holders: multiset<Id>, published: map<Id, Listing>)

  // ---------- sums ----------

  function Cost(caches: seq<Cached>): nat {
    if caches == [] then 0 else Cost(caches[..|caches| - 1]) + caches[|caches| - 1].listing.cost
  }

  function SlotCost(slot: Option<nat>): nat {
    match slot case None => 0 case Some(n) => n
  }

  function Reserving(slots: seq<Option<nat>>): nat {
    if slots == [] then 0 else Reserving(slots[..|slots| - 1]) + SlotCost(slots[|slots| - 1])
  }

  function Without(caches: seq<Cached>, k: nat): seq<Cached>
    requires k < |caches|
  {
    caches[..k] + caches[k + 1..]
  }

  lemma {:induction false} CostRemove(caches: seq<Cached>, k: nat)
    requires k < |caches|
    ensures Cost(caches) == Cost(Without(caches, k)) + caches[k].listing.cost
    decreases |caches|
  {
    var init := caches[..|caches| - 1];
    if k < |init| {
      CostRemove(init, k);
      var less := Without(caches, k);
      assert less[..|less| - 1] == Without(init, k) && less[|less| - 1] == caches[|caches| - 1];
    } else {
      assert Without(caches, k) == init;
    }
  }

  lemma CostAdd(caches: seq<Cached>, c: Cached)
    ensures Cost(caches + [c]) == Cost(caches) + c.listing.cost
  {
    assert (caches + [c])[..|caches|] == caches;
  }

  lemma {:induction false} ReservingUpdate(slots: seq<Option<nat>>, k: nat, slot: Option<nat>)
    requires k < |slots|
    ensures Reserving(slots[k := slot]) == Reserving(slots) - SlotCost(slots[k]) + SlotCost(slot)
    decreases |slots|
  {
    var init := slots[..|slots| - 1];
    if k < |init| {
      ReservingUpdate(init, k, slot);
      assert slots[k := slot][..|slots| - 1] == init[k := slot];
    } else {
      assert slots[k := slot][..|slots| - 1] == init;
    }
  }

  // ---------- leaving the cache ----------

  function Held(leases: map<Id, nat>, id: Id): nat {
    if id in leases then leases[id] else 0
  }

  /** The place of a listing, or the number of listings. */
  function Place(caches: seq<Cached>, id: Id): (k: nat)
    ensures k <= |caches| && (k < |caches| ==> caches[k].id == id)
    ensures forall j :: 0 <= j < k ==> caches[j].id != id
  {
    if caches == [] then 0
    else var k := Place(caches[..|caches| - 1], id);
         if k < |caches| - 1 || caches[k].id == id then k else k + 1
  }

  /** The first listing that nobody holds, or the number of listings. */
  function FirstIdle(caches: seq<Cached>, leases: map<Id, nat>): (k: nat)
    ensures k <= |caches| && (k < |caches| ==> Held(leases, caches[k].id) == 0)
    ensures forall j :: 0 <= j < k ==> Held(leases, caches[j].id) > 0
  {
    if caches == [] then 0
    else var k := FirstIdle(caches[..|caches| - 1], leases);
         if k < |caches| - 1 || Held(leases, caches[k].id) == 0 then k else k + 1
  }

  function Remove(l: Ledger, k: nat): Ledger
    requires k < |l.caches|
  {
    l.(caches := Without(l.caches, k), leases := l.leases - {l.caches[k].id},
       reserved := l.reserved - l.caches[k].listing.cost)
  }

  predicate Expired(l: Ledger, k: nat, now: int)
    requires k < |l.caches|
  {
    l.caches[k].listing.expiry <= now && Held(l.leases, l.caches[k].id) == 0
  }

  /** Drops the expired listings at and after place `k` that nobody holds. */
  function PruneFrom(l: Ledger, k: nat, now: int): (m: Ledger)
    requires k <= |l.caches|
    ensures m.slots == l.slots && m.holders == l.holders && m.published == l.published
    decreases |l.caches| - k
  {
    if k == |l.caches| then l
    else if Expired(l, k, now) then PruneFrom(Remove(l, k), k, now)
    else PruneFrom(l, k + 1, now)
  }

  function Prune(l: Ledger, now: int): Ledger {
    PruneFrom(l, 0, now)
  }

  function EvictForBytes(l: Ledger, charge: nat, b: Bounds): (m: Ledger)
    ensures m.slots == l.slots && m.holders == l.holders && m.published == l.published
    decreases |l.caches|
  {
    var k := FirstIdle(l.caches, l.leases);
    if l.reserved + charge > b.maxBytes && k < |l.caches| then EvictForBytes(Remove(l, k), charge, b) else l
  }

  function EvictForCount(l: Ledger, b: Bounds): (m: Ledger)
    ensures m.slots == l.slots && m.holders == l.holders && m.published == l.published
    decreases |l.caches|
  {
    var k := FirstIdle(l.caches, l.leases);
    if |l.caches| >= b.maxCaches && k < |l.caches| then EvictForCount(Remove(l, k), b) else l
  }

  // ---------- the sections under the lock ----------

  predicate Building(l: Ledger, slot: nat) {
    slot < |l.slots| && l.slots[slot].Some?
  }

  /** A build takes a free slot. */
  function Begin(l: Ledger, slot: nat): Ledger {
    if slot < |l.slots| && l.slots[slot] == None then l.(slots := l.slots[slot := Some(0)]) else l
  }

  predicate Affords(l: Ledger, charge: nat, b: Bounds) {
    l.reserved + charge <= b.maxBytes
  }

  function Charged(m: Ledger, slot: nat, charge: nat, b: Bounds): Ledger {
    if Building(m, slot) && Affords(m, charge, b)
    then m.(reserved := m.reserved + charge, slots := m.slots[slot := Some(m.slots[slot].value + charge)])
    else m
  }

  /** A build reserves room for one more name, or finds that there is none. */
  function Charge(l: Ledger, slot: nat, charge: nat, now: int, b: Bounds): Ledger {
    if Building(l, slot) then Charged(EvictForBytes(Prune(l, now), charge, b), slot, charge, b) else l
  }

  function Published(m: Ledger, slot: nat, id: Id, listing: Listing, b: Bounds): Ledger {
    if Building(m, slot) && |m.caches| < b.maxCaches
    then m.(caches := m.caches + [Cached(id, listing)], leases := m.leases[id := 1], slots := m.slots[slot := Some(0)],
            holders := m.holders + multiset{id}, published := m.published[id := listing])
    else m
  }

  /** A build may publish, under a fresh id, a listing of what it has kept, for which it has paid. */
  predicate CanPublish(l: Ledger, slot: nat, id: Id, listing: Listing, kept: seq<Entry>) {
    Building(l, slot) && id !in l.published && l.slots[slot].value == listing.cost && Lists(listing, kept)
  }

  /** It then hands its reservation to the cache, together with the listing. */
  function Publish(l: Ledger, slot: nat, id: Id, listing: Listing, kept: seq<Entry>, now: int, b: Bounds): Ledger {
    if CanPublish(l, slot, id, listing, kept)
    then Published(EvictForCount(Prune(l, now), b), slot, id, listing, b)
    else l
  }

  /** However a build ends, it gives back what is still its own, */
  function Return(l: Ledger, slot: nat): Ledger {
    if !Building(l, slot) then l
    else l.(reserved := l.reserved - l.slots[slot].value, slots := l.slots[slot := Some(0)])
  }

  /** and then its slot. */
  function End(l: Ledger, slot: nat): Ledger {
    if Building(l, slot) && l.slots[slot].value == 0 then l.(slots := l.slots[slot := None]) else l
  }

  /** What a cursor has to agree with. */
  predicate Matches(listing: Listing, binding: string, expiry: int, offset: nat) {
    listing.binding == binding && listing.expiry == expiry && offset < |listing.entries|
  }

  function Touched(m: Ledger, k: nat): Ledger
    requires k < |m.caches|
  {
    var id := m.caches[k].id;
    m.(caches := Without(m.caches, k) + [m.caches[k]], leases := m.leases[id := Held(m.leases, id) + 1], holders := m.holders + multiset{id})
  }

  function Select(l: Ledger, id: Id, binding: string, expiry: int, offset: nat, now: int): Ledger {
    var m := Prune(l, now);
    var k := Place(m.caches, id);
    if k < |m.caches| && Matches(m.caches[k].listing, binding, expiry, offset) then Touched(m, k) else m
  }

  predicate Releasable(l: Ledger, id: Id) {
    id in l.holders && id in l.leases && l.leases[id] > 0
  }

  /** The release itself, before the pruning that goes with it. */
  function Released(l: Ledger, id: Id): Ledger
    requires Releasable(l, id)
  {
    l.(leases := l.leases[id := l.leases[id] - 1], holders := l.holders - multiset{id})
  }

  function Release(l: Ledger, id: Id, now: int): Ledger {
    if Releasable(l, id) then Prune(Released(l, id), now) else l
  }

  // ---------- runs ----------

  datatype Action =
    | DoBegin(slot: nat)
    | DoCharge(slot: nat, charge: nat, now: int)
    | DoPublish(slot: nat, id: Id, listing: Listing, kept: seq<Entry>, now: int)
    | DoReturn(slot: nat)
    | DoEnd(slot: nat)
    | DoSelect(id: Id, binding: string, expiry: int, offset: nat, now: int)
    | DoRelease(id: Id, now: int)

  function Next(l: Ledger, a: Action, b: Bounds): Ledger {
    match a
    case DoBegin(slot) => Begin(l, slot)
    case DoCharge(slot, charge, now) => Charge(l, slot, charge, now, b)
    case DoPublish(slot, id, listing, kept, now) => Publish(l, slot, id, listing, kept, now, b)
    case DoReturn(slot) => Return(l, slot)
    case DoEnd(slot) => End(l, slot)
    case DoSelect(id, binding, expiry, offset, now) => Select(l, id, binding, expiry, offset, now)
    case DoRelease(id, now) => Release(l, id, now)
  }

  function Run(l: Ledger, actions: seq<Action>, b: Bounds): Ledger
    decreases |actions|
  {
    if actions == [] then l else Next(Run(l, actions[..|actions| - 1], b), actions[|actions| - 1], b)
  }

  function Fresh(concurrency: nat): Ledger {
    Ledger([], map[], 0, seq(concurrency, _ => None), multiset{}, map[])
  }

  // ---------- what every section keeps ----------

  /** The k-th listing stands under an id of its own, leased or not, as it was published. */
  predicate Filed(caches: seq<Cached>, leases: map<Id, nat>, published: map<Id, Listing>, k: nat)
    requires k < |caches|
  {
    var c := caches[k];
    c.id in leases && c.id in published && published[c.id] == c.listing && Place(caches, c.id) == k
  }

  /** The leases are those of the cached listings, and count their holders. */
  ghost predicate Tidy(caches: seq<Cached>, leases: map<Id, nat>, holders: multiset<Id>, published: map<Id, Listing>) {
    && (forall k :: 0 <= k < |caches| ==> Filed(caches, leases, published, k))
    && (forall id :: id in leases ==> Place(caches, id) < |caches|)
    && (forall id :: holders[id] == Held(leases, id))
  }

  ghost predicate Inv(l: Ledger, b: Bounds) {
    && Tidy(l.caches, l.leases, l.holders, l.published)
    && l.reserved == Cost(l.caches) + Reserving(l.slots)
    && l.reserved <= b.maxBytes && |l.caches| <= b.maxCaches
  }

  lemma PlaceIs(caches: seq<Cached>, id: Id, k: nat)
    requires k < |caches| && caches[k].id == id && forall j :: 0 <= j < k ==> caches[j].id != id
    ensures Place(caches, id) == k
  {
    var p := Place(caches, id);
    assert p < |caches| ==> caches[p].id == id;
  }

  /** Where the j-th of the remaining listings stood before. */
  function PlaceBefore(k: nat, j: nat): nat { if j < k then j else j + 1 }

  lemma FiledWithout(caches: seq<Cached>, leases: map<Id, nat>, published: map<Id, Listing>, k: nat, j: nat)
    requires k < |caches| && j < |caches| - 1 && forall i :: 0 <= i < |caches| ==> Filed(caches, leases, published, i)
    ensures Without(caches, k)[j].id != caches[k].id && Filed(Without(caches, k), leases - {caches[k].id}, published, j)
  {
    var rest := Without(caches, k);
    assert rest[j] == caches[PlaceBefore(k, j)] && Filed(caches, leases, published, PlaceBefore(k, j)) && Filed(caches, leases, published, k);
    forall i | 0 <= i < j ensures rest[i].id != rest[j].id {
      assert rest[i] == caches[PlaceBefore(k, i)] && Filed(caches, leases, published, PlaceBefore(k, i));
    }
    PlaceIs(rest, rest[j].id, j);
  }

  lemma PlaceWithout(caches: seq<Cached>, k: nat, id: Id)
    requires k < |caches| && Place(caches, id) < |caches| && id != caches[k].id
    ensures Place(Without(caches, k), id) < |caches| - 1
  {
    var p := Place(caches, id);
    assert Without(caches, k)[if p < k then p else p - 1] == caches[p];
  }

  /** Without an idle listing things stay tidy. */
  lemma TidyWithout(caches: seq<Cached>, leases: map<Id, nat>, holders: multiset<Id>, published: map<Id, Listing>, k: nat)
    requires Tidy(caches, leases, holders, published) && k < |caches| && Held(leases, caches[k].id) == 0
    ensures Tidy(Without(caches, k), leases - {caches[k].id}, holders, published)
  {
    var rest, less := Without(caches, k), leases - {caches[k].id};
    forall j | 0 <= j < |rest| ensures Filed(rest, less, published, j) { FiledWithout(caches, leases, published, k, j); }
    forall id | id in less ensures Place(rest, id) < |rest| { PlaceWithout(caches, k, id); }
  }

  /** Dropping a listing that nobody holds. */
  lemma RemoveKeeps(l: Ledger, k: nat, b: Bounds)
    requires Inv(l, b) && k < |l.caches| && Held(l.leases, l.caches[k].id) == 0
    ensures Inv(Remove(l, k), b)
  {
    CostRemove(l.caches, k);
    TidyWithout(l.caches, l.leases, l.holders, l.published, k);
  }

  /** Dropping idle listings leaves the rest of the ledger alone, and what somebody holds in the cache. */
  ghost predicate Less(m: Ledger, l: Ledger) {
    && m.slots == l.slots && m.holders == l.holders && m.published == l.published
    && forall id :: Held(l.leases, id) > 0 ==> id in l.leases && id in m.leases && m.leases[id] == l.leases[id]
  }

  lemma {:induction false} PruneKeeps(l: Ledger, k: nat, now: int, b: Bounds)
    requires Inv(l, b) && k <= |l.caches|
    ensures Inv(PruneFrom(l, k, now), b) && Less(PruneFrom(l, k, now), l)
    decreases |l.caches| - k
  {
    if k < |l.caches| {
      if Expired(l, k, now) {
        RemoveKeeps(l, k, b);
        PruneKeeps(Remove(l, k), k, now, b);
      } else {
        PruneKeeps(l, k + 1, now, b);
      }
    }
  }

  lemma {:induction false} EvictForBytesKeeps(l: Ledger, charge: nat, b: Bounds)
    requires Inv(l, b)
    ensures var m := EvictForBytes(l, charge, b);
            Inv(m, b) && Less(m, l) && (!Affords(m, charge, b) ==> forall j :: 0 <= j < |m.caches| ==> Held(m.leases, m.caches[j].id) > 0)
    decreases |l.caches|
  {
    var k := FirstIdle(l.caches, l.leases);
    if l.reserved + charge > b.maxBytes && k < |l.caches| {
      RemoveKeeps(l, k, b);
      EvictForBytesKeeps(Remove(l, k), charge, b);
    }
  }

  lemma {:induction false} EvictForCountKeeps(l: Ledger, b: Bounds)
    requires Inv(l, b)
    ensures var m := EvictForCount(l, b);
            Inv(m, b) && Less(m, l) && (|m.caches| >= b.maxCaches ==> forall j :: 0 <= j < |m.caches| ==> Held(m.leases, m.caches[j].id) > 0)
    decreases |l.caches|
  {
    var k := FirstIdle(l.caches, l.leases);
    if |l.caches| >= b.maxCaches && k < |l.caches| {
      RemoveKeeps(l, k, b);
      EvictForCountKeeps(Remove(l, k), b);
    }
  }

  // ---------- each section ----------

  lemma ChargedKeeps(m: Ledger, slot: nat, charge: nat, b: Bounds)
    requires Inv(m, b)
    ensures Inv(Charged(m, slot, charge, b), b)
  {
    if Building(m, slot) { ReservingUpdate(m.slots, slot, Some(m.slots[slot].value + charge)); }
  }

  lemma ChargeKeeps(l: Ledger, slot: nat, charge: nat, now: int, b: Bounds)
    requires Inv(l, b)
    ensures Inv(Charge(l, slot, charge, now, b), b)
  {
    PruneKeeps(l, 0, now, b);
    EvictForBytesKeeps(Prune(l, now), charge, b);
    ChargedKeeps(EvictForBytes(Prune(l, now), charge, b), slot, charge, b);
  }

  /** A fresh id, at the end, held once. */
  lemma TidyWith(caches: seq<Cached>, leases: map<Id, nat>, holders: multiset<Id>, published: map<Id, Listing>, c: Cached)
    requires Tidy(caches, leases, holders, published) && c.id !in published
    ensures Tidy(caches + [c], leases[c.id := 1], holders + multiset{c.id}, published[c.id := c.listing])
  {
    var all, more, known := caches + [c], leases[c.id := 1], published[c.id := c.listing];
    forall k | 0 <= k < |caches| ensures caches[k].id != c.id { assert Filed(caches, leases, published, k); }
    forall id | id in leases ensures id != c.id { assert caches[Place(caches, id)].id == id; }
    PlaceIs(all, c.id, |caches|);
    forall k | 0 <= k < |all| ensures Filed(all, more, known, k) {
      if k < |caches| { assert Filed(caches, leases, published, k); PlaceIs(all, caches[k].id, k); }
    }
    forall id | id in more ensures Place(all, id) < |all| {
      if id != c.id { PlaceIs(all, id, Place(caches, id)); }
    }
  }

  lemma PublishedKeeps(m: Ledger, slot: nat, id: Id, listing: Listing, b: Bounds)
    requires Inv(m, b) && id !in m.published && (Building(m, slot) ==> m.slots[slot].value == listing.cost)
    ensures Inv(Published(m, slot, id, listing, b), b)
  {
    if Building(m, slot) {
      TidyWith(m.caches, m.leases, m.holders, m.published, Cached(id, listing));
      CostAdd(m.caches, Cached(id, listing));
      ReservingUpdate(m.slots, slot, Some(0));
    }
  }

  lemma PublishKeeps(l: Ledger, slot: nat, id: Id, listing: Listing, kept: seq<Entry>, now: int, b: Bounds)
    requires Inv(l, b)
    ensures Inv(Publish(l, slot, id, listing, kept, now, b), b)
  {
    if CanPublish(l, slot, id, listing, kept) {
      PruneKeeps(l, 0, now, b);
      EvictForCountKeeps(Prune(l, now), b);
      PublishedKeeps(EvictForCount(Prune(l, now), b), slot, id, listing, b);
    }
  }

  lemma EndKeeps(l: Ledger, slot: nat, b: Bounds)
    requires Inv(l, b)
    ensures Inv(Return(l, slot), b) && Inv(End(l, slot), b)
  {
    if Building(l, slot) {
      ReservingUpdate(l.slots, slot, Some(0));
      ReservingUpdate(l.slots, slot, None);
    }
  }

  /** Moving a listing to the end, and one more holder for it. */
  lemma TidyTouched(caches: seq<Cached>, leases: map<Id, nat>, holders: multiset<Id>, published: map<Id, Listing>, k: nat)
    requires Tidy(caches, leases, holders, published) && k < |caches|
    ensures var id := caches[k].id;
            Tidy(Without(caches, k) + [caches[k]], leases[id := Held(leases, id) + 1], holders + multiset{id}, published)
  {
    var rest, c := Without(caches, k), caches[k];
    var all, more := rest + [c], leases[c.id := Held(leases, c.id) + 1];
    forall j | 0 <= j < |rest| ensures rest[j].id != c.id && Filed(rest, leases - {c.id}, published, j) {
      FiledWithout(caches, leases, published, k, j);
    }
    PlaceIs(all, c.id, |rest|);
    assert Filed(caches, leases, published, k);
    forall j | 0 <= j < |all| ensures Filed(all, more, published, j) {
      if j < |rest| { PlaceIs(all, rest[j].id, j); }
    }
    forall id | id in more ensures Place(all, id) < |all| {
      if id != c.id { PlaceWithout(caches, k, id); PlaceIs(all, id, Place(rest, id)); }
    }
  }

  lemma TouchedKeeps(m: Ledger, k: nat, b: Bounds)
    requires Inv(m, b) && k < |m.caches|
    ensures Inv(Touched(m, k), b)
  {
    TidyTouched(m.caches, m.leases, m.holders, m.published, k);
    CostRemove(m.caches, k);
    CostAdd(Without(m.caches, k), m.caches[k]);
  }

  lemma SelectKeeps(l: Ledger, id: Id, binding: string, expiry: int, offset: nat, now: int, b: Bounds)
    requires Inv(l, b)
    ensures Inv(Select(l, id, binding, expiry, offset, now), b)
  {
    PruneKeeps(l, 0, now, b);
    var m := Prune(l, now);
    var k := Place(m.caches, id);
    if k < |m.caches| { TouchedKeeps(m, k, b); }
  }

  lemma ReleasedKeeps(l: Ledger, id: Id, b: Bounds)
    requires Inv(l, b) && Releasable(l, id)
    ensures Inv(Released(l, id), b)
  {
    var m := Released(l, id);
    forall k | 0 <= k < |m.caches| ensures Filed(m.caches, m.leases, m.published, k) { assert Filed(l.caches, l.leases, l.published, k); }
  }

  lemma ReleaseKeeps(l: Ledger, id: Id, now: int, b: Bounds)
    requires Inv(l, b)
    ensures Inv(Release(l, id, now), b)
  {
    if Releasable(l, id) {
      ReleasedKeeps(l, id, b);
      PruneKeeps(Released(l, id), 0, now, b);
    }
  }

  lemma NextKeeps(l: Ledger, a: Action, b: Bounds)
    requires Inv(l, b)
    ensures Inv(Next(l, a, b), b)
  {
    match a
    case DoBegin(slot) =>
      if slot < |l.slots| && l.slots[slot] == None { ReservingUpdate(l.slots, slot, Some(0)); }
    case DoCharge(slot, charge, now) => ChargeKeeps(l, slot, charge, now, b);
    case DoPublish(slot, id, listing, kept, now) => PublishKeeps(l, slot, id, listing, kept, now, b);
    case DoReturn(slot) => EndKeeps(l, slot, b);
    case DoEnd(slot) => EndKeeps(l, slot, b);
    case DoSelect(id, binding, expiry, offset, now) => SelectKeeps(l, id, binding, expiry, offset, now, b);
    case DoRelease(id, now) => ReleaseKeeps(l, id, now, b);
  }

  lemma {:induction false} NoneReserves(slots: seq<Option<nat>>)
    requires forall k :: 0 <= k < |slots| ==> slots[k] == None
    ensures Reserving(slots) == 0
    decreases |slots|
  {
    if slots != [] { NoneReserves(slots[..|slots| - 1]); }
  }

  /** The ledger is exact after every run of builds, pages, expiries and failures in any order. */
  lemma {:induction false} LedgerExact(concurrency: nat, actions: seq<Action>, b: Bounds)
    ensures Inv(Run(Fresh(concurrency), actions, b), b)
    decreases |actions|
  {
    if actions == [] {
      NoneReserves(Fresh(concurrency).slots);
    } else {
      LedgerExact(concurrency, actions[..|actions| - 1], b);
      NextKeeps(Run(Fresh(concurrency), actions[..|actions| - 1], b), actions[|actions| - 1], b);
    }
  }

  // ---------- what follows ----------

  /** Whoever holds a listing finds it cached, and it is the one that was published under its id. */
  lemma HeldIsCached(l: Ledger, id: Id, b: Bounds)
    requires Inv(l, b) && id in l.holders
    ensures var k := Place(l.caches, id);
            k < |l.caches| && id in l.published && l.caches[k] == Cached(id, l.published[id]) && id in l.leases
  {
    assert l.holders[id] == Held(l.leases, id);
    var k := Place(l.caches, id);
    assert Filed(l.caches, l.leases, l.published, k);
  }

  /** Nothing is forgotten, and only what is released has fewer holders, by one. */
  ghost predicate Respects(m: Ledger, l: Ledger, released: Option<Id>) {
    && (forall id :: m.holders[id] + (if released == Some(id) then 1 else 0) >= l.holders[id])
    && (forall id :: id in l.published ==> id in m.published && m.published[id] == l.published[id])
  }

  lemma ChargeRespects(l: Ledger, slot: nat, charge: nat, now: int, b: Bounds)
    requires Inv(l, b)
    ensures Respects(Charge(l, slot, charge, now, b), l, None)
  {
    PruneKeeps(l, 0, now, b);
    EvictForBytesKeeps(Prune(l, now), charge, b);
  }

  lemma PublishedRespects(m: Ledger, slot: nat, id: Id, listing: Listing, b: Bounds)
    requires id !in m.published
    ensures Respects(Published(m, slot, id, listing, b), m, None)
  {
  }

  lemma PublishRespects(l: Ledger, slot: nat, id: Id, listing: Listing, kept: seq<Entry>, now: int, b: Bounds)
    requires Inv(l, b)
    ensures Respects(Publish(l, slot, id, listing, kept, now, b), l, None)
  {
    if CanPublish(l, slot, id, listing, kept) {
      PruneKeeps(l, 0, now, b);
      EvictForCountKeeps(Prune(l, now), b);
      PublishedRespects(EvictForCount(Prune(l, now), b), slot, id, listing, b);
    }
  }

  lemma SelectRespects(l: Ledger, id: Id, binding: string, expiry: int, offset: nat, now: int, b: Bounds)
    requires Inv(l, b)
    ensures Respects(Select(l, id, binding, expiry, offset, now), l, None)
  {
    PruneKeeps(l, 0, now, b);
  }

  lemma ReleaseRespects(l: Ledger, id: Id, now: int, b: Bounds)
    requires Inv(l, b)
    ensures Respects(Release(l, id, now), l, Some(id))
  {
    if Releasable(l, id) {
      ReleasedKeeps(l, id, b);
      PruneKeeps(Released(l, id), 0, now, b);
    }
  }

  lemma SlotRespects(l: Ledger, slot: nat)
    ensures Respects(Begin(l, slot), l, None) && Respects(Return(l, slot), l, None) && Respects(End(l, slot), l, None)
  {
  }

  lemma BuildRespects(l: Ledger, a: Action, b: Bounds)
    requires Inv(l, b) && (a.DoBegin? || a.DoCharge? || a.DoPublish? || a.DoReturn? || a.DoEnd?)
    ensures Respects(Next(l, a, b), l, None)
  {
    match a
    case DoBegin(slot) => SlotRespects(l, slot);
    case DoCharge(slot, charge, now) => ChargeRespects(l, slot, charge, now, b);
    case DoPublish(slot, id, listing, kept, now) => PublishRespects(l, slot, id, listing, kept, now, b);
    case DoReturn(slot) => SlotRespects(l, slot);
    case DoEnd(slot) => SlotRespects(l, slot);
  }

  /** No step takes a listing from its holders, unless it is their own release; no listing is ever replaced. */
  lemma StepsRespectHolders(l: Ledger, a: Action, b: Bounds)
    requires Inv(l, b)
    ensures Respects(Next(l, a, b), l, if a.DoRelease? then Some(a.id) else None)
  {
    if a.DoSelect? {
      SelectRespects(l, a.id, a.binding, a.expiry, a.offset, a.now, b);
    } else if a.DoRelease? {
      ReleaseRespects(l, a.id, a.now, b);
    } else {
      BuildRespects(l, a, b);
    }
  }

  function Releases(actions: seq<Action>, id: Id): nat {
    if actions == [] then 0
    else Releases(actions[..|actions| - 1], id) + (if actions[|actions| - 1].DoRelease? && actions[|actions| - 1].id == id then 1 else 0)
  }

  /** So over any run a listing is available, unchanged, as long as it has not been released as often as it was held. */
  lemma {:induction false} HeldThroughout(l: Ledger, actions: seq<Action>, id: Id, b: Bounds)
    requires Inv(l, b) && Releases(actions, id) < l.holders[id]
    ensures var m := Run(l, actions, b);
            Inv(m, b) && m.holders[id] >= l.holders[id] - Releases(actions, id) && id in l.published && Place(m.caches, id) < |m.caches|
            && m.caches[Place(m.caches, id)].listing == l.published[id] && id in m.published && m.published[id] == l.published[id]
    decreases |actions|
  {
    if actions == [] {
      HeldIsCached(l, id, b);
    } else {
      HeldThroughout(l, actions[..|actions| - 1], id, b);
      var m, a := Run(l, actions[..|actions| - 1], b), actions[|actions| - 1];
      NextKeeps(m, a, b);
      StepsRespectHolders(m, a, b);
      HeldIsCached(Next(m, a, b), id, b);
    }
  }

  /** What has been published under an id stays published under it, whoever holds it and whether or not it is still cached. */
  lemma {:induction false} ListingsStay(l: Ledger, actions: seq<Action>, id: Id, b: Bounds)
    requires Inv(l, b) && id in l.published
    ensures var m := Run(l, actions, b);
            Inv(m, b) && id in m.published && m.published[id] == l.published[id]
    decreases |actions|
  {
    if actions != [] {
      ListingsStay(l, actions[..|actions| - 1], id, b);
      NextKeeps(Run(l, actions[..|actions| - 1], b), actions[|actions| - 1], b);
      StepsRespectHolders(Run(l, actions[..|actions| - 1], b), actions[|actions| - 1], b);
    }
  }

  // ---------- one request among others ----------

  /** What one object's requests have taken and not given back: build slots and leases. */
  datatype Own = Own(slots: set<nat>, leases: multiset<Id>)

  ghost predicate Owns(l: Ledger, own: Own) {
    (forall k :: k in own.slots ==> Building(l, k)) && (forall id :: own.leases[id] <= l.holders[id])
  }

  /** What another request may do: it charges, publishes from and ends builds of its own, publishes under ids of its own, and
      gives back leases of its own. */
  predicate Foreign(l: Ledger, own: Own, unused: Id, a: Action) {
    match a
    case DoCharge(slot, _, _) => slot !in own.slots
    case DoPublish(slot, id, _, _, _) => slot !in own.slots && id != unused
    case DoReturn(slot) => slot !in own.slots
    case DoEnd(slot) => slot !in own.slots
    case DoRelease(id, _) => own.leases[id] < l.holders[id]
    case _ => true
  }

  /** The ledger after others have acted. */
  function Meanwhile(l: Ledger, own: Own, unused: Id, actions: seq<Action>, b: Bounds): Ledger
    decreases |actions|
  {
    if actions == [] then l
    else
      var m, a := Meanwhile(l, own, unused, actions[..|actions| - 1], b), actions[|actions| - 1];
      if Foreign(m, own, unused, a) then Next(m, a, b) else m
  }

  /** What others leave alone. */
  ghost predicate Spared(m: Ledger, l: Ledger, own: Own, unused: Id) {
    && Owns(m, own) && (forall k :: k in own.slots ==> k < |l.slots| && m.slots[k] == l.slots[k])
    && (forall id :: id in l.published ==> id in m.published && m.published[id] == l.published[id])
    && (unused !in l.published ==> unused !in m.published)
  }

  lemma SlotStays(l: Ledger, a: Action, slot: nat, b: Bounds)
    requires Building(l, slot) && (a.DoCharge? || a.DoPublish? || a.DoReturn? || a.DoEnd? ==> a.slot != slot)
    ensures Building(Next(l, a, b), slot) && Next(l, a, b).slots[slot] == l.slots[slot]
  {
  }

  lemma FreshStays(l: Ledger, a: Action, unused: Id, b: Bounds)
    requires unused !in l.published && (a.DoPublish? ==> a.id != unused)
    ensures unused !in Next(l, a, b).published
  {
  }

  lemma ActionSpares(l: Ledger, own: Own, unused: Id, a: Action, b: Bounds)
    requires Inv(l, b) && Owns(l, own) && Foreign(l, own, unused, a)
    ensures Inv(Next(l, a, b), b) && Spared(Next(l, a, b), l, own, unused)
  {
    NextKeeps(l, a, b);
    StepsRespectHolders(l, a, b);
    forall k | k in own.slots ensures Building(Next(l, a, b), k) && Next(l, a, b).slots[k] == l.slots[k] { SlotStays(l, a, k, b); }
    if unused !in l.published { FreshStays(l, a, unused, b); }
  }

  lemma SparedOn(l: Ledger, m: Ledger, n: Ledger, own: Own, unused: Id)
    requires Owns(l, own) && Spared(m, l, own, unused) && Spared(n, m, own, unused)
    ensures Spared(n, l, own, unused)
  {
  }

  /** Whatever others do, a request keeps its build, its leases and its id, and with the leases the listings. */
  lemma {:induction false} MeanwhileSpares(l: Ledger, own: Own, unused: Id, actions: seq<Action>, b: Bounds)
    requires Inv(l, b) && Owns(l, own)
    ensures Inv(Meanwhile(l, own, unused, actions, b), b) && Spared(Meanwhile(l, own, unused, actions, b), l, own, unused)
    decreases |actions|
  {
    if actions != [] {
      var init, a := actions[..|actions| - 1], actions[|actions| - 1];
      MeanwhileSpares(l, own, unused, init, b);
      var m := Meanwhile(l, own, unused, init, b);
      if Foreign(m, own, unused, a) {
        ActionSpares(m, own, unused, a, b);
        SparedOn(l, m, Next(m, a, b), own, unused);
      }
    }
  }

  /** A build that is refused room finds only listings that are in use, and ends owing nothing. */
  lemma RefusalMeansInUse(l: Ledger, slot: nat, charge: nat, now: int, b: Bounds)
    requires Inv(l, b) && Building(l, slot) && !Affords(EvictForBytes(Prune(l, now), charge, b), charge, b)
    ensures var m := Charge(l, slot, charge, now, b);
            && (forall k :: 0 <= k < |m.caches| ==> Held(m.leases, m.caches[k].id) > 0)
            && m.slots == l.slots
            && Return(m, slot).reserved == m.reserved - l.slots[slot].value && End(Return(m, slot), slot).slots[slot] == None
  {
    PruneKeeps(l, 0, now, b);
    EvictForBytesKeeps(Prune(l, now), charge, b);
  }

  /** With no build under way, the reservation is exactly what the cached listings cost. */
  lemma AtRest(concurrency: nat, actions: seq<Action>, b: Bounds)
    ensures var l := Run(Fresh(concurrency), actions, b);
            (forall k :: 0 <= k < |l.slots| ==> l.slots[k] == None) ==> l.reserved == Cost(l.caches)
  {
    var l := Run(Fresh(concurrency), actions, b);
    LedgerExact(concurrency, actions, b);
    if forall k :: 0 <= k < |l.slots| ==> l.slots[k] == None { NoneReserves(l.slots); }
  }
}
