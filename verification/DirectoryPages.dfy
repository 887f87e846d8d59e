/** Building directory listings, cutting them into pages, and the cursors between the pages. */
module DirectoryPages {
  import opened Sorting
  import opened DirectoryLedger
  import opened DirectoryRoom
  import opened Wrappers

  const PAGE := 200

  // ---------- cursors ----------

  datatype Cursor = Cursor(id: Id, offset: int, binding: string, expiry: int)

  /** An ideal signature: a token that verifies under a key was signed with it, for exactly this cursor. */
  datatype Token = Signed(keyId: string, cursor: Cursor) | Forged

  function CursorFor(keyId: string, id: Id, listing: Listing, offset: nat): Token {
    Signed(keyId, Cursor(id, offset, listing.binding, listing.expiry))
  }

  /** The tests on the token itself. */
  predicate Verifies(token: Token, keyId: string, binding: string, now: int) {
    && token.Signed? && token.keyId == keyId && token.cursor.binding == binding && token.cursor.expiry > now
    && token.cursor.offset >= PAGE && token.cursor.offset % PAGE == 0
  }

  /** What a token selects; the clock is read once for the token and once more for the cache. */
  function Selected(l: Ledger, token: Token, keyId: string, binding: string, now: int, later: int): Option<(Id, Listing, nat)> {
    if !Verifies(token, keyId, binding, now) then None
    else
      var c := token.cursor;
      var m := Prune(l, later);
      var k := Place(m.caches, c.id);
      if k < |m.caches| && Matches(m.caches[k].listing, binding, c.expiry, c.offset) then Some((c.id, m.caches[k].listing, c.offset)) else None
  }

  predicate CachedAs(l: Ledger, id: Id, listing: Listing) {
    Place(l.caches, id) < |l.caches| && l.caches[Place(l.caches, id)].listing == listing
  }

  /** A listing outlasts a pruning if its time has not come or somebody holds it. */
  predicate Outlasts(l: Ledger, id: Id, listing: Listing, now: int) {
    listing.expiry > now || Held(l.leases, id) > 0
  }

  /** Exactly those listings stay, and no others appear. */
  lemma {:induction false} PruneCached(l: Ledger, k: nat, now: int, id: Id, listing: Listing, b: Bounds)
    requires Inv(l, b) && k <= |l.caches|
    ensures CachedAs(PruneFrom(l, k, now), id, listing) ==>
              CachedAs(l, id, listing) && (Place(l.caches, id) >= k ==> Outlasts(l, id, listing, now))
    ensures CachedAs(l, id, listing) && Outlasts(l, id, listing, now) ==> CachedAs(PruneFrom(l, k, now), id, listing)
    decreases |l.caches| - k
  {
    if k < |l.caches| {
      assert Filed(l.caches, l.leases, l.published, k);
      if Expired(l, k, now) {
        RemoveKeeps(l, k, b);
        RemoveCached(l, k, id, listing, b);
        PruneCached(Remove(l, k), k, now, id, listing, b);
      } else {
        PruneCached(l, k + 1, now, id, listing, b);
      }
    }
  }

  lemma RemoveCached(l: Ledger, k: nat, id: Id, listing: Listing, b: Bounds)
    requires Inv(l, b) && k < |l.caches|
    ensures CachedAs(Remove(l, k), id, listing) <==> CachedAs(l, id, listing) && l.caches[k].id != id
    ensures CachedAs(l, id, listing) && l.caches[k].id != id && Place(l.caches, id) >= k ==> Place(Remove(l, k).caches, id) >= k
  {
    var rest := Without(l.caches, k);
    assert Filed(l.caches, l.leases, l.published, k);
    if Place(rest, id) < |rest| {
      var j := Place(rest, id);
      assert rest[j] == l.caches[PlaceBefore(k, j)] && Filed(l.caches, l.leases, l.published, PlaceBefore(k, j));
    }
    if Place(l.caches, id) < |l.caches| && l.caches[k].id != id {
      PlaceWithout(l.caches, k, id);
      var j := Place(rest, id);
      assert rest[j] == l.caches[PlaceBefore(k, j)] && Filed(l.caches, l.leases, l.published, PlaceBefore(k, j));
    }
  }

  /** Selecting inverts issuing: a token selects a listing and an offset exactly if it is the cursor for them, the listing
      is cached and outlasts the pruning, its time had not come when the token was tested, and the offset begins one of its
      later pages. */
  lemma SelectInvertsCursor(l: Ledger, token: Token, keyId: string, binding: string, now: int, later: int,
                            id: Id, listing: Listing, offset: nat, b: Bounds)
    requires Inv(l, b)
    ensures Selected(l, token, keyId, binding, now, later) == Some((id, listing, offset))
       <==> && token == CursorFor(keyId, id, listing, offset) && CachedAs(l, id, listing) && Outlasts(l, id, listing, later)
            && listing.binding == binding && listing.expiry > now
            && PAGE <= offset < |listing.entries| && offset % PAGE == 0
  {
    PruneCached(l, 0, later, id, listing, b);
  }

  /** The ledger's side of a selection is a lease on the selected listing. */
  lemma SelectedLeases(l: Ledger, token: Token, keyId: string, binding: string, now: int, later: int, b: Bounds)
    requires Inv(l, b) && Selected(l, token, keyId, binding, now, later).Some?
    ensures var (id, listing, offset) := Selected(l, token, keyId, binding, now, later).value;
            var m := Select(l, id, binding, token.cursor.expiry, offset, later);
            m.holders == l.holders + multiset{id} && CachedAs(m, id, listing)
  {
    var id := token.cursor.id;
    PruneKeeps(l, 0, later, b);
    SelectKeeps(l, id, binding, token.cursor.expiry, token.cursor.offset, later, b);
    var p := Prune(l, later);
    var k := Place(p.caches, id);
    var m := Select(l, id, binding, token.cursor.expiry, token.cursor.offset, later);
    assert m.caches[|m.caches| - 1] == p.caches[k];
    assert Filed(m.caches, m.leases, m.published, |m.caches| - 1);
  }

  // ---------- pages ----------

  function PageAt(listing: Listing, offset: nat): seq<Entry>
    requires offset <= |listing.entries|
  {
    listing.entries[offset..if offset + PAGE <= |listing.entries| then offset + PAGE else |listing.entries|]
  }

  /** Where the next page starts, if there is one. */
  function NextOffset(listing: Listing, offset: nat): Option<nat>
    requires offset <= |listing.entries|
  {
    var next := offset + |PageAt(listing, offset)|;
    if next < |listing.entries| then Some(next) else None
  }

  function Flatten(pages: seq<seq<Entry>>): seq<Entry> {
    if pages == [] then [] else pages[0] + Flatten(pages[1..])
  }

  /** The ledger and the two clock readings that one request for a further page meets. */
  datatype Turn = Turn(ledger: Ledger, now: int, later: int)

  /** All pages from `offset` on, each further one selected by the cursor of the one before; None if a request is denied. */
  function Follow(turns: seq<Turn>, keyId: string, binding: string, id: Id, listing: Listing, offset: nat): Option<seq<seq<Entry>>>
    requires offset <= |listing.entries|
    decreases |turns|
  {
    var page := PageAt(listing, offset);
    match NextOffset(listing, offset)
    case None => Some([page])
    case Some(next) =>
      if turns == [] then None
      else match Selected(turns[0].ledger, CursorFor(keyId, id, listing, next), keyId, binding, turns[0].now, turns[0].later)
        case None => None
        case Some((id', listing', offset')) =>
          match Follow(turns[1..], keyId, binding, id', listing', offset')
          case None => None
          case Some(rest) => Some([page] + rest)
  }

  /** The listing is the one published under its id, whatever else has happened in between. */
  ghost predicate Steady(turns: seq<Turn>, id: Id, listing: Listing, b: Bounds) {
    forall i :: 0 <= i < |turns| ==>
                  Inv(turns[i].ledger, b) && id in turns[i].ledger.published && turns[i].ledger.published[id] == listing
  }

  function Pages(n: nat): nat {
    (n + PAGE - 1) / PAGE
  }

  lemma SelectedIs(t: Turn, keyId: string, binding: string, id: Id, listing: Listing, next: nat, b: Bounds)
    requires Inv(t.ledger, b) && id in t.ledger.published && t.ledger.published[id] == listing
    requires Selected(t.ledger, CursorFor(keyId, id, listing, next), keyId, binding, t.now, t.later).Some?
    ensures Selected(t.ledger, CursorFor(keyId, id, listing, next), keyId, binding, t.now, t.later).value == (id, listing, next)
  {
    PruneKeeps(t.ledger, 0, t.later, b);
    var m := Prune(t.ledger, t.later);
    assert Filed(m.caches, m.leases, m.published, Place(m.caches, id));
  }

  lemma PagesStep(n: nat)
    ensures 0 < n <= PAGE ==> Pages(n) == 1
    ensures n > PAGE ==> Pages(n) == 1 + Pages(n - PAGE)
  {
  }

  /** One page and the ones after it. */
  lemma PageThenRest(listing: Listing, offset: nat, rest: seq<seq<Entry>>)
    requires offset <= |listing.entries| && NextOffset(listing, offset).Some?
    requires Flatten(rest) == listing.entries[NextOffset(listing, offset).value..]
    ensures NextOffset(listing, offset).value == offset + PAGE < |listing.entries|
    ensures Flatten([PageAt(listing, offset)] + rest) == listing.entries[offset..]
  {
    var page, next := PageAt(listing, offset), offset + PAGE;
    assert ([page] + rest)[1..] == rest;
    assert page + listing.entries[next..] == listing.entries[offset..];
  }

  lemma LastPage(listing: Listing, offset: nat)
    requires offset <= |listing.entries| && NextOffset(listing, offset).None?
    ensures Flatten([PageAt(listing, offset)]) == listing.entries[offset..] && |listing.entries| - offset <= PAGE
  {
    assert Flatten([PageAt(listing, offset)]) == PageAt(listing, offset) + Flatten([]);
  }

  /** From any page on, following the cursors without being denied returns the rest of the one
      listing, every entry once and in order, in as few pages as there can be. */
  lemma {:induction false} WalkFrom(turns: seq<Turn>, keyId: string, binding: string, id: Id, listing: Listing, offset: nat, b: Bounds)
    requires Steady(turns, id, listing, b) && (offset < |listing.entries| || offset == 0 == |listing.entries|)
    requires Follow(turns, keyId, binding, id, listing, offset).Some?
    ensures var pages := Follow(turns, keyId, binding, id, listing, offset).value;
            && Flatten(pages) == listing.entries[offset..]
            && |pages| == if listing.entries == [] then 1 else Pages(|listing.entries| - offset)
    decreases |turns|
  {
    PagesStep(|listing.entries| - offset);
    if NextOffset(listing, offset).None? {
      LastPage(listing, offset);
    } else {
      var next := NextOffset(listing, offset).value;
      SelectedIs(turns[0], keyId, binding, id, listing, next, b);
      WalkFrom(turns[1..], keyId, binding, id, listing, next, b);
      PageThenRest(listing, offset, Follow(turns[1..], keyId, binding, id, listing, next).value);
    }
  }

  /** When along a run of the ledger a further page is asked for, and what the clock says then. */
  datatype Visit = Visit(at: nat, now: int, later: int)

  ghost predicate Along(turns: seq<Turn>, visits: seq<Visit>, l: Ledger, actions: seq<Action>, b: Bounds) {
    |turns| == |visits| &&
    forall i :: 0 <= i < |visits| ==>
                  visits[i].at <= |actions| && turns[i] == Turn(Run(l, actions[..visits[i].at], b), visits[i].now, visits[i].later)
  }

  /** Nothing that happens along a run changes a published listing. */
  lemma SteadyAlong(turns: seq<Turn>, visits: seq<Visit>, l: Ledger, actions: seq<Action>, id: Id, b: Bounds)
    requires Inv(l, b) && id in l.published && Along(turns, visits, l, actions, b)
    ensures Steady(turns, id, l.published[id], b)
  {
    forall i | 0 <= i < |turns|
      ensures Inv(turns[i].ledger, b) && id in turns[i].ledger.published && turns[i].ledger.published[id] == l.published[id]
    {
      ListingsStay(l, actions[..visits[i].at], id, b);
    }
  }

  /** What a publication that takes effect leaves. */
  lemma PublicationIs(l: Ledger, a: Action, b: Bounds)
    requires Inv(l, b) && a.DoPublish? && a.id !in l.published && a.id in Next(l, a, b).published
    ensures Inv(Next(l, a, b), b) && Next(l, a, b).published[a.id] == a.listing && Lists(a.listing, a.kept)
  {
    NextKeeps(l, a, b);
    if CanPublish(l, a.slot, a.id, a.listing, a.kept) {
      PruneKeeps(l, 0, a.now, b);
      EvictForCountKeeps(Prune(l, a.now), b);
    }
  }

  /** Complete walk: after any history `before` a build publishes what its scan has kept. Whatever any threads do from then on,
      whoever follows the cursors along the way without being denied receives exactly the entries that the scan has kept,
      each once, in strictly increasing byte order of their names, in as few pages as there can be. */
  lemma CompleteWalk(concurrency: nat, before: seq<Action>, publish: Action, after: seq<Action>, visits: seq<Visit>, turns: seq<Turn>,
                     keyId: string, binding: string, b: Bounds)
    requires publish.DoPublish? && publish.id !in Run(Fresh(concurrency), before, b).published
    requires publish.id in Next(Run(Fresh(concurrency), before, b), publish, b).published
    requires Along(turns, visits, Next(Run(Fresh(concurrency), before, b), publish, b), after, b)
    requires Follow(turns, keyId, binding, publish.id, publish.listing, 0).Some?
    ensures var pages := Follow(turns, keyId, binding, publish.id, publish.listing, 0).value;
            && Sorted(Flatten(pages), NameOf)
            && Elements(Flatten(pages)) == Elements(publish.kept) && |Flatten(pages)| == |publish.kept|
            && |pages| == if publish.kept == [] then 1 else Pages(|publish.kept|)
  {
    var l, id, listing := Run(Fresh(concurrency), before, b), publish.id, publish.listing;
    LedgerExact(concurrency, before, b);
    PublicationIs(l, publish, b);
    SteadyAlong(turns, visits, Next(l, publish, b), after, id, b);
    WalkFrom(turns, keyId, binding, id, listing, 0, b);
    assert listing.entries[0..] == listing.entries;
  }

  // ---------- scanning ----------

  /** What a scan keeps: the entries that are not skipped. */
  function Kept(scan: seq<Option<Entry>>): seq<Entry> {
    if scan == [] then []
    else Kept(scan[..|scan| - 1]) + KeptOf(scan[|scan| - 1])
  }

  function KeptOf(item: Option<Entry>): seq<Entry> {
    match item case None => [] case Some(e) => [e]
  }

  lemma KeptSnoc(scan: seq<Option<Entry>>, i: nat)
    requires i < |scan|
    ensures Kept(scan[..i + 1]) == Kept(scan[..i]) + KeptOf(scan[i])
  {
    assert scan[..i + 1][..i] == scan[..i];
  }

  function ChargeOf(e: Entry): nat { 256 + 5 * |e.name| }

  function TotalCharge(entries: seq<Entry>): nat {
    if entries == [] then 0 else TotalCharge(entries[..|entries| - 1]) + ChargeOf(entries[|entries| - 1])
  }

  lemma ChargeSnoc(entries: seq<Entry>, e: Entry)
    ensures TotalCharge(entries + [e]) == TotalCharge(entries) + ChargeOf(e)
  {
    assert (entries + [e])[..|entries|] == entries;
  }

  /** A directory has no two entries of one name. */
  predicate NamesDiffer(entries: seq<Entry>) {
    forall i, j :: 0 <= i < j < |entries| ==> entries[i].name != entries[j].name
  }

  datatype Reason = GatewayBusy | FolderTooLarge | ListingUnavailable | Cancelled

  datatype Built = Built(id: Id, listing: Listing) | NotBuilt(reason: Reason)

  datatype Reply = Page(entries: seq<Entry>, next: Option<Token>) | Denied(reason: Reason)

  method SortByName(entries: seq<Entry>) returns (sorted: seq<Entry>)
    requires NamesDiffer(entries)
    ensures Sorted(sorted, NameOf) && Elements(sorted) == Elements(entries) && |sorted| == |entries|
  {
    sorted := [];
    for i := 0 to |entries|
      invariant Sorted(sorted, NameOf) && Elements(sorted) == Elements(entries[..i]) && |sorted| == i
    {
      forall y | y in sorted ensures NameOf(y) != NameOf(entries[i]) {
        assert y in Elements(sorted);
        var j :| 0 <= j < i && entries[..i][j] == y;
      }
      sorted := Insert(sorted, entries[i], NameOf);
      assert entries[..i + 1] == entries[..i] + [entries[i]];
    }
    assert entries[..|entries|] == entries;
  }

  // ---------- what becomes of a build ----------

  /** The first free slot, or the number of slots. */
  function FirstFree(slots: seq<Option<nat>>): (k: nat)
    ensures k <= |slots| && (k < |slots| ==> slots[k] == None)
    ensures forall j :: 0 <= j < k ==> slots[j].Some?
  {
    if slots == [] then 0
    else var k := FirstFree(slots[..|slots| - 1]);
         if k < |slots| - 1 || slots[k] == None then k else k + 1
  }

  /** What a build meets: the entries it scans, the clock, what others do before each of its sections, and the checks for a
      cancelled request. */
  datatype Course = Course(scan: seq<Option<Entry>>, clock: nat -> int, others: nat -> seq<Action>, check: nat -> bool, freshId: Id)

  /** A build under way: where it started from, what its object's requests held by then, and its slot. */
  datatype Start = Start(ledger: Ledger, own: Own, slot: nat)

  /** The ledger when it comes to entry `i`, or after the last one to its publication. */
  function Upon(s: Start, course: Course, b: Bounds, i: nat): Ledger
    requires i <= |course.scan|
    decreases i, 1
  {
    Meanwhile(Past(s, course, b, i), s.own, course.freshId, course.others(i), b)
  }

  /** The ledger when it has `i` entries behind it, with what they were charged. */
  function Past(s: Start, course: Course, b: Bounds, i: nat): Ledger
    requires i <= |course.scan|
    decreases i, 0
  {
    if i == 0 then s.ledger
    else
      match course.scan[i - 1]
      case None => Upon(s, course, b, i - 1)
      case Some(e) => Charge(Upon(s, course, b, i - 1), s.slot, ChargeOf(e), course.clock(i - 1), b)
  }

  /** Entry `i` does not end the scan: the request is not cancelled, there are not too many, and a name that is kept has room. */
  predicate Passes(s: Start, course: Course, b: Bounds, maxEntries: nat, i: nat) {
    i < |course.scan| && !course.check(i) && i < maxEntries
    && (course.scan[i].Some? ==> HasRoom(Upon(s, course, b, i), ChargeOf(course.scan[i].value), b))
  }

  ghost predicate AllPass(s: Start, course: Course, b: Bounds, maxEntries: nat, n: nat) {
    forall i: nat :: i < n ==> Passes(s, course, b, maxEntries, i)
  }

  /** Entry `i` is the first that ends the scan. */
  ghost predicate StopsAt(s: Start, course: Course, b: Bounds, maxEntries: nat, i: nat) {
    i < |course.scan| && !Passes(s, course, b, maxEntries, i) && AllPass(s, course, b, maxEntries, i)
  }

  ghost predicate ScanOutcome(r: Option<Reason>, s: Start, course: Course, b: Bounds, maxEntries: nat) {
    if AllPass(s, course, b, maxEntries, |course.scan|) then r.None?
    else exists i: nat :: StopsAt(s, course, b, maxEntries, i) && r == Some(if course.check(i) then Cancelled else FolderTooLarge)
  }

  /** What a build gets for it: a listing exactly if a slot is free, nothing is cancelled, every entry passes, the directory
      is the same and there is a place; otherwise the reason. The listing is good for `ttl` from the end of the scan on. */
  ghost predicate BuildOutcome(r: Built, l: Ledger, own: Own, course: Course, binding: string, identity: nat, same: bool,
                               b: Bounds, maxEntries: nat, ttl: nat) {
    var slot := FirstFree(l.slots);
    var s := Start(Begin(l, slot), Own(own.slots + {slot}, own.leases), slot);
    if slot == |l.slots| then r == NotBuilt(GatewayBusy) else BuildEnd(r, s, course, binding, identity, same, b, maxEntries, ttl)
  }

  ghost predicate BuildEnd(r: Built, s: Start, course: Course, binding: string, identity: nat, same: bool,
                           b: Bounds, maxEntries: nat, ttl: nat) {
    var n := |course.scan|;
    if !AllPass(s, course, b, maxEntries, n) then r.NotBuilt? && ScanOutcome(Some(r.reason), s, course, b, maxEntries)
    else if course.check(n) || course.check(n + 1) then r == NotBuilt(Cancelled)
    else if !same then r == NotBuilt(ListingUnavailable)
    else if !HasPlace(Upon(s, course, b, n), b) then r == NotBuilt(GatewayBusy)
    else r.Built? && r.id == course.freshId && IsListingOf(r.listing, Kept(course.scan), binding, identity)
         && r.listing.expiry == course.clock(n) + ttl
  }

  /** What a request without a cursor gets: the first page of what is built, unless the directory has become another one, the
      request is cancelled, or the time of the new listing has come. */
  ghost predicate FirstPage(r: Reply, built: Built, keyId: string, identity: nat, identityNow: nat -> nat, now: int, expiry: int,
                            cancelled: bool) {
    match built
    case NotBuilt(reason) => r == Denied(reason)
    case Built(id, listing) =>
      if identityNow(0) != identity then r == Denied(ListingUnavailable)
      else if cancelled then r == Denied(Cancelled)
      else if identityNow(1) != identity || expiry <= now then r == Denied(ListingUnavailable)
      else ReplyIs(r, keyId, id, listing, 0)
  }

  // ---------- the service ----------

  class Directories {
    const bounds: Bounds
    const maxEntries: nat
    const ttl: nat
    var caches: seq<Cached>
    var leases: map<Id, nat>
    var reserved: int
    var slots: seq<Option<nat>>
    var holders: multiset<Id>
    var published: map<Id, Listing>
    var own: Own

    function View(): Ledger
      reads this
    {
      Ledger(caches, leases, reserved, slots, holders, published)
    }

    /** The ledger is exact, and what this object's requests hold is theirs. */
    ghost predicate Sound()
      reads this
    {
      Inv(View(), bounds) && Owns(View(), own)
    }

    constructor (bounds: Bounds, maxEntries: nat, ttl: nat, concurrency: nat)
      ensures View() == Fresh(concurrency) && own == Own({}, multiset{})
      ensures this.bounds == bounds && this.maxEntries == maxEntries && this.ttl == ttl
    {
      this.bounds, this.maxEntries, this.ttl := bounds, maxEntries, ttl;
      caches, leases, reserved, slots := [], map[], 0, seq(concurrency, _ => None);
      holders, published, own := multiset{}, map[], Own({}, multiset{});
    }

    method RemoveAt(k: nat)
      requires k < |caches|
      modifies `caches, `leases, `reserved
      ensures View() == Remove(old(View()), k)
    {
      reserved := reserved - caches[k].listing.cost;
      leases := leases - {caches[k].id};
      caches := Without(caches, k);
    }

    method PruneCaches(now: int)
      modifies `caches, `leases, `reserved
      ensures View() == Prune(old(View()), now) && caches == Unexpired(old(caches), old(leases), now)
    {
      PruneIs(View(), now);
      var k := 0;
      while k < |caches|
        invariant 0 <= k <= |caches|
        invariant PruneFrom(View(), k, now) == Prune(old(View()), now)
        decreases |caches| - k
      {
        if caches[k].listing.expiry <= now && Held(leases, caches[k].id) == 0 {
          RemoveAt(k);
        } else {
          k := k + 1;
        }
      }
    }

    method Evict() returns (evicted: bool)
      modifies `caches, `leases, `reserved
      ensures var k := FirstIdle(old(caches), old(leases));
              evicted == (k < |old(caches)|) && View() == if evicted then Remove(old(View()), k) else old(View())
    {
      var k := 0;
      while k < |caches| && Held(leases, caches[k].id) > 0
        invariant 0 <= k <= |caches| && forall j :: 0 <= j < k ==> Held(leases, caches[j].id) > 0
      {
        k := k + 1;
      }
      assert k == FirstIdle(caches, leases);
      evicted := k < |caches|;
      if evicted { RemoveAt(k); }
    }

    method TakeSlot() returns (slot: nat)
      modifies `slots
      ensures slot <= |old(slots)| && (slot < |old(slots)| ==> old(slots)[slot] == None)
      ensures slot == FirstFree(old(slots))
      ensures View() == Begin(old(View()), slot)
    {
      slot := 0;
      while slot < |slots| && slots[slot].Some?
        invariant 0 <= slot <= |slots| && forall k :: 0 <= k < slot ==> slots[k].Some?
      {
        slot := slot + 1;
      }
      assert slot == FirstFree(slots);
      if slot < |slots| { slots := slots[slot := Some(0)]; }
    }

    method MakeRoomFor(charge: nat, now: int)
      modifies `caches, `leases, `reserved
      ensures View() == EvictForBytes(Prune(old(View()), now), charge, bounds)
    {
      PruneCaches(now);
      var more := true;
      while caches != [] && reserved + charge > bounds.maxBytes && more
        invariant EvictForBytes(View(), charge, bounds) == EvictForBytes(Prune(old(View()), now), charge, bounds)
        invariant !more ==> FirstIdle(caches, leases) == |caches|
        decreases |caches|, more
      {
        more := Evict();
      }
    }

    /** The section in which a build reserves room for one more name. */
    method ChargeName(slot: nat, charge: nat, now: int) returns (ok: bool)
      requires slot < |slots| && slots[slot].Some?
      modifies `caches, `leases, `reserved, `slots
      ensures View() == Charge(old(View()), slot, charge, now, bounds)
      ensures ok == Affords(EvictForBytes(Prune(old(View()), now), charge, bounds), charge, bounds)
      ensures slots == if ok then old(slots)[slot := Some(old(slots)[slot].value + charge)] else old(slots)
    {
      MakeRoomFor(charge, now);
      ok := reserved + charge <= bounds.maxBytes;
      if ok {
        reserved := reserved + charge;
        slots := slots[slot := Some(slots[slot].value + charge)];
      }
    }

    method MakePlace(now: int) returns (ok: bool)
      modifies `caches, `leases, `reserved
      ensures View() == EvictForCount(Prune(old(View()), now), bounds)
      ensures ok <==> |caches| < bounds.maxCaches
    {
      PruneCaches(now);
      ok := true;
      while |caches| >= bounds.maxCaches && ok
        invariant EvictForCount(View(), bounds) == EvictForCount(Prune(old(View()), now), bounds)
        invariant !ok ==> FirstIdle(caches, leases) == |caches| && |caches| >= bounds.maxCaches
        decreases |caches|, ok
      {
        ok := Evict();
      }
    }

    method FileListing(slot: nat, id: Id, listing: Listing)
      requires slot < |slots| && slots[slot].Some? && |caches| < bounds.maxCaches
      modifies this
      ensures own == old(own)
      ensures View() == Published(old(View()), slot, id, listing, bounds)
    {
      caches, leases, slots := caches + [Cached(id, listing)], leases[id := 1], slots[slot := Some(0)];
      holders, published := holders + multiset{id}, published[id := listing];
    }

    /** The section in which the cache takes over what the build has reserved. */
    method PublishListing(slot: nat, id: Id, listing: Listing, ghost kept: seq<Entry>, now: int) returns (ok: bool)
      requires CanPublish(View(), slot, id, listing, kept)
      modifies this
      ensures own == old(own)
      ensures View() == Publish(old(View()), slot, id, listing, kept, now, bounds)
      ensures ok <==> |EvictForCount(Prune(old(View()), now), bounds).caches| < bounds.maxCaches
    {
      ok := MakePlace(now);
      if ok { FileListing(slot, id, listing); }
    }

    /** The section in which a build gives back what it has reserved. */
    method GiveBack(slot: nat)
      requires slot < |slots| && slots[slot].Some?
      modifies `reserved, `slots
      ensures View() == Return(old(View()), slot)
    {
      reserved := reserved - slots[slot].value;
      slots := slots[slot := Some(0)];
    }

    method FreeSlot(slot: nat)
      requires slot < |slots| && slots[slot] == Some(0)
      modifies `slots
      ensures View() == End(old(View()), slot)
    {
      slots := slots[slot := None];
    }

    /** The section in which a cursor is turned into a lease on its listing. */
    method SelectListing(token: Token, keyId: string, binding: string, now: int, later: int) returns (r: Option<(Id, Listing, nat)>)
      modifies this
      ensures own == old(own)
      ensures r == Selected(old(View()), token, keyId, binding, now, later)
      ensures View() == AfterSelection(old(View()), token, keyId, binding, now, later)
      ensures r.Some? ==> var left := Unexpired(old(caches), old(leases), later);
                          var k := Place(left, r.value.0);
                          k < |left| && left[k].listing == r.value.1 && caches == Without(left, k) + [left[k]]
    {
      if !Verifies(token, keyId, binding, now) { return None; }
      var c := token.cursor;
      PruneCaches(later);
      var k := Place(caches, c.id);
      if k == |caches| || !Matches(caches[k].listing, binding, c.expiry, c.offset) { return None; }
      var found := caches[k];
      caches, leases := Without(caches, k) + [found], leases[c.id := Held(leases, c.id) + 1];
      holders := holders + multiset{c.id};
      r := Some((c.id, found.listing, c.offset));
    }

    method ReleaseLease(id: Id, now: int)
      requires Releasable(View(), id)
      modifies this
      ensures own == old(own)
      ensures View() == Release(old(View()), id, now)
    {
      leases, holders := leases[id := leases[id] - 1], holders - multiset{id};
      PruneCaches(now);
    }

    // The same sections again, as the steps of a request: `own` is what it has taken and not given back.

    method ChargeStep(slot: nat, charge: nat, now: int) returns (ok: bool)
      requires Sound() && slot in own.slots
      modifies this
      ensures Sound() && own == old(own) && holders == old(holders) && published == old(published)
      ensures slots == if ok then old(slots)[slot := Some(old(slots)[slot].value + charge)] else old(slots)
      ensures ok == HasRoom(old(View()), charge, bounds) && View() == Charge(old(View()), slot, charge, now, bounds)
    {
      ghost var before := View();
      RoomIsMade(before, charge, now, bounds);
      ok := ChargeName(slot, charge, now);
      ChargeKeeps(before, slot, charge, now, bounds);
    }

    method PublishStep(slot: nat, id: Id, listing: Listing, ghost kept: seq<Entry>, now: int) returns (ok: bool)
      requires Sound() && slot in own.slots && CanPublish(View(), slot, id, listing, kept)
      modifies this
      ensures Sound() && slots == if ok then old(slots)[slot := Some(0)] else old(slots)
      ensures holders == if ok then old(holders) + multiset{id} else old(holders)
      ensures published == if ok then old(published)[id := listing] else old(published)
      ensures own == if ok then Own(old(own).slots, old(own).leases + multiset{id}) else old(own)
      ensures ok == HasPlace(old(View()), bounds)
    {
      PlaceIsMade(View(), now, bounds);
      PublicationOwned(View(), own, slot, id, listing, kept, now, bounds);
      ok := PublishListing(slot, id, listing, kept, now);
      if ok { own := Own(own.slots, own.leases + multiset{id}); }
    }

    method ReturnStep(slot: nat)
      requires Sound() && slot in own.slots
      modifies this
      ensures Sound() && holders == old(holders) && published == old(published) && own == old(own)
      ensures slots == old(slots)[slot := Some(0)]
    {
      ghost var before := View();
      GiveBack(slot);
      EndKeeps(before, slot, bounds);
    }

    method EndStep(slot: nat)
      requires Sound() && slot in own.slots && slots[slot] == Some(0)
      modifies this
      ensures Sound() && holders == old(holders) && published == old(published)
      ensures slots == old(slots)[slot := None] && own == Own(old(own).slots - {slot}, old(own).leases)
    {
      ghost var before := View();
      FreeSlot(slot);
      EndKeeps(before, slot, bounds);
      own := Own(own.slots - {slot}, own.leases);
    }

    method BeginStep() returns (slot: nat)
      requires Sound()
      modifies this
      ensures Sound() && holders == old(holders) && published == old(published)
      ensures if slot < |old(slots)|
              then && old(slots)[slot] == None && slots == old(slots)[slot := Some(0)] && slot !in old(own).slots
                   && own == Own(old(own).slots + {slot}, old(own).leases)
              else slots == old(slots) && own == old(own)
      ensures slot == FirstFree(old(slots)) && View() == Begin(old(View()), slot)
    {
      ghost var before := View();
      slot := TakeSlot();
      NextKeeps(before, DoBegin(slot), bounds);
      if slot < |slots| { own := Own(own.slots + {slot}, own.leases); }
    }

    method SelectStep(token: Token, keyId: string, binding: string, now: int, later: int) returns (r: Option<(Id, Listing, nat)>)
      requires Sound()
      modifies this
      ensures Sound() && slots == old(slots) && published == old(published)
      ensures r == Selected(old(View()), token, keyId, binding, now, later)
      ensures r.Some? ==> r.value.0 in published && published[r.value.0] == r.value.1 && r.value.2 <= |r.value.1.entries|
      ensures holders == if r.Some? then old(holders) + multiset{r.value.0} else old(holders)
      ensures own == if r.Some? then Own(old(own).slots, old(own).leases + multiset{r.value.0}) else old(own)
    {
      SelectionOwned(View(), own, token, keyId, binding, now, later, bounds);
      r := SelectListing(token, keyId, binding, now, later);
      if r.Some? { own := Own(own.slots, own.leases + multiset{r.value.0}); }
    }

    method ReleaseStep(id: Id, now: int)
      requires Sound() && id in own.leases
      modifies this
      ensures Sound() && slots == old(slots) && published == old(published)
      ensures holders == old(holders) - multiset{id} && own == Own(old(own).slots, old(own).leases - multiset{id})
    {
      ghost var before := View();
      HeldIsCached(before, id, bounds);
      assert before.holders[id] == Held(before.leases, id);
      ReleaseLease(id, now);
      ReleaseKeeps(before, id, now, bounds);
      own := Own(own.slots, own.leases - multiset{id});
    }

    /** What other requests do in between. */
    method Others(actions: seq<Action>, freshId: Id)
      requires Sound()
      modifies this
      ensures View() == Meanwhile(old(View()), own, freshId, actions, bounds) && own == old(own)
      ensures Sound() && Spared(View(), old(View()), own, freshId)
    {
      MeanwhileSpares(View(), own, freshId, actions, bounds);
      var after := Meanwhile(View(), own, freshId, actions, bounds);
      caches, leases, reserved, slots, holders, published :=
        after.caches, after.leases, after.reserved, after.slots, after.holders, after.published;
    }

    /** A build under way in `slot` with these entries, whose id is still unused. */
    ghost predicate Scanning(slot: nat, entries: seq<Entry>, freshId: Id)
      reads this
    {
      Sound() && slot in own.slots && slots[slot] == Some(TotalCharge(entries)) && freshId !in published
    }

    /** A build is there still after what others have done. */
    method OthersScanning(actions: seq<Action>, slot: nat, ghost entries: seq<Entry>, freshId: Id)
      requires Scanning(slot, entries, freshId)
      modifies this
      ensures Scanning(slot, entries, freshId) && own == old(own)
      ensures View() == Meanwhile(old(View()), own, freshId, actions, bounds)
    {
      Others(actions, freshId);
    }

    /** One entry of the scan: it is skipped, or room is reserved for it, or there is no room. */
    method ScanOne(slot: nat, item: Option<Entry>, now: int, entries: seq<Entry>, ghost freshId: Id)
      returns (ok: bool, more: seq<Entry>)
      requires Scanning(slot, entries, freshId)
      modifies this
      ensures Scanning(slot, more, freshId) && own == old(own)
      ensures ok ==> more == entries + KeptOf(item)
      ensures ok <==> item.Some? ==> HasRoom(old(View()), ChargeOf(item.value), bounds)
      ensures View() == match item case None => old(View()) case Some(e) => Charge(old(View()), slot, ChargeOf(e), now, bounds)
    {
      ok, more := true, entries;
      if item.Some? {
        var e := item.value;
        ok := ChargeStep(slot, ChargeOf(e), now);
        ChargeSnoc(entries, e);
        if ok { more := entries + [e]; }
      }
    }

    /** The build `s` has `i` entries of its course behind it, and none of them has ended it. */
    ghost predicate Underway(s: Start, course: Course, entries: seq<Entry>, i: nat)
      reads this
    {
      i <= |course.scan| && i <= maxEntries && Scanning(s.slot, entries, course.freshId) && own == s.own
      && View() == Past(s, course, bounds, i) && entries == Kept(course.scan[..i])
      && AllPass(s, course, bounds, maxEntries, i)
    }

    /** The scan of a build: it reserves room for each name it keeps, as long as there is room, whatever others do before
        each entry. */
    method Scan(course: Course, ghost s: Start, slot: nat) returns (r: Option<Reason>, entries: seq<Entry>)
      requires slot == s.slot && Underway(s, course, [], 0)
      modifies this
      ensures Scanning(slot, entries, course.freshId) && own == old(own)
      ensures ScanOutcome(r, s, course, bounds, maxEntries)
      ensures r.None? ==> Underway(s, course, entries, |course.scan|) && entries == Kept(course.scan)
    {
      r, entries := None, [];
      for i := 0 to |course.scan|
        invariant Underway(s, course, entries, i)
      {
        if course.check(i) || i >= maxEntries {
          assert StopsAt(s, course, bounds, maxEntries, i);
          return Some(if course.check(i) then Cancelled else FolderTooLarge), entries;
        }
        var ok;
        ok, entries := ScanNext(course, s, slot, entries, i);
        if !ok {
          assert StopsAt(s, course, bounds, maxEntries, i);
          return Some(FolderTooLarge), entries;
        }
      }
      assert course.scan[..|course.scan|] == course.scan;
    }

    /** One more entry, if nothing has ended the scan before it. */
    method ScanNext(course: Course, ghost s: Start, slot: nat, entries: seq<Entry>, i: nat) returns (ok: bool, more: seq<Entry>)
      requires slot == s.slot && Underway(s, course, entries, i) && i < |course.scan| && i < maxEntries && !course.check(i)
      modifies this
      ensures Scanning(slot, more, course.freshId) && own == old(own)
      ensures ok == Passes(s, course, bounds, maxEntries, i)
      ensures ok ==> Underway(s, course, more, i + 1)
    {
      OthersScanning(course.others(i), slot, entries, course.freshId);
      assert View() == Upon(s, course, bounds, i);
      ok, more := ScanOne(slot, course.scan[i], course.clock(i), entries, course.freshId);
      KeptSnoc(course.scan, i);
    }

    /** The end of a build: the names are sorted, and the listing is published if the directory is still the same. */
    method Finish(slot: nat, entries: seq<Entry>, binding: string, identity: nat, same: bool, expiry: int, now: int,
                  cancelled: bool, others: seq<Action>, freshId: Id) returns (r: Built)
      requires Scanning(slot, entries, freshId) && NamesDiffer(entries)
      modifies this
      ensures Sound() && own == if r.Built? then Own(old(own).slots, old(own).leases + multiset{freshId}) else old(own)
      ensures r.Built? ==> r.id == freshId && IsListingOf(r.listing, entries, binding, identity) && r.listing.expiry == expiry
      ensures r == if cancelled then NotBuilt(Cancelled) else if !same then NotBuilt(ListingUnavailable)
                   else if HasPlace(Meanwhile(old(View()), old(own), freshId, others, bounds), bounds) then r else NotBuilt(GatewayBusy)
      ensures r.Built? <==> !cancelled && same && HasPlace(Meanwhile(old(View()), old(own), freshId, others, bounds), bounds)
      ensures if r.Built? then freshId in published && published[freshId] == r.listing else freshId !in published
    {
      var sorted := SortByName(entries);
      if cancelled { return NotBuilt(Cancelled); }
      if !same { return NotBuilt(ListingUnavailable); }
      var listing := Listing(binding, identity, sorted, expiry, TotalCharge(entries));
      OthersScanning(others, slot, entries, freshId);
      var ok := PublishStep(slot, freshId, listing, entries, now);
      r := if ok then Built(freshId, listing) else NotBuilt(GatewayBusy);
    }

    /** The `finally` block of a build: what it has reserved and not handed over goes back, and then its slot. */
    method EndBuild(slot: nat, others: seq<Action>, later: seq<Action>, freshId: Id)
      requires Sound() && slot in own.slots
      modifies this
      ensures Sound() && own == Own(old(own).slots - {slot}, old(own).leases)
      ensures freshId in old(published) ==> freshId in published && published[freshId] == old(published)[freshId]
      ensures freshId !in old(published) ==> freshId !in published
    {
      Others(others, freshId);
      ReturnStep(slot);
      Others(later, freshId);
      EndStep(slot);
    }

    /** A build, start to end, while others act before each of its sections: whatever becomes of it, it returns its slot and
        what it has reserved and not handed over, and what it publishes is held. `same` says whether the directory is still
        the one that was opened, `freshId` is the new listing's id. */
    method Build(scan: seq<Option<Entry>>, binding: string, identity: nat, same: bool, clock: nat -> int, check: nat -> bool,
                 others: nat -> seq<Action>, freshId: Id) returns (r: Built)
      requires Sound() && NamesDiffer(Kept(scan)) && freshId !in published
      modifies this
      ensures Sound() && own == if r.Built? then Own(old(own).slots, old(own).leases + multiset{freshId}) else old(own)
      ensures BuildOutcome(r, old(View()), old(own), Course(scan, clock, others, check, freshId), binding, identity, same,
                           bounds, maxEntries, ttl)
      ensures if r.Built? then freshId in published && published[freshId] == r.listing else freshId !in published
    {
      var slot := BeginStep();
      if slot >= |slots| { return NotBuilt(GatewayBusy); }
      ghost var s := Start(View(), own, slot);
      r := BuildIn(s, slot, binding, identity, same, Course(scan, clock, others, check, freshId));
      EndBuild(slot, others(|scan| + 1), others(|scan| + 2), freshId);
      assert own.slots == old(own).slots;
    }

    /** The body of the `try` block. */
    method BuildIn(ghost s: Start, slot: nat, binding: string, identity: nat, same: bool, course: Course) returns (r: Built)
      requires slot == s.slot && Underway(s, course, [], 0) && NamesDiffer(Kept(course.scan))
      modifies this
      ensures Sound() && own == if r.Built? then Own(old(own).slots, old(own).leases + multiset{course.freshId}) else old(own)
      ensures BuildEnd(r, s, course, binding, identity, same, bounds, maxEntries, ttl)
      ensures if r.Built? then course.freshId in published && published[course.freshId] == r.listing else course.freshId !in published
    {
      var n := |course.scan|;
      var failure, entries := Scan(course, s, slot);
      if failure.Some? {
        r := NotBuilt(failure.value);
      } else if course.check(n) {
        r := NotBuilt(Cancelled);
      } else {
        r := Finish(slot, entries, binding, identity, same, course.clock(n) + ttl, course.clock(n + 1), course.check(n + 1),
                    course.others(n), course.freshId);
      }
    }

    /** While a request holds a listing, it is in the cache as it was published, whatever others do. */
    method Lookup(id: Id, listing: Listing, others: seq<Action>) returns (found: bool)
      requires Sound() && id in own.leases && id in published && published[id] == listing
      modifies this
      ensures Sound() && own == old(own) && found
    {
      Others(others, id);
      HeldIsCached(View(), id, bounds);
      var k := Place(caches, id);
      found := k < |caches| && caches[k].listing == listing;
    }

    /** What a request does with its lease: the page is made if the directory is still the one that was listed, and the lease
        goes back whatever happens. */
    method Serve(keyId: string, id: Id, listing: Listing, offset: nat, identityNow: nat -> nat, now: int, end: int, cancelled: bool,
                 others: nat -> seq<Action>) returns (r: Reply)
      requires Sound() && id in own.leases && id in published && published[id] == listing && offset <= |listing.entries|
      modifies this
      ensures Sound() && own == Own(old(own).slots, old(own).leases - multiset{id})
      ensures Answers(r, keyId, Some((id, listing, offset)), identityNow, now, cancelled)
    {
      r := Denied(ListingUnavailable);
      if identityNow(0) == listing.identity {
        if cancelled {
          r := Denied(Cancelled);
        } else if identityNow(1) == listing.identity {
          var found := Lookup(id, listing, others(0));
          if found && listing.expiry > now { r := MakeReply(keyId, id, listing, offset); }
        }
      }
      Others(others(1), id);
      ReleaseStep(id, end);
    }

    /** A request for a page: it takes a lease, by building or by its cursor, and gives it back whatever happens, while others
        act before each of its sections. `identityNow` are the directory's identities when it is looked at, `cancelled`
        whether the last check fails; the clock says `clock` up to the lease and `after` from then on. */
    method ListPage(keyId: string, binding: string, cursor: Option<Token>, scan: seq<Option<Entry>>, identity: nat, same: bool,
                    identityNow: nat -> nat, clock: nat -> int, after: nat -> int, check: nat -> bool, cancelled: bool,
                    others: nat -> seq<Action>, later: nat -> seq<Action>, freshId: Id) returns (r: Reply)
      requires Sound() && NamesDiffer(Kept(scan)) && freshId !in published
      modifies this
      ensures Sound() && own == old(own)
      ensures cursor.Some? ==> Answers(r, keyId, Selected(old(View()), cursor.value, keyId, binding, clock(0), clock(1)),
                                       identityNow, after(0), cancelled)
      ensures cursor.None? ==>
                exists built :: BuildOutcome(built, old(View()), old(own), Course(scan, clock, others, check, freshId), binding, identity,
                                             same, bounds, maxEntries, ttl)
                                && FirstPage(r, built, keyId, identity, identityNow, after(0), clock(|scan|) + ttl, cancelled)
    {
      if cursor.None? {
        ghost var built;
        r, built := OpenPage(keyId, binding, Course(scan, clock, others, check, freshId), identity, same, identityNow, after, cancelled, later);
      } else {
        r := TurnPage(keyId, binding, cursor.value, identityNow, clock, after, cancelled, later);
      }
    }

    /** Without a cursor: what is built is served from its beginning. */
    method OpenPage(keyId: string, binding: string, course: Course, identity: nat, same: bool, identityNow: nat -> nat,
                    after: nat -> int, cancelled: bool, later: nat -> seq<Action>) returns (r: Reply, ghost built: Built)
      requires Sound() && NamesDiffer(Kept(course.scan)) && course.freshId !in published
      modifies this
      ensures Sound() && own == old(own)
      ensures BuildOutcome(built, old(View()), old(own), course, binding, identity, same, bounds, maxEntries, ttl)
      ensures FirstPage(r, built, keyId, identity, identityNow, after(0), course.clock(|course.scan|) + ttl, cancelled)
    {
      var b := Build(course.scan, binding, identity, same, course.clock, course.check, course.others, course.freshId);
      built := b;
      assert course == Course(course.scan, course.clock, course.others, course.check, course.freshId);
      if b.NotBuilt? { return Denied(b.reason), built; }
      r := Serve(keyId, course.freshId, b.listing, 0, identityNow, after(0), after(1), cancelled, later);
      assert own.leases == old(own).leases;
    }

    /** With one: the listing that it selects is served from where it points. */
    method TurnPage(keyId: string, binding: string, token: Token, identityNow: nat -> nat, clock: nat -> int, after: nat -> int,
                    cancelled: bool, later: nat -> seq<Action>) returns (r: Reply)
      requires Sound()
      modifies this
      ensures Sound() && own == old(own)
      ensures Answers(r, keyId, Selected(old(View()), token, keyId, binding, clock(0), clock(1)), identityNow, after(0), cancelled)
    {
      var selected := SelectStep(token, keyId, binding, clock(0), clock(1));
      if selected.None? { return Denied(ListingUnavailable); }
      var (id, listing, offset) := selected.value;
      r := Serve(keyId, id, listing, offset, identityNow, after(0), after(1), cancelled, later);
      assert own.leases == old(own).leases;
    }
  }

  /** What a further page comes to: the page and its cursor, unless the cursor selects nothing, the request is cancelled, the
      directory is another one, or the time of the listing has come. */
  predicate Answers(r: Reply, keyId: string, selected: Option<(Id, Listing, nat)>, identityNow: nat -> nat, now: int, cancelled: bool) {
    match selected
    case None => r == Denied(ListingUnavailable)
    case Some((id, listing, offset)) =>
      if identityNow(0) != listing.identity then r == Denied(ListingUnavailable)
      else if cancelled then r == Denied(Cancelled)
      else if identityNow(1) != listing.identity || listing.expiry <= now then r == Denied(ListingUnavailable)
      else ReplyIs(r, keyId, id, listing, offset)
  }

  lemma SelectedPublished(l: Ledger, token: Token, keyId: string, binding: string, now: int, later: int, b: Bounds)
    requires Inv(l, b) && Selected(l, token, keyId, binding, now, later).Some?
    ensures var (id, listing, offset) := Selected(l, token, keyId, binding, now, later).value;
            id in l.published && l.published[id] == listing && offset <= |listing.entries|
  {
    PruneKeeps(l, 0, later, b);
    var m := Prune(l, later);
    assert Filed(m.caches, m.leases, m.published, Place(m.caches, token.cursor.id));
  }

  /** The ledger after a selection, whether it finds something or not. */
  function AfterSelection(l: Ledger, token: Token, keyId: string, binding: string, now: int, later: int): Ledger {
    if !Verifies(token, keyId, binding, now) then l
    else Select(l, token.cursor.id, binding, token.cursor.expiry, token.cursor.offset, later)
  }

  /** A selection adds one holder of a listing as it was published, who is the selector, or leaves what everybody holds alone. */
  lemma SelectionOwned(l: Ledger, own: Own, token: Token, keyId: string, binding: string, now: int, later: int, b: Bounds)
    requires Inv(l, b) && Owns(l, own)
    ensures var m, r := AfterSelection(l, token, keyId, binding, now, later), Selected(l, token, keyId, binding, now, later);
            && Inv(m, b) && m.slots == l.slots && m.published == l.published
            && if r.Some?
               then && r.value.0 in l.published && l.published[r.value.0] == r.value.1 && r.value.2 <= |r.value.1.entries|
                    && m.holders == l.holders + multiset{r.value.0} && Owns(m, Own(own.slots, own.leases + multiset{r.value.0}))
               else m.holders == l.holders && Owns(m, own)
  {
    if Verifies(token, keyId, binding, now) {
      SelectKeeps(l, token.cursor.id, binding, token.cursor.expiry, token.cursor.offset, later, b);
      if Selected(l, token, keyId, binding, now, later).Some? { SelectedPublished(l, token, keyId, binding, now, later, b); }
    }
  }

  /** A publication adds one holder, who is the publisher, or leaves what everybody holds alone. */
  lemma PublicationOwned(l: Ledger, own: Own, slot: nat, id: Id, listing: Listing, kept: seq<Entry>, now: int, b: Bounds)
    requires Inv(l, b) && Owns(l, own) && CanPublish(l, slot, id, listing, kept)
    ensures var m := Publish(l, slot, id, listing, kept, now, b);
            Inv(m, b) &&
            if |EvictForCount(Prune(l, now), b).caches| < b.maxCaches
            then && m.slots == l.slots[slot := Some(0)] && m.holders == l.holders + multiset{id} && m.published == l.published[id := listing]
                 && Owns(m, Own(own.slots, own.leases + multiset{id}))
            else m.slots == l.slots && m.holders == l.holders && m.published == l.published && Owns(m, own)
  {
    PublishKeeps(l, slot, id, listing, kept, now, b);
  }

  function MakeReply(keyId: string, id: Id, listing: Listing, offset: nat): Reply
    requires offset <= |listing.entries|
  {
    Page(PageAt(listing, offset),
         match NextOffset(listing, offset) { case None => None case Some(n) => Some(CursorFor(keyId, id, listing, n)) })
  }

  /** A listing of what the scan kept, in the order of the names, at the cost of what was reserved for it. */
  ghost predicate IsListingOf(listing: Listing, kept: seq<Entry>, binding: string, identity: nat) {
    listing.binding == binding && listing.identity == identity && Lists(listing, kept) && listing.cost == TotalCharge(kept)
  }

  /** A reply holds the page and, if more follows, the cursor for it. */
  predicate ReplyIs(r: Reply, keyId: string, id: Id, listing: Listing, offset: nat) {
    offset <= |listing.entries| && r == MakeReply(keyId, id, listing, offset)
  }
}
