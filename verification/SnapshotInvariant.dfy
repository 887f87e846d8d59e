/**
 * The ledger of the snapshot cache is exact in every reachable state, through
 * every exit: refused reservations, failed timer starts, late timers, eviction,
 * deferred removal and shutdown.
 */
module SnapshotInvariant {
  import opened SnapshotLedger
  import opened Wrappers

  // ---------- sums and counts ----------

  function SumLength(order: seq<nat>, table: seq<Entry>): nat
    requires Within(order, |table|)
  {
    if order == [] then 0 else table[order[0]].Length() + SumLength(order[1..], table)
  }

  function SumReaders(order: seq<nat>, table: seq<Entry>): int
    requires Within(order, |table|)
  {
    if order == [] then 0 else table[order[0]].readers + SumReaders(order[1..], table)
  }

  function SumPending(rs: seq<Reservation>): nat {
    if rs == [] then 0 else SumPending(rs[..|rs| - 1]) + if rs[|rs| - 1].finished then 0 else rs[|rs| - 1].length
  }

  function Pending(rs: seq<Reservation>): set<int> {
    set r | 0 <= r < |rs| && !rs[r].finished
  }

  /** The leases whose reader the cache has not taken back yet. */
  function Open(leases: seq<Lease>): set<int> {
    set l | 0 <= l < |leases| && !leases[l].released
  }

  function OpenOn(leases: seq<Lease>, id: nat): set<int> {
    set l | 0 <= l < |leases| && !leases[l].released && leases[l].entry == id
  }

  predicate Distinct(order: seq<nat>) {
    forall i, j :: 0 <= i < j < |order| ==> order[i] != order[j]
  }

  lemma {:induction false} SumLengthWithout(order: seq<nat>, table: seq<Entry>, id: nat)
    requires Within(order, |table|) && Distinct(order)
    ensures Within(Without(order, id), |table|)
    ensures SumLength(Without(order, id), table) == SumLength(order, table) - if id in order then table[id].Length() else 0
    ensures |Without(order, id)| == |order| - if id in order then 1 else 0
    ensures Distinct(Without(order, id))
  {
    WithoutWithin(order, id, |table|);
    if order != [] {
      SumLengthWithout(order[1..], table, id);
      WithoutShrinks(order[1..], id);
      assert order[0] !in order[1..];
      var rest := Without(order[1..], id);
      forall j | 0 <= j < |rest| ensures rest[j] != order[0] { assert rest[j] in rest; }
    }
  }

  lemma {:induction false} SumLengthSame(order: seq<nat>, table: seq<Entry>, table': seq<Entry>)
    requires Within(order, |table|) && |table| <= |table'|
    requires forall i :: 0 <= i < |order| ==> table[order[i]].Length() == table'[order[i]].Length()
    ensures Within(order, |table'|) && SumLength(order, table) == SumLength(order, table')
  {
    if order != [] { SumLengthSame(order[1..], table, table'); }
  }

  lemma {:induction false} SumLengthSnoc(order: seq<nat>, table: seq<Entry>, id: nat)
    requires Within(order, |table|) && id < |table|
    ensures Within(order + [id], |table|) && SumLength(order + [id], table) == SumLength(order, table) + table[id].Length()
  {
    if order != [] {
      SumLengthSnoc(order[1..], table, id);
      assert (order + [id])[1..] == order[1..] + [id];
    }
  }

  lemma {:induction false} SumPendingFinish(rs: seq<Reservation>, r: nat)
    requires r < |rs| && !rs[r].finished
    ensures SumPending(rs[r := Reservation(rs[r].length, true)]) == SumPending(rs) - rs[r].length
  {
    var rs' := rs[r := Reservation(rs[r].length, true)];
    if r == |rs| - 1 {
      assert rs'[..|rs| - 1] == rs[..|rs| - 1];
    } else {
      SumPendingFinish(rs[..|rs| - 1], r);
      assert rs'[..|rs| - 1] == rs[..|rs| - 1][r := Reservation(rs[r].length, true)];
    }
  }

  // ---------- the invariant ----------

  predicate BytesExact(c: Cache)
    requires Known(c)
  {
    && c.reserved == SumLength(c.order, c.table) + c.pendingBytes <= c.limits.maxBytes
    && c.pendingBytes == SumPending(c.reservations)
    && c.pending == |Pending(c.reservations)|
    && |c.order| + c.pending <= c.limits.maxEntries
  }

  predicate ReadersExact(c: Cache) {
    && c.readers == |Open(c.leases)| <= c.limits.maxReaders
    && (forall id :: 0 <= id < |c.table| ==> c.table[id].readers == |OpenOn(c.leases, id)|)
    && (forall l :: 0 <= l < |c.leases| && !c.leases[l].released ==> c.leases[l].entry in c.order)
    && (forall l :: 0 <= l < |c.leases| ==> c.leases[l].entry < |c.table| && (c.leases[l].released ==> c.leases[l].closed))
  }

  /** A resident copy has its stream open and one that left had it closed exactly once. */
  predicate StreamsExact(c: Cache) {
    forall id :: 0 <= id < |c.table| ==> c.table[id].closes == if id in c.order then 0 else 1
  }

  predicate Core(c: Cache) {
    Known(c) && Distinct(c.order) && BytesExact(c) && ReadersExact(c) && StreamsExact(c)
  }

  /** An expired entry is resident only while somebody reads it, and a closed cache keeps nothing else. */
  predicate Clean(c: Cache)
    requires Known(c)
  {
    && (forall i :: 0 <= i < |c.order| && c.table[c.order[i]].expired ==> c.table[c.order[i]].readers > 0)
    && (c.closed ==> forall i :: 0 <= i < |c.order| ==> c.table[c.order[i]].expired)
  }

  predicate Inv(c: Cache) {
    Core(c) && Clean(c)
  }

  // ---------- primitive steps ----------

  lemma RemoveBytes(c: Cache, id: nat)
    requires Known(c) && Distinct(c.order) && BytesExact(c)
    requires id in c.order && id < |c.table| && c.table[id].readers == 0
    ensures Known(Remove(c, id)) && Distinct(Remove(c, id).order) && BytesExact(Remove(c, id))
  {
    SumLengthWithout(c.order, c.table, id);
    SumLengthSame(Remove(c, id).order, c.table, Remove(c, id).table);
  }

  lemma RemoveReaders(c: Cache, id: nat)
    requires Known(c) && ReadersExact(c) && StreamsExact(c)
    requires id in c.order && id < |c.table| && c.table[id].readers == 0
    ensures ReadersExact(Remove(c, id)) && StreamsExact(Remove(c, id))
  {
    WithoutShrinks(c.order, id);
    forall l | 0 <= l < |c.leases| && !c.leases[l].released ensures c.leases[l].entry in Remove(c, id).order {
      assert l in OpenOn(c.leases, c.leases[l].entry);
    }
  }

  /** What is left after a removal was there before, unchanged but for the closed stream. */
  lemma RemoveFrame(c: Cache, id: nat)
    requires id < |c.table|
    ensures forall i :: 0 <= i < |Remove(c, id).order| ==> Remove(c, id).order[i] in c.order
    ensures forall x :: 0 <= x < |c.table| ==> Remove(c, id).table[x] == c.table[x].(closes := Remove(c, id).table[x].closes)
    ensures c.table[id].readers == 0 ==> id !in Remove(c, id).order
  {
    WithoutShrinks(c.order, id);
    forall i | 0 <= i < |Remove(c, id).order| ensures Remove(c, id).order[i] in c.order {
      assert Remove(c, id).order[i] in Remove(c, id).order;
    }
  }

  lemma RemoveKeeps(c: Cache, id: nat)
    requires Core(c) && id in c.order && id < |c.table|
    ensures Core(Remove(c, id))
    ensures Clean(c) ==> Clean(Remove(c, id))
  {
    RemoveFrame(c, id);
    if c.table[id].readers == 0 {
      RemoveBytes(c, id);
      RemoveReaders(c, id);
    }
  }

  /** Removing the one entry that may be expired and idle restores cleanliness. */
  lemma RemoveCleans(c: Cache, id: nat)
    requires Core(c) && id in c.order && id < |c.table|
    requires forall i :: 0 <= i < |c.order| && c.order[i] != id && c.table[c.order[i]].expired ==> c.table[c.order[i]].readers > 0
    requires c.closed ==> forall i :: 0 <= i < |c.order| ==> c.table[c.order[i]].expired
    ensures Inv(Remove(c, id))
  {
    RemoveKeeps(c, id);
    RemoveFrame(c, id);
  }

  /** Setting the expiry flag of an entry disturbs no count. */
  lemma MarkKeeps(c: Cache, id: nat)
    requires Core(c) && id < |c.table|
    ensures Core(Touch(c, id, c.table[id].(expired := true)))
  {
    SumLengthSame(c.order, c.table, Touch(c, id, c.table[id].(expired := true)).table);
  }

  lemma ExpireKeeps(c: Cache, id: nat)
    requires Inv(c)
    ensures Inv(Expire(c, id))
  {
    if id in c.order {
      var marked := Touch(c, id, c.table[id].(expired := true));
      MarkKeeps(c, id);
      RemoveCleans(marked, id);
    }
  }

  // ---------- reserve ----------

  lemma {:induction false} DropStaleKeeps(c: Cache, ids: seq<nat>, timeUp: TimeUp)
    requires Inv(c) && Distinct(ids) && Within(ids, |c.table|)
    requires forall i :: 0 <= i < |ids| ==> ids[i] in c.order
    ensures Inv(DropStale(c, ids, timeUp))
    decreases |ids|
  {
    if ids != [] {
      var id := ids[0];
      var drop := Stale(c, id, timeUp) && c.table[id].readers == 0;
      var c' := if drop then Remove(c, id) else c;
      RemoveKeeps(c, id);
      if drop {
        WithoutShrinks(c.order, id);
        forall i | 0 <= i < |ids[1..]| ensures ids[1..][i] in c'.order { assert ids[1..][i] == ids[i + 1]; }
      }
      DropStaleKeeps(c', ids[1..], timeUp);
    }
  }

  lemma {:induction false} EvictForQuotaKeeps(c: Cache, length: nat)
    requires Inv(c)
    ensures Inv(EvictForQuota(c, length).0)
    ensures EvictForQuota(c, length).1 ==> !OverQuota(EvictForQuota(c, length).0, length)
    decreases |c.order|
  {
    FirstIdleFound(c.order, c.table);
    if OverQuota(c, length) && FirstIdle(c).Some? {
      RemoveKeeps(c, FirstIdle(c).value);
      WithoutShrinks(c.order, FirstIdle(c).value);
      EvictForQuotaKeeps(Remove(c, FirstIdle(c).value), length);
    }
  }

  lemma {:induction false} EvictForDiskKeeps(c: Cache, length: nat, free: nat -> int, query: nat)
    requires Inv(c) && !OverQuota(c, length)
    ensures Inv(EvictForDisk(c, length, free, query).0) && !OverQuota(EvictForDisk(c, length, free, query).0, length)
    decreases |c.order|
  {
    FirstIdleFound(c.order, c.table);
    if DiskShort(c, length, free(query)) && FirstIdle(c).Some? {
      RemoveKeeps(c, FirstIdle(c).value);
      WithoutShrinks(c.order, FirstIdle(c).value);
      EvictForDiskKeeps(Remove(c, FirstIdle(c).value), length, free, query + 1);
    }
  }

  lemma AdmitBytes(c: Cache, length: nat)
    requires Known(c) && BytesExact(c) && !OverQuota(c, length)
    ensures Known(Admit(c, length)) && BytesExact(Admit(c, length))
  {
    var rs := c.reservations + [Reservation(length, false)];
    assert rs[..|rs| - 1] == c.reservations;
    assert Pending(rs) == Pending(c.reservations) + {|c.reservations|};
  }

  lemma AdmitRest(c: Cache, length: nat)
    requires Inv(c)
    ensures Known(Admit(c, length)) && Distinct(Admit(c, length).order) && ReadersExact(Admit(c, length))
    ensures StreamsExact(Admit(c, length)) && Clean(Admit(c, length))
  {
  }

  lemma AdmitKeeps(c: Cache, length: nat)
    requires Inv(c) && !OverQuota(c, length)
    ensures Inv(Admit(c, length))
  {
    AdmitBytes(c, length);
    AdmitRest(c, length);
  }

  lemma ReserveKeeps(c: Cache, length: nat, timeUp: TimeUp, free: nat -> int)
    requires Inv(c)
    ensures Inv(Reserve(c, length, timeUp, free).0)
  {
    if !c.closed {
      DropStaleKnown(c, c.order, timeUp);
      DropStaleKeeps(c, c.order, timeUp);
      EvictForQuotaKeeps(DropStale(c, c.order, timeUp), length);
      var (c1, fits) := EvictForQuota(DropStale(c, c.order, timeUp), length);
      if fits {
        EvictForDiskKeeps(c1, length, free, 0);
        AdmitKeeps(EvictForDisk(c1, length, free, 0).0, length);
      }
    }
  }

  // ---------- reservations ----------

  lemma FinishReservation(rs: seq<Reservation>, r: nat)
    requires r < |rs| && !rs[r].finished
    ensures var rs' := rs[r := Reservation(rs[r].length, true)];
            SumPending(rs') == SumPending(rs) - rs[r].length && |Pending(rs')| == |Pending(rs)| - 1
  {
    SumPendingFinish(rs, r);
    assert Pending(rs[r := Reservation(rs[r].length, true)]) == Pending(rs) - {r};
  }

  lemma CloseReservationKeeps(c: Cache, r: nat)
    requires Inv(c) && r < |c.reservations|
    ensures Inv(CloseReservation(c, r))
  {
    if !c.reservations[r].finished { FinishReservation(c.reservations, r); }
  }

  /** What the gateway commits: a fresh copy of exactly the reserved length. */
  predicate Fresh(entry: Entry, length: nat) {
    entry.Length() == length && entry.readers == 0 && !entry.expired && entry.closes == 0
  }

  lemma CommitBytes(c: Cache, r: nat, entry: Entry)
    requires Inv(c) && r < |c.reservations| && Fresh(entry, c.reservations[r].length)
    requires !c.reservations[r].finished && !c.closed
    ensures var c' := Commit(c, r, entry, true).0;
            Known(c') && Distinct(c'.order) && BytesExact(c')
  {
    var c' := Commit(c, r, entry, true).0;
    FinishReservation(c.reservations, r);
    SumLengthSame(c.order, c.table, c'.table);
    SumLengthSnoc(c.order, c'.table, |c.table|);
  }

  lemma CommitReaders(c: Cache, r: nat, entry: Entry)
    requires Inv(c) && r < |c.reservations| && Fresh(entry, c.reservations[r].length)
    requires !c.reservations[r].finished && !c.closed
    ensures var c' := Commit(c, r, entry, true).0;
            ReadersExact(c') && StreamsExact(c')
  {
    assert OpenOn(c.leases, |c.table|) == {};
    assert |c.table| !in c.order;
  }

  lemma CommitKeeps(c: Cache, r: nat, entry: Entry, timerStarts: bool)
    requires Inv(c) && r < |c.reservations| && Fresh(entry, c.reservations[r].length)
    ensures Inv(Commit(c, r, entry, timerStarts).0)
  {
    if Commit(c, r, entry, timerStarts).1.Ok? {
      CommitBytes(c, r, entry);
      CommitReaders(c, r, entry);
    }
  }

  // ---------- leases ----------

  lemma FrontKeeps(c: Cache, id: nat)
    requires Inv(c) && id in c.order
    ensures Inv(Front(c, id)) && id in Front(c, id).order
  {
    SumLengthWithout(c.order, c.table, id);
    SumLengthSnoc(Without(c.order, id), c.table, id);
    WithoutShrinks(c.order, id);
    var c' := Front(c, id);
    assert forall x :: x in c'.order <==> x in c.order;
    forall i | 0 <= i < |c'.order| ensures c'.order[i] in c.order { assert c'.order[i] in c'.order; }
    forall i, j | 0 <= i < j < |c'.order| ensures c'.order[i] != c'.order[j] {
      if j == |c'.order| - 1 { assert c'.order[i] in Without(c.order, id); }
    }
  }

  lemma GrantOpenOn(c: Cache, id: nat, x: nat)
    requires id < |c.table|
    ensures OpenOn(Grant(c, id).leases, x) == if x == id then OpenOn(c.leases, x) + {|c.leases|} else OpenOn(c.leases, x)
    ensures Open(Grant(c, id).leases) == Open(c.leases) + {|c.leases|}
  {
  }

  lemma GrantReaders(c: Cache, id: nat)
    requires ReadersExact(c) && id in c.order && id < |c.table| && c.readers < c.limits.maxReaders
    ensures ReadersExact(Grant(c, id))
  {
    GrantOpenOn(c, id, id);
    forall x | 0 <= x < |c.table| ensures Grant(c, id).table[x].readers == |OpenOn(Grant(c, id).leases, x)| {
      GrantOpenOn(c, id, x);
    }
  }

  lemma GrantKeeps(c: Cache, id: nat)
    requires Inv(c) && id in c.order && id < |c.table| && c.readers < c.limits.maxReaders
    ensures Inv(Grant(c, id))
  {
    GrantReaders(c, id);
    SumLengthSame(c.order, c.table, Grant(c, id).table);
  }

  /** The five states an acquisition can leave. */
  lemma AcquireCases(c: Cache, id: nat, binding: string, digest: string, timeUp: TimeUp, timerStarts: bool, later: TimeUp)
    requires Known(c) && id in c.order
    ensures id < |c.table|
    ensures var c' := Acquire(c, id, binding, digest, timeUp, timerStarts, later).0;
            || c' == c || c' == Remove(c, id) || c' == Front(c, id) || c' == Remove(Front(c, id), id)
            || (c' == Grant(Front(c, id), id) && c.readers < c.limits.maxReaders)
  {
  }

  lemma AcquireKeeps(c: Cache, id: nat, binding: string, digest: string, timeUp: TimeUp, timerStarts: bool, later: TimeUp)
    requires Inv(c)
    ensures Inv(Acquire(c, id, binding, digest, timeUp, timerStarts, later).0)
  {
    if id in c.order {
      AcquireCases(c, id, binding, digest, timeUp, timerStarts, later);
      var c' := Acquire(c, id, binding, digest, timeUp, timerStarts, later).0;
      if c' == Remove(c, id) {
        RemoveKeeps(c, id);
      } else if c' != c {
        FrontKeeps(c, id);
        if c' == Remove(Front(c, id), id) {
          RemoveKeeps(Front(c, id), id);
        } else if c' == Grant(Front(c, id), id) && c.readers < c.limits.maxReaders {
          GrantKeeps(Front(c, id), id);
        }
      }
    }
  }

  /** Changing a lease without releasing it or moving it to another entry disturbs no count. */
  lemma LeaseUpdateKeeps(c: Cache, l: nat, lease: Lease)
    requires Inv(c) && l < |c.leases|
    requires lease.entry == c.leases[l].entry && lease.released == c.leases[l].released
    requires lease.released ==> lease.closed
    ensures Inv(c.(leases := c.leases[l := lease]))
    ensures Open(c.leases[l := lease]) == Open(c.leases)
  {
    var leases := c.leases[l := lease];
    assert Open(leases) == Open(c.leases);
    forall x | 0 <= x < |c.table| ensures OpenOn(leases, x) == OpenOn(c.leases, x) {
    }
  }

  lemma CloseLeaseKeeps(c: Cache, l: nat)
    requires Inv(c) && l < |c.leases|
    ensures Inv(CloseLease(c, l))
  {
    LeaseUpdateKeeps(c, l, c.leases[l].(closed := true));
  }

  lemma SetRangeKeeps(c: Cache, l: nat, start: nat, end: int)
    requires Inv(c) && l < |c.leases|
    ensures Inv(SetRange(c, l, start, end)) && Open(SetRange(c, l, start, end).leases) == Open(c.leases)
  {
    LeaseUpdateKeeps(c, l, c.leases[l].(start := start, end := end));
  }

  lemma HandKeeps(c: Cache, l: nat)
    requires Inv(c) && l < |c.leases|
    ensures Inv(Hand(c, l)) && Open(Hand(c, l).leases) == Open(c.leases)
  {
    LeaseUpdateKeeps(c, l, c.leases[l].(progress := c.leases[l].progress.(handed := true)));
  }

  lemma ReadChunkKeeps(c: Cache, l: nat, size: nat)
    requires Inv(c) && l < |c.leases|
    ensures Inv(ReadChunk(c, l, size))
  {
    var c' := ReadChunk(c, l, size);
    if c' != c { LeaseUpdateKeeps(c, l, c'.leases[l]); }
  }

  lemma YieldChunkKeeps(c: Cache, l: nat)
    requires Inv(c) && l < |c.leases|
    ensures Inv(YieldChunk(c, l))
  {
    var c' := YieldChunk(c, l);
    if c' != c { LeaseUpdateKeeps(c, l, c'.leases[l]); }
  }

  function TakenBack(c: Cache, l: nat): Cache
    requires l < |c.leases| && c.leases[l].entry < |c.table|
  {
    var id := c.leases[l].entry;
    Touch(c, id, c.table[id].(readers := c.table[id].readers - 1)).(readers := c.readers - 1,
      leases := c.leases[l := c.leases[l].(released := true)])
  }

  lemma OneFewerOn(leases: seq<Lease>, l: nat, x: nat)
    requires l < |leases| && !leases[l].released
    ensures |OpenOn(leases[l := leases[l].(released := true)], x)| == |OpenOn(leases, x)| - if x == leases[l].entry then 1 else 0
  {
    var after := leases[l := leases[l].(released := true)];
    assert OpenOn(after, x) == if x == leases[l].entry then OpenOn(leases, x) - {l} else OpenOn(leases, x);
  }

  lemma TakeBackReaders(c: Cache, l: nat)
    requires ReadersExact(c) && l < |c.leases| && c.leases[l].closed && !c.leases[l].released
    ensures ReadersExact(TakenBack(c, l))
  {
    var id := c.leases[l].entry;
    var leases := c.leases[l := c.leases[l].(released := true)];
    assert Open(leases) == Open(c.leases) - {l};
    forall x | 0 <= x < |c.table|
      ensures |OpenOn(leases, x)| == |OpenOn(c.leases, x)| - if x == id then 1 else 0
    {
      OneFewerOn(c.leases, l, x);
    }
  }

  /** The reader is taken back; an expired entry may now be idle, so the result is only Core. */
  lemma TakeBackKeeps(c: Cache, l: nat)
    requires Inv(c) && l < |c.leases| && c.leases[l].closed && !c.leases[l].released
    ensures Core(TakenBack(c, l))
  {
    TakeBackReaders(c, l);
    SumLengthSame(c.order, c.table, TakenBack(c, l).table);
  }

  lemma ReleaseKeeps(c: Cache, l: nat, timeUp: TimeUp)
    requires Inv(c) && l < |c.leases|
    ensures Inv(Release(c, l, timeUp))
  {
    if c.leases[l].closed && !c.leases[l].released {
      var id := c.leases[l].entry;
      TakeBackKeeps(c, l);
      if c.closed || Stale(TakenBack(c, l), id, timeUp) { RemoveCleans(TakenBack(c, l), id); }
    }
  }

  // ---------- shutdown ----------

  /** The entries named by `ids` are still to be marked; all others are already. */
  predicate Marking(c: Cache, ids: seq<nat>)
    requires Known(c)
  {
    && Within(ids, |c.table|) && Distinct(ids)
    && (forall i :: 0 <= i < |ids| ==> ids[i] in c.order)
    && (forall i :: 0 <= i < |c.order| ==> c.order[i] in ids || (c.table[c.order[i]].expired && c.table[c.order[i]].readers > 0))
  }

  function MarkFirst(c: Cache, id: nat): Cache
    requires id < |c.table|
  {
    Remove(Touch(c, id, c.table[id].(expired := true)), id)
  }

  lemma MarkFirstKeeps(c: Cache, ids: seq<nat>)
    requires Core(c) && Marking(c, ids) && ids != []
    ensures Core(MarkFirst(c, ids[0])) && MarkFirst(c, ids[0]).closed == c.closed
  {
    MarkKeeps(c, ids[0]);
    RemoveKeeps(Touch(c, ids[0], c.table[ids[0]].(expired := true)), ids[0]);
  }

  lemma MarkFirstMarks(c: Cache, ids: seq<nat>)
    requires Core(c) && Marking(c, ids) && ids != [] && Core(MarkFirst(c, ids[0]))
    ensures Marking(MarkFirst(c, ids[0]), ids[1..])
  {
    var id := ids[0];
    var marked := Touch(c, id, c.table[id].(expired := true));
    RemoveFrame(marked, id);
    WithoutShrinks(c.order, id);
    var c' := Remove(marked, id);
    forall i | 0 <= i < |ids[1..]| ensures ids[1..][i] in c'.order { assert ids[1..][i] == ids[i + 1]; }
    forall i | 0 <= i < |c'.order|
      ensures c'.order[i] in ids[1..] || (c'.table[c'.order[i]].expired && c'.table[c'.order[i]].readers > 0)
    {
      assert c'.order[i] in c.order;
    }
  }

  lemma {:induction false} ExpireAllKeeps(c: Cache, ids: seq<nat>)
    requires Core(c) && Marking(c, ids)
    ensures Inv(ExpireAll(c, ids)) && ExpireAll(c, ids).closed == c.closed
    decreases |ids|
  {
    if ids != [] {
      MarkFirstKeeps(c, ids);
      MarkFirstMarks(c, ids);
      ExpireAllKeeps(MarkFirst(c, ids[0]), ids[1..]);
    }
  }

  lemma CloseKeeps(c: Cache)
    requires Inv(c)
    ensures Inv(Close(c)) && Close(c).closed
  {
    ExpireAllKeeps(c.(closed := true), c.order);
  }
}
