/**
 * The snapshot cache of the employee read gateway as a ledger: which copies
 * are resident, who reserves bytes, who reads. Every function is what one call
 * does while it holds the cache lock.
 *
 * Objects are numbered in the order they are made. An entry that leaves the
 * ordered map stays in `table`, so that closing its stream twice or returning
 * its bytes twice would be visible.
 */
module SnapshotLedger {
  import opened Wrappers

  type Bytes = seq<bv8>

  datatype Limits = Limits(maxBytes: nat, minimumFree: int, maxEntries: nat, maxReaders: nat)

  /** `closes` counts the calls of stream.close() on the committed copy. */
  datatype Entry = Entry(content: Bytes, digest: string, binding: string, source: string,
                         readers: int, expired: bool, closes: nat)
  {
    function Length(): nat { |content| }
  }

  datatype Reservation = Reservation(length: nat, finished: bool)

  /** How far a reader has come: whether the reply owns the lease, a chunk that has been read and not yet been looked at
      again, and what has been handed to the transport. */
  datatype Progress = Progress(handed: bool, chunk: Option<Bytes>, yielded: Bytes)

  const UNREAD := Progress(false, None, [])

  /** `closed` is set under the lease lock, `released` once the cache has taken the reader back. */
  datatype Lease = Lease(entry: nat, start: nat, end: int, closed: bool, released: bool, progress: Progress)

  datatype Cache = Cache(
    limits: Limits,
    closed: bool,
    reserved: int,
    pending: int,
    pendingBytes: int,
    readers: int,
    order: seq<nat>,
    table: seq<Entry>,
    reservations: seq<Reservation>,
    leases: seq<Lease>)

  datatype Failure =
    | CacheUnavailable | QuotaExceeded | SnapshotUnavailable | ContentVersionChanged | GatewayBusy | TimerFailed | FileTooLarge
    | Cancelled

  datatype Result<+T> = Ok(value: T) | Denied(failure: Failure)

  function Empty(limits: Limits): Cache {
    Cache(limits, false, 0, 0, 0, 0, [], [], [], [])
  }

  const CHUNK := 1024 * 1024

  /** For each entry, whether the clocks have passed one of its two expiry times. */
  type TimeUp = nat -> bool

  predicate Within(ids: seq<nat>, n: nat) {
    forall i :: 0 <= i < |ids| ==> ids[i] < n
  }

  predicate Known(c: Cache) {
    Within(c.order, |c.table|)
  }

  predicate Stale(c: Cache, id: nat, timeUp: TimeUp)
    requires id < |c.table|
  {
    c.table[id].expired || timeUp(id)
  }

  // ---------- the ordered map ----------

  function Without(order: seq<nat>, id: nat): seq<nat> {
    if order == [] then []
    else if order[0] == id then Without(order[1..], id)
    else [order[0]] + Without(order[1..], id)
  }

  function Touch(c: Cache, id: nat, e: Entry): Cache
    requires id < |c.table|
  {
    c.(table := c.table[id := e])
  }

  /** The caller holds the lock; an entry with readers keeps its open file. */
  function Remove(c: Cache, id: nat): Cache
    requires id < |c.table|
  {
    var e := c.table[id];
    if e.readers != 0 then c
    else c.(order := Without(c.order, id), table := c.table[id := e.(closes := e.closes + 1)], reserved := c.reserved - e.Length())
  }

  function FirstIdleIn(order: seq<nat>, table: seq<Entry>): Option<nat>
    requires Within(order, |table|)
  {
    if order == [] then None
    else if table[order[0]].readers == 0 then Some(order[0])
    else FirstIdleIn(order[1..], table)
  }

  /** The least recently used entry without readers. */
  function FirstIdle(c: Cache): Option<nat>
    requires Known(c)
  {
    FirstIdleIn(c.order, c.table)
  }

  // ---------- reserve ----------

  function DropStale(c: Cache, ids: seq<nat>, timeUp: TimeUp): Cache
    requires Within(ids, |c.table|)
    decreases |ids|
  {
    if ids == [] then c
    else DropStale(if Stale(c, ids[0], timeUp) && c.table[ids[0]].readers == 0 then Remove(c, ids[0]) else c, ids[1..], timeUp)
  }

  predicate OverQuota(c: Cache, length: nat) {
    c.reserved + length > c.limits.maxBytes || |c.order| + c.pending >= c.limits.maxEntries
  }

  predicate DiskShort(c: Cache, length: nat, free: int) {
    free < c.pendingBytes + length + c.limits.minimumFree
  }

  lemma {:induction false} WithoutShrinks(order: seq<nat>, id: nat)
    ensures |Without(order, id)| <= |order|
    ensures id in order ==> |Without(order, id)| < |order|
    ensures forall x :: x in Without(order, id) <==> x in order && x != id
  {
    if order != [] { WithoutShrinks(order[1..], id); }
  }

  lemma {:induction false} WithoutWithin(order: seq<nat>, id: nat, n: nat)
    requires Within(order, n)
    ensures Within(Without(order, id), n)
  {
    if order != [] { WithoutWithin(order[1..], id, n); }
  }

  lemma {:induction false} FirstIdleFound(order: seq<nat>, table: seq<Entry>)
    requires Within(order, |table|)
    ensures var f := FirstIdleIn(order, table);
            if f.Some? then f.value in order && table[f.value].readers == 0
            else forall i :: 0 <= i < |order| ==> table[order[i]].readers != 0
  {
    if order != [] && table[order[0]].readers != 0 { FirstIdleFound(order[1..], table); }
  }

  /** Evicts the oldest idle entry while `more` asks for it; the flag says that it stopped asking. */
  function EvictForQuota(c: Cache, length: nat): (Cache, bool)
    requires Known(c)
    decreases |c.order|
  {
    if !OverQuota(c, length) then (c, true)
    else
      FirstIdleFound(c.order, c.table);
      match FirstIdle(c)
      case None => (c, false)
      case Some(id) => WithoutShrinks(c.order, id); WithoutWithin(c.order, id, |c.table|); EvictForQuota(Remove(c, id), length)
  }

  /** `free(i)` is the free disk space reported by the i-th query. */
  function EvictForDisk(c: Cache, length: nat, free: nat -> int, query: nat): (Cache, bool)
    requires Known(c)
    decreases |c.order|
  {
    if !DiskShort(c, length, free(query)) then (c, true)
    else
      FirstIdleFound(c.order, c.table);
      match FirstIdle(c)
      case None => (c, false)
      case Some(id) => WithoutShrinks(c.order, id); WithoutWithin(c.order, id, |c.table|); EvictForDisk(Remove(c, id), length, free, query + 1)
  }

  lemma {:induction false} DropStaleKnown(c: Cache, ids: seq<nat>, timeUp: TimeUp)
    requires Within(ids, |c.table|)
    ensures |DropStale(c, ids, timeUp).table| == |c.table|
    ensures Known(c) ==> Known(DropStale(c, ids, timeUp))
    decreases |ids|
  {
    if ids != [] {
      if Known(c) { WithoutWithin(c.order, ids[0], |c.table|); }
      DropStaleKnown(if Stale(c, ids[0], timeUp) && c.table[ids[0]].readers == 0 then Remove(c, ids[0]) else c, ids[1..], timeUp);
    }
  }

  lemma {:induction false} EvictForQuotaKnown(c: Cache, length: nat)
    requires Known(c)
    ensures Known(EvictForQuota(c, length).0) && |EvictForQuota(c, length).0.table| == |c.table|
    decreases |c.order|
  {
    FirstIdleFound(c.order, c.table);
    if OverQuota(c, length) && FirstIdle(c).Some? {
      WithoutShrinks(c.order, FirstIdle(c).value);
      WithoutWithin(c.order, FirstIdle(c).value, |c.table|);
      EvictForQuotaKnown(Remove(c, FirstIdle(c).value), length);
    }
  }

  /** The quota loop and then, if it succeeded, the disk loop. */
  function EvictToFit(c: Cache, length: nat, free: nat -> int): (Cache, bool)
    requires Known(c)
  {
    EvictForQuotaKnown(c, length);
    var (c1, fits) := EvictForQuota(c, length);
    if fits then EvictForDisk(c1, length, free, 0) else (c1, false)
  }

  function Admit(c: Cache, length: nat): Cache {
    c.(reserved := c.reserved + length, pending := c.pending + 1, pendingBytes := c.pendingBytes + length,
       reservations := c.reservations + [Reservation(length, false)])
  }

  function Reserve(c: Cache, length: nat, timeUp: TimeUp, free: nat -> int): (Cache, Result<nat>)
    requires Known(c)
  {
    if c.closed then (c, Denied(CacheUnavailable))
    else
      DropStaleKnown(c, c.order, timeUp);
      var (c', fits) := EvictToFit(DropStale(c, c.order, timeUp), length, free);
      if fits then (Admit(c', length), Ok(|c'.reservations|)) else (c', Denied(QuotaExceeded))
  }

  // ---------- reservations ----------

  function Commit(c: Cache, r: nat, entry: Entry, timerStarts: bool): (Cache, Result<nat>)
    requires r < |c.reservations|
  {
    if c.reservations[r].finished || c.closed then (c, Denied(CacheUnavailable))
    else if !timerStarts then (c, Denied(TimerFailed))
    else
      var length := c.reservations[r].length;
      (c.(order := c.order + [|c.table|], table := c.table + [entry], pending := c.pending - 1,
          pendingBytes := c.pendingBytes - length, reservations := c.reservations[r := Reservation(length, true)]),
       Ok(|c.table|))
  }

  function CloseReservation(c: Cache, r: nat): Cache
    requires r < |c.reservations|
  {
    var length := c.reservations[r].length;
    if c.reservations[r].finished then c
    else c.(pending := c.pending - 1, pendingBytes := c.pendingBytes - length, reserved := c.reserved - length,
            reservations := c.reservations[r := Reservation(length, true)])
  }

  // ---------- leases ----------

  /** move_to_end. */
  function Front(c: Cache, id: nat): Cache {
    c.(order := Without(c.order, id) + [id])
  }

  /** One more reader on the entry and in the cache, and the lease that stands for it. */
  function Grant(c: Cache, id: nat): Cache
    requires id < |c.table|
  {
    var e := c.table[id];
    Touch(c, id, e.(readers := e.readers + 1)).(readers := c.readers + 1,
      leases := c.leases + [Lease(id, 0, e.Length() - 1, false, false, UNREAD)])
  }

  /** `timeUp` answers the first staleness test and `later` the one after a failed timer start. */
  function Acquire(c: Cache, id: nat, binding: string, digest: string, timeUp: TimeUp, timerStarts: bool, later: TimeUp): (Cache, Result<nat>)
    requires Known(c)
  {
    if id !in c.order then (c, Denied(SnapshotUnavailable))
    else if c.closed || Stale(c, id, timeUp) then (Remove(c, id), Denied(SnapshotUnavailable))
    else if c.table[id].binding != binding then (c, Denied(SnapshotUnavailable))
    else if c.table[id].digest != digest then (c, Denied(ContentVersionChanged))
    else if c.readers >= c.limits.maxReaders then (c, Denied(GatewayBusy))
    else if timerStarts then (Grant(Front(c, id), id), Ok(|c.leases|))
    else (if c.closed || Stale(c, id, later) then Remove(Front(c, id), id) else Front(c, id), Denied(TimerFailed))
  }

  /** The gateway narrows a fresh lease to the requested byte range. */
  function SetRange(c: Cache, l: nat, start: nat, end: int): Cache
    requires l < |c.leases|
  {
    c.(leases := c.leases[l := c.leases[l].(start := start, end := end)])
  }

  /** The reply takes the lease over; from then on its range stays. */
  function Hand(c: Cache, l: nat): Cache
    requires l < |c.leases|
  {
    c.(leases := c.leases[l := c.leases[l].(progress := c.leases[l].progress.(handed := true))])
  }

  // ---------- reading ----------

  /** The bytes from `start` to `end`, both included. */
  function RangeOf(content: Bytes, start: nat, end: int): Bytes {
    if start <= end < |content| then content[start..end + 1] else []
  }

  /** What a lease stands for. */
  function Promised(c: Cache, l: nat): Bytes
    requires l < |c.leases| && c.leases[l].entry < |c.table|
  {
    RangeOf(c.table[c.leases[l].entry].content, c.leases[l].start, c.leases[l].end)
  }

  function Least(a: nat, b: nat): nat { if a < b then a else b }

  /** A read under the lease lock: it may return fewer bytes than it was asked for, and happens only while something is
      missing and the lease is not closed. */
  predicate CanRead(c: Cache, l: nat)
    requires l < |c.leases| && c.leases[l].entry < |c.table|
  {
    var p := c.leases[l].progress;
    !c.leases[l].closed && p.handed && p.chunk == None && |p.yielded| < |Promised(c, l)|
  }

  function ReadChunk(c: Cache, l: nat, size: nat): Cache
    requires l < |c.leases| && c.leases[l].entry < |c.table|
  {
    if !CanRead(c, l) then c
    else
      var at := |c.leases[l].progress.yielded|;
      var rest := Promised(c, l)[at..];
      var chunk := rest[..Least(size, Least(CHUNK, |rest|))];
      c.(leases := c.leases[l := c.leases[l].(progress := c.leases[l].progress.(chunk := Some(chunk)))])
  }

  /** The second test of a lease, after the read: a chunk is dropped if it is empty or the lease has been closed meanwhile. */
  function YieldChunk(c: Cache, l: nat): Cache
    requires l < |c.leases|
  {
    var lease := c.leases[l];
    var p := lease.progress;
    if p.chunk == None then c
    else
      var yielded := if lease.closed then p.yielded else p.yielded + p.chunk.value;
      c.(leases := c.leases[l := lease.(progress := p.(chunk := None, yielded := yielded))])
  }

  /** First half of SnapshotLease.close(): the lease is marked under its own lock. */
  function CloseLease(c: Cache, l: nat): Cache
    requires l < |c.leases|
  {
    c.(leases := c.leases[l := c.leases[l].(closed := true)])
  }

  /** Second half: the cache takes the reader back and drops an entry that was only kept for it. */
  function Release(c: Cache, l: nat, timeUp: TimeUp): Cache
    requires l < |c.leases| && c.leases[l].entry < |c.table|
  {
    if !c.leases[l].closed || c.leases[l].released then c
    else
      var id := c.leases[l].entry;
      var e := c.table[id];
      var c' := Touch(c, id, e.(readers := e.readers - 1)).(readers := c.readers - 1,
                  leases := c.leases[l := c.leases[l].(released := true)]);
      if c'.closed || Stale(c', id, timeUp) then Remove(c', id) else c'
  }

  function Expire(c: Cache, id: nat): Cache
    requires Known(c)
  {
    if id !in c.order then c else Remove(Touch(c, id, c.table[id].(expired := true)), id)
  }

  function ExpireAll(c: Cache, ids: seq<nat>): Cache
    requires Within(ids, |c.table|)
    decreases |ids|
  {
    if ids == [] then c else ExpireAll(Remove(Touch(c, ids[0], c.table[ids[0]].(expired := true)), ids[0]), ids[1..])
  }

  function Close(c: Cache): Cache
    requires Known(c)
  {
    ExpireAll(c.(closed := true), c.order)
  }
}
