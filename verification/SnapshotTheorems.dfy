/**
 * What the snapshot cache promises: an exact ledger in every reachable state,
 * an empty one after shutdown, and eviction that is least-recently-used and
 * never more than a limit requires.
 */
module SnapshotTheorems {
  import opened SnapshotLedger
  import opened SnapshotInvariant
  import opened Wrappers

  // ---------- runs ----------

  datatype Op =
    | DoReserve(length: nat, timeUp: TimeUp, free: nat -> int)
    | DoCommit(reservation: nat, entry: Entry, timerStarts: bool)
    | DoCloseReservation(reservation: nat)
    | DoAcquire(id: nat, binding: string, digest: string, timeUp: TimeUp, timerStarts: bool, later: TimeUp)
    | DoCloseLease(lease: nat)
    | DoSetRange(lease: nat, start: nat, end: int)
    | DoHand(lease: nat)
    | DoRead(lease: nat, size: nat)
    | DoYield(lease: nat)
    | DoRelease(lease: nat, timeUp: TimeUp)
    | DoExpire(id: nat)
    | DoClose

  /** Numbers name what they should. */
  predicate Sane(c: Cache) {
    Known(c) && forall l :: 0 <= l < |c.leases| ==> c.leases[l].entry < |c.table|
  }

  /** The gateway narrows a lease only before the reply owns it, and only to a range within the copy. */
  predicate CanNarrow(c: Cache, l: nat, start: nat, end: int)
    requires l < |c.leases| && c.leases[l].entry < |c.table|
  {
    !c.leases[l].progress.handed && start <= end < |c.table[c.leases[l].entry].content|
  }

  /** One call under the cache lock or a lease lock, by whichever thread or timer comes next. */
  function Next(c: Cache, op: Op): Cache {
    if Sane(c) then Act(c, op) else c
  }

  function Act(c: Cache, op: Op): Cache
    requires Sane(c)
  {
    match op
    case DoReserve(length, timeUp, free) => Reserve(c, length, timeUp, free).0
    case DoCommit(r, entry, timerStarts) =>
      if r < |c.reservations| && Fresh(entry, c.reservations[r].length) then Commit(c, r, entry, timerStarts).0 else c
    case DoCloseReservation(r) => if r < |c.reservations| then CloseReservation(c, r) else c
    case DoAcquire(id, binding, digest, timeUp, timerStarts, later) => Acquire(c, id, binding, digest, timeUp, timerStarts, later).0
    case DoCloseLease(l) => if l < |c.leases| then CloseLease(c, l) else c
    case DoSetRange(l, start, end) => if l < |c.leases| && CanNarrow(c, l, start, end) then SetRange(c, l, start, end) else c
    case DoHand(l) => if l < |c.leases| then Hand(c, l) else c
    case DoRead(l, size) => if l < |c.leases| then ReadChunk(c, l, size) else c
    case DoYield(l) => if l < |c.leases| then YieldChunk(c, l) else c
    case DoRelease(l, timeUp) => if l < |c.leases| then Release(c, l, timeUp) else c
    case DoExpire(id) => Expire(c, id)
    case DoClose => Close(c)
  }

  function Run(c: Cache, ops: seq<Op>): Cache {
    if |ops| == 0 then c else Next(Run(c, ops[..|ops| - 1]), ops[|ops| - 1])
  }

  lemma InvIsSane(c: Cache)
    requires Inv(c)
    ensures Sane(c)
  {
  }

  lemma ReadingKeeps(c: Cache, op: Op)
    requires Inv(c) && Sane(c) && (op.DoSetRange? || op.DoHand? || op.DoRead? || op.DoYield?)
    ensures Inv(Act(c, op))
  {
    if op.lease >= |c.leases| {
      assert Act(c, op) == c;
    } else if op.DoSetRange? {
      SetRangeKeeps(c, op.lease, op.start, op.end);
      assert Act(c, op) == c || Act(c, op) == SetRange(c, op.lease, op.start, op.end);
    } else if op.DoHand? {
      HandKeeps(c, op.lease);
      assert Act(c, op) == Hand(c, op.lease);
    } else if op.DoRead? {
      ReadChunkKeeps(c, op.lease, op.size);
      assert Act(c, op) == ReadChunk(c, op.lease, op.size);
    } else {
      YieldChunkKeeps(c, op.lease);
      assert Act(c, op) == YieldChunk(c, op.lease);
    }
  }

  lemma LeaseKeeps(c: Cache, op: Op)
    requires Inv(c) && Sane(c) && (op.DoAcquire? || op.DoCloseLease? || op.DoRelease?)
    ensures Inv(Act(c, op))
  {
    if op.DoAcquire? {
      AcquireKeeps(c, op.id, op.binding, op.digest, op.timeUp, op.timerStarts, op.later);
      assert Act(c, op) == Acquire(c, op.id, op.binding, op.digest, op.timeUp, op.timerStarts, op.later).0;
    } else if op.lease >= |c.leases| {
      assert Act(c, op) == c;
    } else if op.DoCloseLease? {
      CloseLeaseKeeps(c, op.lease);
      assert Act(c, op) == CloseLease(c, op.lease);
    } else {
      ReleaseKeeps(c, op.lease, op.timeUp);
      assert Act(c, op) == Release(c, op.lease, op.timeUp);
    }
  }

  lemma ReservationKeeps(c: Cache, op: Op)
    requires Inv(c) && Sane(c) && (op.DoReserve? || op.DoCommit? || op.DoCloseReservation?)
    ensures Inv(Act(c, op))
  {
    if op.DoReserve? {
      ReserveKeeps(c, op.length, op.timeUp, op.free);
      assert Act(c, op) == Reserve(c, op.length, op.timeUp, op.free).0;
    } else if op.reservation >= |c.reservations| {
      assert Act(c, op) == c;
    } else if op.DoCloseReservation? {
      CloseReservationKeeps(c, op.reservation);
      assert Act(c, op) == CloseReservation(c, op.reservation);
    } else if Fresh(op.entry, c.reservations[op.reservation].length) {
      CommitKeeps(c, op.reservation, op.entry, op.timerStarts);
      assert Act(c, op) == Commit(c, op.reservation, op.entry, op.timerStarts).0;
    }
  }

  lemma NextKeeps(c: Cache, op: Op)
    requires Inv(c)
    ensures Inv(Next(c, op))
  {
    InvIsSane(c);
    if op.DoSetRange? || op.DoHand? || op.DoRead? || op.DoYield? {
      ReadingKeeps(c, op);
    } else if op.DoAcquire? || op.DoCloseLease? || op.DoRelease? {
      LeaseKeeps(c, op);
    } else if op.DoReserve? || op.DoCommit? || op.DoCloseReservation? {
      ReservationKeeps(c, op);
    } else if op.DoExpire? {
      ExpireKeeps(c, op.id);
    } else {
      CloseKeeps(c);
    }
  }

  lemma EmptyKeeps(limits: Limits)
    ensures Inv(Empty(limits)) && Streaming(Empty(limits))
  {
    assert Open([]) == {} && Pending([]) == {};
  }

  lemma {:induction false} RunKeeps(limits: Limits, ops: seq<Op>)
    ensures Inv(Run(Empty(limits), ops))
  {
    if |ops| == 0 {
      EmptyKeeps(limits);
    } else {
      RunKeeps(limits, ops[..|ops| - 1]);
      NextKeeps(Run(Empty(limits), ops[..|ops| - 1]), ops[|ops| - 1]);
    }
  }

  // ---------- what no step changes ----------

  /** Limits and the bytes of every copy stay. */
  predicate SameCopies(c: Cache, c': Cache) {
    && c'.limits == c.limits && |c.table| <= |c'.table|
    && forall id :: 0 <= id < |c.table| ==> c'.table[id].content == c.table[id].content
  }

  predicate SameHandles(c: Cache, c': Cache) {
    c'.leases == c.leases && c'.reservations == c.reservations
  }

  /** A removal leaves copies, leases and reservations alone. */
  predicate Quiet(c: Cache, c': Cache) {
    SameCopies(c, c') && SameHandles(c, c')
  }

  lemma {:induction false} DropStaleQuiet(c: Cache, ids: seq<nat>, timeUp: TimeUp)
    requires Within(ids, |c.table|)
    ensures Quiet(c, DropStale(c, ids, timeUp))
    decreases |ids|
  {
    if ids != [] {
      DropStaleQuiet(if Stale(c, ids[0], timeUp) && c.table[ids[0]].readers == 0 then Remove(c, ids[0]) else c, ids[1..], timeUp);
    }
  }

  lemma {:induction false} QuotaQuiet(c: Cache, length: nat)
    requires Known(c)
    ensures Quiet(c, EvictForQuota(c, length).0)
    decreases |c.order|
  {
    FirstIdleFound(c.order, c.table);
    if OverQuota(c, length) && FirstIdle(c).Some? {
      WithoutShrinks(c.order, FirstIdle(c).value);
      WithoutWithin(c.order, FirstIdle(c).value, |c.table|);
      QuotaQuiet(Remove(c, FirstIdle(c).value), length);
    }
  }

  lemma {:induction false} DiskQuiet(c: Cache, length: nat, free: nat -> int, query: nat)
    requires Known(c)
    ensures Quiet(c, EvictForDisk(c, length, free, query).0)
    decreases |c.order|
  {
    FirstIdleFound(c.order, c.table);
    if DiskShort(c, length, free(query)) && FirstIdle(c).Some? {
      WithoutShrinks(c.order, FirstIdle(c).value);
      WithoutWithin(c.order, FirstIdle(c).value, |c.table|);
      DiskQuiet(Remove(c, FirstIdle(c).value), length, free, query + 1);
    }
  }

  lemma {:induction false} ExpireAllQuiet(c: Cache, ids: seq<nat>)
    requires Within(ids, |c.table|)
    ensures Quiet(c, ExpireAll(c, ids))
    decreases |ids|
  {
    if ids != [] {
      ExpireAllQuiet(Remove(Touch(c, ids[0], c.table[ids[0]].(expired := true)), ids[0]), ids[1..]);
    }
  }

  /** A reservation adds itself and nothing else. */
  lemma ReserveAdds(c: Cache, length: nat, timeUp: TimeUp, free: nat -> int)
    requires Known(c)
    ensures var (c', r) := Reserve(c, length, timeUp, free);
            && SameCopies(c, c') && c'.leases == c.leases
            && (r.Denied? ==> c'.reservations == c.reservations)
            && (r.Ok? ==> c'.reservations == c.reservations + [Reservation(length, false)] && r.value == |c.reservations|)
  {
    DropStaleKnown(c, c.order, timeUp);
    DropStaleQuiet(c, c.order, timeUp);
    var c0 := DropStale(c, c.order, timeUp);
    QuotaQuiet(c0, length);
    EvictForQuotaKnown(c0, length);
    DiskQuiet(EvictForQuota(c0, length).0, length, free, 0);
  }

  /** How a lease may change: it stays with its entry, a handed one keeps its range, and once it is closed it yields no more. */
  predicate LeaseMoves(a: Lease, b: Lease) {
    && b.entry == a.entry && a.progress.yielded <= b.progress.yielded
    && (a.progress.handed ==> b.progress.handed && b.start == a.start && b.end == a.end)
    && (a.closed ==> b.closed && b.progress.yielded == a.progress.yielded)
    && (a.released ==> b.released)
  }

  predicate Follows(c: Cache, c': Cache) {
    && SameCopies(c, c') && |c.leases| <= |c'.leases|
    && forall l :: 0 <= l < |c.leases| ==> LeaseMoves(c.leases[l], c'.leases[l])
  }

  lemma AcquireFollows(c: Cache, id: nat, binding: string, digest: string, timeUp: TimeUp, timerStarts: bool, later: TimeUp)
    requires Inv(c)
    ensures Follows(c, Acquire(c, id, binding, digest, timeUp, timerStarts, later).0)
  {
    if id in c.order { AcquireCases(c, id, binding, digest, timeUp, timerStarts, later); }
  }

  lemma OneLeaseFollows(c: Cache, l: nat, lease: Lease)
    requires l < |c.leases| && LeaseMoves(c.leases[l], lease)
    ensures Follows(c, c.(leases := c.leases[l := lease]))
  {
  }

  lemma ReadMoves(c: Cache, l: nat, size: nat)
    requires l < |c.leases| && c.leases[l].entry < |c.table|
    ensures Follows(c, ReadChunk(c, l, size))
  {
    if CanRead(c, l) { OneLeaseFollows(c, l, ReadChunk(c, l, size).leases[l]); }
  }

  lemma YieldMoves(c: Cache, l: nat)
    requires l < |c.leases|
    ensures Follows(c, YieldChunk(c, l))
  {
    if c.leases[l].progress.chunk.Some? { OneLeaseFollows(c, l, YieldChunk(c, l).leases[l]); }
  }

  lemma MarkMoves(c: Cache, l: nat)
    requires l < |c.leases|
    ensures Follows(c, CloseLease(c, l)) && Follows(c, Hand(c, l))
  {
    OneLeaseFollows(c, l, c.leases[l].(closed := true));
    OneLeaseFollows(c, l, c.leases[l].(progress := c.leases[l].progress.(handed := true)));
  }

  lemma NarrowMoves(c: Cache, l: nat, start: nat, end: int)
    requires l < |c.leases| && !c.leases[l].progress.handed
    ensures Follows(c, SetRange(c, l, start, end))
  {
    OneLeaseFollows(c, l, c.leases[l].(start := start, end := end));
  }

  lemma LeaseOpFollows(c: Cache, op: Op)
    requires Sane(c) && (op.DoCloseLease? || op.DoSetRange? || op.DoHand? || op.DoRead? || op.DoYield?)
    ensures Follows(c, Next(c, op))
  {
    if op.lease < |c.leases| {
      match op
      case DoRead(l, size) => ReadMoves(c, l, size);
      case DoYield(l) => YieldMoves(c, l);
      case DoSetRange(l, start, end) => if CanNarrow(c, l, start, end) { NarrowMoves(c, l, start, end); }
      case DoCloseLease(l) => MarkMoves(c, l);
      case DoHand(l) => MarkMoves(c, l);
      case _ =>
    }
  }

  lemma ReleaseFollows(c: Cache, l: nat, timeUp: TimeUp)
    requires l < |c.leases| && c.leases[l].entry < |c.table|
    ensures Follows(c, Release(c, l, timeUp))
  {
  }

  lemma ExpireFollows(c: Cache, id: nat)
    requires Known(c)
    ensures Follows(c, Expire(c, id))
  {
  }

  lemma CommitFollows(c: Cache, r: nat, entry: Entry, timerStarts: bool)
    requires r < |c.reservations|
    ensures Follows(c, Commit(c, r, entry, timerStarts).0) && Follows(c, CloseReservation(c, r))
  {
  }

  lemma CloseFollows(c: Cache)
    requires Known(c)
    ensures Follows(c, Close(c))
  {
    ExpireAllQuiet(c.(closed := true), c.order);
  }

  lemma NextFollows(c: Cache, op: Op)
    requires Inv(c)
    ensures Follows(c, Next(c, op))
  {
    match op
    case DoReserve(length, timeUp, free) => ReserveAdds(c, length, timeUp, free);
    case DoCommit(r, entry, timerStarts) => if r < |c.reservations| { CommitFollows(c, r, entry, timerStarts); }
    case DoCloseReservation(r) => if r < |c.reservations| { CommitFollows(c, r, Entry([], "", "", "", 0, false, 0), true); }
    case DoAcquire(id, binding, digest, timeUp, timerStarts, later) => AcquireFollows(c, id, binding, digest, timeUp, timerStarts, later);
    case DoRelease(l, timeUp) => if l < |c.leases| { ReleaseFollows(c, l, timeUp); }
    case DoExpire(id) => ExpireFollows(c, id);
    case DoClose => CloseFollows(c);
    case _ => LeaseOpFollows(c, op);
  }

  lemma FollowsOn(a: Cache, b: Cache, c: Cache)
    requires Follows(a, b) && Follows(b, c)
    ensures Follows(a, c)
  {
  }

  lemma {:induction false} RunFollows(c: Cache, ops: seq<Op>)
    requires Inv(c)
    ensures Inv(Run(c, ops)) && Follows(c, Run(c, ops))
    decreases |ops|
  {
    if |ops| > 0 {
      var init := ops[..|ops| - 1];
      RunFollows(c, init);
      NextKeeps(Run(c, init), ops[|ops| - 1]);
      NextFollows(Run(c, init), ops[|ops| - 1]);
      FollowsOn(c, Run(c, init), Run(c, ops));
    }
  }

  lemma {:induction false} RunOn(c: Cache, ops: seq<Op>, more: seq<Op>)
    ensures Run(c, ops + more) == Run(Run(c, ops), more)
    decreases |more|
  {
    if |more| == 0 {
      assert ops + more == ops;
    } else {
      RunOn(c, ops, more[..|more| - 1]);
      assert (ops + more)[..|ops + more| - 1] == ops + more[..|more| - 1];
    }
  }

  lemma RunStep(c: Cache, ops: seq<Op>, i: nat)
    requires i < |ops|
    ensures Run(c, ops[..i + 1]) == Next(Run(c, ops[..i]), ops[i])
  {
    assert ops[..i + 1][..i] == ops[..i];
  }

  // ---------- what belongs to one caller ----------

  /** The operation is not about the range or the reading of lease `l`; its timer may still close it. */
  predicate LeavesLease(op: Op, l: nat) {
    (op.DoSetRange? || op.DoHand? || op.DoRead? || op.DoYield?) ==> op.lease != l
  }

  /** The operation neither commits nor closes reservation `r`. */
  predicate LeavesReservation(op: Op, r: nat) {
    (op.DoCommit? || op.DoCloseReservation?) ==> op.reservation != r
  }

  predicate AllLeaveLease(ops: seq<Op>, l: nat) {
    forall i :: 0 <= i < |ops| ==> LeavesLease(ops[i], l)
  }

  predicate AllLeaveReservation(ops: seq<Op>, r: nat) {
    forall i :: 0 <= i < |ops| ==> LeavesReservation(ops[i], r)
  }

  /** The same entry, range and progress; only its being closed and released may have changed. */
  predicate SameReading(a: Lease, b: Lease) {
    b.entry == a.entry && b.start == a.start && b.end == a.end && b.progress == a.progress && (a.closed ==> b.closed)
  }

  lemma ReserveAcquireReading(c: Cache, op: Op, l: nat)
    requires Inv(c) && l < |c.leases| && (op.DoReserve? || op.DoAcquire?)
    ensures l < |Next(c, op).leases| && Next(c, op).leases[l] == c.leases[l]
  {
    match op
    case DoReserve(length, timeUp, free) => ReserveAdds(c, length, timeUp, free);
    case DoAcquire(id, binding, digest, timeUp, timerStarts, later) =>
      if id in c.order { AcquireCases(c, id, binding, digest, timeUp, timerStarts, later); }
  }

  lemma OwnedLeaseReading(c: Cache, op: Op, l: nat)
    requires Sane(c) && l < |c.leases| && LeavesLease(op, l)
    requires op.DoCloseLease? || op.DoSetRange? || op.DoHand? || op.DoRead? || op.DoYield? || op.DoRelease?
    ensures l < |Next(c, op).leases| && SameReading(c.leases[l], Next(c, op).leases[l])
  {
  }

  lemma NextLeavesLease(c: Cache, op: Op, l: nat)
    requires Inv(c) && l < |c.leases| && LeavesLease(op, l)
    ensures l < |Next(c, op).leases| && SameReading(c.leases[l], Next(c, op).leases[l])
  {
    match op
    case DoReserve(_, _, _) => ReserveAcquireReading(c, op, l);
    case DoAcquire(_, _, _, _, _, _) => ReserveAcquireReading(c, op, l);
    case DoClose => ExpireAllQuiet(c.(closed := true), c.order);
    case DoCommit(_, _, _) =>
    case DoCloseReservation(_) =>
    case DoExpire(_) =>
    case _ => OwnedLeaseReading(c, op, l);
  }

  lemma {:induction false} RunLeavesLease(c: Cache, ops: seq<Op>, l: nat)
    requires Inv(c) && l < |c.leases| && AllLeaveLease(ops, l)
    ensures Inv(Run(c, ops)) && l < |Run(c, ops).leases| && SameReading(c.leases[l], Run(c, ops).leases[l])
    decreases |ops|
  {
    if |ops| > 0 {
      var init := ops[..|ops| - 1];
      RunLeavesLease(c, init, l);
      NextKeeps(Run(c, init), ops[|ops| - 1]);
      NextLeavesLease(Run(c, init), ops[|ops| - 1], l);
    }
  }

  lemma NextLeavesReservation(c: Cache, op: Op, r: nat)
    requires Inv(c) && r < |c.reservations| && LeavesReservation(op, r)
    ensures r < |Next(c, op).reservations| && Next(c, op).reservations[r] == c.reservations[r]
  {
    match op
    case DoReserve(length, timeUp, free) => ReserveAdds(c, length, timeUp, free);
    case DoAcquire(id, binding, digest, timeUp, timerStarts, later) =>
      if id in c.order { AcquireCases(c, id, binding, digest, timeUp, timerStarts, later); }
    case DoClose => ExpireAllQuiet(c.(closed := true), c.order);
    case _ =>
  }

  lemma {:induction false} RunLeavesReservation(c: Cache, ops: seq<Op>, r: nat)
    requires Inv(c) && r < |c.reservations| && AllLeaveReservation(ops, r)
    ensures Inv(Run(c, ops)) && r < |Run(c, ops).reservations| && Run(c, ops).reservations[r] == c.reservations[r]
    decreases |ops|
  {
    if |ops| > 0 {
      var init := ops[..|ops| - 1];
      RunLeavesReservation(c, init, r);
      NextKeeps(Run(c, init), ops[|ops| - 1]);
      NextLeavesReservation(Run(c, init), ops[|ops| - 1], r);
    }
  }

  // ---------- streaming ----------

  /** A reader has received the beginning of what its lease stands for, and holds at most the next piece of it. */
  predicate LeaseSound(c: Cache, l: nat)
    requires l < |c.leases| && c.leases[l].entry < |c.table|
  {
    var p := c.leases[l].progress;
    && c.leases[l].end < |c.table[c.leases[l].entry].content|
    && p.yielded <= Promised(c, l) && (p.chunk.Some? ==> p.yielded + p.chunk.value <= Promised(c, l))
    && (!p.handed ==> p == UNREAD)
  }

  predicate Streaming(c: Cache) {
    forall l :: 0 <= l < |c.leases| ==> c.leases[l].entry < |c.table| && LeaseSound(c, l)
  }

  lemma StreamingStays(c: Cache, c': Cache)
    requires Streaming(c) && SameCopies(c, c') && c'.leases == c.leases
    ensures Streaming(c')
  {
    forall l | 0 <= l < |c'.leases| ensures c'.leases[l].entry < |c'.table| && LeaseSound(c', l) { assert LeaseSound(c, l); }
  }

  lemma AcquireStreams(c: Cache, id: nat, binding: string, digest: string, timeUp: TimeUp, timerStarts: bool, later: TimeUp)
    requires Inv(c) && Streaming(c)
    ensures Streaming(Acquire(c, id, binding, digest, timeUp, timerStarts, later).0)
  {
    AcquireFollows(c, id, binding, digest, timeUp, timerStarts, later);
    if id in c.order { AcquireCases(c, id, binding, digest, timeUp, timerStarts, later); }
    var c' := Acquire(c, id, binding, digest, timeUp, timerStarts, later).0;
    forall l | 0 <= l < |c'.leases| ensures c'.leases[l].entry < |c'.table| && LeaseSound(c', l) {
      if l < |c.leases| { assert LeaseSound(c, l); }
    }
  }

  /** A lease that moves on by itself stays sound. */
  lemma OneLeaseStreams(c: Cache, l: nat, lease: Lease)
    requires Streaming(c) && l < |c.leases| && lease.entry == c.leases[l].entry
    requires LeaseSound(c.(leases := c.leases[l := lease]), l)
    ensures Streaming(c.(leases := c.leases[l := lease]))
  {
    var c' := c.(leases := c.leases[l := lease]);
    forall k | 0 <= k < |c'.leases| ensures c'.leases[k].entry < |c'.table| && LeaseSound(c', k) { assert LeaseSound(c, k); }
  }

  lemma ReadStreams(c: Cache, l: nat, size: nat)
    requires Streaming(c) && l < |c.leases| && c.leases[l].entry < |c.table|
    ensures Streaming(ReadChunk(c, l, size))
  {
    assert LeaseSound(c, l);
    var c' := ReadChunk(c, l, size);
    if c' != c { OneLeaseStreams(c, l, c'.leases[l]); }
  }

  lemma YieldStreams(c: Cache, l: nat)
    requires Streaming(c) && l < |c.leases| && c.leases[l].entry < |c.table|
    ensures Streaming(YieldChunk(c, l))
  {
    assert LeaseSound(c, l);
    var c' := YieldChunk(c, l);
    if c' != c { OneLeaseStreams(c, l, c'.leases[l]); }
  }

  lemma MarkStreams(c: Cache, l: nat)
    requires Streaming(c) && l < |c.leases| && c.leases[l].entry < |c.table|
    ensures Streaming(CloseLease(c, l)) && Streaming(Hand(c, l))
  {
    assert LeaseSound(c, l);
    OneLeaseStreams(c, l, c.leases[l].(closed := true));
    OneLeaseStreams(c, l, c.leases[l].(progress := c.leases[l].progress.(handed := true)));
  }

  lemma NarrowStreams(c: Cache, l: nat, start: nat, end: int)
    requires Streaming(c) && l < |c.leases| && c.leases[l].entry < |c.table| && CanNarrow(c, l, start, end)
    ensures Streaming(SetRange(c, l, start, end))
  {
    assert LeaseSound(c, l);
    OneLeaseStreams(c, l, c.leases[l].(start := start, end := end));
  }

  lemma LeaseOpStreams(c: Cache, op: Op)
    requires Sane(c) && Streaming(c) && (op.DoCloseLease? || op.DoSetRange? || op.DoHand? || op.DoYield?)
    ensures Streaming(Next(c, op))
  {
    if op.lease < |c.leases| {
      match op
      case DoYield(l) => YieldStreams(c, l);
      case DoSetRange(l, start, end) => if CanNarrow(c, l, start, end) { NarrowStreams(c, l, start, end); }
      case DoCloseLease(l) => MarkStreams(c, l);
      case DoHand(l) => MarkStreams(c, l);
      case _ =>
    }
  }

  lemma ReleaseStreams(c: Cache, l: nat, timeUp: TimeUp)
    requires Streaming(c) && l < |c.leases| && c.leases[l].entry < |c.table|
    ensures Streaming(Release(c, l, timeUp))
  {
    ReleaseFollows(c, l, timeUp);
    var c' := Release(c, l, timeUp);
    forall k | 0 <= k < |c'.leases| ensures c'.leases[k].entry < |c'.table| && LeaseSound(c', k) { assert LeaseSound(c, k); }
  }

  lemma NextStreams(c: Cache, op: Op)
    requires Inv(c) && Streaming(c)
    ensures Streaming(Next(c, op))
  {
    NextFollows(c, op);
    match op
    case DoReserve(length, timeUp, free) =>
      ReserveAdds(c, length, timeUp, free);
      StreamingStays(c, Next(c, op));
    case DoAcquire(id, binding, digest, timeUp, timerStarts, later) => AcquireStreams(c, id, binding, digest, timeUp, timerStarts, later);
    case DoRead(l, size) => if l < |c.leases| { ReadStreams(c, l, size); }
    case DoRelease(l, timeUp) => if l < |c.leases| { ReleaseStreams(c, l, timeUp); }
    case DoClose =>
      ExpireAllQuiet(c.(closed := true), c.order);
      StreamingStays(c, Next(c, op));
    case DoCommit(_, _, _) => StreamingStays(c, Next(c, op));
    case DoCloseReservation(_) => StreamingStays(c, Next(c, op));
    case DoExpire(_) => StreamingStays(c, Next(c, op));
    case _ => LeaseOpStreams(c, op);
  }

  lemma {:induction false} RunStreams(c: Cache, ops: seq<Op>)
    requires Inv(c) && Streaming(c)
    ensures Inv(Run(c, ops)) && Streaming(Run(c, ops))
    decreases |ops|
  {
    if |ops| > 0 {
      RunStreams(c, ops[..|ops| - 1]);
      NextKeeps(Run(c, ops[..|ops| - 1]), ops[|ops| - 1]);
      NextStreams(Run(c, ops[..|ops| - 1]), ops[|ops| - 1]);
    }
  }

  /** Over every interleaving: what a reader has received is the beginning of bytes start..end of the committed copy, and
      once it is as long as the range it is all of them. */
  lemma ReadersSeeTheCopy(limits: Limits, ops: seq<Op>, l: nat)
    requires l < |Run(Empty(limits), ops).leases|
    ensures var c := Run(Empty(limits), ops);
            var lease := c.leases[l];
            && lease.entry < |c.table| && lease.end < |c.table[lease.entry].content|
            && lease.progress.yielded <= Promised(c, l)
            && (lease.start <= lease.end ==> |Promised(c, l)| == lease.end - lease.start + 1)
            && (|lease.progress.yielded| == |Promised(c, l)| ==> lease.progress.yielded == Promised(c, l))
  {
    EmptyKeeps(limits);
    RunStreams(Empty(limits), ops);
    assert LeaseSound(Run(Empty(limits), ops), l);
  }

  lemma ReadNeedsOpen(c: Cache, l: nat, size: nat)
    requires ReadersExact(c) && StreamsExact(c) && Next(c, DoRead(l, size)) != c
    ensures l < |c.leases| && !c.leases[l].closed && c.leases[l].progress.handed
    ensures c.leases[l].entry in c.order && c.leases[l].entry < |c.table| && c.table[c.leases[l].entry].closes == 0
  {
  }

  /** A read touches the file only while it is open: the lease is neither closed nor released, and its entry resident. */
  lemma ReadsOnlyOpenStreams(limits: Limits, ops: seq<Op>, l: nat, size: nat)
    requires Run(Empty(limits), ops + [DoRead(l, size)]) != Run(Empty(limits), ops)
    ensures var c := Run(Empty(limits), ops);
            && l < |c.leases| && !c.leases[l].closed && c.leases[l].progress.handed
            && c.leases[l].entry in c.order && c.leases[l].entry < |c.table| && c.table[c.leases[l].entry].closes == 0
  {
    RunKeeps(limits, ops);
    assert (ops + [DoRead(l, size)])[..|ops|] == ops;
    ReadNeedsOpen(Run(Empty(limits), ops), l, size);
  }

  /** Whatever happens later: a copy keeps its bytes, a handed lease its range, and a closed lease yields nothing more. */
  lemma LeasesOnlyMoveOn(limits: Limits, ops: seq<Op>, more: seq<Op>, l: nat)
    requires l < |Run(Empty(limits), ops).leases|
    ensures var c, c' := Run(Empty(limits), ops), Run(Empty(limits), ops + more);
            && SameCopies(c, c') && l < |c'.leases| && LeaseMoves(c.leases[l], c'.leases[l])
  {
    RunKeeps(limits, ops);
    RunOn(Empty(limits), ops, more);
    RunFollows(Run(Empty(limits), ops), more);
  }

  // ---------- the ledger ----------

  function OpenAmong(leases: seq<Lease>, order: seq<nat>): set<int> {
    set l | 0 <= l < |leases| && !leases[l].released && leases[l].entry in order
  }

  lemma {:induction false} SumReadersCounts(order: seq<nat>, table: seq<Entry>, leases: seq<Lease>)
    requires Within(order, |table|) && Distinct(order)
    requires forall id :: 0 <= id < |table| ==> table[id].readers == |OpenOn(leases, id)|
    ensures SumReaders(order, table) == |OpenAmong(leases, order)|
  {
    if order == [] {
      assert OpenAmong(leases, order) == {};
    } else {
      SumReadersCounts(order[1..], table, leases);
      assert order[0] !in order[1..];
      assert OpenAmong(leases, order) == OpenOn(leases, order[0]) + OpenAmong(leases, order[1..]);
    }
  }

  lemma LimitsStay(limits: Limits, ops: seq<Op>)
    ensures Run(Empty(limits), ops).limits == limits
  {
    EmptyKeeps(limits);
    RunFollows(Empty(limits), ops);
  }

  /** Bytes, entries and readers are exact and within their limits in every reachable state. */
  lemma LedgerExact(limits: Limits, ops: seq<Op>)
    ensures var c := Run(Empty(limits), ops);
            && Known(c) && c.limits == limits
            && c.reserved == SumLength(c.order, c.table) + SumPending(c.reservations) <= c.limits.maxBytes
            && |c.order| + |Pending(c.reservations)| <= c.limits.maxEntries
            && c.readers == SumReaders(c.order, c.table) == |Open(c.leases)| <= c.limits.maxReaders
  {
    RunKeeps(limits, ops);
    LimitsStay(limits, ops);
    var c := Run(Empty(limits), ops);
    SumReadersCounts(c.order, c.table, c.leases);
    assert OpenAmong(c.leases, c.order) == Open(c.leases);
  }

  /** While a lease is open its entry is resident and its file is open; an expired entry nobody reads
      is not resident; and no committed stream is ever closed twice. */
  lemma StreamsAreSafe(limits: Limits, ops: seq<Op>)
    ensures var c := Run(Empty(limits), ops);
            && (forall l :: 0 <= l < |c.leases| && !c.leases[l].released ==>
                  c.leases[l].entry in c.order && c.leases[l].entry < |c.table| && c.table[c.leases[l].entry].closes == 0)
            && (forall id :: 0 <= id < |c.table| && c.table[id].expired && c.table[id].readers == 0 ==> id !in c.order)
            && (forall id :: 0 <= id < |c.table| ==> c.table[id].closes <= 1 && (c.table[id].closes == 1 <==> id !in c.order))
  {
    RunKeeps(limits, ops);
  }

  /** After close(), when the last lease and the last reservation are gone, nothing is left. */
  lemma Drained(limits: Limits, ops: seq<Op>)
    requires var c := Run(Empty(limits), ops); c.closed && Open(c.leases) == {} && Pending(c.reservations) == {}
    ensures var c := Run(Empty(limits), ops);
            c.order == [] && c.reserved == 0 && c.pending == 0 && c.pendingBytes == 0 && c.readers == 0
  {
    RunKeeps(limits, ops);
    var c := Run(Empty(limits), ops);
    NoPendingBytes(c.reservations);
    assert forall id: nat :: OpenOn(c.leases, id) <= Open(c.leases);
  }

  lemma {:induction false} NoPendingBytes(rs: seq<Reservation>)
    requires Pending(rs) == {}
    ensures SumPending(rs) == 0
  {
    if rs != [] {
      assert |rs| - 1 !in Pending(rs);
      assert forall r :: r in Pending(rs[..|rs| - 1]) ==> r in Pending(rs);
      NoPendingBytes(rs[..|rs| - 1]);
    }
  }

  // ---------- eviction ----------

  predicate Ordered(c: Cache) {
    Known(c) && Distinct(c.order)
  }

  lemma RemoveStaysOrdered(c: Cache, id: nat)
    requires Ordered(c) && id < |c.table|
    ensures Ordered(Remove(c, id))
  {
    SumLengthWithout(c.order, c.table, id);
  }

  /** Entries without readers, least recently used first. */
  function Idle(order: seq<nat>, table: seq<Entry>): seq<nat>
    requires Within(order, |table|)
  {
    if order == [] then []
    else (if table[order[0]].readers == 0 then [order[0]] else []) + Idle(order[1..], table)
  }

  function Busy(order: seq<nat>, table: seq<Entry>): seq<nat>
    requires Within(order, |table|)
  {
    if order == [] then []
    else (if table[order[0]].readers == 0 then [] else [order[0]]) + Busy(order[1..], table)
  }

  /** The ids that are not in `gone`, in their order. */
  function Keep(order: seq<nat>, gone: set<nat>): seq<nat> {
    if order == [] then []
    else (if order[0] in gone then [] else [order[0]]) + Keep(order[1..], gone)
  }

  /** The cache after its `k` least recently used idle entries are gone. */
  function EvictOldest(c: Cache, k: nat): Cache
    requires Known(c)
    decreases k
  {
    if k == 0 || FirstIdle(c).None? then c
    else
      FirstIdleFound(c.order, c.table);
      WithoutWithin(c.order, FirstIdle(c).value, |c.table|);
      EvictOldest(Remove(c, FirstIdle(c).value), k - 1)
  }

  lemma {:induction false} SameReaders(order: seq<nat>, table: seq<Entry>, table': seq<Entry>)
    requires Within(order, |table|) && |table| == |table'|
    requires forall x :: 0 <= x < |table| ==> table[x].readers == table'[x].readers
    ensures Idle(order, table) == Idle(order, table') && Busy(order, table) == Busy(order, table')
  {
    if order != [] { SameReaders(order[1..], table, table'); }
  }

  lemma {:induction false} WithoutAbsent(order: seq<nat>, id: nat)
    requires id !in order
    ensures Without(order, id) == order
  {
    if order != [] { WithoutAbsent(order[1..], id); }
  }

  /** Taking `id` out of the order takes the head of the idle entries and nothing else. */
  predicate Beheads(order: seq<nat>, table: seq<Entry>, id: nat)
    requires Within(order, |table|)
  {
    && Within(Without(order, id), |table|)
    && Idle(order, table) == [id] + Idle(Without(order, id), table)
    && Busy(order, table) == Busy(Without(order, id), table)
  }

  lemma BeheadsHead(order: seq<nat>, table: seq<Entry>)
    requires Within(order, |table|) && Distinct(order) && order != [] && table[order[0]].readers == 0
    ensures Beheads(order, table, order[0])
  {
    assert order[0] !in order[1..];
    WithoutAbsent(order[1..], order[0]);
    WithoutWithin(order, order[0], |table|);
  }

  lemma InWithin(order: seq<nat>, n: nat, id: nat)
    requires Within(order, n) && id in order
    ensures id < n
  {
  }

  lemma BeheadsLater(order: seq<nat>, table: seq<Entry>, id: nat)
    requires Within(order, |table|) && order != [] && table[order[0]].readers != 0 && id < |table| && table[id].readers == 0
    requires Within(order[1..], |table|) && Beheads(order[1..], table, id)
    ensures Beheads(order, table, id)
  {
    WithoutWithin(order, id, |table|);
    assert Without(order, id) == [order[0]] + Without(order[1..], id);
  }

  lemma {:induction false} WithoutFirstIdle(order: seq<nat>, table: seq<Entry>)
    requires Within(order, |table|) && Distinct(order) && FirstIdleIn(order, table).Some?
    ensures Beheads(order, table, FirstIdleIn(order, table).value)
  {
    if table[order[0]].readers == 0 {
      BeheadsHead(order, table);
    } else {
      WithoutFirstIdle(order[1..], table);
      FirstIdleFound(order, table);
      InWithin(order, |table|, FirstIdleIn(order, table).value);
      BeheadsLater(order, table, FirstIdleIn(order, table).value);
    }
  }

  lemma {:induction false} NoIdle(order: seq<nat>, table: seq<Entry>)
    requires Within(order, |table|) && FirstIdleIn(order, table).None?
    ensures Idle(order, table) == []
  {
    if order != [] { NoIdle(order[1..], table); }
  }

  lemma EvictOldestStep(c: Cache, j: nat)
    requires Known(c) && FirstIdle(c).Some?
    ensures FirstIdle(c).value < |c.table| && Known(Remove(c, FirstIdle(c).value))
    ensures EvictOldest(c, j + 1) == EvictOldest(Remove(c, FirstIdle(c).value), j)
  {
    FirstIdleFound(c.order, c.table);
    WithoutWithin(c.order, FirstIdle(c).value, |c.table|);
  }

  /** The first idle entry heads the idle ones; removing it leaves the rest and every leased entry. */
  lemma FirstIdleIsHead(c: Cache)
    requires Ordered(c)
    ensures FirstIdle(c).None? ==> Idle(c.order, c.table) == []
    ensures FirstIdle(c).Some? ==>
              var id := FirstIdle(c).value;
              && id < |c.table| && id in c.order && Ordered(Remove(c, id)) && |Remove(c, id).order| < |c.order|
              && Idle(c.order, c.table) == [id] + Idle(Remove(c, id).order, Remove(c, id).table)
              && Busy(c.order, c.table) == Busy(Remove(c, id).order, Remove(c, id).table)
  {
    if FirstIdle(c).None? {
      NoIdle(c.order, c.table);
    } else {
      var id := FirstIdle(c).value;
      FirstIdleFound(c.order, c.table);
      WithoutFirstIdle(c.order, c.table);
      WithoutShrinks(c.order, id);
      RemoveStaysOrdered(c, id);
      SameReaders(Remove(c, id).order, c.table, Remove(c, id).table);
    }
  }

  /** Evicting leaves the most recently used idle entries and every leased one, in their order. */
  lemma {:induction false} EvictOldestKeepsSuffix(c: Cache, k: nat)
    requires Ordered(c) && k <= |Idle(c.order, c.table)|
    ensures var c' := EvictOldest(c, k);
            && Ordered(c')
            && Idle(c'.order, c'.table) == Idle(c.order, c.table)[k..]
            && Busy(c'.order, c'.table) == Busy(c.order, c.table)
    decreases k
  {
    if k > 0 {
      FirstIdleIsHead(c);
      EvictOldestStep(c, k - 1);
      var rest := Remove(c, FirstIdle(c).value);
      EvictOldestKeepsSuffix(rest, k - 1);
      assert Idle(c.order, c.table)[k..] == Idle(rest.order, rest.table)[k - 1..];
    }
  }

  /** The quota loop evicts `k` entries, each time because the quota was still exceeded. */
  lemma {:induction false} QuotaLoop(c: Cache, length: nat) returns (k: nat)
    requires Ordered(c)
    ensures k <= |Idle(c.order, c.table)| && EvictForQuota(c, length).0 == EvictOldest(c, k)
    ensures forall j :: 0 <= j < k ==> OverQuota(EvictOldest(c, j), length)
    ensures EvictForQuota(c, length).1 <==> !OverQuota(EvictOldest(c, k), length)
    ensures !EvictForQuota(c, length).1 ==> k == |Idle(c.order, c.table)|
    decreases |c.order|
  {
    k := 0;
    FirstIdleIsHead(c);
    if OverQuota(c, length) && FirstIdle(c).Some? {
      var c' := Remove(c, FirstIdle(c).value);
      WithoutShrinks(c.order, FirstIdle(c).value);
      var k' := QuotaLoop(c', length);
      k := k' + 1;
      EvictOldestStep(c, k');
      QuotaMore(c, length, k');
    }
  }

  lemma QuotaMore(c: Cache, length: nat, k: nat)
    requires Known(c) && OverQuota(c, length) && FirstIdle(c).Some?
    requires FirstIdle(c).value < |c.table| && Known(Remove(c, FirstIdle(c).value))
    requires forall j :: 0 <= j < k ==> OverQuota(EvictOldest(Remove(c, FirstIdle(c).value), j), length)
    ensures forall j :: 0 <= j < k + 1 ==> OverQuota(EvictOldest(c, j), length)
  {
    forall j | 0 <= j < k + 1 ensures OverQuota(EvictOldest(c, j), length) {
      if j > 0 { EvictOldestStep(c, j - 1); }
    }
  }

  /** With `j` entries evicted, query number `query + j` reports too little free space. */
  predicate StillShort(c: Cache, length: nat, free: nat -> int, query: nat, j: nat)
    requires Known(c)
  {
    DiskShort(EvictOldest(c, j), length, free(query + j))
  }

  lemma StillShortStep(c: Cache, length: nat, free: nat -> int, query: nat, j: nat)
    requires Known(c) && FirstIdle(c).Some?
    ensures FirstIdle(c).value < |c.table| && Known(Remove(c, FirstIdle(c).value))
    ensures StillShort(c, length, free, query, j + 1) == StillShort(Remove(c, FirstIdle(c).value), length, free, query + 1, j)
  {
    EvictOldestStep(c, j);
    assert query + (j + 1) == query + 1 + j;
  }

  /** The disk loop likewise, each time because the space last reported was too small. */
  lemma {:induction false} DiskLoop(c: Cache, length: nat, free: nat -> int, query: nat) returns (k: nat)
    requires Ordered(c)
    ensures k <= |Idle(c.order, c.table)| && EvictForDisk(c, length, free, query).0 == EvictOldest(c, k)
    ensures forall j: nat :: j < k ==> StillShort(c, length, free, query, j)
    ensures EvictForDisk(c, length, free, query).1 <==> !StillShort(c, length, free, query, k)
    ensures !EvictForDisk(c, length, free, query).1 ==> k == |Idle(c.order, c.table)|
    decreases |c.order|
  {
    k := 0;
    FirstIdleIsHead(c);
    if DiskShort(c, length, free(query)) && FirstIdle(c).Some? {
      var k' := DiskLoop(Remove(c, FirstIdle(c).value), length, free, query + 1);
      k := k' + 1;
      EvictOldestStep(c, k');
      StillShortStep(c, length, free, query, k');
      ShortMore(c, Remove(c, FirstIdle(c).value), length, free, query, query + 1, k');
    }
  }

  lemma ShortMore(c: Cache, rest: Cache, length: nat, free: nat -> int, query: nat, next: nat, k: nat)
    requires Known(c) && StillShort(c, length, free, query, 0) && FirstIdle(c).Some?
    requires FirstIdle(c).value < |c.table| && Known(Remove(c, FirstIdle(c).value))
    requires rest == Remove(c, FirstIdle(c).value) && next == query + 1 && forall j: nat :: j < k ==> StillShort(rest, length, free, next, j)
    ensures forall j: nat :: j < k + 1 ==> StillShort(c, length, free, query, j)
  {
    forall j: nat | j < k + 1 ensures StillShort(c, length, free, query, j) {
      if j > 0 { StillShortStep(c, length, free, query, j - 1); }
    }
  }

  /** The flags that staleness and idleness are judged by. */
  predicate SameFlags(table: seq<Entry>, table': seq<Entry>) {
    |table| == |table'| &&
    forall x :: 0 <= x < |table| ==> table'[x].readers == table[x].readers && table'[x].expired == table[x].expired
  }

  predicate StaleIdle(c: Cache, x: nat, timeUp: TimeUp) {
    x < |c.table| && Stale(c, x, timeUp) && c.table[x].readers == 0
  }

  lemma RemoveSameFlags(c: Cache, id: nat)
    requires id < |c.table|
    ensures SameFlags(c.table, Remove(c, id).table)
    ensures forall x :: x in Remove(c, id).order <==> x in c.order && (x != id || c.table[id].readers != 0)
  {
    WithoutShrinks(c.order, id);
  }

  function StaleAmong(c: Cache, ids: seq<nat>, timeUp: TimeUp): set<nat> {
    set x | x in ids && StaleIdle(c, x, timeUp)
  }

  lemma {:induction false} KeepWithout(order: seq<nat>, id: nat, gone: set<nat>)
    ensures Keep(Without(order, id), gone) == Keep(order, gone + {id})
  {
    if order != [] { KeepWithout(order[1..], id, gone); }
  }

  lemma {:induction false} KeepAll(order: seq<nat>)
    ensures Keep(order, {}) == order
  {
    if order != [] { KeepAll(order[1..]); }
  }

  /** Dropping stale entries takes away exactly the stale idle ones. */
  lemma {:induction false} DropStaleIs(c: Cache, ids: seq<nat>, timeUp: TimeUp)
    requires Ordered(c) && Within(ids, |c.table|) && Distinct(ids)
    ensures Ordered(DropStale(c, ids, timeUp)) && SameFlags(c.table, DropStale(c, ids, timeUp).table)
    ensures DropStale(c, ids, timeUp).order == Keep(c.order, StaleAmong(c, ids, timeUp))
    decreases |ids|
  {
    if ids == [] {
      KeepAll(c.order);
      assert StaleAmong(c, ids, timeUp) == {};
    } else {
      var id := ids[0];
      RemoveStaysOrdered(c, id);
      RemoveSameFlags(c, id);
      var drop := Stale(c, id, timeUp) && c.table[id].readers == 0;
      var c' := if drop then Remove(c, id) else c;
      DropStaleIs(c', ids[1..], timeUp);
      var rest := StaleAmong(c', ids[1..], timeUp);
      assert id !in ids[1..];
      assert StaleAmong(c, ids, timeUp) == if drop then rest + {id} else rest;
      KeepWithout(c.order, id, rest);
    }
  }

  /** The two loops together evict the `k` oldest idle entries: the first `q` because the byte or
      entry quota was exceeded, the others because the disk was short. */
  lemma EvictionIsMinimal(c: Cache, length: nat, free: nat -> int) returns (q: nat, k: nat, c': Cache, fits: bool)
    requires Ordered(c)
    ensures (c', fits) == EvictToFit(c, length, free)
    ensures q <= k <= |Idle(c.order, c.table)| && c' == EvictOldest(c, k)
    ensures forall j :: 0 <= j < q ==> OverQuota(EvictOldest(c, j), length)
    ensures forall j :: q <= j < k ==> DiskShort(EvictOldest(c, j), length, free(j - q))
    ensures fits <==> !OverQuota(EvictOldest(c, q), length) && !DiskShort(EvictOldest(c, k), length, free(k - q))
    ensures !fits ==> k == |Idle(c.order, c.table)|
  {
    q := QuotaLoop(c, length);
    EvictOldestKeepsSuffix(c, q);
    k, c', fits := q, EvictOldest(c, q), false;
    if !OverQuota(c', length) {
      k := ThenDisk(c, q, length, free);
      c', fits := EvictForDisk(EvictOldest(c, q), length, free, 0).0, EvictForDisk(EvictOldest(c, q), length, free, 0).1;
    }
  }

  /** The disk loop goes on where the quota loop stopped. */
  lemma ThenDisk(c: Cache, q: nat, length: nat, free: nat -> int) returns (k: nat)
    requires Ordered(c) && q <= |Idle(c.order, c.table)| && Ordered(EvictOldest(c, q))
    requires Idle(EvictOldest(c, q).order, EvictOldest(c, q).table) == Idle(c.order, c.table)[q..]
    ensures var (c', fits) := EvictForDisk(EvictOldest(c, q), length, free, 0);
            && q <= k <= |Idle(c.order, c.table)| && c' == EvictOldest(c, k)
            && (forall j :: q <= j < k ==> DiskShort(EvictOldest(c, j), length, free(j - q)))
            && (fits <==> !DiskShort(EvictOldest(c, k), length, free(k - q))) && (!fits ==> k == |Idle(c.order, c.table)|)
  {
    var middle := EvictOldest(c, q);
    var d := DiskLoop(middle, length, free, 0);
    k := q + d;
    EvictTwice(c, q, d);
    forall j | q <= j < k ensures DiskShort(EvictOldest(c, j), length, free(j - q)) {
      assert StillShort(middle, length, free, 0, j - q);
      EvictTwice(c, q, j - q);
    }
    assert StillShort(middle, length, free, 0, d) == DiskShort(EvictOldest(c, k), length, free(k - q));
  }

  /** `reserve` first drops the stale idle entries and then evicts as EvictionIsMinimal says: what
      survives are all leased entries and the most recently used of the idle ones that are not stale. */
  lemma ReserveIsMinimalLru(c: Cache, length: nat, timeUp: TimeUp, free: nat -> int) returns (live: Cache, q: nat, k: nat)
    requires Ordered(c) && !c.closed
    ensures Ordered(live) && q <= k <= |Idle(live.order, live.table)|
    ensures live.order == Keep(c.order, StaleAmong(c, c.order, timeUp)) && SameFlags(c.table, live.table)
    ensures var (c', r) := Reserve(c, length, timeUp, free);
            && Known(c')
            && Idle(c'.order, c'.table) == Idle(live.order, live.table)[k..]
            && Busy(c'.order, c'.table) == Busy(live.order, live.table)
            && (r.Denied? ==> r.failure == QuotaExceeded && Idle(c'.order, c'.table) == [])
            && (r.Ok? <==> !OverQuota(EvictOldest(live, q), length) && !DiskShort(EvictOldest(live, k), length, free(k - q)))
    ensures forall j :: 0 <= j < q ==> OverQuota(EvictOldest(live, j), length)
    ensures forall j :: q <= j < k ==> DiskShort(EvictOldest(live, j), length, free(j - q))
  {
    DropStaleKnown(c, c.order, timeUp);
    DropStaleIs(c, c.order, timeUp);
    live := DropStale(c, c.order, timeUp);
    var c', fits;
    q, k, c', fits := EvictionIsMinimal(live, length, free);
    EvictOldestKeepsSuffix(live, k);
  }

  lemma {:induction false} EvictTwice(c: Cache, q: nat, d: nat)
    requires Ordered(c) && q <= |Idle(c.order, c.table)|
    ensures Known(EvictOldest(c, q)) && EvictOldest(EvictOldest(c, q), d) == EvictOldest(c, q + d)
    decreases q
  {
    if q > 0 {
      FirstIdleIsHead(c);
      EvictOldestStep(c, q - 1);
      EvictOldestStep(c, q + d - 1);
      EvictTwice(Remove(c, FirstIdle(c).value), q - 1, d);
    }
  }
}
