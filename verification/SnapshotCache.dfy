/**
 * The snapshot cache as the gateway runs it: a mutable cache object whose
 * methods are proved to do what the ledger says, the chunked reader of a
 * lease, and the two gateway paths that prepare and serve a snapshot.
 */
module SnapshotCache {
  import opened SnapshotLedger
  import opened SnapshotInvariant
  import opened SnapshotTheorems
  import opened SnapshotEffects
  import opened Wrappers

  datatype Reply = Reply(status: nat, contentLength: int, lease: nat)

  function Flatten(chunks: seq<Bytes>): Bytes {
    if chunks == [] then [] else Flatten(chunks[..|chunks| - 1]) + chunks[|chunks| - 1]
  }

  function Min(a: int, b: int): int { if a < b then a else b }

  lemma {:induction false} WithoutLast(order: seq<nat>, id: nat)
    requires Within(order, id)
    ensures Without(order + [id], id) == order
  {
    if order != [] {
      WithoutLast(order[1..], id);
      assert (order + [id])[1..] == order[1..] + [id];
    }
  }

  /** Closing a lease keeps everything sound, and what its reader has. */
  lemma ClosingKeeps(c: Cache, l: nat, timeUp: TimeUp)
    requires Inv(c) && Streaming(c) && l < |c.leases| && c.leases[l].entry < |c.table|
    ensures Inv(Release(CloseLease(c, l), l, timeUp)) && Streaming(Release(CloseLease(c, l), l, timeUp))
    ensures Follows(c, Release(CloseLease(c, l), l, timeUp))
  {
    var mid := CloseLease(c, l);
    CloseLeaseKeeps(c, l);
    ReleaseKeeps(mid, l, timeUp);
    MarkMoves(c, l);
    MarkStreams(c, l);
    ReleaseFollows(mid, l, timeUp);
    ReleaseStreams(mid, l, timeUp);
    FollowsOn(c, mid, Release(mid, l, timeUp));
  }

  lemma RetiringKeeps(c: Cache, id: nat)
    requires Inv(c) && Streaming(c)
    ensures Inv(Expire(c, id)) && Streaming(Expire(c, id)) && Follows(c, Expire(c, id))
    ensures Expire(c, id).reservations == c.reservations
  {
    ExpireKeeps(c, id);
    ExpireFollows(c, id);
    StreamingStays(c, Expire(c, id));
  }

  lemma ClosingEnds(c: Cache, l: nat, timeUp: TimeUp)
    requires l < |c.leases| && c.leases[l].entry < |c.table|
    ensures var c' := Release(CloseLease(c, l), l, timeUp);
            l < |c'.leases| && c'.leases[l].closed && c'.leases[l].progress == c.leases[l].progress
  {
  }

  lemma {:induction false} FlattenSnoc(chunks: seq<Bytes>, data: Bytes)
    ensures Flatten(chunks + [data]) == Flatten(chunks) + data
  {
    assert (chunks + [data])[..|chunks|] == chunks;
  }

  class GatewayCache {
    const limits: Limits
    var closed: bool
    var reserved: int
    var pending: int
    var pendingBytes: int
    var readers: int
    var order: seq<nat>
    var table: seq<Entry>
    var reservations: seq<Reservation>
    var leases: seq<Lease>

    ghost function View(): Cache
      reads this
    {
      Cache(limits, closed, reserved, pending, pendingBytes, readers, order, table, reservations, leases)
    }

    constructor (limits: Limits)
      ensures View() == Empty(limits) && Inv(View())
    {
      this.limits, closed := limits, false;
      reserved, pending, pendingBytes, readers := 0, 0, 0, 0;
      order, table, reservations, leases := [], [], [], [];
      new;
      assert Open([]) == {} && Pending([]) == {};
    }

    method RemoveEntry(id: nat)
      requires id < |table|
      modifies this
      ensures View() == Remove(old(View()), id)
      ensures if old(table[id].readers) != 0 then View() == old(View()) else HasLeft(old(View()), View(), id, old(table[id]))
    {
      if table[id].readers == 0 { RemoveIs(View(), id); }
      if table[id].readers != 0 { return; }
      order := Without(order, id);
      table := table[id := table[id].(closes := table[id].closes + 1)];
      reserved := reserved - table[id].Length();
    }

    method FindIdle() returns (idle: Option<nat>)
      requires Known(View())
      ensures idle == FirstIdle(View())
    {
      var i := 0;
      while i < |order|
        invariant 0 <= i <= |order|
        invariant FirstIdleIn(order[i..], table) == FirstIdle(View())
      {
        if table[order[i]].readers == 0 { return Some(order[i]); }
        assert order[i..][1..] == order[i + 1..];
        i := i + 1;
      }
      idle := None;
    }

    method SweepStale(timeUp: TimeUp)
      requires Known(View())
      modifies this
      ensures Known(View()) && View() == DropStale(old(View()), old(order), timeUp)
    {
      var ids := order;
      for i := 0 to |ids|
        invariant Known(View()) && |table| == |old(table)|
        invariant DropStale(View(), ids[i..], timeUp) == DropStale(old(View()), ids, timeUp)
      {
        assert ids[i..][1..] == ids[i + 1..];
        if (table[ids[i]].expired || timeUp(ids[i])) && table[ids[i]].readers == 0 {
          WithoutWithin(order, ids[i], |table|);
          RemoveEntry(ids[i]);
        }
      }
    }

    method EvictWhileOverQuota(length: nat) returns (fits: bool)
      requires Known(View())
      modifies this
      ensures Known(View()) && (View(), fits) == EvictForQuota(old(View()), length)
    {
      while reserved + length > limits.maxBytes || |order| + pending >= limits.maxEntries
        invariant Known(View()) && EvictForQuota(View(), length) == EvictForQuota(old(View()), length)
        decreases |order|
      {
        var idle := FindIdle();
        if idle.None? { return false; }
        FirstIdleFound(order, table);
        WithoutShrinks(order, idle.value);
        WithoutWithin(order, idle.value, |table|);
        RemoveEntry(idle.value);
      }
      fits := true;
    }

    method EvictWhileDiskShort(length: nat, free: nat -> int) returns (fits: bool)
      requires Known(View())
      modifies this
      ensures Known(View()) && (View(), fits) == EvictForDisk(old(View()), length, free, 0)
    {
      var query := 0;
      while free(query) < pendingBytes + length + limits.minimumFree
        invariant query >= 0
        invariant Known(View()) && EvictForDisk(View(), length, free, query) == EvictForDisk(old(View()), length, free, 0)
        decreases |order|
      {
        var idle := FindIdle();
        if idle.None? { return false; }
        FirstIdleFound(order, table);
        WithoutShrinks(order, idle.value);
        WithoutWithin(order, idle.value, |table|);
        RemoveEntry(idle.value);
        query := query + 1;
      }
      fits := true;
    }

    method MakeRoom(length: nat, free: nat -> int) returns (fits: bool)
      requires Known(View())
      modifies this
      ensures (View(), fits) == EvictToFit(old(View()), length, free)
    {
      fits := EvictWhileOverQuota(length);
      if fits { fits := EvictWhileDiskShort(length, free); }
    }

    method AdmitBytes(length: nat) returns (r: Result<nat>)
      modifies this
      ensures View() == Admit(old(View()), length) && r == Ok(|old(reservations)|)
    {
      reserved, pending, pendingBytes := reserved + length, pending + 1, pendingBytes + length;
      reservations := reservations + [Reservation(length, false)];
      r := Ok(|reservations| - 1);
    }

    method ReserveBytes(length: nat, timeUp: TimeUp, free: nat -> int) returns (r: Result<nat>)
      requires Known(View())
      modifies this
      ensures (View(), r) == Reserve(old(View()), length, timeUp, free)
    {
      if closed { return Denied(CacheUnavailable); }
      SweepStale(timeUp);
      var fits := MakeRoom(length, free);
      if !fits { return Denied(QuotaExceeded); }
      r := AdmitBytes(length);
    }

    /** The entry is listed before its timer starts and taken back, with its number, if it does not. */
    method CommitCopy(r: nat, entry: Entry, timerStarts: bool) returns (id: Result<nat>)
      requires Known(View()) && r < |reservations|
      modifies this
      ensures (View(), id) == Commit(old(View()), r, entry, timerStarts)
      ensures id == if old(reservations[r].finished || closed) then Denied(CacheUnavailable)
                    else if timerStarts then Ok(|old(table)|) else Denied(TimerFailed)
      ensures if id.Ok? then order == old(order) + [id.value] && table == old(table) + [entry] && reserved == old(reserved)
              else View() == old(View())
    {
      if reservations[r].finished || closed { return Denied(CacheUnavailable); }
      order, table := order + [|table|], table + [entry];
      if !timerStarts {
        WithoutLast(old(order), |old(table)|);
        order, table := Without(order, |table| - 1), table[..|table| - 1];
        return Denied(TimerFailed);
      }
      pending, pendingBytes := pending - 1, pendingBytes - reservations[r].length;
      reservations := reservations[r := Reservation(reservations[r].length, true)];
      id := Ok(|table| - 1);
    }

    method ReturnReservation(r: nat)
      requires r < |reservations|
      modifies this
      ensures View() == CloseReservation(old(View()), r)
    {
      if !reservations[r].finished {
        var length := reservations[r].length;
        reservations := reservations[r := Reservation(length, true)];
        pending, pendingBytes, reserved := pending - 1, pendingBytes - length, reserved - length;
      }
    }

    /** Counts the reader, moves the entry to the end and starts the lease's timer; a timer that does
        not start is rolled back before the lock is given up. */
    method StartLease(id: nat, timerStarts: bool, later: TimeUp) returns (r: Result<nat>)
      requires Known(View()) && id in order
      modifies this
      ensures View() == if timerStarts then Grant(Front(old(View()), id), id)
                        else if closed || Stale(old(View()), id, later) then Remove(Front(old(View()), id), id)
                        else Front(old(View()), id)
      ensures r == if timerStarts then Ok(old(|leases|)) else Denied(TimerFailed)
    {
      ghost var before := table;
      table := table[id := table[id].(readers := table[id].readers + 1)];
      readers := readers + 1;
      order := Without(order, id) + [id];
      if timerStarts {
        leases := leases + [Lease(id, 0, table[id].Length() - 1, false, false, UNREAD)];
        return Ok(|leases| - 1);
      }
      table := table[id := table[id].(readers := table[id].readers - 1)];
      assert table == before;
      readers := readers - 1;
      if closed || table[id].expired || later(id) { RemoveEntry(id); }
      r := Denied(TimerFailed);
    }

    method AcquireLease(id: nat, binding: string, digest: string, timeUp: TimeUp, timerStarts: bool, later: TimeUp) returns (r: Result<nat>)
      requires Known(View())
      modifies this
      ensures (View(), r) == Acquire(old(View()), id, binding, digest, timeUp, timerStarts, later)
      ensures AcquireOutcome(old(View()), View(), r, id, binding, digest, timeUp, timerStarts)
    {
      AcquireIs(View(), id, binding, digest, timeUp, timerStarts, later);
      if id !in order { return Denied(SnapshotUnavailable); }
      if closed || table[id].expired || timeUp(id) {
        RemoveEntry(id);
        return Denied(SnapshotUnavailable);
      }
      if table[id].binding != binding { return Denied(SnapshotUnavailable); }
      if table[id].digest != digest { return Denied(ContentVersionChanged); }
      if readers >= limits.maxReaders { return Denied(GatewayBusy); }
      r := StartLease(id, timerStarts, later);
    }

    method ReleaseReader(l: nat, timeUp: TimeUp)
      requires l < |leases| && leases[l].entry < |table|
      modifies this
      ensures View() == Release(old(View()), l, timeUp)
      ensures if old(leases[l].closed && !leases[l].released) then HasReleased(old(View()), View(), l, timeUp)
              else View() == old(View())
    {
      ReleaseIs(View(), l, timeUp);
      if !leases[l].closed || leases[l].released { return; }
      var id := leases[l].entry;
      table := table[id := table[id].(readers := table[id].readers - 1)];
      readers := readers - 1;
      leases := leases[l := leases[l].(released := true)];
      if closed || table[id].expired || timeUp(id) { RemoveEntry(id); }
    }

    /** SnapshotLease.close(): idempotent, and the only place that gives a reader back. */
    method EndLease(l: nat, timeUp: TimeUp)
      requires l < |leases| && leases[l].entry < |table|
      modifies this
      ensures View() == if old(leases[l].closed) then old(View()) else Release(CloseLease(old(View()), l), l, timeUp)
    {
      if leases[l].closed { return; }
      leases := leases[l := leases[l].(closed := true)];
      ReleaseReader(l, timeUp);
    }

    method ExpireEntry(id: nat)
      requires Known(View())
      modifies this
      ensures View() == Expire(old(View()), id)
      ensures if id in old(order) then HasExpired(old(View()), View(), id) else View() == old(View())
    {
      ExpireIs(View(), id);
      if id in order {
        table := table[id := table[id].(expired := true)];
        RemoveEntry(id);
      }
    }

    method Shutdown()
      requires Known(View())
      modifies this
      ensures View() == Close(old(View()))
      ensures Inv(old(View())) ==> closed && AllEnded(old(View()), View(), old(order))
      ensures Inv(old(View())) ==> leases == old(leases) && reservations == old(reservations)
    {
      if Inv(View()) { CloseIs(View()); }
      var ids := order;
      ghost var start := View().(closed := true);
      closed := true;
      for i := 0 to |ids|
        invariant |table| == |old(table)|
        invariant ExpireAll(View(), ids[i..]) == ExpireAll(start, ids)
      {
        assert ids[i..][1..] == ids[i + 1..];
        table := table[ids[i] := table[ids[i]].(expired := true)];
        RemoveEntry(ids[i]);
      }
    }

    /** The ledger is exact and every reader has a beginning of what it was promised. */
    ghost predicate Sound()
      reads this
    {
      Inv(View()) && Streaming(View())
    }

    method NarrowLease(l: nat, start: nat, end: int)
      requires l < |leases|
      modifies `leases
      ensures View() == SetRange(old(View()), l, start, end)
    {
      leases := leases[l := leases[l].(start := start, end := end)];
    }

    method HandLease(l: nat)
      requires l < |leases|
      modifies `leases
      ensures View() == Hand(old(View()), l)
    {
      leases := leases[l := leases[l].(progress := leases[l].progress.(handed := true))];
    }

    /** The read of one chunk, under the lease lock. */
    method ReadPiece(l: nat, size: nat)
      requires l < |leases| && leases[l].entry < |table|
      modifies `leases
      ensures View() == ReadChunk(old(View()), l, size)
    {
      var lease := leases[l];
      var p := lease.progress;
      var promised := RangeOf(table[lease.entry].content, lease.start, lease.end);
      if lease.closed || !p.handed || p.chunk != None || |p.yielded| >= |promised| { return; }
      var rest := promised[|p.yielded|..];
      leases := leases[l := lease.(progress := p.(chunk := Some(rest[..Least(size, Least(CHUNK, |rest|))])))];
    }

    method YieldPiece(l: nat)
      requires l < |leases|
      modifies `leases
      ensures View() == YieldChunk(old(View()), l)
    {
      var lease := leases[l];
      var p := lease.progress;
      if p.chunk == None { return; }
      var yielded := if lease.closed then p.yielded else p.yielded + p.chunk.value;
      leases := leases[l := lease.(progress := p.(chunk := None, yielded := yielded))];
    }

    // ---------- what other threads and timers do ----------

    method PerformReservation(op: Op)
      requires Inv(View()) && (op.DoReserve? || op.DoCommit? || op.DoCloseReservation?)
      modifies this
      ensures View() == Next(old(View()), op)
    {
      match op {
        case DoReserve(length, timeUp, free) => var _ := ReserveBytes(length, timeUp, free);
        case DoCommit(r, entry, timerStarts) =>
          if r < |reservations| && Fresh(entry, reservations[r].length) { var _ := CommitCopy(r, entry, timerStarts); }
        case DoCloseReservation(r) =>
          if r < |reservations| { ReturnReservation(r); }
      }
    }

    method PerformReading(op: Op)
      requires Inv(View()) && (op.DoSetRange? || op.DoHand? || op.DoRead? || op.DoYield?)
      modifies this
      ensures View() == Next(old(View()), op)
    {
      var l := op.lease;
      if l >= |leases| { return; }
      match op {
        case DoSetRange(_, start, end) =>
          if !leases[l].progress.handed && start <= end < |table[leases[l].entry].content| { NarrowLease(l, start, end); }
        case DoHand(_) => HandLease(l);
        case DoRead(_, size) => ReadPiece(l, size);
        case DoYield(_) => YieldPiece(l);
      }
    }

    method MarkClosed(l: nat)
      requires l < |leases|
      modifies `leases
      ensures View() == CloseLease(old(View()), l)
    {
      leases := leases[l := leases[l].(closed := true)];
    }

    method PerformEntry(op: Op)
      requires Inv(View()) && (op.DoAcquire? || op.DoCloseLease? || op.DoRelease? || op.DoExpire? || op.DoClose?)
      modifies this
      ensures View() == Next(old(View()), op)
    {
      match op {
        case DoAcquire(id, binding, digest, timeUp, timerStarts, later) =>
          var _ := AcquireLease(id, binding, digest, timeUp, timerStarts, later);
        case DoCloseLease(l) =>
          if l < |leases| { MarkClosed(l); }
        case DoRelease(l, timeUp) =>
          if l < |leases| { ReleaseReader(l, timeUp); }
        case DoExpire(id) => ExpireEntry(id);
        case DoClose => Shutdown();
      }
    }

    /** One operation, by whichever thread or timer. */
    method Perform(op: Op)
      requires Inv(View())
      modifies this
      ensures View() == Next(old(View()), op) && Inv(View())
    {
      ghost var before := View();
      if op.DoReserve? || op.DoCommit? || op.DoCloseReservation? {
        PerformReservation(op);
      } else if op.DoSetRange? || op.DoHand? || op.DoRead? || op.DoYield? {
        PerformReading(op);
      } else {
        PerformEntry(op);
      }
      NextKeeps(before, op);
    }

    method PerformAll(ops: seq<Op>)
      requires Inv(View())
      modifies this
      ensures View() == Run(old(View()), ops)
    {
      ghost var before := View();
      for i := 0 to |ops|
        invariant View() == Run(before, ops[..i]) && Inv(View())
      {
        Perform(ops[i]);
        RunStep(before, ops, i);
      }
      assert ops[..|ops|] == ops;
    }

    method Others(ops: seq<Op>)
      requires Sound()
      modifies this
      ensures View() == Run(old(View()), ops) && Sound() && Follows(old(View()), View())
    {
      RunStreams(View(), ops);
      RunFollows(View(), ops);
      PerformAll(ops);
    }

    /** SnapshotLease.close(), after which its reader has what it had before. */
    method Finish(l: nat, timeUp: TimeUp)
      requires Sound() && l < |leases| && leases[l].entry < |table|
      modifies this
      ensures Sound() && Follows(old(View()), View())
      ensures l < |leases| && leases[l].closed && leases[l].progress == old(leases[l].progress)
      ensures |table| == |old(table)| && forall x :: 0 <= x < |table| && old(table)[x].expired ==> table[x].expired
      ensures forall i :: 0 <= i < |order| ==> order[i] in old(order)
    {
      ReleaseFrame(View(), l, timeUp);
      ClosingKeeps(View(), l, timeUp);
      ClosingEnds(View(), l, timeUp);
      EndLease(l, timeUp);
    }

    // ---------- streaming ----------

    /** The reader of a handed lease, with nothing in its hands: it has received exactly `chunks`, and has `remaining` bytes to go. */
    ghost predicate Reading(l: nat, promised: Bytes, chunks: seq<Bytes>, remaining: int)
      reads this
    {
      && Sound() && l < |leases| && leases[l].entry < |table| && Promised(View(), l) == promised
      && leases[l].progress == Progress(true, None, Flatten(chunks)) && 0 <= remaining && |Flatten(chunks)| + remaining == |promised|
    }

    /** What others do to the lease of a reader, as long as they do not read in its place. */
    method Interrupted(l: nat, ops: seq<Op>)
      requires Sound() && l < |leases| && leases[l].entry < |table| && AllLeaveLease(ops, l)
      modifies this
      ensures Sound() && Follows(old(View()), View()) && l < |leases| && leases[l].entry < |table|
      ensures SameReading(old(leases[l]), leases[l]) && Promised(View(), l) == Promised(old(View()), l)
      ensures AllLeaveOpen(ops, l) ==> leases[l].closed == old(leases[l].closed)
    {
      if AllLeaveOpen(ops, l) { RunLeavesOpen(View(), ops, l); }
      RunLeavesLease(View(), ops, l);
      Others(ops);
    }

    /** The same reader with a chunk in its hands, which is the next piece of what it was promised. */
    ghost predicate Holding(l: nat, promised: Bytes, chunks: seq<Bytes>, remaining: int, chunk: Bytes)
      reads this
    {
      && Sound() && l < |leases| && leases[l].entry < |table| && Promised(View(), l) == promised
      && leases[l].progress == Progress(true, Some(chunk), Flatten(chunks)) && |Flatten(chunks)| + remaining == |promised|
      && |chunk| <= CHUNK && |chunk| <= remaining
    }

    static lemma NextPiece(c: Cache, l: nat, size: nat)
      requires l < |c.leases| && c.leases[l].entry < |c.table| && CanRead(c, l)
      ensures var c' := ReadChunk(c, l, size);
              && c'.table == c.table && |c'.leases| == |c.leases| && c'.leases[l] == c.leases[l].(progress := c'.leases[l].progress)
              && c'.leases[l].progress.handed && c'.leases[l].progress.yielded == c.leases[l].progress.yielded
              && c'.leases[l].progress.chunk.Some? && |c'.leases[l].progress.chunk.value| <= CHUNK
              && |c'.leases[l].progress.chunk.value| + |c.leases[l].progress.yielded| <= |Promised(c, l)|
              && (size > 0 ==> c'.leases[l].progress.chunk.value != [])
    {
    }

    /** pread under the lease lock. */
    method ReadStep(l: nat, size: nat)
      requires Sound() && l < |leases| && leases[l].entry < |table|
      modifies this
      ensures View() == ReadChunk(old(View()), l, size) && Sound() && Follows(old(View()), View())
    {
      ghost var before := View();
      ReadChunkKeeps(before, l, size);
      ReadStreams(before, l, size);
      ReadMoves(before, l, size);
      ReadPiece(l, size);
    }

    method YieldStep(l: nat)
      requires Sound() && l < |leases| && leases[l].entry < |table|
      modifies this
      ensures View() == YieldChunk(old(View()), l) && Sound() && Follows(old(View()), View())
    {
      ghost var before := View();
      YieldChunkKeeps(before, l);
      YieldStreams(before, l);
      YieldMoves(before, l);
      YieldPiece(l);
    }

    /** First half of a turn of the reader's loop: the test and the read. */
    method ReadAfter(l: nat, before: seq<Op>, cancelled: bool, size: nat, ghost promised: Bytes,
                     ghost chunks: seq<Bytes>, ghost remaining: int)
      returns (chunk: Option<Bytes>)
      requires Reading(l, promised, chunks, remaining) && remaining > 0 && AllLeaveLease(before, l)
      modifies this
      ensures Sound() && Follows(old(View()), View())
      ensures l < |leases| && leases[l].entry < |table| && leases[l].progress.yielded == Flatten(chunks)
      ensures old(leases[l].closed) ==> leases[l].closed && chunk.None?
      ensures chunk.Some? ==> Holding(l, promised, chunks, remaining, chunk.value)
      ensures AllLeaveOpen(before, l) && !cancelled && size > 0 && old(!leases[l].closed) ==>
                chunk.Some? && chunk.value != [] && !leases[l].closed
    {
      chunk := None;
      ghost var start := View();
      Interrupted(l, before);
      if leases[l].closed || cancelled { return; }
      ghost var mid := View();
      NextPiece(mid, l, size);
      ReadStep(l, size);
      FollowsOn(start, mid, View());
      chunk := leases[l].progress.chunk;
    }

    /** Second half: the test after the read, and the yield. */
    method YieldAfter(l: nat, between: seq<Op>, cancelled: bool, chunk: Bytes, ghost promised: Bytes,
                      ghost chunks: seq<Bytes>, ghost remaining: int)
      returns (data: Option<Bytes>)
      requires Holding(l, promised, chunks, remaining, chunk) && AllLeaveLease(between, l)
      modifies this
      ensures Sound() && Follows(old(View()), View()) && l < |leases| && leases[l].entry < |table|
      ensures leases[l].progress.yielded == Flatten(chunks) + (if data.Some? then data.value else [])
      ensures data.Some? ==> data.value == chunk != [] && Reading(l, promised, chunks + [chunk], remaining - |chunk|)
      ensures AllLeaveOpen(between, l) && !cancelled && chunk != [] && old(!leases[l].closed) ==> data.Some? && !leases[l].closed
    {
      data := None;
      ghost var start := View();
      Interrupted(l, between);
      if leases[l].closed || cancelled { return; }
      ghost var mid := View();
      YieldStep(l);
      FollowsOn(start, mid, View());
      if chunk != [] {
        data := Some(chunk);
        FlattenSnoc(chunks, chunk);
      }
    }

    /** One turn of the reader's loop; None ends it. */
    method ReadOn(l: nat, before: seq<Op>, between: seq<Op>, cancelled: bool, later: bool, size: nat, ghost promised: Bytes,
                  ghost chunks: seq<Bytes>, ghost remaining: int)
      returns (data: Option<Bytes>)
      requires Reading(l, promised, chunks, remaining) && remaining > 0 && AllLeaveLease(before, l) && AllLeaveLease(between, l)
      modifies this
      ensures Sound() && Follows(old(View()), View()) && l < |leases| && leases[l].entry < |table|
      ensures leases[l].progress.yielded == Flatten(chunks) + (if data.Some? then data.value else [])
      ensures old(leases[l].closed) ==> data.None?
      ensures data.Some? ==> 0 < |data.value| <= remaining && Reading(l, promised, chunks + [data.value], remaining - |data.value|)
      ensures AllLeaveOpen(before, l) && AllLeaveOpen(between, l) && !cancelled && !later && size > 0 && old(!leases[l].closed) ==>
                data.Some? && !leases[l].closed
    {
      data := None;
      ghost var start := View();
      var chunk := ReadAfter(l, before, cancelled, size, promised, chunks, remaining);
      if chunk.None? { return; }
      ghost var mid := View();
      data := YieldAfter(l, between, later, chunk.value, promised, chunks, remaining);
      FollowsOn(start, mid, View());
    }

    /** Nothing cancels the reader, nobody closes its lease, and every read returns something. */
    static ghost predicate Unhindered(l: nat, others: nat -> seq<Op>, cancelled: nat -> bool, sizes: nat -> nat) {
      forall i: nat :: AllLeaveOpen(others(i), l) && !cancelled(i) && sizes(i) > 0
    }

    /** SnapshotLease.chunks. Between its steps other threads and timers do whatever they like: `others(2 * i)` before the
        i-th read and `others(2 * i + 1)` after it, while `cancelled` answers the tests around it and `sizes(i)` says how many
        bytes the i-th read returns at most. Whatever ends the loop, the lease is closed. */
    method Chunks(l: nat, others: nat -> seq<Op>, cancelled: nat -> bool, sizes: nat -> nat, timeUp: TimeUp)
      returns (chunks: seq<Bytes>, complete: bool)
      requires Sound() && l < |leases| && leases[l].entry < |table|
      requires leases[l].progress == Progress(true, None, []) && forall i: nat :: AllLeaveLease(others(i), l)
      modifies this
      ensures Sound() && Follows(old(View()), View())
      ensures l < |leases| && leases[l].closed && Flatten(chunks) == leases[l].progress.yielded
      ensures Flatten(chunks) <= Promised(old(View()), l) && (complete ==> Flatten(chunks) == Promised(old(View()), l))
      ensures old(leases[l].closed) ==> chunks == []
      ensures Unhindered(l, others, cancelled, sizes) && old(!leases[l].closed) ==> complete
    {
      ghost var start, promised := View(), Promised(View(), l);
      var remaining := |RangeOf(table[leases[l].entry].content, leases[l].start, leases[l].end)|;
      chunks, complete := [], true;
      var i: nat := 0;
      while remaining > 0
        invariant Reading(l, promised, chunks, remaining) && Follows(start, View()) && complete
        invariant old(leases[l].closed) ==> leases[l].closed && chunks == []
        invariant Unhindered(l, others, cancelled, sizes) && old(!leases[l].closed) ==> !leases[l].closed
        decreases remaining
      {
        ghost var mid := View();
        PromisedPrefix(l, promised, chunks, remaining);
        var data := ReadOn(l, others(2 * i), others(2 * i + 1), cancelled(2 * i), cancelled(2 * i + 1), sizes(i), promised, chunks, remaining);
        FollowsOn(start, mid, View());
        if data.None? {
          complete := false;
          break;
        }
        chunks, remaining, i := chunks + [data.value], remaining - |data.value|, i + 1;
      }
      if complete { PromisedPrefix(l, promised, chunks, remaining); }
      ghost var end := View();
      Finish(l, timeUp);
      FollowsOn(start, end, View());
    }

    lemma PromisedPrefix(l: nat, promised: Bytes, chunks: seq<Bytes>, remaining: int)
      requires Reading(l, promised, chunks, remaining)
      ensures Flatten(chunks) <= promised && (remaining == 0 ==> Flatten(chunks) == promised)
    {
      assert LeaseSound(View(), l);
    }

    // ---------- the gateway's content and manifest operations ----------

    /** The reply's lease stands for the range that was asked for, and the reply announces its length. */
    ghost predicate Measured(reply: Reply, id: nat, range: Option<(nat, nat)>)
      reads this
    {
      var l := reply.lease;
      && l < |leases| && leases[l].entry == id && id < |table| && |Promised(View(), l)| == reply.contentLength
      && (range.Some? ==> range.value.0 <= range.value.1 < |table[id].content| && reply.status == 206
                          && Promised(View(), l) == table[id].content[range.value.0..range.value.1 + 1])
      && (range.None? ==> reply.status == 200 && Promised(View(), l) == table[id].content)
    }

    /** The reply owns its lease as well; nothing of it has been read. */
    ghost predicate Handed(reply: Reply, id: nat, range: Option<(nat, nat)>)
      reads this
    {
      Measured(reply, id, range) && leases[reply.lease].progress == Progress(true, None, [])
    }

    /** Gateway.execute for `content`: `others` is what happens between the acquisition and the end of the source check,
        `sourceMatches` the outcome of that check and `inTime` that of the deadline test. The lease goes to the reply or back. */
    method ServeContent(id: nat, binding: string, digest: string, range: Option<(nat, nat)>, timeUp: TimeUp, timerStarts: bool,
                        later: TimeUp, others: seq<Op>, sourceMatches: bool, inTime: bool)
      returns (reply: Option<Reply>, ghost lease: Option<nat>)
      requires Sound() && AllLeaveLease(others, |leases|)
      requires range.Some? ==> range.value.0 <= range.value.1
      modifies this
      ensures Sound() && Follows(old(View()), View())
      ensures lease.None? ==> reply.None? && leases == old(leases)
      ensures lease.Some? ==> lease.value == |old(leases)| < |leases|
      ensures lease.Some? && reply.None? ==> leases[lease.value].closed
      ensures reply.Some? ==> lease == Some(reply.value.lease) && Handed(reply.value, id, range)
      ensures reply.Some? ==> id < |old(table)| && old(table[id].digest) == digest && old(table[id].binding) == binding
      ensures lease.Some? <==> old(Acquirable(View(), id, binding, digest, timeUp, timerStarts))
      ensures reply.Some? <==> lease.Some? && sourceMatches && inTime && (range.None? || range.value.1 < |old(table)[id].content|)
      ensures lease.Some? && !sourceMatches ==> Retired(id)
    {
      reply, lease := None, None;
      ghost var start := View();
      var acquired := AcquireStep(id, binding, digest, timeUp, timerStarts, later);
      if acquired.Denied? { return; }
      lease := Some(acquired.value);
      ghost var mid := View();
      Interrupted(acquired.value, others);
      FollowsOn(start, mid, View());
      ghost var middle := View();
      reply := AnswerWith(acquired.value, id, range, timeUp, sourceMatches, inTime);
      FollowsOn(start, middle, View());
    }

    method AcquireStep(id: nat, binding: string, digest: string, timeUp: TimeUp, timerStarts: bool, later: TimeUp) returns (r: Result<nat>)
      requires Sound()
      modifies this
      ensures Sound() && Follows(old(View()), View()) && (r.Denied? ==> leases == old(leases))
      ensures r.Ok? ==> r.value == |old(leases)| && Fetched(r.value, id) && id < |old(table)|
      ensures r.Ok? ==> old(table[id].digest) == digest && old(table[id].binding) == binding
      ensures r.Ok? <==> old(Acquirable(View(), id, binding, digest, timeUp, timerStarts))
    {
      ghost var before := View();
      AcquireOpens(before, id, binding, digest, timeUp, timerStarts, later);
      AcquireKeeps(before, id, binding, digest, timeUp, timerStarts, later);
      AcquireStreams(before, id, binding, digest, timeUp, timerStarts, later);
      AcquireFollows(before, id, binding, digest, timeUp, timerStarts, later);
      r := AcquireLease(id, binding, digest, timeUp, timerStarts, later);
    }

    /** A lease on the whole of an entry that no reply owns yet. */
    ghost predicate Fetched(l: nat, id: nat)
      reads this
    {
      && l < |leases| && leases[l].entry == id && id < |table|
      && leases[l].start == 0 && leases[l].end == |table[id].content| - 1 && leases[l].progress == UNREAD
    }

    /** The entry is no longer resident, or has expired and is kept for those who still read it. */
    ghost predicate Retired(id: nat)
      reads this
    {
      id in order ==> id < |table| && table[id].expired && table[id].readers > 0
    }

    /** The lease goes back, after the entry has been retired if its source no longer matches. */
    method TurnBack(l: nat, id: nat, timeUp: TimeUp, sourceMatches: bool)
      requires Sound() && l < |leases| && leases[l].entry < |table|
      modifies this
      ensures Sound() && Follows(old(View()), View()) && l < |leases| && leases[l].closed
      ensures !sourceMatches ==> Retired(id)
    {
      ghost var start := View();
      if !sourceMatches { RetireEntry(id); }
      ghost var mid := View();
      Finish(l, timeUp);
      FollowsOn(start, mid, View());
    }

    /** The rest of the operation, with the lease in hand. */
    method AnswerWith(l: nat, id: nat, range: Option<(nat, nat)>, timeUp: TimeUp, sourceMatches: bool, inTime: bool)
      returns (reply: Option<Reply>)
      requires Sound() && Fetched(l, id)
      requires range.Some? ==> range.value.0 <= range.value.1
      modifies this
      ensures Sound() && Follows(old(View()), View())
      ensures reply.None? ==> l < |leases| && leases[l].closed
      ensures reply.Some? <==> sourceMatches && inTime && (range.None? || range.value.1 < |old(table[id].content)|)
      ensures !sourceMatches ==> Retired(id)
      ensures reply.Some? ==> reply.value.lease == l && Handed(reply.value, id, range)
    {
      reply := None;
      if sourceMatches && inTime && (range.None? || range.value.1 < |table[id].content|) {
        ghost var start := View();
        var answer := Measure(l, id, range);
        ghost var mid := View();
        HandOver(answer, id, range);
        FollowsOn(start, mid, View());
        reply := Some(answer);
      } else {
        TurnBack(l, id, timeUp, sourceMatches);
      }
    }

    method NarrowStep(l: nat, id: nat, start: nat, end: int)
      requires Sound() && Fetched(l, id) && start <= end < |table[id].content|
      modifies this
      ensures View() == SetRange(old(View()), l, start, end) && Sound() && Follows(old(View()), View())
    {
      ghost var before := View();
      SetRangeKeeps(before, l, start, end);
      NarrowStreams(before, l, start, end);
      NarrowMoves(before, l, start, end);
      NarrowLease(l, start, end);
    }

    /** Without a range the fresh lease already covers the whole copy. */
    method Measure(l: nat, id: nat, range: Option<(nat, nat)>) returns (reply: Reply)
      requires Sound() && Fetched(l, id)
      requires range.Some? ==> range.value.0 <= range.value.1 < |table[id].content|
      modifies this
      ensures Sound() && Follows(old(View()), View())
      ensures reply.lease == l && Measured(reply, id, range) && leases[l].progress == UNREAD
    {
      reply := Reply(200, |table[id].content|, l);
      if range.Some? {
        NarrowStep(l, id, range.value.0, range.value.1);
        reply := Reply(206, range.value.1 - range.value.0 + 1, l);
      }
    }

    method HandOver(reply: Reply, id: nat, range: Option<(nat, nat)>)
      requires Sound() && Measured(reply, id, range) && leases[reply.lease].progress == UNREAD
      modifies this
      ensures Sound() && Follows(old(View()), View()) && Handed(reply, id, range)
    {
      ghost var before := View();
      HandKeeps(before, reply.lease);
      MarkStreams(before, reply.lease);
      MarkMoves(before, reply.lease);
      HandLease(reply.lease);
    }

    /** Gateway.prepare_snapshot and the deadline test after it: copies `source`, whose size was `length` when it was opened,
        reading at most `sizes(i)` bytes at a time while `others(i)` happens. Whatever becomes of it, its reservation is closed. */
    method PrepareSnapshot(length: nat, maxFileBytes: nat, source: Bytes, digest: string, binding: string, identity: string,
                           timeUp: TimeUp, free: nat -> int, others: nat -> seq<Op>, inTime: nat -> bool, sizes: nat -> nat,
                           unchangedSource: bool, timerStarts: bool, delivered: bool)
      returns (r: Result<nat>, ghost made: Option<nat>)
      requires Sound() && forall i: nat :: AllLeaveReservation(others(i), |reservations|)
      modifies this
      ensures Sound()
      ensures |old(reservations)| < |reservations| ==> reservations[|old(reservations)|].finished
      ensures length > maxFileBytes ==> r == Denied(FileTooLarge) && View() == old(View())
      ensures r.Ok? ==> r.value in order && r.value < |table| && table[r.value] == Entry(source, digest, binding, identity, 0, false, 0)
      ensures Follows(old(View()), View())
      ensures r.Ok? <==> made.Some? && delivered
      ensures r.Ok? ==> made == Some(r.value)
      ensures made.Some? ==> length <= maxFileBytes && Reserve(old(View()), length, timeUp, free).1.Ok?
                             && |source| == length && unchangedSource && timerStarts && !closed
      ensures (&& length <= maxFileBytes && Reserve(old(View()), length, timeUp, free).1.Ok? && |source| == length
               && unchangedSource && timerStarts && !closed && forall i: nat :: inTime(i) && sizes(i) > 0)
              ==> made.Some?
      ensures made.Some? && !delivered ==> made.value !in order && made.value < |table| && table[made.value].content == source
                                           && table[made.value].closes == 1
    {
      made := None;
      if length > maxFileBytes { return Denied(FileTooLarge), None; }
      ghost var start := View();
      r := OpenReservation(length, timeUp, free);
      if r.Denied? { return; }
      ghost var reserving := View();
      r := Fill(r.value, length, source, digest, binding, identity, others, inTime, sizes, unchangedSource, timerStarts);
      if r.Ok? { made := Some(r.value); }
      FollowsOn(start, reserving, View());
      if r.Ok? && !delivered {
        ghost var filled := View();
        RetireEntry(r.value);
        FollowsOn(start, filled, View());
        r := Denied(Cancelled);
      }
    }

    /** The body of the `with` block and its exit. */
    method Fill(reservation: nat, length: nat, source: Bytes, digest: string, binding: string, identity: string,
                others: nat -> seq<Op>, inTime: nat -> bool, sizes: nat -> nat, unchangedSource: bool, timerStarts: bool)
      returns (r: Result<nat>)
      requires Sound() && reservation < |reservations| && reservations[reservation] == Reservation(length, false)
      requires forall i: nat :: AllLeaveReservation(others(i), reservation)
      modifies this
      ensures Sound() && Follows(old(View()), View())
      ensures reservation < |reservations| && reservations[reservation].finished
      ensures r.Ok? ==> r.value in order && r.value < |table| && table[r.value] == Entry(source, digest, binding, identity, 0, false, 0)
      ensures r.Ok? ==> |source| == length && unchangedSource && timerStarts && !closed
      ensures |source| == length && unchangedSource && timerStarts && !closed && (forall i: nat :: inTime(i) && sizes(i) > 0) ==> r.Ok?
    {
      ghost var start := View();
      var copy, whole := CopySource(reservation, length, source, others, inTime, sizes);
      ghost var copied := View();
      r := Denied(SnapshotUnavailable);
      if whole && unchangedSource {
        r := CommitFresh(reservation, Entry(copy, digest, binding, identity, 0, false, 0), timerStarts);
        FollowsOn(start, copied, View());
      }
      ghost var ready := View();
      LeaveReservation(reservation);
      FollowsOn(start, ready, View());
    }

    method OpenReservation(length: nat, timeUp: TimeUp, free: nat -> int) returns (r: Result<nat>)
      requires Sound()
      modifies this
      ensures Sound() && Follows(old(View()), View())
      ensures r.Denied? ==> reservations == old(reservations)
      ensures r.Ok? ==> r.value == |old(reservations)| && reservations == old(reservations) + [Reservation(length, false)]
      ensures r.Ok? <==> Reserve(old(View()), length, timeUp, free).1.Ok?
    {
      ghost var before := View();
      ReserveAdds(before, length, timeUp, free);
      NextStreams(before, DoReserve(length, timeUp, free));
      NextFollows(before, DoReserve(length, timeUp, free));
      NextKeeps(before, DoReserve(length, timeUp, free));
      r := ReserveBytes(length, timeUp, free);
    }

    /** Reservation.__exit__: a no-op once the copy is committed. */
    method LeaveReservation(r: nat)
      requires Sound() && r < |reservations|
      modifies this
      ensures Sound() && Follows(old(View()), View())
      ensures leases == old(leases) && order == old(order) && table == old(table) && closed == old(closed)
      ensures reservations == old(reservations)[r := Reservation(old(reservations)[r].length, true)]
    {
      ghost var before := View();
      NextKeeps(before, DoCloseReservation(r));
      NextStreams(before, DoCloseReservation(r));
      NextFollows(before, DoCloseReservation(r));
      ReturnReservation(r);
    }

    method RetireEntry(id: nat)
      requires Sound()
      modifies this
      ensures Sound() && Follows(old(View()), View()) && reservations == old(reservations)
      ensures Retired(id) && (id < |old(table)| && old(table[id].readers) == 0 ==> id !in order) && closed == old(closed)
      ensures if id in old(order) then HasExpired(old(View()), View(), id) else View() == old(View())
    {
      RetiringKeeps(View(), id);
      ExpireEntry(id);
    }

    /** What is still to be copied of a source goes on with `size` more bytes. */
    static lemma CopiedOn(source: Bytes, copy: Bytes, size: nat)
      requires copy <= source && |copy| + size <= |source|
      ensures copy + source[|copy|..|copy| + size] <= source
    {
      assert source[..|copy|] + source[|copy|..|copy| + size] == source[..|copy| + size];
    }

    /** The reservation is still open, and everything since `start` has left copies and leases sound. */
    ghost predicate Copying(r: nat, length: nat, start: Cache)
      reads this
    {
      Sound() && Follows(start, View()) && r < |reservations| && reservations[r] == Reservation(length, false)
    }

    /** The copy loop and the probe for a byte too many; `whole` says that neither found a change. */
    method CopySource(r: nat, length: nat, source: Bytes, others: nat -> seq<Op>, inTime: nat -> bool, sizes: nat -> nat)
      returns (copy: Bytes, whole: bool)
      requires Sound() && r < |reservations| && reservations[r] == Reservation(length, false)
      requires forall i: nat :: AllLeaveReservation(others(i), r)
      modifies this
      ensures Copying(r, length, old(View()))
      ensures whole ==> copy == source && |source| == length
      ensures copy <= source && |copy| <= length
      ensures |source| == length && (forall i: nat :: inTime(i) && sizes(i) > 0) ==> whole
    {
      copy := [];
      var i: nat := 0;
      ghost var start := View();
      while |copy| < length
        invariant |copy| <= length && copy <= source && Copying(r, length, start)
        decreases length - |copy|
      {
        OthersMeanwhile(r, length, others(i), start);
        var size := Min(sizes(i), Min(Min(CHUNK, length - |copy|), |source| - |copy|));
        if !inTime(i) || size == 0 { return copy, false; }
        CopiedOn(source, copy, size);
        copy, i := copy + source[|copy|..|copy| + size], i + 1;
      }
      OthersMeanwhile(r, length, others(i), start);
      whole := |source| == length && inTime(i);
    }

    method OthersMeanwhile(r: nat, length: nat, ops: seq<Op>, ghost start: Cache)
      requires Copying(r, length, start) && AllLeaveReservation(ops, r)
      modifies this
      ensures Copying(r, length, start)
    {
      ghost var before := View();
      RunLeavesReservation(before, ops, r);
      Others(ops);
      FollowsOn(start, before, View());
    }

    method CommitFresh(reservation: nat, entry: Entry, timerStarts: bool) returns (r: Result<nat>)
      requires Sound() && reservation < |reservations| && Fresh(entry, reservations[reservation].length)
      modifies this
      ensures Sound() && Follows(old(View()), View()) && |reservations| == |old(reservations)|
      ensures r.Ok? ==> r.value in order && r.value < |table| && table[r.value] == entry
      ensures closed == old(closed) && (r.Ok? <==> old(!reservations[reservation].finished) && !closed && timerStarts)
    {
      ghost var before := View();
      NextKeeps(before, DoCommit(reservation, entry, timerStarts));
      NextStreams(before, DoCommit(reservation, entry, timerStarts));
      NextFollows(before, DoCommit(reservation, entry, timerStarts));
      r := CommitCopy(reservation, entry, timerStarts);
    }
  }

  lemma AcquireOpens(c: Cache, id: nat, binding: string, digest: string, timeUp: TimeUp, timerStarts: bool, later: TimeUp)
    requires Inv(c)
    ensures var (c', r) := Acquire(c, id, binding, digest, timeUp, timerStarts, later);
            && (r.Denied? ==> c'.leases == c.leases)
            && (r.Ok? ==>
                  && r.value == |c.leases| && |c'.leases| == |c.leases| + 1 && id < |c.table| && id < |c'.table|
                  && c'.leases[r.value] == Lease(id, 0, c'.table[id].Length() - 1, false, false, UNREAD)
                  && c.table[id].binding == binding && c.table[id].digest == digest)
  {
    if id in c.order { AcquireCases(c, id, binding, digest, timeUp, timerStarts, later); }
  }
}
