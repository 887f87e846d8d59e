/**
 * What single calls of the snapshot cache leave resident: an entry that
 * expires, one whose last reader goes, and all of them when the cache closes.
 */
module SnapshotEffects {
  import opened SnapshotLedger
  import opened SnapshotInvariant
  import opened SnapshotTheorems
  import opened Wrappers

  /** Entry `id`, by then `e`, has left: its stream was closed once more, its bytes were given back, and nothing else changed. */
  ghost predicate HasLeft(c: Cache, c': Cache, id: nat, e: Entry) {
    && id < |c.table| && (forall x :: x in c'.order <==> x in c.order && x != id)
    && c' == c.(order := c'.order, table := c.table[id := e.(closes := e.closes + 1)], reserved := c.reserved - e.Length())
  }

  lemma RemoveIs(c: Cache, id: nat)
    requires id < |c.table| && c.table[id].readers == 0
    ensures HasLeft(c, Remove(c, id), id, c.table[id])
  {
    WithoutShrinks(c.order, id);
  }

  /** An entry without readers leaves when it expires; one with readers is flagged. */
  ghost predicate HasExpired(c: Cache, c': Cache, id: nat) {
    id < |c.table| &&
    var e := c.table[id].(expired := true);
    if e.readers == 0 then HasLeft(c, c', id, e) else c' == c.(table := c.table[id := e])
  }

  lemma ExpireIs(c: Cache, id: nat)
    requires Known(c)
    ensures if id in c.order then HasExpired(c, Expire(c, id), id) else Expire(c, id) == c
  {
    if id in c.order {
      var e := c.table[id].(expired := true);
      var marked := Touch(c, id, e);
      if e.readers == 0 {
        RemoveIs(marked, id);
        assert marked.table[id := e.(closes := e.closes + 1)] == c.table[id := e.(closes := e.closes + 1)];
      }
    }
  }

  /** The reader of lease `l` is gone, and with the last one an entry that was only kept for its readers. */
  ghost predicate HasReleased(c: Cache, c': Cache, l: nat, timeUp: TimeUp) {
    l < |c.leases| && c.leases[l].entry < |c.table| &&
    var id := c.leases[l].entry;
    var e := c.table[id].(readers := c.table[id].readers - 1);
    var taken := c.(readers := c.readers - 1, leases := c.leases[l := c.leases[l].(released := true)]);
    if e.readers == 0 && (c.closed || e.expired || timeUp(id)) then HasLeft(taken, c', id, e)
    else c' == taken.(table := c.table[id := e])
  }

  lemma ReleaseIs(c: Cache, l: nat, timeUp: TimeUp)
    requires l < |c.leases| && c.leases[l].entry < |c.table|
    ensures if c.leases[l].closed && !c.leases[l].released then HasReleased(c, Release(c, l, timeUp), l, timeUp)
            else Release(c, l, timeUp) == c
  {
    if c.leases[l].closed && !c.leases[l].released {
      var id := c.leases[l].entry;
      var e := c.table[id].(readers := c.table[id].readers - 1);
      var taken := c.(readers := c.readers - 1, leases := c.leases[l := c.leases[l].(released := true)]);
      var mid := Touch(taken, id, e);
      if e.readers == 0 && (c.closed || e.expired || timeUp(id)) {
        RemoveIs(mid, id);
        assert mid.table[id := e.(closes := e.closes + 1)] == c.table[id := e.(closes := e.closes + 1)];
      }
    }
  }

  /** In a sound cache an entry that has expired is gone, or there is somebody who still reads it. */
  lemma ExpiredIsGoneOrRead(c: Cache, id: nat)
    requires Inv(c) && id < |c.table| && c.table[id].expired
    ensures id in c.order ==> c.table[id].readers > 0
  {
  }

  // ---------- the end ----------

  /** What has become of entry `x`: without readers it has left, otherwise it is flagged. */
  predicate HasEnded(c: Cache, c': Cache, x: nat)
    requires x < |c.table|
  {
    var e := c.table[x].(expired := true);
    && x < |c'.table| && (x in c'.order <==> e.readers != 0)
    && c'.table[x] == if e.readers == 0 then e.(closes := e.closes + 1) else e
  }

  ghost predicate AllEnded(c: Cache, c': Cache, ids: seq<nat>) {
    && (forall i :: 0 <= i < |ids| ==> ids[i] < |c.table| && HasEnded(c, c', ids[i]))
    && (forall x: nat :: x !in ids ==> (x in c'.order <==> x in c.order))
    && |c'.table| == |c.table| && (forall x :: 0 <= x < |c.table| && x !in ids ==> c'.table[x] == c.table[x])
  }

  lemma FirstEnds(c: Cache, id: nat)
    requires Known(c) && id in c.order
    ensures var c' := MarkFirst(c, id);
            HasEnded(c, c', id) && Known(c') && AllEnded(c, c', [id])
  {
    ExpireIs(c, id);
    WithoutWithin(c.order, id, |c.table|);
  }

  lemma {:induction false} ExpireAllIs(c: Cache, ids: seq<nat>)
    requires Known(c) && Distinct(ids) && forall i :: 0 <= i < |ids| ==> ids[i] in c.order
    requires Within(ids, |c.table|)
    ensures AllEnded(c, ExpireAll(c, ids), ids)
    decreases |ids|
  {
    if ids != [] {
      var id, rest := ids[0], ids[1..];
      var mid := MarkFirst(c, id);
      FirstEnds(c, id);
      forall i | 0 <= i < |rest| ensures rest[i] in mid.order && rest[i] != id { assert rest[i] == ids[i + 1]; }
      ExpireAllIs(mid, rest);
      EndedOn(c, mid, ExpireAll(c, ids), ids);
    }
  }

  lemma EndedOn(c: Cache, mid: Cache, c': Cache, ids: seq<nat>)
    requires ids != [] && Distinct(ids) && AllEnded(c, mid, [ids[0]]) && AllEnded(mid, c', ids[1..])
    ensures AllEnded(c, c', ids)
  {
    var id, rest := ids[0], ids[1..];
    assert ids == [id] + rest;
    assert id !in rest;
    assert [id][0] == id;
    forall i | 0 <= i < |ids| ensures ids[i] < |c.table| && HasEnded(c, c', ids[i]) {
      if i > 0 {
        assert rest[i - 1] == ids[i] != id;
        assert HasEnded(mid, c', rest[i - 1]);
        assert ids[i] !in [id];
      }
    }
  }

  /** Closing the cache: what nobody reads leaves at once and its stream is closed, the rest is flagged and leaves with its
      last reader; leases and reservations are as before. */
  lemma CloseIs(c: Cache)
    requires Inv(c)
    ensures Close(c).closed && AllEnded(c, Close(c), c.order)
    ensures Close(c).leases == c.leases && Close(c).reservations == c.reservations
  {
    var marked := c.(closed := true);
    ExpireAllIs(marked, c.order);
    ExpireAllQuiet(marked, c.order);
    CloseKeeps(c);
    forall i | 0 <= i < |c.order| ensures HasEnded(c, Close(c), c.order[i]) { assert HasEnded(marked, Close(c), c.order[i]); }
  }

  /** A reader that goes brings no entry back and takes no flag away. */
  lemma ReleaseFrame(c: Cache, l: nat, timeUp: TimeUp)
    requires l < |c.leases| && c.leases[l].entry < |c.table|
    ensures var c' := Release(CloseLease(c, l), l, timeUp);
            && |c'.table| == |c.table| && (forall x :: 0 <= x < |c.table| && c.table[x].expired ==> c'.table[x].expired)
            && forall i :: 0 <= i < |c'.order| ==> c'.order[i] in c.order
  {
    var mid := CloseLease(c, l);
    ReleaseIs(mid, l, timeUp);
    var c' := Release(mid, l, timeUp);
    forall i | 0 <= i < |c'.order| ensures c'.order[i] in c.order { assert c'.order[i] in c'.order; }
  }

  // ---------- acquisition ----------

  /** What lets an acquisition through. */
  predicate Acquirable(c: Cache, id: nat, binding: string, digest: string, timeUp: TimeUp, timerStarts: bool) {
    && id in c.order && id < |c.table| && !c.closed && !c.table[id].expired && !timeUp(id)
    && c.table[id].binding == binding && c.table[id].digest == digest && c.readers < c.limits.maxReaders && timerStarts
  }

  /** Every test that an acquisition has to pass, in the order of the refusals. */
  predicate AcquireOutcome(c: Cache, c': Cache, r: Result<nat>, id: nat, binding: string, digest: string,
                           timeUp: TimeUp, timerStarts: bool) {
    if id !in c.order || id >= |c.table| || c.closed || c.table[id].expired || timeUp(id) then
      r == Denied(SnapshotUnavailable) && (id in c'.order ==> id < |c.table| && c.table[id].readers != 0)
    else if c.table[id].binding != binding then r == Denied(SnapshotUnavailable) && c' == c
    else if c.table[id].digest != digest then r == Denied(ContentVersionChanged) && c' == c
    else if c.readers >= c.limits.maxReaders then r == Denied(GatewayBusy) && c' == c
    else if !timerStarts then r == Denied(TimerFailed)
    else
      && r == Ok(|c.leases|) && c'.leases == c.leases + [Lease(id, 0, c.table[id].Length() - 1, false, false, UNREAD)]
      && c'.order == Without(c.order, id) + [id] && c'.readers == c.readers + 1
  }

  lemma AcquireIs(c: Cache, id: nat, binding: string, digest: string, timeUp: TimeUp, timerStarts: bool, later: TimeUp)
    requires Known(c)
    ensures var (c', r) := Acquire(c, id, binding, digest, timeUp, timerStarts, later);
            AcquireOutcome(c, c', r, id, binding, digest, timeUp, timerStarts)
  {
    if id in c.order && c.table[id].readers == 0 { RemoveIs(c, id); }
  }

  // ---------- leases left open ----------

  /** The operation does not close lease `l`. */
  predicate LeavesOpen(op: Op, l: nat) {
    op.DoCloseLease? ==> op.lease != l
  }

  predicate AllLeaveOpen(ops: seq<Op>, l: nat) {
    forall i :: 0 <= i < |ops| ==> LeavesOpen(ops[i], l)
  }

  lemma OwnedLeaseOpen(c: Cache, op: Op, l: nat)
    requires Sane(c) && l < |c.leases| && LeavesOpen(op, l)
    requires op.DoCloseLease? || op.DoSetRange? || op.DoHand? || op.DoRead? || op.DoYield? || op.DoRelease?
    ensures l < |Next(c, op).leases| && Next(c, op).leases[l].closed == c.leases[l].closed
  {
  }

  lemma NextLeavesOpen(c: Cache, op: Op, l: nat)
    requires Inv(c) && l < |c.leases| && LeavesOpen(op, l)
    ensures l < |Next(c, op).leases| && Next(c, op).leases[l].closed == c.leases[l].closed
  {
    match op
    case DoReserve(_, _, _) => ReserveAcquireReading(c, op, l);
    case DoAcquire(_, _, _, _, _, _) => ReserveAcquireReading(c, op, l);
    case DoClose => ExpireAllQuiet(c.(closed := true), c.order);
    case DoCommit(_, _, _) =>
    case DoCloseReservation(_) =>
    case DoExpire(_) =>
    case _ => OwnedLeaseOpen(c, op, l);
  }

  /** A lease is closed by nobody but its own timer and its reader. */
  lemma {:induction false} RunLeavesOpen(c: Cache, ops: seq<Op>, l: nat)
    requires Inv(c) && l < |c.leases| && AllLeaveOpen(ops, l)
    ensures Inv(Run(c, ops)) && l < |Run(c, ops).leases| && Run(c, ops).leases[l].closed == c.leases[l].closed
    decreases |ops|
  {
    if |ops| > 0 {
      var init := ops[..|ops| - 1];
      RunLeavesOpen(c, init, l);
      NextKeeps(Run(c, init), ops[|ops| - 1]);
      NextLeavesOpen(Run(c, init), ops[|ops| - 1], l);
    }
  }
}
