/**
 * What every step of the projection protocol keeps: the facts that tie each
 * attempt in flight to the tables, and the facts that tie the tables together.
 */
module ProjectionInvariant {
  import opened ProjectionTables
  import opened ProjectionProtocol
  import opened Wrappers

  // ---------- facts about the tables ----------

  /** `k` has a recorded version at least as new as `updatedAt`. */
  predicate Reached(t: Tables, k: EntityKey, updatedAt: int) {
    k in t.versions && t.versions[k].updatedAt >= updatedAt
  }

  /** The event that a version or a row marker of `k` names. */
  predicate Names(t: Tables, k: EntityKey, eventId: string) {
    EventKey(k.source, eventId) in t.receipts && t.receipts[EventKey(k.source, eventId)].body.About(k)
  }

  function Named(t: Tables, k: EntityKey, eventId: string): Receipt
    requires Names(t, k, eventId)
  {
    t.receipts[EventKey(k.source, eventId)]
  }

  /** A row is what its event wrote; an event that is ahead of the recorded version is still pending. */
  predicate RowOk(t: Tables, k: EntityKey, row: Row) {
    && Names(t, k, row.marker)
    && RowOf(Named(t, k, row.marker).body) == row
    && (|| (k in t.versions && t.versions[k].eventId == row.marker)
        || (Named(t, k, row.marker).status.Pending? && !Reached(t, k, Named(t, k, row.marker).body.change.updatedAt)))
  }

  predicate VersionOk(t: Tables, k: EntityKey) {
    k in t.versions ==>
      && Names(t, k, t.versions[k].eventId)
      && Named(t, k, t.versions[k].eventId).body.change.updatedAt == t.versions[k].updatedAt
      && (k.kind.OwnsItsRow() ==> k in t.rows)
      && (k.source == PRIMARY_SOURCE && k.kind.Mirrored() && k in t.portal ==> t.portal[k].Projected?)
  }

  predicate ReceiptOk(t: Tables, key: EventKey, r: Receipt) {
    && r.body.key == key
    && (r.status.Terminal() ==>
          match r.body.change
          case ProjectionChange(_, _, updatedAt, _, _) => Reached(t, r.body.Entity(), updatedAt)
          case EntitlementChange(_) => r.status.IgnoredStatus?
          case _ => r.status.Completed? && key in t.forwarded)
  }

  ghost predicate TablesOk(t: Tables) {
    && (forall key :: key in t.receipts ==> ReceiptOk(t, key, t.receipts[key]))
    && (forall k :: VersionOk(t, k))
    && (forall k :: k in t.rows ==> k.kind.OwnsItsRow() && RowOk(t, k, t.rows[k]))
    && (forall k :: k in t.portal && t.portal[k].Projected? ==>
          k.source == PRIMARY_SOURCE && k.kind.Mirrored() && RowOk(t, k, t.portal[k].row))
  }

  // ---------- facts about one attempt ----------

  /** The phases that follow the receipt check when it did not end the attempt. */
  predicate PastReceipt(p: Phase) {
    match p
    case ClaimGlobal => false
    case ReadReceipt => false
    case AddReceipt => false
    case ReleaseEntity(o) => o.Applied?
    case ReleaseGlobal(o) => o.Applied?
    case _ => true
  }

  /** The writes that follow the write `w` in the order of the code. */
  predicate Follows(p: Phase, w: Write) {
    (p.RefreshGlobal? || p.RefreshEntity? || p.Perform?) &&
    match w
    case RowWrite => !p.write.RowWrite?
    case PortalWrite => p.write.RevocationBatch? || p.write.VersionWrite?
    case _ => false
  }

  predicate Applying(p: Phase) {
    p.Prepare? || p.RefreshGlobal? || p.RefreshEntity? || p.Perform?
  }

  /** The outcome rests on a version that has already caught up with the event. */
  predicate Settled(p: Phase) {
    p.IgnoreReceipt? || p.CompleteReceipt? || p == ReleaseEntity(Applied) || p == ReleaseGlobal(Applied)
  }

  /** While the refreshed lease has not expired it is still this attempt's lease, unchanged. */
  predicate Fenced(t: Tables, now: int, a: Attempt)
    requires a.phase.Perform? && a.event.change.ProjectionChange?
  {
    var lease := if a.phase.write.RevocationBatch? then Global(a) else EntityLease(a.event.Entity());
    now < a.fence ==> lease in t.leases && t.leases[lease] == Lease(a.event.key.id, a.fence)
  }

  /** What an attempt that still owns its entity lease knows about the entity. */
  predicate Continuous(t: Tables, a: Attempt)
    requires a.event.change.ProjectionChange?
  {
    var k := a.event.Entity();
    Owns(t, EntityLease(k), a.event.key.id) ==>
      && (Applying(a.phase) ==> LatestVersion(t, k) == a.latest)
      && (Follows(a.phase, RowWrite) && a.event.WritesRow() ==> k in t.rows && t.rows[k] == RowOf(a.event))
      && (Follows(a.phase, PortalWrite) && a.event.WritesPortal() && k in t.portal ==>
            t.portal[k] == Projected(RowOf(a.event)))
  }

  predicate ReceiptHeld(t: Tables, a: Attempt) {
    && (a.phase.AddReceipt? ==> a.event.key !in t.receipts)
    && (PastReceipt(a.phase) ==>
          && a.event.key in t.receipts
          && t.receipts[a.event.key].body == a.event
          && (t.receipts[a.event.key].status.Pending? || a.event.change.DeliveryIntent?))
  }

  predicate AttemptOk(t: Tables, now: int, a: Attempt) {
    && Fits(a.event.change, a.phase)
    && ReceiptHeld(t, a)
    && (a.event.change.ProjectionChange? ==>
          && Continuous(t, a)
          && (Applying(a.phase) ==> a.latest.None? || a.latest.value.updatedAt < a.event.change.updatedAt)
          && (a.phase.Perform? ==> Fenced(t, now, a))
          && (Settled(a.phase) ==> Reached(t, a.event.Entity(), a.event.change.updatedAt)))
    && (a.event.change.PortalChange? || a.event.change.DeliveryIntent? ==>
          && !a.phase.IgnoreReceipt?
          && (Settled(a.phase) ==> a.event.key in t.forwarded))
    && (a.event.change.EntitlementChange? ==> !a.phase.CompleteReceipt? && a.phase != ReleaseGlobal(Applied))
  }

  ghost predicate Inv(s: State) {
    && TablesOk(s.tables)
    && forall key :: key in s.attempts ==> s.attempts[key].event.key == key && AttemptOk(s.tables, s.now, s.attempts[key])
  }

  // ---------- what one attempt's statement may do to the others ----------

  function SourceOf(lease: LeaseKey): string {
    match lease
    case GlobalLease(source) => source
    case EntityLease(k) => k.source
  }

  /** `me` is the event that owns the lease row `lease` under the owner name `owner`. */
  predicate Mine(lease: LeaseKey, owner: string, me: EventKey) {
    EventKey(SourceOf(lease), owner) == me
  }

  /** No one else's unexpired lease changes and no one but `me` becomes an owner. */
  ghost predicate LeasesKept(t: Tables, t': Tables, now: int, me: EventKey) {
    && (forall l, o :: Owns(t', l, o) && !Mine(l, o, me) ==> Owns(t, l, o))
    && (forall l :: l in t.leases && t.leases[l].until > now && !Mine(l, t.leases[l].owner, me) ==>
          l in t'.leases && t'.leases[l] == t.leases[l])
  }

  predicate SameEntity(t: Tables, t': Tables, k: EntityKey) {
    && LatestVersion(t', k) == LatestVersion(t, k)
    && (k in t'.rows <==> k in t.rows) && (k in t.rows ==> t'.rows[k] == t.rows[k])
    && (k in t'.portal <==> k in t.portal) && (k in t.portal ==> t'.portal[k] == t.portal[k])
  }

  /** An entity changes only under the entity lease of `me`, and its version never goes back. */
  ghost predicate EntitiesKept(t: Tables, t': Tables, me: EventKey) {
    forall k ::
      && (SameEntity(t, t', k) || (Owns(t', EntityLease(k), me.id) && k.source == me.source))
      && (k in t.versions ==> Reached(t', k, t.versions[k].updatedAt))
  }

  ghost predicate OthersKept(t: Tables, t': Tables, now: int, me: EventKey) {
    && LeasesKept(t, t', now, me)
    && EntitiesKept(t, t', me)
    && (forall key :: key != me ==> (key in t'.receipts <==> key in t.receipts))
    && (forall key :: key != me && key in t.receipts ==> t'.receipts[key] == t.receipts[key])
    && t.forwarded <= t'.forwarded
  }

  lemma OtherAttemptKept(t: Tables, t': Tables, now: int, me: EventKey, b: Attempt)
    requires OthersKept(t, t', now, me)
    requires b.event.key != me && AttemptOk(t, now, b)
    ensures AttemptOk(t', now, b)
  {
    if b.event.change.ProjectionChange? {
      var k := b.event.Entity();
      assert SameEntity(t, t', k) || (Owns(t', EntityLease(k), me.id) && k.source == me.source);
      if Owns(t', EntityLease(k), b.event.key.id) {
        assert !Mine(EntityLease(k), b.event.key.id, me);
        assert Owns(t, EntityLease(k), b.event.key.id);
      }
      if b.phase.Perform? && now < b.fence {
        var lease := if b.phase.write.RevocationBatch? then Global(b) else EntityLease(k);
        assert !Mine(lease, b.event.key.id, me);
      }
    }
  }

  // ---------- one lemma for each kind of statement ----------

  /** The tables after a statement are sound for the attempt that ran it, moved to its next phase. */
  ghost predicate StepOk(s: State, a: Attempt, t': Tables, a': Attempt) {
    && TablesOk(t') && OthersKept(s.tables, t', s.now, a.event.key)
    && a'.event == a.event && AttemptOk(t', s.now, a')
  }

  ghost predicate Before(s: State, a: Attempt) {
    TablesOk(s.tables) && AttemptOk(s.tables, s.now, a)
  }

  lemma LeasesOnly(t: Tables, t': Tables, now: int, me: EventKey)
    requires t' == t.(leases := t'.leases) && LeasesKept(t, t', now, me) && TablesOk(t)
    ensures TablesOk(t') && OthersKept(t, t', now, me)
  {
    forall k ensures VersionOk(t', k) { assert VersionOk(t, k); }
    forall key | key in t'.receipts ensures ReceiptOk(t', key, t'.receipts[key]) { assert ReceiptOk(t, key, t.receipts[key]); }
    forall k | k in t'.rows ensures RowOk(t', k, t'.rows[k]) { assert RowOk(t, k, t.rows[k]); }
    forall k | k in t'.portal && t'.portal[k].Projected? ensures RowOk(t', k, t'.portal[k].row) { assert RowOk(t, k, t.portal[k].row); }
  }

  lemma GlobalClaimStep(s: State, a: Attempt)
    requires Before(s, a) && a.phase.ClaimGlobal? && CanClaim(s.tables, Global(a), s.now)
    ensures StepOk(s, a, ClaimLease(s.tables, Global(a), a.event.key.id, s.now), a.(phase := ReadReceipt))
  {
    var t' := ClaimLease(s.tables, Global(a), a.event.key.id, s.now);
    LeasesOnly(s.tables, t', s.now, a.event.key);
  }

  lemma EntityClaimStep(s: State, a: Attempt)
    requires Before(s, a) && a.phase.ClaimEntity? && CanClaim(s.tables, EntityLease(a.event.Entity()), s.now)
    ensures StepOk(s, a, ClaimLease(s.tables, EntityLease(a.event.Entity()), a.event.key.id, s.now), a.(phase := ReadVersion))
  {
    var t' := ClaimLease(s.tables, EntityLease(a.event.Entity()), a.event.key.id, s.now);
    LeasesOnly(s.tables, t', s.now, a.event.key);
  }

  /** Refreshing or giving back one's own lease row changes nobody else's. */
  lemma OwnLeaseStep(t: Tables, t': Tables, now: int, me: EventKey, lease: LeaseKey)
    requires TablesOk(t) && SourceOf(lease) == me.source
    requires t' == RefreshLease(t, lease, me.id, now) || t' == ReleaseLease(t, lease, me.id)
    ensures TablesOk(t') && OthersKept(t, t', now, me)
  {
    LeasesOnly(t, t', now, me);
  }

  lemma RefreshGlobalStep(s: State, a: Attempt, next: Phase)
    requires Before(s, a) && a.phase.RefreshGlobal? && Owns(s.tables, Global(a), a.event.key.id)
    requires next == if a.phase.write.RevocationBatch? then Perform(a.phase.write) else RefreshEntity(a.phase.write)
    ensures StepOk(s, a, RefreshLease(s.tables, Global(a), a.event.key.id, s.now),
                   a.(fence := s.now + LEASE_SECONDS, phase := next))
  {
    OwnLeaseStep(s.tables, RefreshLease(s.tables, Global(a), a.event.key.id, s.now), s.now, a.event.key, Global(a));
  }

  lemma RefreshEntityStep(s: State, a: Attempt)
    requires Before(s, a) && a.phase.RefreshEntity? && Owns(s.tables, EntityLease(a.event.Entity()), a.event.key.id)
    ensures StepOk(s, a, RefreshLease(s.tables, EntityLease(a.event.Entity()), a.event.key.id, s.now),
                   a.(fence := s.now + LEASE_SECONDS, phase := AfterEntityRefresh(a.event, a.phase.write)))
  {
    var lease := EntityLease(a.event.Entity());
    OwnLeaseStep(s.tables, RefreshLease(s.tables, lease, a.event.key.id, s.now), s.now, a.event.key, lease);
  }

  /** Giving up before anything was claimed, or with the entity lease still to be given back. */
  lemma AbandonStep(s: State, a: Attempt, phase: Phase)
    requires Before(s, a) && Fits(a.event.change, phase)
    requires phase in {ReleaseGlobal(Failed), ReleaseEntity(Failed), ReleaseGlobal(Duplicate)}
    ensures StepOk(s, a, s.tables, a.(phase := phase))
  {
    LeasesOnly(s.tables, s.tables, s.now, a.event.key);
  }

  lemma ReadReceiptStep(s: State, a: Attempt)
    requires Before(s, a) && a.phase.ReadReceipt?
    ensures StepOk(s, a, s.tables, a.(prior := PriorStatus(s.tables, a.event.key), phase := AfterReading(s.tables, a.event)))
  {
    LeasesOnly(s.tables, s.tables, s.now, a.event.key);
    if a.event.key in s.tables.receipts {
      assert ReceiptOk(s.tables, a.event.key, s.tables.receipts[a.event.key]);
    }
  }

  /** `t'` files or updates the receipt of `me`; its body stays, and it becomes terminal only once the version has caught up. */
  predicate ReceiptChanged(t: Tables, t': Tables, me: EventKey) {
    && me in t'.receipts && t' == t.(receipts := t.receipts[me := t'.receipts[me]])
    && ReceiptOk(t', me, t'.receipts[me])
    && (me in t.receipts ==> t'.receipts[me].body == t.receipts[me].body)
    && (me in t.receipts && t.receipts[me].status.Pending? && t.receipts[me].body.change.ProjectionChange? ==>
          t'.receipts[me].status.Pending? || Reached(t, t.receipts[me].body.Entity(), t.receipts[me].body.change.updatedAt))
    && (me in t.receipts && t.receipts[me].status.Terminal() ==> t'.receipts[me].status.Terminal())
  }

  lemma ReceiptTables(t: Tables, t': Tables, me: EventKey)
    requires TablesOk(t) && ReceiptChanged(t, t', me)
    ensures TablesOk(t')
  {
    forall k ensures VersionOk(t', k) { assert VersionOk(t, k); }
    forall key | key in t'.receipts ensures ReceiptOk(t', key, t'.receipts[key]) {
      if key != me { assert ReceiptOk(t, key, t.receipts[key]); }
    }
    forall k | k in t'.rows ensures RowOk(t', k, t'.rows[k]) { assert RowOk(t, k, t.rows[k]); }
    forall k | k in t'.portal && t'.portal[k].Projected? ensures RowOk(t', k, t'.portal[k].row) { assert RowOk(t, k, t.portal[k].row); }
  }

  /** Filing or updating one's own receipt: rows and versions keep naming the same events. */
  lemma ReceiptChange(t: Tables, t': Tables, now: int, me: EventKey)
    requires TablesOk(t) && ReceiptChanged(t, t', me)
    ensures TablesOk(t') && OthersKept(t, t', now, me)
  {
    ReceiptTables(t, t', me);
  }

  lemma AddReceiptStep(s: State, a: Attempt)
    requires Before(s, a) && a.phase.AddReceipt?
    ensures StepOk(s, a, InsertReceipt(s.tables, a.event), a.(phase := AfterReceipt(a.event.change)))
  {
    ReceiptChange(s.tables, InsertReceipt(s.tables, a.event), s.now, a.event.key);
  }

  lemma IgnoreStep(s: State, a: Attempt)
    requires Before(s, a) && a.phase.IgnoreReceipt?
    ensures StepOk(s, a, SetStatus(s.tables, a.event.key, IgnoredStatus),
                   a.(phase := if a.event.change.ProjectionChange? then ReleaseEntity(Ignored) else ReleaseGlobal(Ignored)))
  {
    ReceiptChange(s.tables, SetStatus(s.tables, a.event.key, IgnoredStatus), s.now, a.event.key);
  }

  lemma CompleteStep(s: State, a: Attempt)
    requires Before(s, a) && a.phase.CompleteReceipt?
    ensures var t' := SetStatus(s.tables, a.event.key, Completed);
            TablesOk(t') && OthersKept(s.tables, t', s.now, a.event.key)
  {
    ReceiptChange(s.tables, SetStatus(s.tables, a.event.key, Completed), s.now, a.event.key);
  }

  lemma ReadVersionStep(s: State, a: Attempt)
    requires Before(s, a) && a.phase.ReadVersion?
    ensures StepOk(s, a, s.tables, a.(latest := LatestVersion(s.tables, a.event.Entity()), phase := AfterVersion(s.tables, a)))
  {
    LeasesOnly(s.tables, s.tables, s.now, a.event.key);
  }

  function Forwarded(t: Tables, key: EventKey): Tables {
    t.(forwarded := t.forwarded + {key})
  }

  lemma ForwardTables(t: Tables, key: EventKey)
    requires TablesOk(t)
    ensures TablesOk(Forwarded(t, key))
  {
    var t' := Forwarded(t, key);
    forall k ensures VersionOk(t', k) { assert VersionOk(t, k); }
    forall key | key in t'.receipts ensures ReceiptOk(t', key, t'.receipts[key]) { assert ReceiptOk(t, key, t.receipts[key]); }
    forall k | k in t'.rows ensures RowOk(t', k, t'.rows[k]) { assert RowOk(t, k, t.rows[k]); }
    forall k | k in t'.portal && t'.portal[k].Projected? ensures RowOk(t', k, t'.portal[k].row) { assert RowOk(t, k, t.portal[k].row); }
  }

  lemma ForwardKept(t: Tables, now: int, me: EventKey)
    ensures OthersKept(t, Forwarded(t, me), now, me)
  {
  }

  lemma ForwardStep(s: State, a: Attempt, outcome: Outcome)
    requires Before(s, a) && a.phase.Forward?
    ensures StepOk(s, a, Forwarded(s.tables, a.event.key), a.(phase := ReleaseGlobal(outcome)))
  {
    ForwardTables(s.tables, a.event.key);
    ForwardKept(s.tables, s.now, a.event.key);
  }

  // ---------- the fenced writes ----------

  /** At an enabled write the attempt still owns the lease, so nothing has moved since it read the version. */
  lemma WriterOwns(s: State, a: Attempt)
    requires Before(s, a) && a.phase.Perform? && s.now < a.fence
    ensures a.phase.write.RevocationBatch? ==> Owns(s.tables, Global(a), a.event.key.id)
    ensures !a.phase.write.RevocationBatch? ==>
              && Owns(s.tables, EntityLease(a.event.Entity()), a.event.key.id)
              && LatestVersion(s.tables, a.event.Entity()) == a.latest
              && !Reached(s.tables, a.event.Entity(), a.event.change.updatedAt)
  {
  }

  lemma RowWriteTables(s: State, a: Attempt)
    requires Before(s, a) && a.phase == Perform(RowWrite) && s.now < a.fence
    ensures TablesOk(WriteRow(s.tables, a.event))
  {
    WriterOwns(s, a);
    var t, t' := s.tables, WriteRow(s.tables, a.event);
    forall k ensures VersionOk(t', k) { assert VersionOk(t, k); }
    forall key | key in t'.receipts ensures ReceiptOk(t', key, t'.receipts[key]) { assert ReceiptOk(t, key, t.receipts[key]); }
    forall k | k in t'.rows ensures RowOk(t', k, t'.rows[k]) {
      if k in t.rows { assert RowOk(t, k, t.rows[k]); }
    }
    forall k | k in t'.portal && t'.portal[k].Projected? ensures RowOk(t', k, t'.portal[k].row) { assert RowOk(t, k, t.portal[k].row); }
  }

  lemma RowWriteKept(s: State, a: Attempt)
    requires Before(s, a) && a.phase == Perform(RowWrite) && s.now < a.fence
    ensures OthersKept(s.tables, WriteRow(s.tables, a.event), s.now, a.event.key)
  {
    WriterOwns(s, a);
  }

  lemma RowWriteOwn(s: State, a: Attempt)
    requires Before(s, a) && a.phase == Perform(RowWrite) && s.now < a.fence
    ensures AttemptOk(WriteRow(s.tables, a.event), s.now, a.(phase := RefreshGlobal(PortalWrite)))
  {
    WriterOwns(s, a);
  }

  lemma RowWriteStep(s: State, a: Attempt)
    requires Before(s, a) && a.phase == Perform(RowWrite) && s.now < a.fence
    ensures StepOk(s, a, WriteRow(s.tables, a.event), a.(phase := RefreshGlobal(PortalWrite)))
  {
    RowWriteTables(s, a);
    RowWriteKept(s, a);
    RowWriteOwn(s, a);
  }

  /** The written portal row is its event's, and the others stay as they were. */
  lemma PortalRowsOk(s: State, a: Attempt, k: EntityKey)
    requires Before(s, a) && a.phase == Perform(PortalWrite) && s.now < a.fence
    requires var t' := WritePortalRow(s.tables, a.event); k in t'.portal && t'.portal[k].Projected?
    ensures var t' := WritePortalRow(s.tables, a.event);
            k.source == PRIMARY_SOURCE && k.kind.Mirrored() && RowOk(t', k, t'.portal[k].row)
  {
    WriterOwns(s, a);
    if s.tables.portal[k].Projected? { assert RowOk(s.tables, k, s.tables.portal[k].row); }
  }

  lemma PortalWriteTables(s: State, a: Attempt)
    requires Before(s, a) && a.phase == Perform(PortalWrite) && s.now < a.fence
    ensures TablesOk(WritePortalRow(s.tables, a.event))
  {
    var t, t' := s.tables, WritePortalRow(s.tables, a.event);
    forall k ensures VersionOk(t', k) { assert VersionOk(t, k); }
    forall key | key in t'.receipts ensures ReceiptOk(t', key, t'.receipts[key]) { assert ReceiptOk(t, key, t.receipts[key]); }
    forall k | k in t'.rows ensures RowOk(t', k, t'.rows[k]) { assert RowOk(t, k, t.rows[k]); }
    forall k | k in t'.portal && t'.portal[k].Projected?
      ensures k.source == PRIMARY_SOURCE && k.kind.Mirrored() && RowOk(t', k, t'.portal[k].row)
    {
      PortalRowsOk(s, a, k);
    }
  }

  lemma PortalWriteKept(s: State, a: Attempt)
    requires Before(s, a) && a.phase == Perform(PortalWrite) && s.now < a.fence
    ensures OthersKept(s.tables, WritePortalRow(s.tables, a.event), s.now, a.event.key)
  {
    WriterOwns(s, a);
  }

  lemma PortalWriteOwn(s: State, a: Attempt)
    requires Before(s, a) && a.phase == Perform(PortalWrite) && s.now < a.fence
    ensures AttemptOk(WritePortalRow(s.tables, a.event), s.now, a.(phase := RefreshGlobal(RevocationBatch)))
  {
    WriterOwns(s, a);
  }

  lemma PortalWriteStep(s: State, a: Attempt)
    requires Before(s, a) && a.phase == Perform(PortalWrite) && s.now < a.fence
    ensures StepOk(s, a, WritePortalRow(s.tables, a.event), a.(phase := RefreshGlobal(RevocationBatch)))
  {
    PortalWriteTables(s, a);
    PortalWriteKept(s, a);
    PortalWriteOwn(s, a);
  }

  lemma VersionWriteTables(s: State, a: Attempt)
    requires Before(s, a) && a.phase == Perform(VersionWrite) && s.now < a.fence
    ensures TablesOk(WriteVersion(s.tables, a.event))
  {
    WriterOwns(s, a);
    var t, t' := s.tables, WriteVersion(s.tables, a.event);
    forall k ensures VersionOk(t', k) { assert VersionOk(t, k); }
    forall key | key in t'.receipts ensures ReceiptOk(t', key, t'.receipts[key]) { assert ReceiptOk(t, key, t.receipts[key]); }
    forall k | k in t'.rows ensures RowOk(t', k, t'.rows[k]) { assert RowOk(t, k, t.rows[k]); }
    forall k | k in t'.portal && t'.portal[k].Projected? ensures RowOk(t', k, t'.portal[k].row) { assert RowOk(t, k, t.portal[k].row); }
  }

  lemma VersionWriteKept(s: State, a: Attempt)
    requires Before(s, a) && a.phase == Perform(VersionWrite) && s.now < a.fence
    ensures OthersKept(s.tables, WriteVersion(s.tables, a.event), s.now, a.event.key)
  {
    WriterOwns(s, a);
  }

  lemma VersionWriteOwn(s: State, a: Attempt)
    requires Before(s, a) && a.phase == Perform(VersionWrite) && s.now < a.fence
    ensures AttemptOk(WriteVersion(s.tables, a.event), s.now, a.(phase := ReleaseEntity(Applied)))
  {
    WriterOwns(s, a);
  }

  lemma VersionWriteStep(s: State, a: Attempt)
    requires Before(s, a) && a.phase == Perform(VersionWrite) && s.now < a.fence
    ensures StepOk(s, a, WriteVersion(s.tables, a.event), a.(phase := ReleaseEntity(Applied)))
  {
    VersionWriteTables(s, a);
    VersionWriteKept(s, a);
    VersionWriteOwn(s, a);
  }

  // ---------- every action keeps the invariant ----------

  lemma ReleaseStep(s: State, a: Attempt, next: Phase)
    requires Before(s, a)
    requires (a.phase.ReleaseEntity? && next == ReleaseGlobal(a.phase.outcome))
          || (a.phase == ReleaseGlobal(Applied) && next == CompleteReceipt)
    ensures StepOk(s, a, Effect(s, a), a.(phase := next))
  {
    var lease := if a.phase.ReleaseEntity? then EntityLease(a.event.Entity()) else Global(a);
    OwnLeaseStep(s.tables, Effect(s, a), s.now, a.event.key, lease);
  }

  lemma PassiveStep(s: State, a: Attempt)
    requires Before(s, a)
    requires a.phase.Prepare? || a.phase == Perform(RevocationBatch)
    ensures a.phase.Prepare? ==> StepOk(s, a, s.tables, a.(phase := RefreshGlobal(RowWrite)))
    ensures a.phase.Perform? ==> forall more :: StepOk(s, a, s.tables, a.(phase := AfterWrite(RevocationBatch, more)))
    ensures StepOk(s, a, s.tables, a)
  {
    LeasesOnly(s.tables, s.tables, s.now, a.event.key);
  }

  ghost predicate Progress(s: State, a: Attempt, t': Tables, next: Option<Attempt>) {
    && TablesOk(t') && OthersKept(s.tables, t', s.now, a.event.key)
    && (next.Some? ==> StepOk(s, a, t', next.value))
  }

  lemma ClaimProgress(s: State, a: Attempt, more: bool)
    requires Before(s, a) && (a.phase.ClaimGlobal? || a.phase.ClaimEntity?)
    ensures Progress(s, a, Effect(s, a), Continue(s, a, more))
  {
    LeasesOnly(s.tables, s.tables, s.now, a.event.key);
    if a.phase.ClaimGlobal? {
      if CanClaim(s.tables, Global(a), s.now) { GlobalClaimStep(s, a); }
    } else if CanClaim(s.tables, EntityLease(a.event.Entity()), s.now) {
      EntityClaimStep(s, a);
    } else {
      AbandonStep(s, a, ReleaseGlobal(Failed));
    }
  }

  lemma RefreshGlobalProgress(s: State, a: Attempt, more: bool)
    requires Before(s, a) && a.phase.RefreshGlobal?
    ensures Progress(s, a, Effect(s, a), Continue(s, a, more))
  {
    if Owns(s.tables, Global(a), a.event.key.id) {
      var w := a.phase.write;
      RefreshGlobalStep(s, a, if w.RevocationBatch? then Perform(w) else RefreshEntity(w));
    } else {
      AbandonStep(s, a, ReleaseEntity(Failed));
    }
  }

  lemma RefreshEntityProgress(s: State, a: Attempt, more: bool)
    requires Before(s, a) && a.phase.RefreshEntity?
    ensures Progress(s, a, Effect(s, a), Continue(s, a, more))
  {
    if Owns(s.tables, EntityLease(a.event.Entity()), a.event.key.id) {
      RefreshEntityStep(s, a);
    } else {
      AbandonStep(s, a, ReleaseEntity(Failed));
    }
  }

  lemma WriteProgress(s: State, a: Attempt, more: bool)
    requires Before(s, a) && a.phase.Perform?
    ensures Progress(s, a, Effect(s, a), Continue(s, a, more))
  {
    if s.now >= a.fence {
      LeasesOnly(s.tables, s.tables, s.now, a.event.key);
    } else {
      match a.phase.write
      case RowWrite => RowWriteStep(s, a);
      case PortalWrite => PortalWriteStep(s, a);
      case RevocationBatch => PassiveStep(s, a);
      case VersionWrite => VersionWriteStep(s, a);
    }
  }

  lemma EndProgress(s: State, a: Attempt, more: bool)
    requires Before(s, a) && (a.phase.ReleaseEntity? || a.phase.ReleaseGlobal? || a.phase.CompleteReceipt?)
    ensures Progress(s, a, Effect(s, a), Continue(s, a, more))
  {
    if a.phase.CompleteReceipt? {
      CompleteStep(s, a);
    } else if a.phase.ReleaseEntity? {
      ReleaseStep(s, a, ReleaseGlobal(a.phase.outcome));
    } else {
      OwnLeaseStep(s.tables, Effect(s, a), s.now, a.event.key, Global(a));
      if a.phase.outcome.Applied? { ReleaseStep(s, a, CompleteReceipt); }
    }
  }

  /** Every statement leaves sound tables, disturbs no other attempt and moves its own to a sound phase. */
  lemma StatementProgress(s: State, a: Attempt, more: bool)
    requires Before(s, a)
    ensures Progress(s, a, Effect(s, a), Continue(s, a, more))
  {
    match a.phase
    case ClaimGlobal => ClaimProgress(s, a, more);
    case ClaimEntity => ClaimProgress(s, a, more);
    case ReadReceipt => ReadReceiptStep(s, a);
    case AddReceipt => AddReceiptStep(s, a);
    case IgnoreReceipt => IgnoreStep(s, a);
    case ReadVersion => ReadVersionStep(s, a);
    case Prepare => PassiveStep(s, a);
    case RefreshGlobal(_) => RefreshGlobalProgress(s, a, more);
    case RefreshEntity(_) => RefreshEntityProgress(s, a, more);
    case Perform(_) => WriteProgress(s, a, more);
    case Forward => ForwardStep(s, a, if a.prior.Some? && a.prior.value.Terminal() then Duplicate else Applied);
    case ReleaseEntity(_) => EndProgress(s, a, more);
    case ReleaseGlobal(_) => EndProgress(s, a, more);
    case CompleteReceipt => EndProgress(s, a, more);
  }

  lemma ThrowProgress(s: State, a: Attempt)
    requires Before(s, a)
    ensures Progress(s, a, s.tables, Throw(s, a))
  {
    LeasesOnly(s.tables, s.tables, s.now, a.event.key);
    if Throw(s, a).Some? { AbandonStep(s, a, Throw(s, a).value.phase); }
  }

  lemma ResumeKeeps(s: State, key: EventKey, t': Tables, next: Option<Attempt>)
    requires Inv(s) && key in s.attempts && Progress(s, s.attempts[key], t', next)
    ensures Inv(Resume(s, t', key, next))
  {
    forall other | other in s.attempts && other != key ensures AttemptOk(t', s.now, s.attempts[other]) {
      OtherAttemptKept(s.tables, t', s.now, key, s.attempts[other]);
    }
  }

  lemma NextKeeps(s: State, action: Action)
    requires Inv(s)
    ensures Inv(Next(s, action))
  {
    match action
    case Deliver(event) =>
    case Advance(key, more) =>
      if Live(s, key) {
        var a := s.attempts[key];
        StatementProgress(s, a, more);
        ResumeKeeps(s, key, Effect(s, a), Continue(s, a, more));
      }
    case Fail(key) =>
      if Live(s, key) {
        ThrowProgress(s, s.attempts[key]);
        ResumeKeeps(s, key, s.tables, Throw(s, s.attempts[key]));
      }
    case Crash(key) =>
    case Tick(seconds) =>
      forall key | key in s.attempts ensures AttemptOk(s.tables, s.now + seconds, s.attempts[key]) {
        assert AttemptOk(s.tables, s.now, s.attempts[key]);
      }
  }

  lemma {:induction false} RunKeeps(s: State, actions: seq<Action>)
    requires Inv(s)
    ensures Inv(Run(s, actions))
  {
    if actions != [] {
      RunKeeps(s, actions[..|actions| - 1]);
      NextKeeps(Run(s, actions[..|actions| - 1]), actions[|actions| - 1]);
    }
  }
}
