/**
 * What an attempt has done before it records a version. A history is a run
 * seen at every moment; `Performs` says that a write takes place at one of its
 * moments under the lease that fences it. A version is recorded only by an
 * attempt that has written its row, and for an entity mirrored into the
 * delivery database only after it has written the delivery row there and has
 * then run the revocation pass to its last batch.
 */
module ProjectionTrail {
  import opened ProjectionTables
  import opened ProjectionProtocol
  import opened ProjectionInvariant
  import opened ProjectionTheorems
  import opened Wrappers

  /** The state before the action numbered `n`. */
  function At(portal: set<EntityKey>, actions: seq<Action>, n: nat): State
    requires n <= |actions|
  {
    Run(Init(portal), actions[..n])
  }

  lemma Onwards(portal: set<EntityKey>, actions: seq<Action>, n: nat)
    requires n < |actions|
    ensures At(portal, actions, n + 1) == Next(At(portal, actions, n), actions[n])
    ensures Inv(At(portal, actions, n))
  {
    assert actions[..n + 1][..n] == actions[..n];
    Reachable(portal, actions[..n]);
  }

  predicate HeldBy(s: State, lease: LeaseKey, owner: string) {
    lease in s.tables.leases && s.tables.leases[lease].owner == owner && s.now < s.tables.leases[lease].until
  }

  /** Action `n` is the write `w` of the attempt at `key`: a revocation batch under the unexpired global lease of the
      source, any other write under the unexpired lease of its entity. */
  ghost predicate Performs(portal: set<EntityKey>, actions: seq<Action>, n: nat, key: EventKey, w: Write) {
    n < |actions| && actions[n].Advance? && actions[n].key == key &&
    var s := At(portal, actions, n);
    key in s.attempts && s.attempts[key].phase == Perform(w) && s.now < s.attempts[key].fence &&
    s.attempts[key].event.change.ProjectionChange? &&
    HeldBy(s, if w.RevocationBatch? then GlobalLease(key.source) else EntityLease(s.attempts[key].event.Entity()), key.id)
  }

  /** One and the same attempt at `key` is in flight at all moments from `n` to `m`. */
  ghost predicate InFlight(portal: set<EntityKey>, actions: seq<Action>, key: EventKey, n: nat, m: nat) {
    m <= |actions| && forall j: nat :: n <= j <= m ==> key in At(portal, actions, j).attempts
  }

  /** The attempt in flight at `n` wrote its row at `row`. */
  ghost predicate WroteRow(portal: set<EntityKey>, actions: seq<Action>, n: nat, key: EventKey, row: nat) {
    row < n && Performs(portal, actions, row, key, RowWrite) && InFlight(portal, actions, key, row, n)
  }

  /** After its row it wrote the delivery row at `mirror`, and every batch since then announced another one. */
  ghost predicate Mirrored(portal: set<EntityKey>, actions: seq<Action>, n: nat, key: EventKey, row: nat, mirror: nat) {
    && WroteRow(portal, actions, n, key, row) && row < mirror < n && Performs(portal, actions, mirror, key, PortalWrite)
    && OthersFollow(portal, actions, n, key, mirror)
  }

  ghost predicate OthersFollow(portal: set<EntityKey>, actions: seq<Action>, n: nat, key: EventKey, mirror: nat) {
    forall j: nat :: mirror < j < n && Performs(portal, actions, j, key, RevocationBatch) ==> actions[j].moreBatches
  }

  /** And at `last` it ran the one batch that no other followed. */
  ghost predicate Revoked(portal: set<EntityKey>, actions: seq<Action>, n: nat, key: EventKey, row: nat, mirror: nat, last: nat) {
    && last < n && Mirrored(portal, actions, last, key, row, mirror) && InFlight(portal, actions, key, row, n)
    && Performs(portal, actions, last, key, RevocationBatch) && !actions[last].moreBatches
  }

  ghost predicate HasRow(portal: set<EntityKey>, actions: seq<Action>, n: nat, key: EventKey) {
    exists row: nat :: WroteRow(portal, actions, n, key, row)
  }

  ghost predicate HasMirror(portal: set<EntityKey>, actions: seq<Action>, n: nat, key: EventKey) {
    exists row: nat, mirror: nat :: Mirrored(portal, actions, n, key, row, mirror)
  }

  ghost predicate HasRevoked(portal: set<EntityKey>, actions: seq<Action>, n: nat, key: EventKey) {
    exists row: nat, mirror: nat, last: nat :: Revoked(portal, actions, n, key, row, mirror, last)
  }

  predicate AtWrite(p: Phase, w: Write) {
    (p.RefreshGlobal? || p.RefreshEntity? || p.Perform?) && p.write == w
  }

  /** What lies behind an attempt in phase `p`. */
  ghost predicate Trail(portal: set<EntityKey>, actions: seq<Action>, n: nat, key: EventKey, a: Attempt) {
    && (AtWrite(a.phase, PortalWrite) || AtWrite(a.phase, VersionWrite) ==> HasRow(portal, actions, n, key))
    && (AtWrite(a.phase, RevocationBatch) ==> HasMirror(portal, actions, n, key))
    && (AtWrite(a.phase, VersionWrite) && a.event.WritesPortal() ==> HasRevoked(portal, actions, n, key))
  }

  // ---------- one more action ----------

  lemma LongerFlight(portal: set<EntityKey>, actions: seq<Action>, key: EventKey, n: nat, m: nat)
    requires m < |actions| && InFlight(portal, actions, key, n, m) && key in At(portal, actions, m + 1).attempts
    ensures InFlight(portal, actions, key, n, m + 1)
  {
  }

  lemma RowStays(portal: set<EntityKey>, actions: seq<Action>, n: nat, key: EventKey)
    requires n < |actions| && HasRow(portal, actions, n, key) && key in At(portal, actions, n + 1).attempts
    ensures HasRow(portal, actions, n + 1, key)
  {
    var row: nat :| WroteRow(portal, actions, n, key, row);
    LongerFlight(portal, actions, key, row, n);
    assert WroteRow(portal, actions, n + 1, key, row);
  }

  lemma LaterBatches(portal: set<EntityKey>, actions: seq<Action>, n: nat, key: EventKey, mirror: nat)
    requires OthersFollow(portal, actions, n, key, mirror)
    requires Performs(portal, actions, n, key, RevocationBatch) ==> actions[n].moreBatches
    ensures OthersFollow(portal, actions, n + 1, key, mirror)
  {
  }

  lemma MirrorStays(portal: set<EntityKey>, actions: seq<Action>, n: nat, key: EventKey)
    requires n < |actions| && HasMirror(portal, actions, n, key) && key in At(portal, actions, n + 1).attempts
    requires Performs(portal, actions, n, key, RevocationBatch) ==> actions[n].moreBatches
    ensures HasMirror(portal, actions, n + 1, key)
  {
    var row: nat, mirror: nat :| Mirrored(portal, actions, n, key, row, mirror);
    LongerFlight(portal, actions, key, row, n);
    LaterBatches(portal, actions, n, key, mirror);
    assert WroteRow(portal, actions, n + 1, key, row);
    assert Mirrored(portal, actions, n + 1, key, row, mirror);
  }

  lemma RevokedStays(portal: set<EntityKey>, actions: seq<Action>, n: nat, key: EventKey)
    requires n < |actions| && HasRevoked(portal, actions, n, key) && key in At(portal, actions, n + 1).attempts
    ensures HasRevoked(portal, actions, n + 1, key)
  {
    var row: nat, mirror: nat, last: nat :| Revoked(portal, actions, n, key, row, mirror, last);
    LongerFlight(portal, actions, key, row, n);
    assert Revoked(portal, actions, n + 1, key, row, mirror, last);
  }

  /** A statement that is a write within its fence is performed under its lease. */
  lemma FencedPerforms(portal: set<EntityKey>, actions: seq<Action>, n: nat, key: EventKey, w: Write)
    requires n < |actions| && actions[n].Advance? && actions[n].key == key
    requires var s := At(portal, actions, n);
             key in s.attempts && s.attempts[key].phase == Perform(w) && s.now < s.attempts[key].fence
    ensures Performs(portal, actions, n, key, w)
  {
    Onwards(portal, actions, n);
    var s := At(portal, actions, n);
    assert AttemptOk(s.tables, s.now, s.attempts[key]);
    assert Fenced(s.tables, s.now, s.attempts[key]);
  }

  lemma FirstRow(portal: set<EntityKey>, actions: seq<Action>, n: nat, key: EventKey)
    requires Performs(portal, actions, n, key, RowWrite) && key in At(portal, actions, n + 1).attempts
    ensures HasRow(portal, actions, n + 1, key)
  {
    assert InFlight(portal, actions, key, n, n + 1);
    assert WroteRow(portal, actions, n + 1, key, n);
  }

  lemma FirstMirror(portal: set<EntityKey>, actions: seq<Action>, n: nat, key: EventKey)
    requires HasRow(portal, actions, n, key) && Performs(portal, actions, n, key, PortalWrite)
    requires key in At(portal, actions, n + 1).attempts
    ensures HasMirror(portal, actions, n + 1, key)
  {
    RowStays(portal, actions, n, key);
    var row: nat :| WroteRow(portal, actions, n, key, row);
    LongerFlight(portal, actions, key, row, n);
    assert Mirrored(portal, actions, n + 1, key, row, n);
  }

  lemma LastBatch(portal: set<EntityKey>, actions: seq<Action>, n: nat, key: EventKey)
    requires HasMirror(portal, actions, n, key) && Performs(portal, actions, n, key, RevocationBatch) && !actions[n].moreBatches
    requires key in At(portal, actions, n + 1).attempts
    ensures HasRevoked(portal, actions, n + 1, key) && HasRow(portal, actions, n + 1, key)
  {
    var row: nat, mirror: nat :| Mirrored(portal, actions, n, key, row, mirror);
    LongerFlight(portal, actions, key, row, n);
    assert Revoked(portal, actions, n + 1, key, row, mirror, n);
    assert WroteRow(portal, actions, n + 1, key, row);
  }

  /** An action that leaves the attempt at the same write leaves its trail behind it. */
  lemma StaysAtWrite(portal: set<EntityKey>, actions: seq<Action>, n: nat, key: EventKey, a: Attempt, b: Attempt)
    requires n < |actions| && Trail(portal, actions, n, key, a) && key in At(portal, actions, n + 1).attempts
    requires b.event == a.event && forall w :: AtWrite(b.phase, w) ==> AtWrite(a.phase, w)
    requires Performs(portal, actions, n, key, RevocationBatch) ==> actions[n].moreBatches
    ensures Trail(portal, actions, n + 1, key, b)
  {
    if HasRow(portal, actions, n, key) { RowStays(portal, actions, n, key); }
    if HasMirror(portal, actions, n, key) { MirrorStays(portal, actions, n, key); }
    if HasRevoked(portal, actions, n, key) { RevokedStays(portal, actions, n, key); }
  }

  lemma BatchDone(portal: set<EntityKey>, actions: seq<Action>, n: nat, key: EventKey)
    requires HasMirror(portal, actions, n, key) && Performs(portal, actions, n, key, RevocationBatch)
    requires key in At(portal, actions, n + 1).attempts
    ensures if actions[n].moreBatches then HasMirror(portal, actions, n + 1, key)
            else HasRevoked(portal, actions, n + 1, key) && HasRow(portal, actions, n + 1, key)
  {
    if actions[n].moreBatches { MirrorStays(portal, actions, n, key); } else { LastBatch(portal, actions, n, key); }
  }

  /** The statements that take an attempt from one write to the next. */
  lemma WritesOn(portal: set<EntityKey>, actions: seq<Action>, n: nat, key: EventKey, a: Attempt, b: Attempt)
    requires n < |actions| && actions[n].Advance? && actions[n].key == key
    requires var s, s' := At(portal, actions, n), At(portal, actions, n + 1);
             key in s.attempts && s.attempts[key] == a && Inv(s) && key in s'.attempts && s'.attempts[key] == b
    requires At(portal, actions, n + 1) == Next(At(portal, actions, n), actions[n])
    requires Trail(portal, actions, n, key, a) && a.phase.Perform? && At(portal, actions, n).now < a.fence
    ensures Trail(portal, actions, n + 1, key, b)
  {
    FencedPerforms(portal, actions, n, key, a.phase.write);
    match a.phase.write
    case RowWrite => FirstRow(portal, actions, n, key);
    case PortalWrite => FirstMirror(portal, actions, n, key);
    case RevocationBatch => BatchDone(portal, actions, n, key);
    case VersionWrite =>
  }

  lemma NoBatch(portal: set<EntityKey>, actions: seq<Action>, n: nat, key: EventKey)
    requires n < |actions|
    requires var s := At(portal, actions, n);
             !actions[n].Advance? || actions[n].key != key || key !in s.attempts || !s.attempts[key].phase.Perform? || s.now >= s.attempts[key].fence
    ensures !Performs(portal, actions, n, key, RevocationBatch)
  {
  }

  /** Without a delivery row to write, the row is all that precedes the version. */
  lemma SkipsMirror(portal: set<EntityKey>, actions: seq<Action>, n: nat, key: EventKey, a: Attempt, b: Attempt)
    requires n < |actions| && Trail(portal, actions, n, key, a) && key in At(portal, actions, n + 1).attempts
    requires a.phase == RefreshEntity(PortalWrite) && b.phase == RefreshGlobal(VersionWrite) && !b.event.WritesPortal()
    ensures Trail(portal, actions, n + 1, key, b)
  {
    RowStays(portal, actions, n, key);
  }

  /** Any statement that is not a write within its fence. */
  lemma GoesOn(portal: set<EntityKey>, actions: seq<Action>, n: nat, key: EventKey, a: Attempt, b: Attempt)
    requires n < |actions| && (actions[n].Advance? || actions[n].Fail?) && actions[n].key == key
    requires var s, s' := At(portal, actions, n), At(portal, actions, n + 1);
             key in s.attempts && s.attempts[key] == a && Live(s, key) && key in s'.attempts && s'.attempts[key] == b
    requires At(portal, actions, n + 1) == Next(At(portal, actions, n), actions[n])
    requires Trail(portal, actions, n, key, a)
    requires actions[n].Fail? || !a.phase.Perform? || At(portal, actions, n).now >= a.fence
    ensures Trail(portal, actions, n + 1, key, b)
  {
    NoBatch(portal, actions, n, key);
    if a.phase == RefreshEntity(PortalWrite) && b.phase == RefreshGlobal(VersionWrite) {
      SkipsMirror(portal, actions, n, key, a, b);
    } else if a.phase.Prepare? && actions[n].Advance? {
      assert b.phase == RefreshGlobal(RowWrite);
    } else {
      StaysAtWrite(portal, actions, n, key, a, b);
    }
  }

  lemma TrailStep(portal: set<EntityKey>, actions: seq<Action>, n: nat, key: EventKey)
    requires n < |actions| && key in At(portal, actions, n + 1).attempts
    requires key in At(portal, actions, n).attempts ==> Trail(portal, actions, n, key, At(portal, actions, n).attempts[key])
    ensures Trail(portal, actions, n + 1, key, At(portal, actions, n + 1).attempts[key])
  {
    Onwards(portal, actions, n);
    var s, s', action := At(portal, actions, n), At(portal, actions, n + 1), actions[n];
    if key !in s.attempts {
      assert s'.attempts[key].phase.ClaimGlobal?;
    } else {
      assert AttemptOk(s.tables, s.now, s.attempts[key]);
      var a, b := s.attempts[key], s'.attempts[key];
      if (action.Advance? || action.Fail?) && action.key == key {
        if action.Advance? && a.phase.Perform? && s.now < a.fence {
          WritesOn(portal, actions, n, key, a, b);
        } else {
          GoesOn(portal, actions, n, key, a, b);
        }
      } else {
        assert a == b;
        NoBatch(portal, actions, n, key);
        StaysAtWrite(portal, actions, n, key, a, b);
      }
    }
  }

  lemma {:induction false} EveryTrail(portal: set<EntityKey>, actions: seq<Action>, n: nat, key: EventKey)
    requires n <= |actions| && key in At(portal, actions, n).attempts
    ensures Trail(portal, actions, n, key, At(portal, actions, n).attempts[key])
  {
    if n > 0 {
      if key in At(portal, actions, n - 1).attempts { EveryTrail(portal, actions, n - 1, key); }
      TrailStep(portal, actions, n - 1, key);
    }
  }

  // ---------- what stands behind a version ----------

  function VersionAt(portal: set<EntityKey>, actions: seq<Action>, n: nat, k: EntityKey): Option<Version>
    requires n <= |actions|
  {
    LatestVersion(At(portal, actions, n).tables, k)
  }

  /** Action `n` records `v` as the version of `k`, for the event of the attempt that takes it. */
  ghost predicate Records(portal: set<EntityKey>, actions: seq<Action>, n: nat, k: EntityKey, v: Version) {
    n < |actions| && actions[n].Advance? &&
    var key, s := actions[n].key, At(portal, actions, n);
    && Performs(portal, actions, n, key, VersionWrite)
    && s.attempts[key].event.About(k) && s.attempts[key].event.key == key && key == EventKey(k.source, v.eventId)
    && s.attempts[key].event.change.updatedAt == v.updatedAt
    && VersionAt(portal, actions, n + 1, k) == Some(v)
  }

  /** The version of an entity changes only where an attempt records it that has written the row in the same delivery,
      and, for a primary client, organization or project, has after that written the delivery row and after that run
      the revocation pass up to the batch that no other follows, each batch under the unexpired global lease. */
  lemma RecordedOnlyAfterRevocation(portal: set<EntityKey>, actions: seq<Action>, n: nat, k: EntityKey)
    returns (row: nat, mirror: nat, last: nat)
    requires n < |actions| && VersionAt(portal, actions, n + 1, k) != VersionAt(portal, actions, n, k)
    ensures VersionAt(portal, actions, n + 1, k).Some? && Records(portal, actions, n, k, VersionAt(portal, actions, n + 1, k).value)
    ensures WroteRow(portal, actions, n, actions[n].key, row)
    ensures k.source == PRIMARY_SOURCE && k.kind.Mirrored() ==> Revoked(portal, actions, n, actions[n].key, row, mirror, last)
  {
    Onwards(portal, actions, n);
    var s, key := At(portal, actions, n), actions[n].key;
    WriterHoldsLease(s, s.attempts[key], k);
    OnlyVersionWriteRecords(s, s.attempts[key], k);
    FencedPerforms(portal, actions, n, key, VersionWrite);
    EveryTrail(portal, actions, n, key);
    row, mirror, last := 0, 0, 0;
    if s.attempts[key].event.WritesPortal() {
      row, mirror, last :| Revoked(portal, actions, n, key, row, mirror, last);
    } else {
      row :| WroteRow(portal, actions, n, key, row);
    }
  }

  lemma OnlyVersionWriteRecords(s: State, a: Attempt, k: EntityKey)
    requires AttemptOk(s.tables, s.now, a) && LatestVersion(Effect(s, a), k) != LatestVersion(s.tables, k)
    ensures a.phase == Perform(VersionWrite) && s.now < a.fence && a.event.About(k)
    ensures LatestVersion(Effect(s, a), k) == Some(Version(a.event.change.updatedAt, a.event.key.id))
  {
    if !a.phase.Perform? || s.now >= a.fence { OnlyPerformWrites(s, a); }
  }

  /** A version that is there was recorded at some moment and has stood since. */
  lemma {:induction false} WasRecorded(portal: set<EntityKey>, actions: seq<Action>, m: nat, k: EntityKey) returns (n: nat)
    requires m <= |actions| && VersionAt(portal, actions, m, k).Some?
    ensures n < m && VersionAt(portal, actions, n + 1, k) == VersionAt(portal, actions, m, k)
    ensures VersionAt(portal, actions, n, k) != VersionAt(portal, actions, n + 1, k)
  {
    if m > 0 && VersionAt(portal, actions, m - 1, k) == VersionAt(portal, actions, m, k) {
      n := WasRecorded(portal, actions, m - 1, k);
    } else {
      n := m - 1;
    }
  }

  /** Once every receipt about a primary client, organization or project is terminal, a delivery of a newest of its
      events has written the row, then the delivery row, and then run the whole revocation pass. */
  lemma SettledWasRevoked(portal: set<EntityKey>, actions: seq<Action>, k: EntityKey)
    returns (newest: Event, n: nat, row: nat, mirror: nat, last: nat)
    requires k.source == PRIMARY_SOURCE && k.kind.Mirrored() && ProjectionTheorems.Settled(TablesAfter(portal, actions), k)
    requires DeliveredAbout(TablesAfter(portal, actions), k) != {}
    ensures IsNewest(DeliveredAbout(TablesAfter(portal, actions), k), newest) && newest.About(k)
    ensures Records(portal, actions, n, k, Version(newest.change.updatedAt, newest.key.id))
    ensures Revoked(portal, actions, n, newest.key, row, mirror, last)
  {
    var found := Convergence(portal, actions, k);
    newest := found.value;
    assert actions[..|actions|] == actions;
    n := WasRecorded(portal, actions, |actions|, k);
    row, mirror, last := RecordedOnlyAfterRevocation(portal, actions, n, k);
    Reachable(portal, actions);
    assert ReceiptOk(TablesAfter(portal, actions), newest.key, TablesAfter(portal, actions).receipts[newest.key]);
  }
}
