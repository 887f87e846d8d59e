/**
 * What the projection protocol promises over every run: fenced writes,
 * versions that only move forward, and rows that converge to the newest
 * delivered event whatever the interleaving, the retries and the crashes.
 */
module ProjectionTheorems {
  import opened ProjectionTables
  import opened ProjectionProtocol
  import opened ProjectionInvariant
  import opened Wrappers

  function TablesAfter(portal: set<EntityKey>, actions: seq<Action>): Tables {
    Run(Init(portal), actions).tables
  }

  lemma Reachable(portal: set<EntityKey>, actions: seq<Action>)
    ensures Inv(Run(Init(portal), actions))
  {
    RunKeeps(Init(portal), actions);
  }

  // ---------- fencing ----------

  /** The attempt filed under `key` is about to write `k` and its entity lease has not expired. */
  predicate HoldsLease(s: State, key: EventKey, k: EntityKey) {
    && key.source == k.source
    && key in s.attempts && s.attempts[key].event.About(k)
    && EntityLease(k) in s.tables.leases
    && s.tables.leases[EntityLease(k)].owner == key.id
    && s.now < s.tables.leases[EntityLease(k)].until
  }

  lemma OnlyPerformWrites(s: State, a: Attempt)
    requires Fits(a.event.change, a.phase)
    requires !a.phase.Perform? || s.now >= a.fence
    ensures var t' := Effect(s, a);
            t'.rows == s.tables.rows && t'.portal == s.tables.portal && t'.versions == s.tables.versions
  {
    match a.phase
    case IgnoreReceipt =>
    case CompleteReceipt =>
    case _ =>
  }

  /** A statement that changes an entity is a write within its fence, by the attempt that owns the entity's lease. */
  lemma WriterHoldsLease(s: State, a: Attempt, k: EntityKey)
    requires AttemptOk(s.tables, s.now, a) && !SameEntity(s.tables, Effect(s, a), k)
    ensures a.event.About(k) && a.event.key.source == k.source && EntityLease(k) in s.tables.leases
    ensures s.tables.leases[EntityLease(k)].owner == a.event.key.id && s.now < s.tables.leases[EntityLease(k)].until
  {
    if a.phase.Perform? && s.now < a.fence {
      assert Fenced(s.tables, s.now, a);
    } else {
      OnlyPerformWrites(s, a);
    }
  }

  lemma WritesAreFenced(s: State, action: Action, k: EntityKey)
    requires Inv(s) && !SameEntity(s.tables, Next(s, action).tables, k)
    ensures action.Advance? && HoldsLease(s, action.key, k)
  {
    if action.Advance? && Live(s, action.key) { WriterHoldsLease(s, s.attempts[action.key], k); }
  }

  /** Row, portal row and version of an entity change only in a step of an attempt that holds
      the unexpired entity lease at that moment; a superseded attempt writes nothing. */
  lemma OnlyTheLeaseHolderWrites(portal: set<EntityKey>, actions: seq<Action>, action: Action, k: EntityKey)
    requires !SameEntity(TablesAfter(portal, actions), TablesAfter(portal, actions + [action]), k)
    ensures action.Advance? && HoldsLease(Run(Init(portal), actions), action.key, k)
  {
    Reachable(portal, actions);
    assert (actions + [action])[..|actions|] == actions;
    WritesAreFenced(Run(Init(portal), actions), action, k);
  }

  /** Only the tables seen by the attempt that acts can change, and only as OthersKept allows. */
  lemma ActionEffect(s: State, action: Action)
    requires Inv(s)
    ensures Next(s, action).tables == s.tables ||
            (action.Advance? && Live(s, action.key) && OthersKept(s.tables, Next(s, action).tables, s.now, action.key))
  {
    if action.Advance? && Live(s, action.key) {
      StatementProgress(s, s.attempts[action.key], action.moreBatches);
    }
  }

  /** An unexpired lease is changed by nobody but its owner: it is neither taken over nor deleted. */
  lemma UnexpiredLeaseIsSafe(portal: set<EntityKey>, actions: seq<Action>, action: Action, lease: LeaseKey)
    requires lease in TablesAfter(portal, actions).leases
    requires TablesAfter(portal, actions).leases[lease].until > Run(Init(portal), actions).now
    requires action.Advance? ==> action.key != EventKey(SourceOf(lease), TablesAfter(portal, actions).leases[lease].owner)
    ensures lease in TablesAfter(portal, actions + [action]).leases
    ensures TablesAfter(portal, actions + [action]).leases[lease] == TablesAfter(portal, actions).leases[lease]
  {
    Reachable(portal, actions);
    assert (actions + [action])[..|actions|] == actions;
    ActionEffect(Run(Init(portal), actions), action);
  }

  /** Of two attempts about to write the same entity, or to revoke grants for the same source, one is fenced out. */
  lemma WritersExclude(portal: set<EntityKey>, actions: seq<Action>, x: EventKey, y: EventKey)
    requires var s := Run(Init(portal), actions);
             x in s.attempts && y in s.attempts && s.attempts[x].phase.Perform? && s.attempts[y].phase.Perform?
    requires var s := Run(Init(portal), actions);
             s.now < s.attempts[x].fence && s.now < s.attempts[y].fence
    requires var s := Run(Init(portal), actions);
             var a, b := s.attempts[x], s.attempts[y];
             || (a.phase.write.RevocationBatch? && b.phase.write.RevocationBatch? && x.source == y.source)
             || (!a.phase.write.RevocationBatch? && !b.phase.write.RevocationBatch?
                 && a.event.change.ProjectionChange? && b.event.change.ProjectionChange? && a.event.Entity() == b.event.Entity())
    ensures x == y
  {
    Reachable(portal, actions);
    var s := Run(Init(portal), actions);
    assert AttemptOk(s.tables, s.now, s.attempts[x]) && AttemptOk(s.tables, s.now, s.attempts[y]);
    assert Fenced(s.tables, s.now, s.attempts[x]) && Fenced(s.tables, s.now, s.attempts[y]);
  }

  // ---------- versions only move forward ----------

  /** `after` is `before`, or names an event with a strictly larger source timestamp. */
  predicate Forwards(before: Option<Version>, after: Option<Version>) {
    before == after || (after.Some? && (before.Some? ==> before.value.updatedAt < after.value.updatedAt))
  }

  lemma StatementMovesForwards(s: State, a: Attempt, k: EntityKey)
    requires Before(s, a)
    ensures Forwards(LatestVersion(s.tables, k), LatestVersion(Effect(s, a), k))
  {
    if a.phase == Perform(VersionWrite) && s.now < a.fence { WriterOwns(s, a); }
  }

  lemma StepMovesForwards(s: State, action: Action, k: EntityKey)
    requires Inv(s)
    ensures Forwards(LatestVersion(s.tables, k), LatestVersion(Next(s, action).tables, k))
  {
    if action.Advance? && Live(s, action.key) { StatementMovesForwards(s, s.attempts[action.key], k); }
  }

  lemma RunMovesForwards(portal: set<EntityKey>, actions: seq<Action>, last: Action, k: EntityKey)
    ensures Forwards(LatestVersion(TablesAfter(portal, actions), k), LatestVersion(TablesAfter(portal, actions + [last]), k))
  {
    Reachable(portal, actions);
    assert (actions + [last])[..|actions|] == actions;
    StepMovesForwards(Run(Init(portal), actions), last, k);
  }

  /** Over any run an entity's recorded timestamp never decreases, and on a tie the event applied first stays. */
  lemma {:induction false} VersionsNeverGoBack(portal: set<EntityKey>, actions: seq<Action>, more: seq<Action>, k: EntityKey)
    ensures Forwards(LatestVersion(TablesAfter(portal, actions), k), LatestVersion(TablesAfter(portal, actions + more), k))
  {
    if more == [] {
      assert actions + more == actions;
    } else {
      var init, last := more[..|more| - 1], more[|more| - 1];
      VersionsNeverGoBack(portal, actions, init, k);
      RunMovesForwards(portal, actions + init, last, k);
      assert actions + init + [last] == actions + more;
    }
  }

  /** A filed receipt keeps its payload, and a terminal one stays terminal: no retry applies it again. */
  predicate StillFiled(t: Tables, t': Tables, key: EventKey) {
    key in t.receipts ==>
      && key in t'.receipts && t'.receipts[key].body == t.receipts[key].body
      && (t.receipts[key].status.Terminal() ==> t'.receipts[key].status.Terminal())
  }

  lemma OwnReceiptStays(s: State, a: Attempt)
    requires Fits(a.event.change, a.phase) && ReceiptHeld(s.tables, a)
    ensures StillFiled(s.tables, Effect(s, a), a.event.key)
  {
  }

  lemma StepKeepsReceipts(s: State, action: Action, key: EventKey)
    requires Inv(s)
    ensures StillFiled(s.tables, Next(s, action).tables, key)
  {
    ActionEffect(s, action);
    if action.Advance? && Live(s, action.key) && key == action.key {
      assert AttemptOk(s.tables, s.now, s.attempts[key]);
      OwnReceiptStays(s, s.attempts[key]);
    }
  }

  lemma RunKeepsReceipts(portal: set<EntityKey>, actions: seq<Action>, last: Action, key: EventKey)
    ensures StillFiled(TablesAfter(portal, actions), TablesAfter(portal, actions + [last]), key)
  {
    Reachable(portal, actions);
    assert (actions + [last])[..|actions|] == actions;
    StepKeepsReceipts(Run(Init(portal), actions), last, key);
  }

  lemma {:induction false} ReceiptsStayFiled(portal: set<EntityKey>, actions: seq<Action>, more: seq<Action>, key: EventKey)
    ensures StillFiled(TablesAfter(portal, actions), TablesAfter(portal, actions + more), key)
  {
    if more == [] {
      assert actions + more == actions;
    } else {
      var init, last := more[..|more| - 1], more[|more| - 1];
      ReceiptsStayFiled(portal, actions, init, key);
      RunKeepsReceipts(portal, actions + init, last, key);
      assert actions + init + [last] == actions + more;
    }
  }

  /** Portal and delivery events are completed only after the receiving service accepted them. */
  lemma CompletedOnlyAfterForward(portal: set<EntityKey>, actions: seq<Action>, key: EventKey)
    requires key in TablesAfter(portal, actions).receipts
    requires var r := TablesAfter(portal, actions).receipts[key];
             r.status.Completed? && (r.body.change.PortalChange? || r.body.change.DeliveryIntent?)
    ensures key in TablesAfter(portal, actions).forwarded
  {
    Reachable(portal, actions);
    var t := TablesAfter(portal, actions);
    assert ReceiptOk(t, key, t.receipts[key]);
  }

  // ---------- convergence ----------

  /** The events about `k` that have been accepted into the receipt table. */
  function DeliveredAbout(t: Tables, k: EntityKey): set<Event> {
    set key | key in t.receipts && t.receipts[key].body.About(k) :: t.receipts[key].body
  }

  predicate Settled(t: Tables, k: EntityKey) {
    forall key :: key in t.receipts && t.receipts[key].body.About(k) ==> t.receipts[key].status.Terminal()
  }

  /** `e` is a delivered event about `k` that no delivered event about `k` is newer than. */
  predicate IsNewest(events: set<Event>, e: Event) {
    e in events && e.change.ProjectionChange? &&
    forall other :: other in events && other.change.ProjectionChange? ==> other.change.updatedAt <= e.change.updatedAt
  }

  /** Once every receipt about an entity is terminal, the version table names a newest delivered
      event, and the mirrored rows in both databases are exactly what that event writes. */
  lemma Convergence(portal: set<EntityKey>, actions: seq<Action>, k: EntityKey) returns (newest: Option<Event>)
    requires Settled(TablesAfter(portal, actions), k)
    ensures newest.None? <==> DeliveredAbout(TablesAfter(portal, actions), k) == {}
    ensures newest.None? ==> k !in TablesAfter(portal, actions).versions && k !in TablesAfter(portal, actions).rows
    ensures newest.Some? ==>
              var t, e := TablesAfter(portal, actions), newest.value;
              && IsNewest(DeliveredAbout(t, k), e) && e.About(k)
              && LatestVersion(t, k) == Some(Version(e.change.updatedAt, e.key.id))
              && (k.kind.OwnsItsRow() ==> k in t.rows && t.rows[k] == RowOf(e))
              && (k.source == PRIMARY_SOURCE && k.kind.Mirrored() && k in t.portal ==> t.portal[k] == Projected(RowOf(e)))
  {
    Reachable(portal, actions);
    var t := TablesAfter(portal, actions);
    assert VersionOk(t, k);
    forall key | key in t.receipts && t.receipts[key].body.About(k)
      ensures Reached(t, k, t.receipts[key].body.change.updatedAt)
    {
      assert ReceiptOk(t, key, t.receipts[key]);
    }
    if k in t.rows { assert RowOk(t, k, t.rows[k]); }
    if k in t.versions {
      var e := Named(t, k, t.versions[k].eventId).body;
      newest := Some(e);
      assert e in DeliveredAbout(t, k);
    } else {
      newest := None;
    }
  }

  predicate DistinctTimes(events: set<Event>) {
    forall x, y ::
      (x in events && y in events && x.change.ProjectionChange? && y.change.ProjectionChange?
       && x.change.updatedAt == y.change.updatedAt)
      ==> x == y
  }

  lemma StatementKeepsEnrolment(s: State, a: Attempt)
    requires Fits(a.event.change, a.phase)
    ensures Effect(s, a).portal.Keys == s.tables.portal.Keys
  {
    match a.phase
    case Perform(w) =>
    case _ =>
  }

  /** No event enrols a delivery row and none removes one. */
  lemma {:induction false} EnrolmentStays(portal: set<EntityKey>, actions: seq<Action>)
    ensures TablesAfter(portal, actions).portal.Keys == portal
  {
    if actions != [] {
      var init, last := actions[..|actions| - 1], actions[|actions| - 1];
      EnrolmentStays(portal, init);
      var s := Run(Init(portal), init);
      if last.Advance? && Live(s, last.key) { StatementKeepsEnrolment(s, s.attempts[last.key]); }
    }
  }

  /** A delivery row enrolled at the start is there after every run. Once the entity is settled, a primary mirrored
      one carries what a newest delivered event writes, and every other one is as it was. */
  lemma SettledPortalRow(portal: set<EntityKey>, actions: seq<Action>, k: EntityKey) returns (newest: Option<Event>)
    requires k in portal && Settled(TablesAfter(portal, actions), k)
    ensures k in TablesAfter(portal, actions).portal
    ensures newest.None? <==> DeliveredAbout(TablesAfter(portal, actions), k) == {}
    ensures newest.Some? ==>
              && IsNewest(DeliveredAbout(TablesAfter(portal, actions), k), newest.value)
              && LatestVersion(TablesAfter(portal, actions), k) == Some(Version(newest.value.change.updatedAt, newest.value.key.id))
    ensures TablesAfter(portal, actions).portal[k] ==
              if newest.Some? && k.source == PRIMARY_SOURCE && k.kind.Mirrored() then Projected(RowOf(newest.value)) else Untouched
  {
    newest := Convergence(portal, actions, k);
    EnrolmentStays(portal, actions);
    Reachable(portal, actions);
    var t := TablesAfter(portal, actions);
    if t.portal[k].Projected? {
      assert RowOk(t, k, t.portal[k].row);
      assert Named(t, k, t.portal[k].row.marker).body in DeliveredAbout(t, k);
    }
  }

  /** Both runs recorded the same version of the entity and mirror it by the same rows in both databases. */
  predicate SameMirror(t: Tables, u: Tables, k: EntityKey) {
    && LatestVersion(t, k) == LatestVersion(u, k)
    && (k in t.rows <==> k in u.rows) && (k in t.rows ==> t.rows[k] == u.rows[k])
    && (k in t.portal <==> k in u.portal) && (k in t.portal ==> t.portal[k] == u.portal[k])
  }

  /** Two runs that accepted the same events about an entity, in any order and with any crashes, record the
      same source timestamp; unless two of the events share a timestamp, version and rows are the same too. */
  lemma OrderDoesNotMatter(portal: set<EntityKey>, one: seq<Action>, two: seq<Action>, k: EntityKey)
    requires Settled(TablesAfter(portal, one), k) && Settled(TablesAfter(portal, two), k)
    requires DeliveredAbout(TablesAfter(portal, one), k) == DeliveredAbout(TablesAfter(portal, two), k)
    ensures var v, w := LatestVersion(TablesAfter(portal, one), k), LatestVersion(TablesAfter(portal, two), k);
            (v.Some? <==> w.Some?) && (v.Some? ==> v.value.updatedAt == w.value.updatedAt)
    ensures DistinctTimes(DeliveredAbout(TablesAfter(portal, one), k)) ==>
              SameMirror(TablesAfter(portal, one), TablesAfter(portal, two), k)
  {
    var x := Convergence(portal, one, k);
    var y := Convergence(portal, two, k);
    EnrolmentStays(portal, one);
    EnrolmentStays(portal, two);
    if x.Some? {
      assert x.value.change.updatedAt == y.value.change.updatedAt;
      Reachable(portal, one);
      Reachable(portal, two);
    }
    if k in portal && DistinctTimes(DeliveredAbout(TablesAfter(portal, one), k)) {
      var a := SettledPortalRow(portal, one, k);
      var b := SettledPortalRow(portal, two, k);
      assert a == b;
    }
  }
}
