/**
 * The ingress code itself, run by one worker that nobody interrupts: the lease
 * helpers, the locked body with its early returns and its finally blocks, and
 * the completion of the receipt. Every method is proved to take exactly the
 * steps of the protocol, so the protocol's theorems are about this code.
 */
module ProjectionStore {
  import opened ProjectionTables
  import opened ProjectionProtocol
  import opened Wrappers

  /** The write that a step of the attempt at `key` is, if it is one and comes before its lease runs out. */
  function WriteBy(s: State, step: Action, key: EventKey): seq<Write> {
    if step.Advance? && step.key == key && key in s.attempts && s.attempts[key].phase.Perform? && s.now < s.attempts[key].fence
    then [s.attempts[key].phase.write]
    else []
  }

  datatype Log = Log(state: State, writes: seq<Write>)

  /** A run of statements together with all writes of the attempt at `key`, in their order. */
  function Logged(s: State, steps: seq<Action>, key: EventKey): Log {
    if steps == [] then Log(s, []) else
      var log, last := Logged(s, steps[..|steps| - 1], key), steps[|steps| - 1];
      Log(Next(log.state, last), log.writes + WriteBy(log.state, last, key))
  }

  /** `steps` is a run of statements of the attempt at `key` from `s` to `s'`, and `writes` is what it writes. */
  ghost predicate Walks(s: State, steps: seq<Action>, s': State, key: EventKey, writes: seq<Write>) {
    Logged(s, steps, key) == Log(s', writes) && forall i :: 0 <= i < |steps| ==> (steps[i].Advance? || steps[i].Fail?) && steps[i].key == key
  }

  lemma {:induction false} WalkIsRun(s: State, steps: seq<Action>, s': State, key: EventKey, writes: seq<Write>)
    requires Walks(s, steps, s', key, writes)
    ensures Run(s, steps) == s'
  {
    if steps != [] {
      var log := Logged(s, steps[..|steps| - 1], key);
      WalkIsRun(s, steps[..|steps| - 1], log.state, key, log.writes);
    }
  }

  /** What a primary client, organization or project has written in the delivery database: its row there and then every
      batch of the revocation pass. */
  function MirrorWrites(event: Event, batches: nat): seq<Write> {
    if event.WritesPortal() then [PortalWrite] + seq(batches, _ => RevocationBatch) else []
  }

  /** Everything that applying an event writes: its row, its mirror in the delivery database and the version last of all. */
  function Plan(event: Event, batches: nat): seq<Write> {
    [RowWrite] + (MirrorWrites(event, batches) + [VersionWrite])
  }

  lemma WalkOn(s: State, steps: seq<Action>, mid: State, action: Action, key: EventKey, writes: seq<Write>)
    requires Walks(s, steps, mid, key, writes) && (action.Advance? || action.Fail?) && action.key == key
    ensures Walks(s, steps + [action], Next(mid, action), key, writes + WriteBy(mid, action, key))
    ensures WriteBy(mid, action, key) == [] ==> Walks(s, steps + [action], Next(mid, action), key, writes)
  {
    assert (steps + [action])[..|steps|] == steps;
    assert writes + [] == writes;
  }

  lemma WalkOnce(s: State, action: Action, key: EventKey)
    requires (action.Advance? || action.Fail?) && action.key == key
    ensures Walks(s, [action], Next(s, action), key, WriteBy(s, action, key))
  {
    assert [action][..0] == [];
  }

  lemma {:induction false} WalkBoth(s: State, one: seq<Action>, mid: State, two: seq<Action>, end: State, key: EventKey,
                                    first: seq<Write>, second: seq<Write>)
    requires Walks(s, one, mid, key, first) && Walks(mid, two, end, key, second)
    ensures Walks(s, one + two, end, key, first + second)
  {
    if two == [] {
      assert one + two == one && first + second == first;
    } else {
      var init, last := two[..|two| - 1], two[|two| - 1];
      var log := LastStep(mid, two, end, key, second);
      WalkBoth(s, one, mid, init, log.state, key, first, log.writes);
      Regroup(one, init, [last], two);
      Regroup(first, log.writes, WriteBy(log.state, last, key), second);
      WalkTo(s, one + init, one + two, log.state, last, key, first + log.writes, first + second);
    }
  }

  lemma Regroup<T>(a: seq<T>, b: seq<T>, c: seq<T>, bc: seq<T>)
    requires b + c == bc
    ensures a + b + c == a + bc
  {
    assert a + b + c == a + (b + c);
  }

  lemma WalkTo(s: State, steps: seq<Action>, all: seq<Action>, mid: State, action: Action, key: EventKey,
               writes: seq<Write>, total: seq<Write>)
    requires Walks(s, steps, mid, key, writes) && (action.Advance? || action.Fail?) && action.key == key
    requires all == steps + [action] && total == writes + WriteBy(mid, action, key)
    ensures Walks(s, all, Next(mid, action), key, total)
  {
    WalkOn(s, steps, mid, action, key, writes);
  }

  lemma WalkThrough(s: State, one: seq<Action>, mid: State, two: seq<Action>, end: State, key: EventKey,
                    first: seq<Write>, second: seq<Write>)
    requires Walks(s, one, mid, key, first) && Walks(mid, two, end, key, second)
    ensures Walks(s, one + two, end, key, first + second)
    ensures first == [] ==> Walks(s, one + two, end, key, second)
    ensures second == [] ==> Walks(s, one + two, end, key, first)
  {
    WalkBoth(s, one, mid, two, end, key, first, second);
    assert [] + second == second && first + [] == first;
  }

  lemma LastStep(s: State, steps: seq<Action>, end: State, key: EventKey, writes: seq<Write>) returns (log: Log)
    requires Walks(s, steps, end, key, writes) && steps != []
    ensures var last := steps[|steps| - 1];
            && Walks(s, steps[..|steps| - 1], log.state, key, log.writes) && (last.Advance? || last.Fail?) && last.key == key
            && end == Next(log.state, last) && writes == log.writes + WriteBy(log.state, last, key)
  {
    log := Logged(s, steps[..|steps| - 1], key);
  }

  // ---------- what becomes of a delivery ----------

  /** The receipt check ends the delivery: as a failure if another payload was filed under the same key, as a duplicate
      if this one is done with and is not a delivery intent. */
  function ReceiptVerdict(t: Tables, event: Event): Option<Outcome> {
    if event.key !in t.receipts then None
    else if t.receipts[event.key].body != event then Some(Failed)
    else if !t.receipts[event.key].status.Pending? && !event.change.DeliveryIntent? then Some(Duplicate)
    else None
  }

  predicate Superseded(t: Tables, event: Event)
    requires event.change.ProjectionChange?
  {
    event.Entity() in t.versions && event.change.updatedAt <= t.versions[event.Entity()].updatedAt
  }

  /** An earlier delivery of the event got as far as the version but not to its receipt. */
  predicate LeftUnfinished(t: Tables, event: Event)
    requires event.change.ProjectionChange?
  {
    && event.key in t.receipts && t.receipts[event.key].status.Pending?
    && event.Entity() in t.versions && t.versions[event.Entity()].eventId == event.key.id
  }

  predicate NeedsBinding(event: Event, deliveryBound: bool) {
    event.WritesPortal() && !deliveryBound
  }

  /** What becomes of a projection event once the global lease is held. */
  function LockedOutcome(t: Tables, event: Event, now: int, deliveryBound: bool): Outcome
    requires event.change.ProjectionChange?
  {
    if ReceiptVerdict(t, event).Some? then ReceiptVerdict(t, event).value
    else if !CanClaim(t, EntityLease(event.Entity()), now) then Failed
    else if Superseded(t, event) then (if LeftUnfinished(t, event) then Applied else Ignored)
    else if NeedsBinding(event, deliveryBound) then Failed
    else Applied
  }

  predicate ClaimsEntity(t: Tables, event: Event, now: int)
    requires event.change.ProjectionChange?
  {
    ReceiptVerdict(t, event).None? && CanClaim(t, EntityLease(event.Entity()), now)
  }

  /** The leases that a delivery under way has claimed and gives back. */
  function Claims(t: Tables, event: Event, now: int): set<LeaseKey>
    requires event.change.ProjectionChange?
  {
    {GlobalLease(event.key.source)} + (if ClaimsEntity(t, event, now) then {EntityLease(event.Entity())} else {})
  }

  lemma GivenBack(before: map<LeaseKey, Lease>, after: map<LeaseKey, Lease>, source: LeaseKey, entity: LeaseKey)
    requires after - {source, entity} == before - {source, entity} && entity !in after
    ensures after - {source} == before - ({source} + {entity})
  {
    assert {source} + {entity} == {source, entity} && after - {source} == after - {source, entity};
  }

  /** What is written after the row of an event. */
  function RestWrites(event: Event, deliveryBound: bool, batches: nat): seq<Write> {
    if NeedsBinding(event, deliveryBound) then [] else MirrorWrites(event, batches) + [VersionWrite]
  }

  /** What is written for an event that no other has overtaken. */
  function AllWrites(event: Event, deliveryBound: bool, batches: nat): seq<Write> {
    if NeedsBinding(event, deliveryBound) then [RowWrite] else Plan(event, batches)
  }

  /** And what is written for it: all of the plan, or nothing, or without a delivery database to write to its row alone. */
  function LockedWrites(t: Tables, event: Event, now: int, deliveryBound: bool, batches: nat): seq<Write>
    requires event.change.ProjectionChange?
  {
    if ReceiptVerdict(t, event).Some? || !CanClaim(t, EntityLease(event.Entity()), now) || Superseded(t, event) then []
    else AllWrites(event, deliveryBound, batches)
  }

  /** Holding the global lease bears on neither. */
  lemma SameVerdict(t: Tables, event: Event, now: int, deliveryBound: bool, batches: nat)
    requires event.change.ProjectionChange?
    ensures var t' := ClaimLease(t, GlobalLease(event.key.source), event.key.id, now);
            && LockedOutcome(t', event, now, deliveryBound) == LockedOutcome(t, event, now, deliveryBound)
            && LockedWrites(t', event, now, deliveryBound, batches) == LockedWrites(t, event, now, deliveryBound, batches)
            && (CanClaim(t, GlobalLease(event.key.source), now) ==>
                  t'.leases - Claims(t', event, now) == t.leases - Claims(t, event, now))
  {
  }

  /** What becomes of any other event once the global lease is held. */
  function RoutedOutcome(t: Tables, event: Event, accepted: bool): Outcome {
    if ReceiptVerdict(t, event).Some? then ReceiptVerdict(t, event).value
    else if event.change.EntitlementChange? then Ignored
    else if !accepted then Failed
    else if event.key in t.receipts && !t.receipts[event.key].status.Pending? then Duplicate
    else Applied
  }

  /** The revocation pass ends with a statement of its own, so there is always a batch. */
  type BatchCount = n: nat | n >= 1 witness 1

  class Store {
    var leases: map<LeaseKey, Lease>
    var receipts: map<EventKey, Receipt>
    var versions: map<EntityKey, Version>
    var rows: map<EntityKey, Row>
    var portal: map<EntityKey, PortalRow>
    var forwarded: set<EventKey>

    ghost function View(): Tables
      reads this
    {
      Tables(leases, receipts, versions, rows, portal, forwarded)
    }

    constructor (enrolled: set<EntityKey>)
      ensures View() == Init(enrolled).tables
    {
      leases, receipts, versions, rows := map[], map[], map[], map[];
      portal := map k | k in enrolled :: Untouched;
      forwarded := {};
    }

    // ---------- lease statements ----------

    method Claim(lease: LeaseKey, owner: string, now: int) returns (claimed: bool)
      modifies `leases
      ensures claimed == CanClaim(old(View()), lease, now)
      ensures View() == ClaimLease(old(View()), lease, owner, now)
    {
      claimed := lease !in leases || leases[lease].until <= now;
      if claimed {
        leases := leases[lease := Lease(owner, now + LEASE_SECONDS)];
      }
    }

    method Refresh(lease: LeaseKey, owner: string, now: int) returns (refreshed: bool)
      modifies `leases
      ensures refreshed == Owns(old(View()), lease, owner)
      ensures View() == RefreshLease(old(View()), lease, owner, now)
    {
      refreshed := lease in leases && leases[lease].owner == owner;
      if refreshed {
        leases := leases[lease := Lease(owner, now + LEASE_SECONDS)];
      }
    }

    method Release(lease: LeaseKey, owner: string)
      modifies `leases
      ensures View() == ReleaseLease(old(View()), lease, owner)
    {
      if lease in leases && leases[lease].owner == owner {
        leases := leases - {lease};
      }
    }

    // ---------- receipt statements ----------

    method AddPendingReceipt(event: Event)
      modifies `receipts
      ensures View() == InsertReceipt(old(View()), event)
    {
      receipts := receipts[event.key := Receipt(event, Pending)];
    }

    method UpdateStatus(key: EventKey, status: Status)
      modifies `receipts
      ensures View() == SetStatus(old(View()), key, status)
    {
      if key in receipts {
        receipts := receipts[key := receipts[key].(status := status)];
      }
    }

    // ---------- fenced writes ----------

    /** Where the attempt of `event` stands: the tables are the store's own and its phase is `phase`. */
    ghost predicate At(s: State, event: Event, phase: Phase, now: int)
      reads this
    {
      s.now == now && s.tables == View() && Live(s, event.key) && s.attempts[event.key].event == event
      && s.attempts[event.key].phase == phase
    }

    ghost predicate HoldsGlobal(event: Event)
      reads this
    {
      Owns(View(), GlobalLease(event.key.source), event.key.id)
    }

    ghost predicate HoldsBoth(event: Event)
      requires event.change.ProjectionChange?
      reads this
    {
      HoldsGlobal(event) && Owns(View(), EntityLease(event.Entity()), event.key.id)
    }

    /** The leases that a delivery of `event` has no business with. */
    ghost function OtherLeases(event: Event): map<LeaseKey, Lease>
      requires event.change.ProjectionChange?
      reads this
    {
      leases - {GlobalLease(event.key.source), EntityLease(event.Entity())}
    }

    /** refreshProjectionEntityLease: both leases, one after the other. */
    method RefreshLeases(event: Event, write: Write, now: int, ghost s: State)
      returns (refreshed: bool, ghost steps: seq<Action>, ghost s': State)
      requires event.change.ProjectionChange? && !write.RevocationBatch? && At(s, event, RefreshGlobal(write), now)
      modifies `leases
      ensures Walks(s, steps, s', event.key, [])
      ensures At(s', event, if refreshed then AfterEntityRefresh(event, write) else ReleaseEntity(Failed), now)
      ensures refreshed == old(HoldsBoth(event)) && (old(HoldsBoth(event)) ==> HoldsBoth(event))
      ensures refreshed ==> s'.attempts[event.key].fence == now + LEASE_SECONDS
      ensures OtherLeases(event) == old(OtherLeases(event))
    {
      var key := event.key;
      refreshed := Refresh(GlobalLease(key.source), key.id, now);
      steps, s' := [Advance(key, false)], Next(s, Advance(key, false));
      WalkOnce(s, Advance(key, false), key);
      if !refreshed { return; }
      refreshed := Refresh(EntityLease(event.Entity()), key.id, now);
      WalkOn(s, steps, s', Advance(key, false), key, []);
      steps, s' := steps + [Advance(key, false)], Next(s', Advance(key, false));
    }

    /** The fenced statement itself. Without a delivery database the portal write throws. */
    method PerformWrite(event: Event, write: Write, now: int, deliveryBound: bool, ghost s: State)
      returns (written: bool, ghost steps: seq<Action>, ghost s': State)
      requires event.change.ProjectionChange? && !write.RevocationBatch? && At(s, event, Perform(write), now)
      requires now < s.attempts[event.key].fence
      modifies `rows, `portal, `versions
      ensures written == !(write.PortalWrite? && NeedsBinding(event, deliveryBound))
      ensures Walks(s, steps, s', event.key, if written then [write] else [])
      ensures At(s', event, if written then AfterWrite(write, false) else ReleaseEntity(Failed), now)
    {
      var key := event.key;
      written := !write.PortalWrite? || !event.WritesPortal() || deliveryBound;
      ghost var step := if written then Advance(key, false) else Fail(key);
      steps, s' := [step], Next(s, step);
      WalkOnce(s, step, key);
      if !written { return; }
      match write {
        case RowWrite =>
          if event.change.kind.OwnsItsRow() {
            rows := rows[event.Entity() := RowOf(event)];
          }
        case PortalWrite =>
          if event.WritesPortal() && event.Entity() in portal {
            portal := portal[event.Entity() := Projected(RowOf(event))];
          }
        case VersionWrite =>
          versions := versions[event.Entity() := Version(event.change.updatedAt, key.id)];
      }
    }

    /** A refresh of both leases followed by the statement that it fences. */
    method FencedWrite(event: Event, write: Write, now: int, deliveryBound: bool, ghost s: State)
      returns (written: bool, ghost steps: seq<Action>, ghost s': State)
      requires event.change.ProjectionChange? && !write.RevocationBatch?
      requires At(s, event, RefreshGlobal(write), now)
      modifies `leases, `rows, `portal, `versions
      ensures written == (old(HoldsBoth(event)) && !(write.PortalWrite? && NeedsBinding(event, deliveryBound)))
      ensures old(HoldsBoth(event)) ==> HoldsBoth(event)
      ensures Walks(s, steps, s', event.key, if written && !(write.PortalWrite? && !event.WritesPortal()) then [write] else [])
      ensures written ==> At(s', event, if write.PortalWrite? && !event.WritesPortal() then RefreshGlobal(VersionWrite)
                                        else AfterWrite(write, false), now)
      ensures !written ==> At(s', event, ReleaseEntity(Failed), now)
      ensures OtherLeases(event) == old(OtherLeases(event))
    {
      written, steps, s' := RefreshLeases(event, write, now, s);
      if !written || (write.PortalWrite? && !event.WritesPortal()) { return; }
      ghost var more, mid := [], s';
      written, more, s' := PerformWrite(event, write, now, deliveryBound, mid);
      WalkThrough(s, steps, mid, more, s', event.key, [], if written then [write] else []);
      steps := steps + more;
    }

    /** refreshGlobalProjection ahead of a batch. */
    method RefreshForBatch(event: Event, more: bool, now: int, ghost s: State)
      returns (refreshed: bool, ghost steps: seq<Action>, ghost s': State)
      requires event.change.ProjectionChange? && At(s, event, RefreshGlobal(RevocationBatch), now)
      modifies `leases
      ensures refreshed == old(HoldsGlobal(event)) && (old(HoldsBoth(event)) ==> HoldsBoth(event)) && (refreshed ==> HoldsGlobal(event))
      ensures Walks(s, steps, s', event.key, [])
      ensures At(s', event, if refreshed then Perform(RevocationBatch) else ReleaseEntity(Failed), now)
      ensures refreshed ==> now < s'.attempts[event.key].fence
      ensures OtherLeases(event) == old(OtherLeases(event))
    {
      var key := event.key;
      refreshed := Refresh(GlobalLease(key.source), key.id, now);
      steps, s' := [Advance(key, more)], Next(s, Advance(key, more));
      WalkOnce(s, Advance(key, more), key);
    }

    /** One batch of the revocation pass; its rows live in the delivery database. */
    method FencedBatch(event: Event, more: bool, now: int, ghost s: State)
      returns (written: bool, ghost steps: seq<Action>, ghost s': State)
      requires event.change.ProjectionChange? && At(s, event, RefreshGlobal(RevocationBatch), now)
      modifies `leases
      ensures written == old(HoldsGlobal(event)) && (old(HoldsBoth(event)) ==> HoldsBoth(event)) && (written ==> HoldsGlobal(event))
      ensures Walks(s, steps, s', event.key, if written then [RevocationBatch] else [])
      ensures At(s', event, if !written then ReleaseEntity(Failed) else RefreshGlobal(if more then RevocationBatch else VersionWrite), now)
      ensures OtherLeases(event) == old(OtherLeases(event))
    {
      written, steps, s' := RefreshForBatch(event, more, now, s);
      if !written { return; }
      ghost var rest, mid := [], s';
      rest, s' := RunBatch(event, more, now, mid);
      WalkThrough(s, steps, mid, rest, s', event.key, [], [RevocationBatch]);
      steps := steps + rest;
    }

    /** The batch itself. */
    method RunBatch(event: Event, more: bool, now: int, ghost s: State) returns (ghost steps: seq<Action>, ghost s': State)
      requires event.change.ProjectionChange? && At(s, event, Perform(RevocationBatch), now) && now < s.attempts[event.key].fence
      ensures Walks(s, steps, s', event.key, [RevocationBatch])
      ensures At(s', event, RefreshGlobal(if more then RevocationBatch else VersionWrite), now)
    {
      steps, s' := [Advance(event.key, more)], Next(s, Advance(event.key, more));
      WalkOnce(s, Advance(event.key, more), event.key);
    }

    /** The loop over the batches; there is always at least one. */
    method FencedBatches(event: Event, batches: BatchCount, now: int, ghost s: State)
      returns (written: bool, ghost steps: seq<Action>, ghost s': State)
      requires event.change.ProjectionChange? && At(s, event, RefreshGlobal(RevocationBatch), now)
      modifies `leases
      ensures written == old(HoldsGlobal(event)) && (old(HoldsBoth(event)) ==> HoldsBoth(event))
      ensures Walks(s, steps, s', event.key, if written then seq(batches, _ => RevocationBatch) else [])
      ensures At(s', event, if written then RefreshGlobal(VersionWrite) else ReleaseEntity(Failed), now)
      ensures OtherLeases(event) == old(OtherLeases(event))
    {
      steps, s', written := [], s, true;
      var done := 0;
      while done < batches
        invariant 0 <= done <= batches && written && Walks(s, steps, s', event.key, seq(done, _ => RevocationBatch))
        invariant At(s', event, RefreshGlobal(if done < batches then RevocationBatch else VersionWrite), now)
        invariant (done > 0 ==> old(HoldsGlobal(event))) && (old(HoldsGlobal(event)) ==> HoldsGlobal(event))
        invariant OtherLeases(event) == old(OtherLeases(event))
        invariant (old(HoldsBoth(event)) ==> HoldsBoth(event)) && (done == 0 ==> leases == old(leases))
      {
        ghost var more, mid := [], s';
        written, more, s' := FencedBatch(event, done + 1 < batches, now, mid);
        WalkThrough(s, steps, mid, more, s', event.key, seq(done, _ => RevocationBatch), if written then [RevocationBatch] else []);
        steps := steps + more;
        if !written { return; }
        done := done + 1;
      }
    }

    // ---------- the event handlers ----------

    /** A pending event that the version already names was applied by an earlier delivery; any other that is not newer is
        ignored. */
    method SkipStale(event: Event, receiptPending: bool, now: int, ghost s: State)
      returns (outcome: Outcome, ghost steps: seq<Action>, ghost s': State)
      requires event.change.ProjectionChange? && At(s, event, ReadVersion, now) && Superseded(View(), event)
      requires event.key in receipts && (receiptPending <==> s.attempts[event.key].prior == Some(Pending))
      modifies `receipts
      ensures Walks(s, steps, s', event.key, []) && At(s', event, ReleaseEntity(outcome), now)
      ensures receipts.Keys == old(receipts).Keys
      ensures outcome == if receiptPending && versions[event.Entity()].eventId == event.key.id then Applied else Ignored
      ensures outcome == Ignored ==> receipts[event.key].status.Terminal()
    {
      var key := event.key;
      steps, s' := [Advance(key, false)], Next(s, Advance(key, false));
      WalkOnce(s, Advance(key, false), key);
      if receiptPending && versions[event.Entity()].eventId == key.id { return Applied, steps, s'; }
      UpdateStatus(key, IgnoredStatus);
      WalkOn(s, steps, s', Advance(key, false), key, []);
      steps, s' := steps + [Advance(key, false)], Next(s', Advance(key, false));
      outcome := Ignored;
    }

    /** A newer event is read and mapped before the first of its writes. */
    ghost method ReadAndPrepare(event: Event, now: int, s: State) returns (steps: seq<Action>, s': State)
      requires event.change.ProjectionChange? && At(s, event, ReadVersion, now) && !Superseded(View(), event)
      ensures Walks(s, steps, s', event.key, []) && At(s', event, RefreshGlobal(RowWrite), now)
    {
      var key := event.key;
      steps, s' := [Advance(key, false)], Next(s, Advance(key, false));
      WalkOnce(s, Advance(key, false), key);
      WalkOn(s, steps, s', Advance(key, false), key, []);
      steps, s' := steps + [Advance(key, false)], Next(s', Advance(key, false));
    }

    /** The body of the try block that holds the entity lease. */
    method ApplyClaimed(event: Event, receiptPending: bool, now: int, deliveryBound: bool, batches: BatchCount, ghost s: State)
      returns (outcome: Outcome, ghost steps: seq<Action>, ghost s': State)
      requires event.change.ProjectionChange? && At(s, event, ReadVersion, now) && HoldsBoth(event) && event.key in receipts
      requires receiptPending <==> s.attempts[event.key].prior == Some(Pending)
      modifies this
      ensures Walks(s, steps, s', event.key, if old(Superseded(View(), event)) then [] else AllWrites(event, deliveryBound, batches))
      ensures At(s', event, ReleaseEntity(outcome), now)
      ensures receipts.Keys == old(receipts).Keys
      ensures outcome == if old(Superseded(View(), event)) then
                           (if receiptPending && old(versions)[event.Entity()].eventId == event.key.id then Applied else Ignored)
                         else if NeedsBinding(event, deliveryBound) then Failed else Applied
      ensures outcome == Ignored ==> receipts[event.key].status.Terminal()
      ensures HoldsBoth(event)
      ensures OtherLeases(event) == old(OtherLeases(event))
    {
      var k := event.Entity();
      if k in versions && event.change.updatedAt <= versions[k].updatedAt {
        outcome, steps, s' := SkipStale(event, receiptPending, now, s);
        return;
      }
      outcome, steps, s' := ApplyNewer(event, now, deliveryBound, batches, s);
    }

    method ApplyNewer(event: Event, now: int, deliveryBound: bool, batches: BatchCount, ghost s: State)
      returns (outcome: Outcome, ghost steps: seq<Action>, ghost s': State)
      requires event.change.ProjectionChange? && At(s, event, ReadVersion, now) && HoldsBoth(event) && !Superseded(View(), event)
      modifies `leases, `rows, `portal, `versions
      ensures Walks(s, steps, s', event.key, AllWrites(event, deliveryBound, batches)) && At(s', event, ReleaseEntity(outcome), now)
      ensures outcome == if NeedsBinding(event, deliveryBound) then Failed else Applied
      ensures HoldsBoth(event) && OtherLeases(event) == old(OtherLeases(event))
    {
      steps, s' := ReadAndPrepare(event, now, s);
      ghost var more, start := [], s';
      outcome, more, s' := WriteEverything(event, now, deliveryBound, batches, s');
      WalkThrough(s, steps, start, more, s', event.key, [], AllWrites(event, deliveryBound, batches));
      steps := steps + more;
    }

    /** Row, portal row, the revocation batches and, last of all, the version. */
    method WriteEverything(event: Event, now: int, deliveryBound: bool, batches: BatchCount, ghost s: State)
      returns (outcome: Outcome, ghost steps: seq<Action>, ghost s': State)
      requires event.change.ProjectionChange? && At(s, event, RefreshGlobal(RowWrite), now) && HoldsBoth(event)
      modifies `leases, `rows, `portal, `versions
      ensures Walks(s, steps, s', event.key, AllWrites(event, deliveryBound, batches))
      ensures At(s', event, ReleaseEntity(outcome), now)
      ensures outcome == if NeedsBinding(event, deliveryBound) then Failed else Applied
      ensures OtherLeases(event) == old(OtherLeases(event))
      ensures HoldsBoth(event)
    {
      outcome := Failed;
      var written;
      ghost var more, mid;
      written, steps, s' := FencedWrite(event, RowWrite, now, deliveryBound, s);
      mid := s';
      outcome, more, s' := MirrorAndRecord(event, now, deliveryBound, batches, mid);
      WalkThrough(s, steps, mid, more, s', event.key, [RowWrite], RestWrites(event, deliveryBound, batches));
      steps := steps + more;
    }

    /** The portal row with the revocation batches behind it, and then the version. */
    method MirrorAndRecord(event: Event, now: int, deliveryBound: bool, batches: BatchCount, ghost s: State)
      returns (outcome: Outcome, ghost steps: seq<Action>, ghost s': State)
      requires event.change.ProjectionChange? && At(s, event, RefreshGlobal(PortalWrite), now) && HoldsBoth(event)
      modifies `leases, `rows, `portal, `versions
      ensures Walks(s, steps, s', event.key, RestWrites(event, deliveryBound, batches))
      ensures At(s', event, ReleaseEntity(outcome), now)
      ensures outcome == if NeedsBinding(event, deliveryBound) then Failed else Applied
      ensures OtherLeases(event) == old(OtherLeases(event))
      ensures HoldsBoth(event)
    {
      var written;
      ghost var more, mid;
      written, steps, s' := MirrorAndRevoke(event, now, deliveryBound, batches, s);
      if !written { return Failed, steps, s'; }
      mid := s';
      written, more, s' := FencedWrite(event, VersionWrite, now, deliveryBound, mid);
      WalkThrough(s, steps, mid, more, s', event.key, MirrorWrites(event, batches), [VersionWrite]);
      steps := steps + more;
      outcome := Applied;
    }

    method MirrorAndRevoke(event: Event, now: int, deliveryBound: bool, batches: BatchCount, ghost s: State)
      returns (written: bool, ghost steps: seq<Action>, ghost s': State)
      requires event.change.ProjectionChange? && At(s, event, RefreshGlobal(PortalWrite), now) && HoldsBoth(event)
      modifies `leases, `rows, `portal, `versions
      ensures written == !NeedsBinding(event, deliveryBound) && HoldsBoth(event)
      ensures Walks(s, steps, s', event.key, if written then MirrorWrites(event, batches) else [])
      ensures At(s', event, if written then RefreshGlobal(VersionWrite) else ReleaseEntity(Failed), now)
      ensures OtherLeases(event) == old(OtherLeases(event))
    {
      written, steps, s' := FencedWrite(event, PortalWrite, now, deliveryBound, s);
      if !written || !event.WritesPortal() { return; }
      ghost var more, mid := [], s';
      written, more, s' := FencedBatches(event, batches, now, mid);
      WalkThrough(s, steps, mid, more, s', event.key, [PortalWrite], seq(batches, _ => RevocationBatch));
      steps := steps + more;
    }

    /** The receipt check: it settles the delivery, or the event is on file; a delivery intent goes on even if it was
        completed before. */
    method FileReceipt(event: Event, now: int, ghost s: State)
      returns (verdict: Option<Outcome>, prior: Option<Status>, ghost steps: seq<Action>, ghost s': State)
      requires At(s, event, ReadReceipt, now)
      modifies `receipts
      ensures Walks(s, steps, s', event.key, [])
      ensures At(s', event, if verdict.Some? then ReleaseGlobal(verdict.value) else AfterReceipt(event.change), now)
      ensures verdict == ReceiptVerdict(old(View()), event)
      ensures receipts == if event.key in old(receipts) then old(receipts) else old(receipts)[event.key := Receipt(event, Pending)]
      ensures verdict.None? ==> prior == s'.attempts[event.key].prior
                                && prior == if event.key in old(receipts) then Some(old(receipts)[event.key].status) else None
    {
      var key := event.key;
      verdict, prior := None, None;
      steps, s' := [Advance(key, false)], Next(s, Advance(key, false));
      WalkOnce(s, Advance(key, false), key);
      if key in receipts {
        if receipts[key].body != event { return Some(Failed), prior, steps, s'; }
        prior := Some(receipts[key].status);
        if !receipts[key].status.Pending? && !event.change.DeliveryIntent? { return Some(Duplicate), prior, steps, s'; }
      } else {
        AddPendingReceipt(event);
        WalkOn(s, steps, s', Advance(key, false), key, []);
        steps, s' := steps + [Advance(key, false)], Next(s', Advance(key, false));
      }
    }

    method ClaimEntityLease(event: Event, now: int, ghost s: State) returns (claimed: bool, ghost steps: seq<Action>, ghost s': State)
      requires event.change.ProjectionChange? && At(s, event, ClaimEntity, now)
      modifies `leases
      ensures Walks(s, steps, s', event.key, [])
      ensures At(s', event, if claimed then ReadVersion else ReleaseGlobal(Failed), now)
      ensures claimed == CanClaim(old(View()), EntityLease(event.Entity()), now)
      ensures View() == ClaimLease(old(View()), EntityLease(event.Entity()), event.key.id, now)
      ensures s'.attempts[event.key].prior == s.attempts[event.key].prior
    {
      claimed := Claim(EntityLease(event.Entity()), event.key.id, now);
      steps, s' := [Advance(event.key, false)], Next(s, Advance(event.key, false));
      WalkOnce(s, Advance(event.key, false), event.key);
    }

    method ReleaseEntityLease(event: Event, outcome: Outcome, now: int, ghost s: State) returns (ghost steps: seq<Action>, ghost s': State)
      requires event.change.ProjectionChange? && At(s, event, ReleaseEntity(outcome), now)
      modifies `leases
      ensures Walks(s, steps, s', event.key, [])
      ensures At(s', event, ReleaseGlobal(outcome), now)
      ensures OtherLeases(event) == old(OtherLeases(event))
      ensures old(HoldsBoth(event)) ==> HoldsGlobal(event) && EntityLease(event.Entity()) !in leases
    {
      Release(EntityLease(event.Entity()), event.key.id);
      steps, s' := [Advance(event.key, false)], Next(s, Advance(event.key, false));
      WalkOnce(s, Advance(event.key, false), event.key);
    }

    /** The try block that holds the entity lease, and its finally block. */
    method ApplyAndRelease(event: Event, receiptPending: bool, now: int, deliveryBound: bool, batches: BatchCount, ghost s: State)
      returns (outcome: Outcome, ghost steps: seq<Action>, ghost s': State)
      requires event.change.ProjectionChange? && At(s, event, ReadVersion, now) && HoldsBoth(event) && event.key in receipts
      requires receiptPending <==> s.attempts[event.key].prior == Some(Pending)
      modifies this
      ensures Walks(s, steps, s', event.key, if old(Superseded(View(), event)) then [] else AllWrites(event, deliveryBound, batches))
      ensures At(s', event, ReleaseGlobal(outcome), now)
      ensures receipts.Keys == old(receipts).Keys
      ensures outcome == if old(Superseded(View(), event)) then
                           (if receiptPending && old(versions)[event.Entity()].eventId == event.key.id then Applied else Ignored)
                         else if NeedsBinding(event, deliveryBound) then Failed else Applied
      ensures outcome == Ignored ==> receipts[event.key].status.Terminal()
      ensures HoldsGlobal(event) && EntityLease(event.Entity()) !in leases
      ensures OtherLeases(event) == old(OtherLeases(event))
    {
      ghost var writes := if Superseded(View(), event) then [] else AllWrites(event, deliveryBound, batches);
      outcome, steps, s' := ApplyClaimed(event, receiptPending, now, deliveryBound, batches, s);
      ghost var more, mid := [], s';
      more, s' := ReleaseEntityLease(event, outcome, now, mid);
      WalkThrough(s, steps, mid, more, s', event.key, writes, []);
      steps := steps + more;
    }

    /** The receipt check and the claim of the entity lease. */
    method FileAndClaim(event: Event, now: int, ghost s: State)
      returns (ended: Option<Outcome>, prior: Option<Status>, ghost steps: seq<Action>, ghost s': State)
      requires event.change.ProjectionChange? && At(s, event, ReadReceipt, now) && HoldsGlobal(event)
      modifies `receipts, `leases
      ensures Walks(s, steps, s', event.key, [])
      ensures At(s', event, if ended.Some? then ReleaseGlobal(ended.value) else ReadVersion, now)
      ensures var t := old(View());
              ended == if ReceiptVerdict(t, event).Some? then ReceiptVerdict(t, event)
                       else if CanClaim(t, EntityLease(event.Entity()), now) then None else Some(Failed)
      ensures event.key in receipts && (event.key in old(receipts) ==> receipts[event.key] == old(receipts)[event.key])
      ensures ended.None? ==> HoldsBoth(event) && prior == s'.attempts[event.key].prior
                              && prior == if event.key in old(receipts) then Some(old(receipts)[event.key].status) else None
      ensures HoldsGlobal(event) && (ended.Some? ==> leases == old(leases))
      ensures OtherLeases(event) == old(OtherLeases(event))
    {
      ended, prior, steps, s' := FileReceipt(event, now, s);
      if ended.Some? { return; }
      var claimed;
      ghost var more, mid := [], s';
      claimed, more, s' := ClaimEntityLease(event, now, mid);
      WalkThrough(s, steps, mid, more, s', event.key, [], []);
      steps := steps + more;
      if !claimed { ended := Some(Failed); }
    }

    /** applyProjectionEventLocked: the receipt check, the entity lease and the finally block around the body. */
    method ApplyLocked(event: Event, now: int, deliveryBound: bool, batches: BatchCount, ghost s: State)
      returns (outcome: Outcome, ghost steps: seq<Action>, ghost s': State)
      requires event.change.ProjectionChange? && At(s, event, ReadReceipt, now) && HoldsGlobal(event)
      modifies this
      ensures Walks(s, steps, s', event.key, LockedWrites(old(View()), event, now, deliveryBound, batches))
      ensures At(s', event, ReleaseGlobal(outcome), now)
      ensures outcome == LockedOutcome(old(View()), event, now, deliveryBound)
      ensures HoldsGlobal(event)
      ensures leases - {GlobalLease(event.key.source)} == old(leases) - Claims(old(View()), event, now)
      ensures outcome != Failed ==> event.key in receipts
      ensures outcome == Ignored || outcome == Duplicate ==> receipts[event.key].status.Terminal()
    {
      var ended, prior;
      ended, prior, steps, s' := FileAndClaim(event, now, s);
      if ended.Some? {
        assert {GlobalLease(event.key.source)} + {} == {GlobalLease(event.key.source)};
        return ended.value, steps, s';
      }
      ghost var more, mid := [], s';
      ghost var writes := if Superseded(View(), event) then [] else AllWrites(event, deliveryBound, batches);
      outcome, more, s' := ApplyAndRelease(event, prior == Some(Pending), now, deliveryBound, batches, mid);
      WalkThrough(s, steps, mid, more, s', event.key, [], writes);
      steps := steps + more;
      GivenBack(old(leases), leases, GlobalLease(event.key.source), EntityLease(event.Entity()));
    }

    method ClaimGlobalLease(event: Event, now: int, ghost s: State) returns (claimed: bool, ghost steps: seq<Action>, ghost s': State)
      requires At(s, event, ClaimGlobal, now)
      modifies `leases
      ensures Walks(s, steps, s', event.key, [])
      ensures claimed == CanClaim(old(View()), GlobalLease(event.key.source), now)
      ensures View() == ClaimLease(old(View()), GlobalLease(event.key.source), event.key.id, now)
      ensures if claimed then At(s', event, ReadReceipt, now) else Ended(s', event, now)
    {
      claimed := Claim(GlobalLease(event.key.source), event.key.id, now);
      steps, s' := [Advance(event.key, false)], Next(s, Advance(event.key, false));
      WalkOnce(s, Advance(event.key, false), event.key);
    }

    /** Gives the global lease back and, if the event was applied, completes its receipt. */
    method FinishEvent(event: Event, outcome: Outcome, now: int, ghost s: State) returns (ghost steps: seq<Action>, ghost s': State)
      requires At(s, event, ReleaseGlobal(outcome), now)
      modifies `leases, `receipts
      ensures Walks(s, steps, s', event.key, []) && Ended(s', event, now)
      ensures old(HoldsGlobal(event)) ==> leases == old(leases) - {GlobalLease(event.key.source)}
      ensures receipts.Keys == old(receipts).Keys
      ensures event.key in receipts ==> if outcome == Applied then receipts[event.key].status.Terminal()
                                        else receipts[event.key] == old(receipts)[event.key]
    {
      var key := event.key;
      Release(GlobalLease(key.source), key.id);
      steps, s' := [Advance(key, false)], Next(s, Advance(key, false));
      WalkOnce(s, Advance(key, false), key);
      if outcome == Applied {
        UpdateStatus(key, Completed);
        WalkOn(s, steps, s', Advance(key, false), key, []);
        steps, s' := steps + [Advance(key, false)], Next(s', Advance(key, false));
      }
    }

    /** The attempt is over and the tables are the store's. */
    ghost predicate Ended(s: State, event: Event, now: int)
      reads this
    {
      event.key !in s.attempts && s.now == now && s.tables == View()
    }

    /** The locked body, and the end of the delivery under the global lease. */
    method ApplyAndFinish(event: Event, now: int, deliveryBound: bool, batches: BatchCount, ghost s: State)
      returns (outcome: Outcome, ghost steps: seq<Action>, ghost s': State)
      requires event.change.ProjectionChange? && At(s, event, ReadReceipt, now) && HoldsGlobal(event)
      modifies this
      ensures Walks(s, steps, s', event.key, LockedWrites(old(View()), event, now, deliveryBound, batches)) && Ended(s', event, now)
      ensures outcome == LockedOutcome(old(View()), event, now, deliveryBound)
      ensures leases == old(leases) - Claims(old(View()), event, now)
      ensures outcome != Failed ==> event.key in receipts && receipts[event.key].status.Terminal()
    {
      ghost var writes := LockedWrites(View(), event, now, deliveryBound, batches);
      outcome, steps, s' := ApplyLocked(event, now, deliveryBound, batches, s);
      ghost var more, mid := [], s';
      more, s' := FinishEvent(event, outcome, now, mid);
      WalkThrough(s, steps, mid, more, s', event.key, writes, []);
      steps := steps + more;
    }

    /** One delivery of a projection event, from the global lease to the completed receipt. What becomes of it and what
        it writes are settled by the tables as it finds them. */
    method HandleProjection(event: Event, now: int, deliveryBound: bool, batches: BatchCount, ghost s: State)
      returns (outcome: Outcome, ghost steps: seq<Action>, ghost s': State)
      requires event.change.ProjectionChange? && At(s, event, ClaimGlobal, now)
      modifies this
      ensures Run(s, steps) == s' && Ended(s', event, now)
      ensures var t := old(View());
              Walks(s, steps, s', event.key,
                    if CanClaim(t, GlobalLease(event.key.source), now) then LockedWrites(t, event, now, deliveryBound, batches) else [])
      ensures var t := old(View());
              outcome == if CanClaim(t, GlobalLease(event.key.source), now) then LockedOutcome(t, event, now, deliveryBound) else Failed
      ensures var t := old(View());
              leases == if CanClaim(t, GlobalLease(event.key.source), now) then old(leases) - Claims(t, event, now) else old(leases)
      ensures outcome != Failed ==> event.key in receipts && receipts[event.key].status.Terminal()
    {
      ghost var t := View();
      var claimed;
      claimed, steps, s' := ClaimGlobalLease(event, now, s);
      ghost var writes := [];
      if claimed {
        SameVerdict(t, event, now, deliveryBound, batches);
        writes := LockedWrites(t, event, now, deliveryBound, batches);
        ghost var more, mid := [], s';
        outcome, more, s' := ApplyAndFinish(event, now, deliveryBound, batches, mid);
        WalkThrough(s, steps, mid, more, s', event.key, [], writes);
        steps := steps + more;
      } else {
        outcome := Failed;
      }
      WalkIsRun(s, steps, s', event.key, writes);
    }

    // ---------- the other event types ----------

    /** The hand-off to another service, which accepts the event or throws. */
    method ForwardEvent(event: Event, prior: Option<Status>, accepted: bool, now: int, ghost s: State)
      returns (outcome: Outcome, ghost steps: seq<Action>, ghost s': State)
      requires At(s, event, Forward, now) && s.attempts[event.key].prior == prior
      modifies `forwarded
      ensures Walks(s, steps, s', event.key, []) && At(s', event, ReleaseGlobal(outcome), now)
      ensures forwarded == old(forwarded) + (if accepted then {event.key} else {})
      ensures outcome == if !accepted then Failed else if prior.Some? && prior.value.Terminal() then Duplicate else Applied
    {
      var step := if accepted then Advance(event.key, false) else Fail(event.key);
      steps, s' := [step], Next(s, step);
      WalkOnce(s, step, event.key);
      if !accepted { return Failed, steps, s'; }
      forwarded := forwarded + {event.key};
      outcome := if prior.Some? && !prior.value.Pending? then Duplicate else Applied;
    }

    method SetIgnored(event: Event, now: int, ghost s: State) returns (ghost steps: seq<Action>, ghost s': State)
      requires event.change.EntitlementChange? && At(s, event, IgnoreReceipt, now) && event.key in receipts
      modifies `receipts
      ensures Walks(s, steps, s', event.key, []) && At(s', event, ReleaseGlobal(Ignored), now)
      ensures event.key in receipts && receipts[event.key].status == IgnoredStatus
    {
      UpdateStatus(event.key, IgnoredStatus);
      steps, s' := [Advance(event.key, false)], Next(s, Advance(event.key, false));
      WalkOnce(s, Advance(event.key, false), event.key);
    }

    /** The body under the global lease of a portal event, a delivery intent or an entitlement event. */
    method RouteLocked(event: Event, accepted: bool, now: int, ghost s: State)
      returns (outcome: Outcome, ghost steps: seq<Action>, ghost s': State)
      requires !event.change.ProjectionChange? && At(s, event, ReadReceipt, now)
      modifies this
      ensures Walks(s, steps, s', event.key, []) && At(s', event, ReleaseGlobal(outcome), now)
      ensures outcome == RoutedOutcome(old(View()), event, accepted)
      ensures outcome != Failed ==> event.key in receipts
      ensures outcome == Ignored || outcome == Duplicate ==> receipts[event.key].status.Terminal()
      ensures outcome == Applied ==> accepted && event.key in forwarded
    {
      var verdict, prior;
      verdict, prior, steps, s' := FileReceipt(event, now, s);
      if verdict.Some? { return verdict.value, steps, s'; }
      ghost var more, mid := [], s';
      if event.change.EntitlementChange? {
        more, s' := SetIgnored(event, now, mid);
        outcome := Ignored;
      } else {
        outcome, more, s' := ForwardEvent(event, prior, accepted, now, mid);
      }
      WalkThrough(s, steps, mid, more, s', event.key, [], []);
      steps := steps + more;
    }

    method RouteAndFinish(event: Event, accepted: bool, now: int, ghost s: State)
      returns (outcome: Outcome, ghost steps: seq<Action>, ghost s': State)
      requires !event.change.ProjectionChange? && At(s, event, ReadReceipt, now)
      modifies this
      ensures Walks(s, steps, s', event.key, []) && Ended(s', event, now)
      ensures outcome == RoutedOutcome(old(View()), event, accepted)
      ensures outcome != Failed ==> event.key in receipts && receipts[event.key].status.Terminal()
      ensures outcome == Applied ==> accepted && event.key in forwarded
    {
      outcome, steps, s' := RouteLocked(event, accepted, now, s);
      ghost var more, mid := [], s';
      more, s' := FinishEvent(event, outcome, now, mid);
      WalkThrough(s, steps, mid, more, s', event.key, [], []);
      steps := steps + more;
    }

    /** One delivery of such an event: its receipt is completed only after the other service has accepted it. */
    method HandleRouted(event: Event, accepted: bool, now: int, ghost s: State)
      returns (outcome: Outcome, ghost steps: seq<Action>, ghost s': State)
      requires !event.change.ProjectionChange? && At(s, event, ClaimGlobal, now)
      modifies this
      ensures Walks(s, steps, s', event.key, []) && Run(s, steps) == s' && Ended(s', event, now)
      ensures var t := old(View());
              outcome == if CanClaim(t, GlobalLease(event.key.source), now) then RoutedOutcome(t, event, accepted) else Failed
      ensures outcome != Failed ==> event.key in receipts && receipts[event.key].status.Terminal()
      ensures outcome == Applied ==> accepted && event.key in forwarded
    {
      var claimed;
      claimed, steps, s' := ClaimGlobalLease(event, now, s);
      if claimed {
        ghost var more, mid := [], s';
        outcome, more, s' := RouteAndFinish(event, accepted, now, mid);
        WalkThrough(s, steps, mid, more, s', event.key, [], []);
        steps := steps + more;
      } else {
        outcome := Failed;
      }
      WalkIsRun(s, steps, s', event.key, []);
    }
  }
}
