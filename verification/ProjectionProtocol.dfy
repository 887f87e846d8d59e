/**
 * Interleaved delivery of webhook events. A state holds the tables, the clock
 * and the program point of every attempt in flight; an action runs one
 * statement of one attempt, lets a statement fail, crashes an attempt or lets
 * time pass. A disabled action changes nothing.
 *
 * Two assumptions are part of the step relation, because the code does not
 * enforce them. Two attempts at the same event never overlap: `Deliver` is
 * disabled while one is in flight. And a write lands before the lease that was
 * refreshed just ahead of it expires: `Perform` is disabled from then on.
 */
module ProjectionProtocol {
  import opened ProjectionTables
  import opened Wrappers

  datatype Outcome = Applied | Duplicate | Ignored | Failed

  datatype Write = RowWrite | PortalWrite | RevocationBatch | VersionWrite

  datatype Phase =
    | ClaimGlobal
    | ReadReceipt
    | AddReceipt
    | ClaimEntity
    | ReadVersion
    | IgnoreReceipt
    | Prepare
    | RefreshGlobal(write: Write)
    | RefreshEntity(write: Write)
    | Perform(write: Write)
    | Forward
    | ReleaseEntity(outcome: Outcome)
    | ReleaseGlobal(outcome: Outcome)
    | CompleteReceipt
  {
    /** The entity lease has been claimed and not yet given back. */
    predicate HoldsEntity() {
      ReadVersion? || IgnoreReceipt? || Prepare? || RefreshGlobal? || RefreshEntity? || Perform? || ReleaseEntity?
    }
  }

  /** `prior` is the receipt status found on arrival, `latest` the version read,
      `fence` the expiry returned by the last lease refresh. */
  datatype Attempt = Attempt(event: Event, phase: Phase, prior: Option<Status>, latest: Option<Version>, fence: int)

  datatype State = State(now: int, tables: Tables, attempts: map<EventKey, Attempt>)

  datatype Action =
    | Deliver(event: Event)
    | Advance(key: EventKey, moreBatches: bool)
    | Fail(key: EventKey)
    | Crash(key: EventKey)
    | Tick(seconds: nat)

  function Init(portal: set<EntityKey>): State {
    State(0, Tables(map[], map[], map[], map[], map k | k in portal :: Untouched, {}), map[])
  }

  function End(s: State, key: EventKey): State {
    s.(attempts := s.attempts - {key})
  }

  function AfterReceipt(change: Change): Phase {
    match change
    case ProjectionChange(_, _, _, _, _) => ClaimEntity
    case PortalChange(_) => Forward
    case DeliveryIntent(_) => Forward
    case EntitlementChange(_) => IgnoreReceipt
  }

  function Global(a: Attempt): LeaseKey { GlobalLease(a.event.key.source) }

  /** The phase that the receipt check leads to. */
  function AfterReading(t: Tables, event: Event): Phase {
    if event.key !in t.receipts then AddReceipt
    else if t.receipts[event.key].body != event then ReleaseGlobal(Failed)
    else if t.receipts[event.key].status.Terminal() && !event.change.DeliveryIntent? then ReleaseGlobal(Duplicate)
    else AfterReceipt(event.change)
  }

  function PriorStatus(t: Tables, key: EventKey): Option<Status> {
    if key in t.receipts then Some(t.receipts[key].status) else None
  }

  /** The phase that the version check leads to. A pending event that the version already names was
      applied by an earlier attempt; any other event that is not newer is ignored. */
  function AfterVersion(t: Tables, a: Attempt): Phase
    requires a.event.change.ProjectionChange?
  {
    var latest := LatestVersion(t, a.event.Entity());
    if latest.Some? && a.event.change.updatedAt <= latest.value.updatedAt then
      if a.prior == Some(Pending) && latest.value.eventId == a.event.key.id then ReleaseEntity(Applied) else IgnoreReceipt
    else Prepare
  }

  function AfterEntityRefresh(event: Event, write: Write): Phase {
    if write.PortalWrite? && !event.WritesPortal() then RefreshGlobal(VersionWrite) else Perform(write)
  }

  function AfterWrite(write: Write, moreBatches: bool): Phase {
    match write
    case RowWrite => RefreshGlobal(PortalWrite)
    case PortalWrite => RefreshGlobal(RevocationBatch)
    case RevocationBatch => RefreshGlobal(if moreBatches then RevocationBatch else VersionWrite)
    case VersionWrite => ReleaseEntity(Applied)
  }

  /** Which phases an event of each type goes through. */
  predicate Fits(change: Change, phase: Phase) {
    match phase
    case ClaimEntity => change.ProjectionChange?
    case ReadVersion => change.ProjectionChange?
    case Prepare => change.ProjectionChange?
    case RefreshGlobal(_) => change.ProjectionChange?
    case RefreshEntity(w) => change.ProjectionChange? && !w.RevocationBatch?
    case Perform(_) => change.ProjectionChange?
    case ReleaseEntity(_) => change.ProjectionChange?
    case Forward => change.PortalChange? || change.DeliveryIntent?
    case _ => true
  }

  /** What the next statement of an attempt does to the tables. */
  function Effect(s: State, a: Attempt): Tables
    requires Fits(a.event.change, a.phase)
  {
    var t, key := s.tables, a.event.key;
    match a.phase
    case ClaimGlobal => ClaimLease(t, Global(a), key.id, s.now)
    case ReadReceipt => t
    case AddReceipt => InsertReceipt(t, a.event)
    case ClaimEntity => ClaimLease(t, EntityLease(a.event.Entity()), key.id, s.now)
    case ReadVersion => t
    case IgnoreReceipt => SetStatus(t, key, IgnoredStatus)
    case Prepare => t
    case RefreshGlobal(_) => RefreshLease(t, Global(a), key.id, s.now)
    case RefreshEntity(_) => RefreshLease(t, EntityLease(a.event.Entity()), key.id, s.now)
    case Perform(w) =>
      if s.now >= a.fence then t else
      (match w
       case RowWrite => WriteRow(t, a.event)
       case PortalWrite => WritePortalRow(t, a.event)
       case RevocationBatch => t
       case VersionWrite => WriteVersion(t, a.event))
    case Forward => t.(forwarded := t.forwarded + {key})
    case ReleaseEntity(_) => ReleaseLease(t, EntityLease(a.event.Entity()), key.id)
    case ReleaseGlobal(_) => ReleaseLease(t, Global(a), key.id)
    case CompleteReceipt => SetStatus(t, key, Completed)
  }

  /** Where the attempt is after that statement; None when it has ended. */
  function Continue(s: State, a: Attempt, moreBatches: bool): Option<Attempt>
    requires Fits(a.event.change, a.phase)
  {
    var t, key := s.tables, a.event.key;
    match a.phase
    case ClaimGlobal => if CanClaim(t, Global(a), s.now) then Some(a.(phase := ReadReceipt)) else None
    case ReadReceipt => Some(a.(prior := PriorStatus(t, key), phase := AfterReading(t, a.event)))
    case AddReceipt => Some(a.(phase := AfterReceipt(a.event.change)))
    case ClaimEntity =>
      Some(a.(phase := if CanClaim(t, EntityLease(a.event.Entity()), s.now) then ReadVersion else ReleaseGlobal(Failed)))
    case ReadVersion => Some(a.(latest := LatestVersion(t, a.event.Entity()), phase := AfterVersion(t, a)))
    case IgnoreReceipt =>
      Some(a.(phase := if a.event.change.ProjectionChange? then ReleaseEntity(Ignored) else ReleaseGlobal(Ignored)))
    case Prepare => Some(a.(phase := RefreshGlobal(RowWrite)))
    case RefreshGlobal(w) =>
      if Owns(t, Global(a), key.id)
      then Some(a.(fence := s.now + LEASE_SECONDS, phase := if w.RevocationBatch? then Perform(w) else RefreshEntity(w)))
      else Some(a.(phase := ReleaseEntity(Failed)))
    case RefreshEntity(w) =>
      if Owns(t, EntityLease(a.event.Entity()), key.id)
      then Some(a.(fence := s.now + LEASE_SECONDS, phase := AfterEntityRefresh(a.event, w)))
      else Some(a.(phase := ReleaseEntity(Failed)))
    case Perform(w) => Some(if s.now >= a.fence then a else a.(phase := AfterWrite(w, moreBatches)))
    case Forward =>
      Some(a.(phase := ReleaseGlobal(if a.prior.Some? && a.prior.value.Terminal() then Duplicate else Applied)))
    case ReleaseEntity(o) => Some(a.(phase := ReleaseGlobal(o)))
    case ReleaseGlobal(o) => if o.Applied? then Some(a.(phase := CompleteReceipt)) else None
    case CompleteReceipt => None
  }

  function Resume(s: State, t: Tables, key: EventKey, next: Option<Attempt>): State {
    State(s.now, t, if next.Some? then s.attempts[key := next.value] else s.attempts - {key})
  }

  /** A statement throws: the finally blocks still give back what was claimed. */
  function Throw(s: State, a: Attempt): Option<Attempt> {
    if a.phase.ClaimGlobal? || a.phase.ReleaseGlobal? || a.phase.CompleteReceipt? then None
    else if a.phase.HoldsEntity() && a.event.change.ProjectionChange? && !a.phase.ReleaseEntity?
    then Some(a.(phase := ReleaseEntity(Failed)))
    else Some(a.(phase := ReleaseGlobal(Failed)))
  }

  /** Attempts are filed under their own event key and are at a phase of their event's type. */
  predicate Live(s: State, key: EventKey) {
    key in s.attempts && s.attempts[key].event.key == key && Fits(s.attempts[key].event.change, s.attempts[key].phase)
  }

  function Next(s: State, action: Action): State {
    match action
    case Deliver(event) =>
      if event.key in s.attempts then s
      else s.(attempts := s.attempts[event.key := Attempt(event, ClaimGlobal, None, None, s.now)])
    case Advance(key, more) =>
      if Live(s, key) then Resume(s, Effect(s, s.attempts[key]), key, Continue(s, s.attempts[key], more)) else s
    case Fail(key) => if Live(s, key) then Resume(s, s.tables, key, Throw(s, s.attempts[key])) else s
    case Crash(key) => End(s, key)
    case Tick(seconds) => s.(now := s.now + seconds)
  }

  function Run(s: State, actions: seq<Action>): State {
    if actions == [] then s else Next(Run(s, actions[..|actions| - 1]), actions[|actions| - 1])
  }
}
