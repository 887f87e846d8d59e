/**
 * The database tables behind the Project Alpha projection ingress and the SQL
 * statements that touch them, one function per statement. Every function is
 * the effect of one atomic statement or batch.
 *
 * Hashes are ideal: a receipt stores the delivered event itself, so two
 * payloads have the same hash exactly when they are the same event.
 */
module ProjectionTables {
  import opened Wrappers

  const PRIMARY_SOURCE := "project-alpha:primary"

  /** Ten minutes, in the one-second resolution of the database clock. */
  const LEASE_SECONDS := 600

  datatype EntityType =
    | Client | Organization | Project | ProjectAssignment | BusinessUnit
    | Operation | OperationAssignment | Task | TaskAssignment
  {
    /** Rows of these kinds are keyed by the entity and written by no other kind of event. */
    predicate OwnsItsRow() {
      Client? || Organization? || Project? || ProjectAssignment? || BusinessUnit?
    }

    /** Kinds that applyPortalProjection mirrors into the delivery database. */
    predicate Mirrored() {
      Client? || Organization? || Project?
    }
  }

  datatype EntityKey = EntityKey(source: string, kind: EntityType, id: string)

  /** Receipts are unique per source and event id. */
  datatype EventKey = EventKey(source: string, id: string)

  datatype Change =
    | ProjectionChange(kind: EntityType, entityId: string, updatedAt: int, upsert: bool, data: string)
    | PortalChange(body: string)
    | DeliveryIntent(body: string)
    | EntitlementChange(body: string)

  datatype Event = Event(key: EventKey, change: Change)
  {
    function Entity(): EntityKey
      requires change.ProjectionChange?
    {
      EntityKey(key.source, change.kind, change.entityId)
    }

    predicate About(k: EntityKey) {
      change.ProjectionChange? && Entity() == k
    }

    predicate WritesRow() {
      change.ProjectionChange? && change.kind.OwnsItsRow()
    }

    predicate WritesPortal() {
      change.ProjectionChange? && key.source == PRIMARY_SOURCE && change.kind.Mirrored()
    }
  }

  datatype Status = Pending | Completed | IgnoredStatus
  {
    predicate Terminal() { !Pending? }
  }

  datatype Receipt = Receipt(body: Event, status: Status)

  datatype LeaseKey = GlobalLease(source: string) | EntityLease(entity: EntityKey)

  datatype Lease = Lease(owner: string, until: int)

  datatype Version = Version(updatedAt: int, eventId: string)

  /** A mirrored row: the payload, the active flag and the marker `event:<id>`. */
  datatype Row = Row(data: string, active: bool, marker: string)

  /** A row of the delivery database; it exists before any event is projected into it. */
  datatype PortalRow = Untouched | Projected(row: Row)

  datatype Tables = Tables(
    leases: map<LeaseKey, Lease>,
    receipts: map<EventKey, Receipt>,
    versions: map<EntityKey, Version>,
    rows: map<EntityKey, Row>,
    portal: map<EntityKey, PortalRow>,
    forwarded: set<EventKey>)

  function RowOf(event: Event): Row
    requires event.change.ProjectionChange?
  {
    Row(event.change.data, event.change.upsert, event.key.id)
  }

  /** The insert of a lease succeeds on a free key or on an expired lease, whoever owns it. */
  predicate CanClaim(t: Tables, key: LeaseKey, now: int) {
    key !in t.leases || t.leases[key].until <= now
  }

  predicate Owns(t: Tables, key: LeaseKey, owner: string) {
    key in t.leases && t.leases[key].owner == owner
  }

  function ClaimLease(t: Tables, key: LeaseKey, owner: string, now: int): Tables {
    if CanClaim(t, key, now) then t.(leases := t.leases[key := Lease(owner, now + LEASE_SECONDS)]) else t
  }

  function RefreshLease(t: Tables, key: LeaseKey, owner: string, now: int): Tables {
    if Owns(t, key, owner) then t.(leases := t.leases[key := Lease(owner, now + LEASE_SECONDS)]) else t
  }

  function ReleaseLease(t: Tables, key: LeaseKey, owner: string): Tables {
    if Owns(t, key, owner) then t.(leases := t.leases - {key}) else t
  }

  function InsertReceipt(t: Tables, event: Event): Tables {
    t.(receipts := t.receipts[event.key := Receipt(event, Pending)])
  }

  /** An update without a matching row changes nothing. */
  function SetStatus(t: Tables, key: EventKey, status: Status): Tables {
    if key in t.receipts then t.(receipts := t.receipts[key := t.receipts[key].(status := status)]) else t
  }

  function WriteRow(t: Tables, event: Event): Tables
    requires event.change.ProjectionChange?
  {
    if event.WritesRow() then t.(rows := t.rows[event.Entity() := RowOf(event)]) else t
  }

  function WritePortalRow(t: Tables, event: Event): Tables
    requires event.change.ProjectionChange?
  {
    if event.WritesPortal() && event.Entity() in t.portal
    then t.(portal := t.portal[event.Entity() := Projected(RowOf(event))])
    else t
  }

  function WriteVersion(t: Tables, event: Event): Tables
    requires event.change.ProjectionChange?
  {
    t.(versions := t.versions[event.Entity() := Version(event.change.updatedAt, event.key.id)])
  }

  function LatestVersion(t: Tables, k: EntityKey): Option<Version> {
    if k in t.versions then Some(t.versions[k]) else None
  }
}
