/**
 * Nothing a crash leaves behind can block an event for good: from every
 * reachable state, once the leases it needs have lapsed, one undisturbed
 * retry brings the event's receipt to a terminal status.
 */
module ProjectionProgress {
  import opened ProjectionTables
  import opened ProjectionProtocol
  import opened ProjectionInvariant
  import opened ProjectionTheorems
  import opened Wrappers

  predicate TerminalReceipt(t: Tables, key: EventKey) {
    key in t.receipts && t.receipts[key].status.Terminal()
  }

  predicate SamePayload(t: Tables, event: Event) {
    event.key in t.receipts ==> t.receipts[event.key].body == event
  }

  predicate LeasesFree(t: Tables, event: Event, now: int)
    requires event.change.ProjectionChange?
  {
    CanClaim(t, GlobalLease(event.key.source), now) && CanClaim(t, EntityLease(event.Entity()), now)
  }

  function WriteRank(w: Write): nat {
    match w
    case RowWrite => 4
    case PortalWrite => 3
    case RevocationBatch => 2
    case VersionWrite => 1
  }

  /** How many statements are at most left, counting three for each fenced write. */
  function Rank(p: Phase): nat {
    match p
    case ClaimGlobal => 23
    case ReadReceipt => 22
    case AddReceipt => 21
    case Forward => 20
    case ClaimEntity => 20
    case ReadVersion => 19
    case Prepare => 18
    case RefreshGlobal(w) => 4 + 3 * WriteRank(w)
    case RefreshEntity(w) => 3 + 3 * WriteRank(w)
    case Perform(w) => 2 + 3 * WriteRank(w)
    case IgnoreReceipt => 4
    case ReleaseEntity(_) => 3
    case ReleaseGlobal(_) => 2
    case CompleteReceipt => 1
  }

  /** The attempt filed under `key` has everything it needs to finish without failing. */
  predicate Unhindered(s: State, key: EventKey) {
    Live(s, key) && s.attempts[key].event.change.ProjectionChange? &&
    var a := s.attempts[key];
    var lease := EntityLease(a.event.Entity());
    && (match a.phase
        case ClaimGlobal => LeasesFree(s.tables, a.event, s.now) && SamePayload(s.tables, a.event)
        case ReadReceipt => CanClaim(s.tables, lease, s.now) && SamePayload(s.tables, a.event)
        case AddReceipt => CanClaim(s.tables, lease, s.now)
        case ClaimEntity => CanClaim(s.tables, lease, s.now)
        case ReleaseEntity(o) => o.Applied? || (o.Ignored? && TerminalReceipt(s.tables, key))
        case ReleaseGlobal(o) => o.Applied? || ((o.Ignored? || o.Duplicate?) && TerminalReceipt(s.tables, key))
        case CompleteReceipt => true
        case _ => Owns(s.tables, lease, key.id))
    && (22 >= Rank(a.phase) >= 4 ==> Owns(s.tables, Global(a), key.id))
    && (a.phase.Perform? ==> s.now < a.fence)
  }

  /** One more statement brings the attempt closer to its end, or ends it with the receipt settled; only a revocation
      batch that others follow takes it two ranks back. */
  predicate Moves(s: State, key: EventKey, more: bool)
    requires Unhindered(s, key)
  {
    var s' := Next(s, Advance(key, more));
    if key in s'.attempts
    then Unhindered(s', key) && Rank(s'.attempts[key].phase) < Rank(s.attempts[key].phase) + (if more then 3 else 0)
    else TerminalReceipt(s'.tables, key)
  }

  lemma ArrivalMoves(s: State, key: EventKey, more: bool)
    requires Unhindered(s, key) && AttemptOk(s.tables, s.now, s.attempts[key]) && (s.attempts[key].phase.ClaimGlobal? || s.attempts[key].phase.AddReceipt?)
    ensures Moves(s, key, more)
  {
  }

  lemma ReceiptMoves(s: State, key: EventKey, more: bool)
    requires Unhindered(s, key) && AttemptOk(s.tables, s.now, s.attempts[key]) && s.attempts[key].phase.ReadReceipt?
    ensures Moves(s, key, more)
  {
  }

  lemma ClaimMoves(s: State, key: EventKey, more: bool)
    requires Unhindered(s, key) && AttemptOk(s.tables, s.now, s.attempts[key]) && (s.attempts[key].phase.ClaimEntity? || s.attempts[key].phase.Prepare?)
    ensures Moves(s, key, more)
  {
  }

  lemma VersionMoves(s: State, key: EventKey, more: bool)
    requires Unhindered(s, key) && AttemptOk(s.tables, s.now, s.attempts[key]) && s.attempts[key].phase.ReadVersion?
    ensures Moves(s, key, more)
  {
  }

  lemma GlobalRefreshMoves(s: State, key: EventKey, more: bool)
    requires Unhindered(s, key) && AttemptOk(s.tables, s.now, s.attempts[key]) && s.attempts[key].phase.RefreshGlobal?
    ensures Moves(s, key, more)
  {
  }

  lemma EntityRefreshMoves(s: State, key: EventKey, more: bool)
    requires Unhindered(s, key) && AttemptOk(s.tables, s.now, s.attempts[key]) && s.attempts[key].phase.RefreshEntity?
    ensures Moves(s, key, more)
  {
  }

  lemma WriteMoves(s: State, key: EventKey, more: bool)
    requires Unhindered(s, key) && AttemptOk(s.tables, s.now, s.attempts[key])
    requires s.attempts[key].phase.Perform? && !s.attempts[key].phase.write.VersionWrite?
    ensures Moves(s, key, more)
  {
  }

  lemma VersionWriteMoves(s: State, key: EventKey, more: bool)
    requires Unhindered(s, key) && AttemptOk(s.tables, s.now, s.attempts[key]) && s.attempts[key].phase == Perform(VersionWrite)
    ensures Moves(s, key, more)
  {
  }

  lemma OutcomeMoves(s: State, key: EventKey, more: bool)
    requires Unhindered(s, key) && AttemptOk(s.tables, s.now, s.attempts[key]) && (s.attempts[key].phase.IgnoreReceipt? || s.attempts[key].phase.ReleaseEntity?)
    ensures Moves(s, key, more)
  {
  }

  lemma EndMoves(s: State, key: EventKey, more: bool)
    requires Unhindered(s, key) && AttemptOk(s.tables, s.now, s.attempts[key]) && (s.attempts[key].phase.ReleaseGlobal? || s.attempts[key].phase.CompleteReceipt?)
    ensures Moves(s, key, more)
  {
  }

  lemma UnhinderedStep(s: State, key: EventKey, more: bool)
    requires Inv(s) && Unhindered(s, key)
    ensures Moves(s, key, more)
  {
    assert AttemptOk(s.tables, s.now, s.attempts[key]);
    var p := s.attempts[key].phase;
    if p.RefreshGlobal? { GlobalRefreshMoves(s, key, more); }
    else if p.RefreshEntity? { EntityRefreshMoves(s, key, more); }
    else if p == Perform(VersionWrite) { VersionWriteMoves(s, key, more); }
    else if p.Perform? { WriteMoves(s, key, more); }
    else if p.ReadReceipt? { ReceiptMoves(s, key, more); }
    else if p.ReadVersion? { VersionMoves(s, key, more); }
    else if p.ClaimGlobal? || p.AddReceipt? { ArrivalMoves(s, key, more); }
    else if p.ClaimEntity? || p.Prepare? { ClaimMoves(s, key, more); }
    else if p.IgnoreReceipt? || p.ReleaseEntity? { OutcomeMoves(s, key, more); }
    else { EndMoves(s, key, more); }
  }

  /** The statements of one attempt; the flag says, after a revocation batch, whether another one follows. */
  function Statements(key: EventKey, more: seq<bool>): seq<Action> {
    seq(|more|, i requires 0 <= i < |more| => Advance(key, more[i]))
  }

  function Batches(more: seq<bool>): nat {
    if more == [] then 0 else (if more[0] then 1 else 0) + Batches(more[1..])
  }

  lemma StatementsFrom(s: State, key: EventKey, more: seq<bool>, rest: nat)
    requires rest < |more|
    ensures Run(s, Statements(key, more[..rest + 1])) == Run(Next(s, Advance(key, more[0])), Statements(key, more[1..][..rest]))
  {
    assert Statements(key, more[..rest + 1]) == [Advance(key, more[0])] + Statements(key, more[1..][..rest]);
    RunFrom(s, Advance(key, more[0]), Statements(key, more[1..][..rest]));
  }

  /** Left alone, an attempt ends with its receipt settled, however many revocation batches it has to run. */
  lemma {:induction false} RunsToTheEnd(s: State, key: EventKey, more: seq<bool>) returns (k: nat)
    requires Inv(s) && Unhindered(s, key) && |more| >= Rank(s.attempts[key].phase) + 3 * Batches(more)
    ensures k <= Rank(s.attempts[key].phase) + 3 * Batches(more)
    ensures key !in Run(s, Statements(key, more[..k])).attempts && TerminalReceipt(Run(s, Statements(key, more[..k])).tables, key)
    decreases |more|
  {
    UnhinderedStep(s, key, more[0]);
    NextKeeps(s, Advance(key, more[0]));
    var s' := Next(s, Advance(key, more[0]));
    var rest := 0;
    if key in s'.attempts { rest := RunsToTheEnd(s', key, more[1..]); }
    k := rest + 1;
    StatementsFrom(s, key, more, rest);
  }

  lemma {:induction false} RunFrom(s: State, first: Action, rest: seq<Action>)
    ensures Run(s, [first] + rest) == Run(Next(s, first), rest)
  {
    var all := [first] + rest;
    if rest == [] {
      assert all[..|all| - 1] == [];
    } else {
      RunFrom(s, first, rest[..|rest| - 1]);
      assert all[..|all| - 1] == [first] + rest[..|rest| - 1];
    }
  }

  /** However earlier attempts ended, a retry with the same payload settles its receipt once the leases have lapsed; `more`
      says which of its statements are revocation batches that others follow. */
  lemma RetrySettles(portal: set<EntityKey>, before: seq<Action>, event: Event, more: seq<bool>) returns (k: nat)
    requires event.change.ProjectionChange? && |more| >= 23 + 3 * Batches(more)
    requires var s := Run(Init(portal), before);
             && event.key !in s.attempts
             && SamePayload(s.tables, event) && LeasesFree(s.tables, event, s.now)
    ensures k <= 23 + 3 * Batches(more)
    ensures var end := Run(Run(Init(portal), before), [Deliver(event)] + Statements(event.key, more[..k]));
            event.key !in end.attempts && TerminalReceipt(end.tables, event.key)
  {
    Reachable(portal, before);
    var s := Run(Init(portal), before);
    NextKeeps(s, Deliver(event));
    k := RunsToTheEnd(Next(s, Deliver(event)), event.key, more);
    RunFrom(s, Deliver(event), Statements(event.key, more[..k]));
  }

  // ---------- what a failure gives back ----------

  /** The attempt has claimed the global lease and has not yet begun to give it back. */
  predicate UnderGlobal(p: Phase) {
    !p.ClaimGlobal? && !p.ReleaseGlobal? && !p.CompleteReceipt?
  }

  lemma ReleasesGlobal(s: State, key: EventKey)
    requires Live(s, key) && s.attempts[key].phase == ReleaseGlobal(Failed)
    ensures var t := Next(s, Advance(key, false));
            && key !in t.attempts && t.tables == s.tables.(leases := t.tables.leases) && Next(t, Advance(key, false)) == t
            && t.tables.leases == if Owns(s.tables, GlobalLease(key.source), key.id) then s.tables.leases - {GlobalLease(key.source)}
                                  else s.tables.leases
  {
  }

  lemma ReleasesEntity(s: State, key: EventKey)
    requires Live(s, key) && s.attempts[key].phase == ReleaseEntity(Failed)
    ensures var t, lease := Next(s, Advance(key, false)), EntityLease(s.attempts[key].event.Entity());
            && Live(t, key) && t.attempts[key].phase == ReleaseGlobal(Failed) && t.tables == s.tables.(leases := t.tables.leases)
            && t.tables.leases == if Owns(s.tables, lease, key.id) then s.tables.leases - {lease} else s.tables.leases
  {
  }

  /** Whichever statement throws under the global lease, the finally blocks end the attempt in two statements at most, with
      the global lease given back, the entity lease as well if it was held, and nothing else changed. */
  lemma FailureGivesBack(s: State, key: EventKey)
    requires Live(s, key) && UnderGlobal(s.attempts[key].phase)
    ensures var t := Next(Next(Next(s, Fail(key)), Advance(key, false)), Advance(key, false));
            var a := s.attempts[key];
            && key !in t.attempts && t.tables == s.tables.(leases := t.tables.leases)
            && !Owns(t.tables, GlobalLease(key.source), key.id)
            && (a.event.change.ProjectionChange? && a.phase.HoldsEntity() && !a.phase.ReleaseEntity? ==>
                  !Owns(t.tables, EntityLease(a.event.Entity()), key.id))
            && forall l :: l in t.tables.leases ==> l in s.tables.leases && t.tables.leases[l] == s.tables.leases[l]
  {
    var failed := Next(s, Fail(key));
    if failed.attempts[key].phase.ReleaseEntity? {
      ReleasesEntity(failed, key);
      ReleasesGlobal(Next(failed, Advance(key, false)), key);
    } else {
      ReleasesGlobal(failed, key);
    }
  }
}
