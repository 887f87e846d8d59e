/**
 * The pass that revokes delivery grants which the mirrored projects no longer
 * support. It issues a list of UPDATE statements in batches of 75, so a crash
 * can stop it after any prefix of the list, even in the middle of one project.
 */
module Revocation {
  import opened Wrappers

  const BATCH_SIZE := 75

  /** One row of pa_projects; `active` says that the column holds 1. */
  datatype MirroredProject = MirroredProject(id: string, clientId: Option<string>, organizationId: Option<string>, active: bool)

  /** A mirrored project with the client and organization ids that are still active. */
  datatype Covered = Covered(id: string, clientId: Option<string>, organizationId: Option<string>, active: bool)

  datatype Table = FolderAssociations | DeliveryGrants | MemberGrants | ProjectGrants

  datatype RowId = RowId(table: Table, id: nat)

  /** A row of one of the four tables; the last two columns exist only where they matter. */
  datatype Row = Row(account: string, project: string, canRequestService: bool, clientScope: bool)

  datatype Account = Account(primary: bool, active: bool, clientId: Option<string>, organizationId: Option<string>)

  /** The columns the pass reads and never writes: delivery project -> primary project id, accounts and rows. */
  datatype Delivery = Delivery(projects: map<string, string>, accounts: map<string, Account>, rows: map<RowId, Row>)

  datatype Statement = Revoke(table: Table, project: Covered) | RevokeClientFolders

  /** An empty id is as good as none, and an inactive client or organization does not count. */
  function Effective(id: Option<string>, active: set<string>): Option<string> {
    if id.Some? && id.value != "" && id.value in active then id else None
  }

  function Cover(p: MirroredProject, clients: set<string>, organizations: set<string>): Covered {
    Covered(p.id, Effective(p.clientId, clients), Effective(p.organizationId, organizations), p.active)
  }

  /** The row belongs to a delivery project of the primary source with the id of `c`. */
  predicate Touches(d: Delivery, r: RowId, c: Covered) {
    r in d.rows && d.rows[r].project in d.projects && d.projects[d.rows[r].project] == c.id
  }

  /** An account of the primary source that supports the grant. */
  predicate Supported(a: Account, row: Row, c: Covered) {
    && c.active && a.active
    && (|| (c.clientId.Some? && a.clientId == c.clientId)
        || (!row.canRequestService && c.organizationId.Some? && a.organizationId == c.organizationId))
  }

  predicate PrimaryAccount(d: Delivery, account: string) {
    account in d.accounts && d.accounts[account].primary
  }

  predicate InvalidGrant(d: Delivery, r: RowId, c: Covered) {
    && Touches(d, r, c) && r.table == ProjectGrants
    && PrimaryAccount(d, d.rows[r].account) && !Supported(d.accounts[d.rows[r].account], d.rows[r], c)
  }

  function InvalidAccounts(d: Delivery, revoked: set<RowId>, c: Covered): set<string> {
    set r | r in d.rows && r !in revoked && InvalidGrant(d, r, c) :: d.rows[r].account
  }

  function ClientFolders(d: Delivery): set<RowId> {
    set r | r in d.rows && r.table == FolderAssociations && d.rows[r].clientScope
            && PrimaryAccount(d, d.rows[r].account) && !d.accounts[d.rows[r].account].active
  }

  /** The rows of project `c` whose account is in `accounts`. */
  function RowsOf(d: Delivery, c: Covered, accounts: set<string>): set<RowId> {
    set r | r in d.rows && Touches(d, r, c) && d.rows[r].account in accounts
  }

  function Execute(d: Delivery, revoked: set<RowId>, s: Statement): set<RowId> {
    match s
    case Revoke(table, c) =>
      var invalid := InvalidAccounts(d, revoked, c);
      revoked + set r | r in RowsOf(d, c, invalid) && r.table == table
    case RevokeClientFolders => revoked + ClientFolders(d)
  }

  function ExecuteAll(d: Delivery, revoked: set<RowId>, statements: seq<Statement>): set<RowId>
    decreases |statements|
  {
    if statements == [] then revoked else ExecuteAll(d, Execute(d, revoked, statements[0]), statements[1..])
  }

  function Block(c: Covered): seq<Statement> {
    [Revoke(FolderAssociations, c), Revoke(DeliveryGrants, c), Revoke(MemberGrants, c), Revoke(ProjectGrants, c)]
  }

  function Statements(cs: seq<Covered>): seq<Statement> {
    if cs == [] then [RevokeClientFolders] else Block(cs[0]) + Statements(cs[1..])
  }

  // ---------- what an uninterrupted run achieves ----------

  /** Everything about project `c` that has to go, judged by the rows that were live at the start. */
  function Target(d: Delivery, start: set<RowId>, c: Covered): set<RowId> {
    RowsOf(d, c, InvalidAccounts(d, start, c))
  }

  function Targets(d: Delivery, start: set<RowId>, cs: seq<Covered>): set<RowId> {
    if cs == [] then ClientFolders(d) else Target(d, start, cs[0]) + Targets(d, start, cs[1..])
  }

  /** pa_projects has one row for each id. */
  predicate DistinctIds(cs: seq<Covered>) {
    forall i, j :: 0 <= i < j < |cs| ==> cs[i].id != cs[j].id
  }

  // ---------- states that an interrupted pass can leave ----------

  /** The grants of `c` are as they were, or all of `c` is finished. */
  predicate Whole(d: Delivery, start: set<RowId>, revoked: set<RowId>, c: Covered) {
    || (forall r :: r in d.rows && Touches(d, r, c) && r.table == ProjectGrants ==> (r in revoked <==> r in start))
    || Target(d, start, c) <= revoked
  }

  predicate Partial(d: Delivery, cs: seq<Covered>, start: set<RowId>, revoked: set<RowId>) {
    && start <= revoked <= start + Targets(d, start, cs)
    && forall c :: c in cs ==> Whole(d, start, revoked, c)
  }

  lemma {:induction false} TargetsContain(d: Delivery, start: set<RowId>, cs: seq<Covered>)
    ensures ClientFolders(d) <= Targets(d, start, cs)
    ensures forall c :: c in cs ==> Target(d, start, c) <= Targets(d, start, cs)
    ensures forall r :: r in Targets(d, start, cs) ==>
              r in ClientFolders(d) || exists c :: c in cs && r in Target(d, start, c)
  {
    if cs != [] { TargetsContain(d, start, cs[1..]); }
  }

  /** In such a state a project either has the invalid accounts it started with or none at all. */
  lemma InvalidAgain(d: Delivery, start: set<RowId>, revoked: set<RowId>, c: Covered)
    requires Whole(d, start, revoked, c) && start <= revoked
    ensures InvalidAccounts(d, revoked, c) <= InvalidAccounts(d, start, c)
    ensures InvalidAccounts(d, revoked, c) == InvalidAccounts(d, start, c) || Target(d, start, c) <= revoked
  {
  }

  /** A statement on a dependent table completes that table for the project and keeps every project whole. */
  lemma DependentStep(d: Delivery, cs: seq<Covered>, start: set<RowId>, revoked: set<RowId>, table: Table, c: Covered)
    requires Partial(d, cs, start, revoked) && c in cs && table != ProjectGrants
    ensures Partial(d, cs, start, Execute(d, revoked, Revoke(table, c)))
    ensures forall r :: r in Target(d, start, c) && r.table == table ==> r in Execute(d, revoked, Revoke(table, c))
  {
    InvalidAgain(d, start, revoked, c);
    TargetsContain(d, start, cs);
    var after := Execute(d, revoked, Revoke(table, c));
    forall other | other in cs ensures Whole(d, start, after, other) {
      assert Whole(d, start, revoked, other);
    }
  }

  lemma GrantStep(d: Delivery, cs: seq<Covered>, start: set<RowId>, revoked: set<RowId>, c: Covered)
    requires Partial(d, cs, start, revoked) && c in cs && DistinctIds(cs)
    requires forall r :: r in Target(d, start, c) && r.table != ProjectGrants ==> r in revoked
    ensures Partial(d, cs, start, Execute(d, revoked, Revoke(ProjectGrants, c)))
    ensures Target(d, start, c) <= Execute(d, revoked, Revoke(ProjectGrants, c))
  {
    InvalidAgain(d, start, revoked, c);
    TargetsContain(d, start, cs);
    var after := Execute(d, revoked, Revoke(ProjectGrants, c));
    forall other | other in cs ensures Whole(d, start, after, other) {
      assert Whole(d, start, revoked, other);
      if other != c { assert other.id != c.id; }
    }
  }

  /** Any prefix of a project's four statements leaves every project whole; all four finish it. */
  lemma BlockPrefix(d: Delivery, cs: seq<Covered>, start: set<RowId>, revoked: set<RowId>, c: Covered, n: nat)
    requires Partial(d, cs, start, revoked) && c in cs && DistinctIds(cs) && n <= 4
    ensures Partial(d, cs, start, ExecuteAll(d, revoked, Block(c)[..n]))
    ensures n == 4 ==> Target(d, start, c) <= ExecuteAll(d, revoked, Block(c)[..n])
  {
    var r1 := Execute(d, revoked, Revoke(FolderAssociations, c));
    DependentStep(d, cs, start, revoked, FolderAssociations, c);
    var r2 := Execute(d, r1, Revoke(DeliveryGrants, c));
    DependentStep(d, cs, start, r1, DeliveryGrants, c);
    var r3 := Execute(d, r2, Revoke(MemberGrants, c));
    DependentStep(d, cs, start, r2, MemberGrants, c);
    GrantStep(d, cs, start, r3, c);
    ExecuteBlock(d, revoked, c, n);
  }

  lemma ExecuteBlock(d: Delivery, revoked: set<RowId>, c: Covered, n: nat)
    requires n <= 4
    ensures var r1 := Execute(d, revoked, Revoke(FolderAssociations, c));
            var r2 := Execute(d, r1, Revoke(DeliveryGrants, c));
            var r3 := Execute(d, r2, Revoke(MemberGrants, c));
            ExecuteAll(d, revoked, Block(c)[..n]) ==
              [revoked, r1, r2, r3, Execute(d, r3, Revoke(ProjectGrants, c))][n]
  {
    var b := Block(c);
    assert b[..0] == [];
    ExecuteSnoc(d, revoked, b[..0], b[0]);
    assert b[..1] == b[..0] + [b[0]];
    ExecuteSnoc(d, revoked, b[..1], b[1]);
    assert b[..2] == b[..1] + [b[1]];
    ExecuteSnoc(d, revoked, b[..2], b[2]);
    assert b[..3] == b[..2] + [b[2]];
    ExecuteSnoc(d, revoked, b[..3], b[3]);
    assert b[..4] == b[..3] + [b[3]];
  }

  lemma ExecuteSnoc(d: Delivery, revoked: set<RowId>, statements: seq<Statement>, s: Statement)
    ensures ExecuteAll(d, revoked, statements + [s]) == Execute(d, ExecuteAll(d, revoked, statements), s)
  {
    ExecuteConcat(d, revoked, statements, [s]);
    assert [s][1..] == [];
  }

  lemma {:induction false} ExecuteConcat(d: Delivery, revoked: set<RowId>, one: seq<Statement>, two: seq<Statement>)
    ensures ExecuteAll(d, revoked, one + two) == ExecuteAll(d, ExecuteAll(d, revoked, one), two)
    decreases |one|
  {
    if one == [] {
      assert one + two == two;
    } else {
      ExecuteConcat(d, Execute(d, revoked, one[0]), one[1..], two);
      assert (one + two)[0] == one[0] && (one + two)[1..] == one[1..] + two;
    }
  }

  /** The statements for a tail of the projects, stopped after `n` of them. */
  lemma {:induction false} TailRun(d: Delivery, all: seq<Covered>, cs: seq<Covered>, start: set<RowId>, revoked: set<RowId>, n: nat)
    requires Partial(d, all, start, revoked) && DistinctIds(all) && n <= |Statements(cs)|
    requires forall c :: c in cs ==> c in all
    ensures Partial(d, all, start, ExecuteAll(d, revoked, Statements(cs)[..n]))
    ensures n == |Statements(cs)| ==> Targets(d, start, cs) <= ExecuteAll(d, revoked, Statements(cs)[..n])
    ensures revoked <= ExecuteAll(d, revoked, Statements(cs)[..n])
    decreases |cs|
  {
    TargetsContain(d, start, all);
    if cs == [] {
      if n == 1 {
        assert Statements(cs)[..1] == [RevokeClientFolders];
        var after := Execute(d, revoked, RevokeClientFolders);
        forall c | c in all ensures Whole(d, start, after, c) { assert Whole(d, start, revoked, c); }
        assert ExecuteAll(d, after, []) == after;
      }
    } else if n < 4 {
      BlockPrefix(d, all, start, revoked, cs[0], n);
      ExecuteBlock(d, revoked, cs[0], n);
      assert Statements(cs)[..n] == Block(cs[0])[..n];
    } else {
      BlockPrefix(d, all, start, revoked, cs[0], 4);
      ExecuteBlock(d, revoked, cs[0], 4);
      assert Block(cs[0])[..4] == Block(cs[0]);
      assert Statements(cs)[..n] == Block(cs[0]) + Statements(cs[1..])[..n - 4];
      ExecuteConcat(d, revoked, Block(cs[0]), Statements(cs[1..])[..n - 4]);
      TailRun(d, all, cs[1..], start, ExecuteAll(d, revoked, Block(cs[0])), n - 4);
    }
  }

  lemma PartialFromStart(d: Delivery, cs: seq<Covered>, start: set<RowId>)
    ensures Partial(d, cs, start, start)
  {
  }

  /** A complete pass from any state an interrupted one can leave ends in one and the same state. */
  lemma FullRun(d: Delivery, cs: seq<Covered>, start: set<RowId>, revoked: set<RowId>)
    requires Partial(d, cs, start, revoked) && DistinctIds(cs)
    ensures ExecuteAll(d, revoked, Statements(cs)) == start + Targets(d, start, cs)
  {
    var all := Statements(cs);
    TailRun(d, cs, cs, start, revoked, |all|);
    assert all[..|all|] == all;
  }

  // ---------- main results ----------

  /** The state after a series of passes, each stopped after some number of statements. */
  function Interrupted(d: Delivery, cs: seq<Covered>, revoked: set<RowId>, stops: seq<nat>): set<RowId>
    requires forall i :: 0 <= i < |stops| ==> stops[i] <= |Statements(cs)|
    decreases |stops|
  {
    if stops == [] then revoked
    else Interrupted(d, cs, ExecuteAll(d, revoked, Statements(cs)[..stops[0]]), stops[1..])
  }

  lemma {:induction false} InterruptedIsPartial(d: Delivery, cs: seq<Covered>, start: set<RowId>, revoked: set<RowId>, stops: seq<nat>)
    requires Partial(d, cs, start, revoked) && DistinctIds(cs)
    requires forall i :: 0 <= i < |stops| ==> stops[i] <= |Statements(cs)|
    ensures Partial(d, cs, start, Interrupted(d, cs, revoked, stops))
    decreases |stops|
  {
    if stops != [] {
      TailRun(d, cs, cs, start, revoked, stops[0]);
      InterruptedIsPartial(d, cs, start, ExecuteAll(d, revoked, Statements(cs)[..stops[0]]), stops[1..]);
    }
  }

  /** Any number of crashed passes followed by a complete one revokes exactly what one uninterrupted pass revokes. */
  lemma CrashSafe(d: Delivery, cs: seq<Covered>, start: set<RowId>, stops: seq<nat>)
    requires DistinctIds(cs)
    requires forall i :: 0 <= i < |stops| ==> stops[i] <= |Statements(cs)|
    ensures ExecuteAll(d, Interrupted(d, cs, start, stops), Statements(cs)) == ExecuteAll(d, start, Statements(cs))
  {
    PartialFromStart(d, cs, start);
    InterruptedIsPartial(d, cs, start, start, stops);
    FullRun(d, cs, start, Interrupted(d, cs, start, stops));
    FullRun(d, cs, start, start);
  }

  lemma UnsupportedIsTarget(d: Delivery, cs: seq<Covered>, start: set<RowId>, r: RowId, c: Covered)
    requires c in cs && r !in start && InvalidGrant(d, r, c)
    ensures r in Targets(d, start, cs)
  {
    TargetsContain(d, start, cs);
    assert d.rows[r].account in InvalidAccounts(d, start, c);
    assert r in Target(d, start, c);
  }

  /** After a complete pass every live grant of a primary account on a covered project is supported. */
  lemma RemainingGrantsAreSupported(d: Delivery, cs: seq<Covered>, start: set<RowId>, r: RowId, c: Covered)
    requires DistinctIds(cs) && c in cs
    requires Touches(d, r, c) && r.table == ProjectGrants && PrimaryAccount(d, d.rows[r].account)
    requires r !in ExecuteAll(d, start, Statements(cs))
    ensures Supported(d.accounts[d.rows[r].account], d.rows[r], c)
  {
    PartialFromStart(d, cs, start);
    FullRun(d, cs, start, start);
    if InvalidGrant(d, r, c) { UnsupportedIsTarget(d, cs, start, r, c); }
  }

  /** A complete pass revokes a live row only for a reason: its account held an unsupported live grant
      on the same project, or it is a client folder of an inactive primary account. */
  lemma OnlyWithCause(d: Delivery, cs: seq<Covered>, start: set<RowId>, r: RowId)
    requires DistinctIds(cs) && r !in start
    ensures r in ExecuteAll(d, start, Statements(cs)) <==>
              || r in ClientFolders(d)
              || exists c, g :: c in cs && Touches(d, r, c) && g in d.rows && g !in start && InvalidGrant(d, g, c)
                             && d.rows[g].account == d.rows[r].account
  {
    PartialFromStart(d, cs, start);
    FullRun(d, cs, start, start);
    TargetsContain(d, start, cs);
    if c, g :| c in cs && Touches(d, r, c) && g in d.rows && g !in start && InvalidGrant(d, g, c)
               && d.rows[g].account == d.rows[r].account {
      assert d.rows[r].account in InvalidAccounts(d, start, c);
      assert r in Target(d, start, c);
    }
    if r in Targets(d, start, cs) && r !in ClientFolders(d) {
      var c :| c in cs && r in Target(d, start, c);
      assert d.rows[r].account in InvalidAccounts(d, start, c);
      var g :| g in d.rows && g !in start && InvalidGrant(d, g, c) && d.rows[g].account == d.rows[r].account;
    }
  }

  // ---------- the pass as the code runs it ----------

  function CoverAll(projects: seq<MirroredProject>, clients: set<string>, organizations: set<string>): seq<Covered> {
    if projects == [] then [] else [Cover(projects[0], clients, organizations)] + CoverAll(projects[1..], clients, organizations)
  }

  lemma {:induction false} StatementsSnoc(cs: seq<Covered>, c: Covered)
    ensures Statements(cs + [c]) == Statements(cs)[..|Statements(cs)| - 1] + Block(c) + [RevokeClientFolders]
  {
    if cs == [] {
      assert [c][1..] == [] && cs + [c] == [c];
      assert Statements(cs)[..0] == [];
    } else {
      StatementsSnoc(cs[1..], c);
      assert (cs + [c])[1..] == cs[1..] + [c];
      assert Statements(cs)[..|Statements(cs)| - 1] == Block(cs[0]) + Statements(cs[1..])[..|Statements(cs[1..])| - 1];
    }
  }

  lemma {:induction false} CoverAllAt(projects: seq<MirroredProject>, clients: set<string>, organizations: set<string>)
    ensures |CoverAll(projects, clients, organizations)| == |projects|
    ensures forall i :: 0 <= i < |projects| ==> CoverAll(projects, clients, organizations)[i] == Cover(projects[i], clients, organizations)
  {
    if projects != [] { CoverAllAt(projects[1..], clients, organizations); }
  }

  predicate Names(id: Option<string>, active: set<string>, held: Option<string>) {
    id.Some? && id.value != "" && id.value in active && held == id
  }

  /** A mirrored project supports a grant of an active account while it is active itself and its client is the account's and
      active, or else its organization is and the grant does not request service. */
  predicate Supports(p: MirroredProject, clients: set<string>, organizations: set<string>, a: Account, row: Row) {
    && p.active && a.active
    && (Names(p.clientId, clients, a.clientId) || (!row.canRequestService && Names(p.organizationId, organizations, a.organizationId)))
  }

  /** The row belongs to the delivery project of `p`. */
  predicate OnProject(d: Delivery, r: RowId, p: MirroredProject) {
    r in d.rows && d.rows[r].project in d.projects && d.projects[d.rows[r].project] == p.id
  }

  /** Live at the start, the grant `g` of a primary account on the project `p` is one that `p` does not support. */
  predicate Invalid(d: Delivery, start: set<RowId>, g: RowId, p: MirroredProject, clients: set<string>, organizations: set<string>) {
    && g !in start && g.table == ProjectGrants && OnProject(d, g, p)
    && d.rows[g].account in d.accounts && d.accounts[d.rows[g].account].primary
    && !Supports(p, clients, organizations, d.accounts[d.rows[g].account], d.rows[g])
  }

  predicate Orphaned(d: Delivery, r: RowId) {
    && r in d.rows && r.table == FolderAssociations && d.rows[r].clientScope
    && d.rows[r].account in d.accounts && d.accounts[d.rows[r].account].primary && !d.accounts[d.rows[r].account].active
  }

  /** The row is on the project of an unsupported live grant of the same account. */
  predicate Caused(d: Delivery, start: set<RowId>, r: RowId, g: RowId, p: MirroredProject, clients: set<string>, organizations: set<string>) {
    OnProject(d, r, p) && Invalid(d, start, g, p, clients, organizations) && d.rows[g].account == d.rows[r].account
  }

  lemma InvalidIs(d: Delivery, start: set<RowId>, g: RowId, p: MirroredProject, clients: set<string>, organizations: set<string>)
    ensures Invalid(d, start, g, p, clients, organizations) <==> g !in start && InvalidGrant(d, g, Cover(p, clients, organizations))
    ensures OnProject(d, g, p) <==> Touches(d, g, Cover(p, clients, organizations))
  {
  }

  /** The whole pass in terms of the rows it finds: exactly those live rows are revoked that are on the project of an
      unsupported live grant of the same account, and the client folders of inactive primary accounts. */
  lemma RevokedExactly(d: Delivery, projects: seq<MirroredProject>, clients: set<string>, organizations: set<string>,
                       start: set<RowId>, r: RowId)
    requires (forall i, j :: 0 <= i < j < |projects| ==> projects[i].id != projects[j].id) && r !in start
    ensures r in ExecuteAll(d, start, Statements(CoverAll(projects, clients, organizations))) <==>
              || Orphaned(d, r)
              || exists p, g :: p in projects && Caused(d, start, r, g, p, clients, organizations)
  {
    var cs := CoverAll(projects, clients, organizations);
    CoverAllAt(projects, clients, organizations);
    OnlyWithCause(d, cs, start, r);
    if p, g :| p in projects && Caused(d, start, r, g, p, clients, organizations) {
      var i :| 0 <= i < |projects| && projects[i] == p;
      assert cs[i] == Cover(p, clients, organizations) && cs[i] in cs;
      InvalidIs(d, start, g, p, clients, organizations);
      InvalidIs(d, start, r, p, clients, organizations);
    }
    if c, g :| c in cs && Touches(d, r, c) && g in d.rows && g !in start && InvalidGrant(d, g, c) && d.rows[g].account == d.rows[r].account {
      var i :| 0 <= i < |cs| && cs[i] == c;
      InvalidIs(d, start, g, projects[i], clients, organizations);
      InvalidIs(d, start, r, projects[i], clients, organizations);
      assert Caused(d, start, r, g, projects[i], clients, organizations);
    }
  }

  /** After a whole pass each live grant of a primary account is supported by its project. */
  lemma LiveGrantsAreSupported(d: Delivery, projects: seq<MirroredProject>, clients: set<string>, organizations: set<string>,
                               start: set<RowId>, r: RowId, p: MirroredProject)
    requires forall i, j :: 0 <= i < j < |projects| ==> projects[i].id != projects[j].id
    requires r !in ExecuteAll(d, start, Statements(CoverAll(projects, clients, organizations)))
    requires p in projects && OnProject(d, r, p) && r.table == ProjectGrants
    requires d.rows[r].account in d.accounts && d.accounts[d.rows[r].account].primary
    ensures Supports(p, clients, organizations, d.accounts[d.rows[r].account], d.rows[r])
  {
    var cs := CoverAll(projects, clients, organizations);
    CoverAllAt(projects, clients, organizations);
    PartialFromStart(d, cs, start);
    FullRun(d, cs, start, start);
    assert Invalid(d, start, r, p, clients, organizations) ==> Caused(d, start, r, r, p, clients, organizations);
    RevokedExactly(d, projects, clients, organizations, start, r);
  }

  class DeliveryDatabase {
    const columns: Delivery
    var revoked: set<RowId>

    constructor (columns: Delivery, revoked: set<RowId>)
      ensures this.columns == columns && this.revoked == revoked
    {
      this.columns, this.revoked := columns, revoked;
    }

    /** The statements of a pass, in the order of the projects. */
    method StatementList(projects: seq<MirroredProject>, clients: set<string>, organizations: set<string>)
      returns (statements: seq<Statement>)
      ensures statements == Statements(CoverAll(projects, clients, organizations))
    {
      statements := [];
      ghost var cs := CoverAll(projects, clients, organizations);
      CoverAllAt(projects, clients, organizations);
      for i := 0 to |projects|
        invariant Statements(cs[..i]) == statements + [RevokeClientFolders]
      {
        var c := Cover(projects[i], clients, organizations);
        StatementsSnoc(cs[..i], c);
        assert cs[..i] + [c] == cs[..i + 1];
        statements := statements + [Revoke(FolderAssociations, c), Revoke(DeliveryGrants, c), Revoke(MemberGrants, c)];
        statements := statements + [Revoke(ProjectGrants, c)];
      }
      assert cs[..|projects|] == cs;
      statements := statements + [RevokeClientFolders];
    }

    /** reconcilePortalProjectionAccess: the lease is lost, or the worker dies, after `batches` batches. */
    method ReconcileAccess(projects: seq<MirroredProject>, clients: set<string>, organizations: set<string>, batches: nat)
      returns (finished: bool)
      modifies this
      ensures var all := Statements(CoverAll(projects, clients, organizations));
              var done := if BATCH_SIZE * batches < |all| then BATCH_SIZE * batches else |all|;
              && revoked == ExecuteAll(columns, old(revoked), all[..done])
              && (finished <==> done == |all|)
    {
      var statements := StatementList(projects, clients, organizations);
      var index, left := 0, batches;
      assert statements[..0] == [];
      while index < |statements| && left > 0
        invariant 0 <= index <= |statements|
        invariant index == (if BATCH_SIZE * (batches - left) < |statements| then BATCH_SIZE * (batches - left) else |statements|)
        invariant 0 <= left <= batches
        invariant revoked == ExecuteAll(columns, old(revoked), statements[..index])
        decreases |statements| - index
      {
        var end := if index + BATCH_SIZE < |statements| then index + BATCH_SIZE else |statements|;
        ExecuteConcat(columns, old(revoked), statements[..index], statements[index..end]);
        assert statements[..index] + statements[index..end] == statements[..end];
        Batch(statements[index..end]);
        index, left := end, left - 1;
      }
      finished := index >= |statements|;
    }

    method Batch(statements: seq<Statement>)
      modifies this
      ensures revoked == ExecuteAll(columns, old(revoked), statements)
    {
      for i := 0 to |statements|
        invariant ExecuteAll(columns, revoked, statements[i..]) == ExecuteAll(columns, old(revoked), statements)
      {
        revoked := Execute(columns, revoked, statements[i]);
        assert statements[i..][1..] == statements[i + 1..];
      }
    }
  }
}
