/**
 * Reconciling the remote access group with the native staff cohort. A control row
 * carries the cohort's generation, the generation last certified, and a lease; the
 * remote group answers to nobody and may change at any time.
 */
module NativeStaffAccess {
  import opened Sorting
  import opened Wrappers

  const LEASE := 120
  const ATTEMPTS := 3
  const MAX_MEMBERS := 10000

  // ---------- the control row ----------

  datatype Hold = Hold(holder: nat, until: int)

  datatype Control = Control(enabled: bool, generation: nat, applied: nat, lease: Option<Hold>, attempt: Option<nat>)

  predicate Claimable(c: Control, generation: nat, now: int) {
    c.enabled && c.generation == generation && (c.lease.Some? ==> c.lease.value.until <= now)
  }

  function Claim(c: Control, holder: nat, now: int): Control {
    c.(lease := Some(Hold(holder, now + LEASE)), attempt := Some(c.generation))
  }

  /** The attempt still speaks for its generation. */
  predicate Current(c: Control, holder: nat, generation: nat, now: int) {
    && c.enabled && c.generation == generation && c.attempt == Some(generation)
    && c.lease.Some? && c.lease.value.holder == holder && c.lease.value.until > now
  }

  function Complete(c: Control, generation: nat): Control {
    c.(applied := generation, lease := None, attempt := None)
  }

  function Clear(c: Control, holder: nat): Control {
    if c.lease.Some? && c.lease.value.holder == holder then c.(lease := None, attempt := None) else c
  }

  // ---------- the remote group ----------

  datatype Rule = Email(address: string) | Unmanaged

  /** The group; the fields that are only carried along are kept as their JSON text. */
  datatype Group = Group(id: string, name: string, included: seq<Rule>, excluded: string, required: string, isDefault: bool)

  /** The configured group, how addresses are trimmed and lowered, and what passes for one by its length, characters and shape. */
  datatype Config = Config(id: string, name: Option<string>, fold: string -> string, isAddress: string -> bool)

  predicate Identified(g: Group, config: Config) {
    g.id == config.id && g.name != "" && (config.name.Some? ==> config.fold(config.name.value) != "" && g.name == config.name.value)
  }

  /** managedEmails: the included addresses, unless something other than addresses is included. */
  function Managed(g: Group, config: Config): Option<seq<string>> {
    if Unmanaged in g.included then None else Some(Addresses(g.included, config.fold))
  }

  function Addresses(rules: seq<Rule>, fold: string -> string): seq<string> {
    if rules == [] then [] else (if rules[0].Email? then [fold(rules[0].address)] else []) + Addresses(rules[1..], fold)
  }

  /** The group admits exactly these sorted addresses. */
  predicate Admits(g: Group, emails: seq<string>, config: Config) {
    Managed(g, config).Some? && SortStrings(Managed(g, config).value) == emails
  }

  predicate SameBesides(g: Group, h: Group) {
    g.id == h.id && g.name == h.name && g.excluded == h.excluded && g.required == h.required && g.isDefault == h.isDefault
  }

  function Rules(emails: seq<string>): seq<Rule> {
    seq(|emails|, i requires 0 <= i < |emails| => Email(emails[i]))
  }

  /** What a write that lands makes of the group. */
  function Replaced(g: Group, first: Group, emails: seq<string>): Group {
    g.(name := first.name, included := Rules(emails), excluded := first.excluded, required := first.required, isDefault := first.isDefault)
  }

  // ---------- attempts ----------

  datatype Outcome = Disabled | Busy | Applied | Pending

  /** Where an attempt has come to. `tries` counts the requests of the current kind, `first` is the group as first read,
      `seen` the one that was found to admit the cohort. */
  datatype Phase =
    | Started
    | Claiming
    | Listing
    | Listed(emails: seq<string>, at: nat)
    | Reading(emails: seq<string>, tries: nat)
    | Fetching(emails: seq<string>, tries: nat)
    | Writing(emails: seq<string>, first: Group, tries: nat)
    | Putting(emails: seq<string>, first: Group, tries: nat)
    | Checking(emails: seq<string>, first: Group, tries: nat)
    | Rereading(emails: seq<string>, first: Group, tries: nat)
    | Verified(emails: seq<string>, seen: Group, written: Option<Group>)
    | Completing(emails: seq<string>, seen: Group, written: Option<Group>)
    | Failing
    | Done(outcome: Outcome)
    | Crashed

  datatype Attempt = Attempt(generation: nat, phase: Phase)

  /** What the other side says: a good answer, one worth another try (or none at all), or a refusal. */
  datatype Reply = Good | Again | Refused

  /** A completed certification. */
  datatype Certificate = Certificate(generation: nat, holder: nat, at: int, seen: Group, written: Option<Group>)

  /** `cohorts[g]` is the cohort of generation g. */
  datatype State = State(control: Control, cohorts: seq<seq<string>>, group: Group, now: int, attempts: seq<Attempt>, certificates: seq<Certificate>)

  datatype Action =
    | Begin
    | Advance(i: nat, reply: Reply, landed: bool)
    | Crash(i: nat)
    | Tick(seconds: nat)
    | ChangeCohort(emails: seq<string>)
    | Enable(enabled: bool)
    | Remote(group: Group)

  /** Addresses, trimmed and lowered already, none of them twice. */
  predicate ValidCohort(emails: seq<string>, config: Config) {
    && 1 <= |emails| <= MAX_MEMBERS && (forall i, j :: 0 <= i < j < |emails| ==> emails[i] != emails[j])
    && forall e :: e in emails ==> config.fold(e) == e && config.isAddress(e)
  }

  /** The next try of the current request, or the end of them. */
  function Retry(tries: nat, again: nat -> Phase): Phase {
    if tries + 1 < ATTEMPTS then again(tries + 1) else Failing
  }

  /** What the first answer about the group leads to. */
  function FirstSight(g: Group, emails: seq<string>, config: Config): Phase {
    if !Identified(g, config) || Managed(g, config) == None then Failing
    else if Admits(g, emails, config) then Verified(emails, g, None)
    else Writing(emails, g, 0)
  }

  function SecondSight(g: Group, emails: seq<string>, first: Group, config: Config): Phase {
    if Admits(g, emails, config) && SameBesides(g, first) then Verified(emails, g, Some(first)) else Failing
  }

  /** Where a statement leads, given whether the attempt is current when it is run. */
  function NextPhase(a: Attempt, s: State, current: bool, reply: Reply, config: Config): Phase
    requires s.cohorts != []
  {
    match a.phase
    case Started => if s.control.enabled then Claiming else Done(Disabled)
    case Claiming => if Claimable(s.control, a.generation, s.now) then Listing else Done(Busy)
    case Listing =>
      var emails := s.cohorts[|s.cohorts| - 1];
      if reply.Good? && ValidCohort(emails, config) then Listed(SortStrings(emails), |s.cohorts| - 1) else Failing
    case Listed(emails, _) => if current then Reading(emails, 0) else Failing
    case Reading(emails, tries) => if current then Fetching(emails, tries) else Failing
    case Fetching(emails, tries) =>
      if reply.Again? then Retry(tries, (n: nat) => Reading(emails, n))
      else if reply.Refused? then Failing
      else FirstSight(s.group, emails, config)
    case Writing(emails, first, tries) => if current then Putting(emails, first, tries) else Failing
    case Putting(emails, first, tries) =>
      if reply.Again? then Retry(tries, (n: nat) => Writing(emails, first, n))
      else if reply.Refused? then Failing
      else Checking(emails, first, 0)
    case Checking(emails, first, tries) => if current then Rereading(emails, first, tries) else Failing
    case Rereading(emails, first, tries) =>
      if reply.Again? then Retry(tries, (n: nat) => Checking(emails, first, n))
      else if reply.Refused? then Failing
      else SecondSight(s.group, emails, first, config)
    case Verified(emails, seen, written) => if current then Completing(emails, seen, written) else Failing
    case Completing(_, _, _) => if current then Done(Applied) else Failing
    case Failing => Done(Outcome.Pending)
    case _ => a.phase
  }

  function NextControl(a: Attempt, s: State, i: nat, current: bool): Control {
    match a.phase
    case Claiming => if Claimable(s.control, a.generation, s.now) then Claim(s.control, i, s.now) else s.control
    case Completing(_, _, _) => if current then Complete(s.control, a.generation) else s.control
    case Failing => Clear(s.control, i)
    case _ => s.control
  }

  function Moved(s: State, i: nat, reply: Reply, landed: bool, config: Config): State
    requires i < |s.attempts| && s.cohorts != []
  {
    var a := s.attempts[i];
    var current := Current(s.control, i, a.generation, s.now);
    var generation := if a.phase.Started? then s.control.generation else a.generation;
    s.(control := NextControl(a, s, i, current),
       group := if a.phase.Putting? && landed then Replaced(s.group, a.phase.first, a.phase.emails) else s.group,
       attempts := s.attempts[i := Attempt(generation, NextPhase(a, s, current, reply, config))],
       certificates := if a.phase.Completing? && current
                       then s.certificates + [Certificate(a.generation, i, s.now, a.phase.seen, a.phase.written)]
                       else s.certificates)
  }

  function Next(s: State, action: Action, config: Config): State
    requires s.cohorts != []
  {
    match action
    case Begin => s.(attempts := s.attempts + [Attempt(0, Started)])
    case Advance(i, reply, landed) => if i < |s.attempts| then Moved(s, i, reply, landed, config) else s
    case Crash(i) => if i < |s.attempts| then s.(attempts := s.attempts[i := s.attempts[i].(phase := Crashed)]) else s
    case Tick(seconds) => s.(now := s.now + seconds)
    case ChangeCohort(emails) => s.(cohorts := s.cohorts + [emails], control := s.control.(generation := s.control.generation + 1))
    case Enable(enabled) => s.(control := s.control.(enabled := enabled))
    case Remote(group) => s.(group := group)
  }

  function Init(cohort: seq<string>, group: Group): State {
    State(Control(false, 0, 0, None, None), [cohort], group, 0, [], [])
  }

  function Run(cohort: seq<string>, group: Group, actions: seq<Action>, config: Config): (s: State)
    ensures s.cohorts != []
    decreases |actions|
  {
    if actions == [] then Init(cohort, group)
    else Next(Run(cohort, group, actions[..|actions| - 1], config), actions[|actions| - 1], config)
  }

  // ---------- what every step keeps ----------

  /** The addresses an attempt works with are those of its generation. */
  predicate Speaks(emails: seq<string>, generation: nat, cohorts: seq<seq<string>>) {
    generation < |cohorts| && emails == SortStrings(cohorts[generation])
  }

  predicate Seen(seen: Group, written: Option<Group>, emails: seq<string>, config: Config) {
    Admits(seen, emails, config) && (written.Some? ==> SameBesides(seen, written.value))
  }

  predicate Sound(a: Attempt, cohorts: seq<seq<string>>, config: Config) {
    a.generation < |cohorts| &&
    match a.phase
    case Listed(emails, at) => a.generation <= at && Speaks(emails, at, cohorts)
    case Reading(emails, _) => Speaks(emails, a.generation, cohorts)
    case Fetching(emails, _) => Speaks(emails, a.generation, cohorts)
    case Writing(emails, _, _) => Speaks(emails, a.generation, cohorts)
    case Putting(emails, _, _) => Speaks(emails, a.generation, cohorts)
    case Checking(emails, _, _) => Speaks(emails, a.generation, cohorts)
    case Rereading(emails, _, _) => Speaks(emails, a.generation, cohorts)
    case Verified(emails, seen, written) => Speaks(emails, a.generation, cohorts) && Seen(seen, written, emails, config)
    case Completing(emails, seen, written) => Speaks(emails, a.generation, cohorts) && Seen(seen, written, emails, config)
    case _ => true
  }

  predicate Certified(c: Certificate, cohorts: seq<seq<string>>, config: Config) {
    c.generation < |cohorts| && Seen(c.seen, c.written, SortStrings(cohorts[c.generation]), config)
  }

  predicate AttemptsSound(s: State, config: Config) {
    forall i :: 0 <= i < |s.attempts| ==> Sound(s.attempts[i], s.cohorts, config)
  }

  /** Certificates are about ever later generations, and the last one is what the control row shows. */
  predicate CertificatesSound(s: State, config: Config) {
    && (forall k :: 0 <= k < |s.certificates| ==> Certified(s.certificates[k], s.cohorts, config))
    && (forall j, k :: 0 <= j < k < |s.certificates| ==> s.certificates[j].generation <= s.certificates[k].generation)
    && s.control.applied == if s.certificates == [] then 0 else s.certificates[|s.certificates| - 1].generation
  }

  predicate Inv(s: State, config: Config) {
    && s.cohorts != [] && s.control.generation == |s.cohorts| - 1 && s.control.applied <= s.control.generation
    && AttemptsSound(s, config) && CertificatesSound(s, config)
  }

  lemma SightsSound(g: Group, a: Attempt, emails: seq<string>, first: Group, cohorts: seq<seq<string>>, config: Config)
    requires a.generation < |cohorts| && Speaks(emails, a.generation, cohorts)
    ensures Sound(a.(phase := FirstSight(g, emails, config)), cohorts, config)
    ensures Sound(a.(phase := SecondSight(g, emails, first, config)), cohorts, config)
  {
  }

  lemma NextPhaseSound(a: Attempt, s: State, current: bool, reply: Reply, config: Config)
    requires Inv(s, config) && Sound(a, s.cohorts, config) && (current ==> s.control.generation == a.generation)
    ensures var generation := if a.phase.Started? then s.control.generation else a.generation;
            Sound(Attempt(generation, NextPhase(a, s, current, reply, config)), s.cohorts, config)
  {
    match a.phase
    case Fetching(emails, _) => SightsSound(s.group, a, emails, s.group, s.cohorts, config);
    case Rereading(emails, first, _) => SightsSound(s.group, a, emails, first, s.cohorts, config);
    case _ =>
  }

  lemma MovedSound(s: State, i: nat, reply: Reply, landed: bool, config: Config)
    requires Inv(s, config) && i < |s.attempts|
    ensures Sound(Moved(s, i, reply, landed, config).attempts[i], s.cohorts, config)
  {
    var a := s.attempts[i];
    NextPhaseSound(a, s, Current(s.control, i, a.generation, s.now), reply, config);
  }

  lemma MovedAttempts(s: State, i: nat, reply: Reply, landed: bool, config: Config)
    requires Inv(s, config) && i < |s.attempts|
    ensures AttemptsSound(Moved(s, i, reply, landed, config), config)
  {
    MovedSound(s, i, reply, landed, config);
    var t := Moved(s, i, reply, landed, config);
    forall j | 0 <= j < |t.attempts| ensures Sound(t.attempts[j], t.cohorts, config) {
      if j != i { assert t.attempts[j] == s.attempts[j]; }
    }
  }

  /** One more certificate, about the generation that the control row then shows. */
  lemma CertificateAdded(s: State, c: Certificate, t: State, config: Config)
    requires CertificatesSound(s, config) && Certified(c, s.cohorts, config) && s.control.applied <= c.generation
    requires t.cohorts == s.cohorts && t.certificates == s.certificates + [c] && t.control.applied == c.generation
    ensures CertificatesSound(t, config)
  {
    var n := |s.certificates|;
    forall k | 0 <= k < n + 1 ensures Certified(t.certificates[k], t.cohorts, config) {
      if k < n { assert t.certificates[k] == s.certificates[k]; }
    }
    forall j, k | 0 <= j < k < n + 1 ensures t.certificates[j].generation <= t.certificates[k].generation {
      assert s.certificates[j].generation <= s.certificates[n - 1].generation;
    }
  }

  lemma MovedCertificates(s: State, i: nat, reply: Reply, landed: bool, config: Config)
    requires Inv(s, config) && i < |s.attempts|
    ensures CertificatesSound(Moved(s, i, reply, landed, config), config)
  {
    var a, t := s.attempts[i], Moved(s, i, reply, landed, config);
    assert Sound(a, s.cohorts, config);
    if a.phase.Completing? && Current(s.control, i, a.generation, s.now) {
      CertificateAdded(s, Certificate(a.generation, i, s.now, a.phase.seen, a.phase.written), t, config);
    }
  }

  lemma MovedKeeps(s: State, i: nat, reply: Reply, landed: bool, config: Config)
    requires Inv(s, config) && i < |s.attempts|
    ensures Inv(Moved(s, i, reply, landed, config), config)
  {
    MovedAttempts(s, i, reply, landed, config);
    MovedCertificates(s, i, reply, landed, config);
  }

  /** A new cohort leaves the ones before it as they were. */
  lemma CohortKeeps(s: State, emails: seq<string>, config: Config)
    requires Inv(s, config)
    ensures Inv(Next(s, ChangeCohort(emails), config), config)
  {
    var t := Next(s, ChangeCohort(emails), config);
    forall i | 0 <= i < |t.attempts| ensures Sound(t.attempts[i], t.cohorts, config) { assert Sound(s.attempts[i], s.cohorts, config); }
    forall k | 0 <= k < |t.certificates| ensures Certified(t.certificates[k], t.cohorts, config) {
      assert Certified(s.certificates[k], s.cohorts, config);
    }
  }

  /** Nothing else touches cohorts or certificates, and an attempt only begins or stops. */
  lemma OthersKeep(s: State, action: Action, config: Config)
    requires Inv(s, config) && !action.Advance? && !action.ChangeCohort?
    ensures Inv(Next(s, action, config), config)
  {
    var t := Next(s, action, config);
    forall i | 0 <= i < |t.attempts| ensures Sound(t.attempts[i], t.cohorts, config) {
      if i < |s.attempts| { assert Sound(s.attempts[i], s.cohorts, config); }
    }
  }

  lemma NextKeeps(s: State, action: Action, config: Config)
    requires Inv(s, config)
    ensures Inv(Next(s, action, config), config)
  {
    if action.Advance? {
      if action.i < |s.attempts| { MovedKeeps(s, action.i, action.reply, action.landed, config); }
    } else if action.ChangeCohort? {
      CohortKeeps(s, action.emails, config);
    } else {
      OthersKeep(s, action, config);
    }
  }

  lemma {:induction false} RunKeeps(cohort: seq<string>, group: Group, actions: seq<Action>, config: Config)
    ensures Inv(Run(cohort, group, actions, config), config)
    decreases |actions|
  {
    if actions != [] {
      RunKeeps(cohort, group, actions[..|actions| - 1], config);
      NextKeeps(Run(cohort, group, actions[..|actions| - 1], config), actions[|actions| - 1], config);
    }
  }

  // ---------- what a certificate is worth ----------

  lemma CertificateMeans(s: State, config: Config, k: nat)
    requires Inv(s, config) && k < |s.certificates|
    ensures var c := s.certificates[k];
            && c.generation <= s.control.applied <= s.control.generation == |s.cohorts| - 1
            && Managed(c.seen, config).Some? && multiset(Managed(c.seen, config).value) == multiset(s.cohorts[c.generation])
            && (c.written.Some? ==> SameBesides(c.seen, c.written.value))
  {
    var c := s.certificates[k];
    assert Certified(c, s.cohorts, config);
    SortedAlike(Managed(c.seen, config).value, s.cohorts[c.generation]);
  }

  // ---------- histories ----------

  datatype History = History(cohort: seq<string>, group: Group, actions: seq<Action>, config: Config)

  /** The state after the first `n` actions. */
  function After(h: History, n: nat): (s: State)
    requires n <= |h.actions|
    ensures s.cohorts != []
  {
    Run(h.cohort, h.group, h.actions[..n], h.config)
  }

  lemma AfterStep(h: History, n: nat)
    requires n < |h.actions|
    ensures After(h, n + 1) == Next(After(h, n), h.actions[n], h.config)
  {
    assert h.actions[..n + 1][..n] == h.actions[..n];
  }

  lemma AfterKeeps(h: History, n: nat)
    requires n <= |h.actions|
    ensures Inv(After(h, n), h.config)
  {
    RunKeeps(h.cohort, h.group, h.actions[..n], h.config);
  }

  /** Action `n` is the good answer to a read of attempt `i`, its first or the readback, and the group was `g`. */
  predicate ReadAt(h: History, n: nat, i: nat, g: Group, again: bool) {
    && n < |h.actions| && h.actions[n].Advance? && h.actions[n].i == i && h.actions[n].reply.Good?
    && i < |After(h, n).attempts| && After(h, n).group == g
    && (if again then After(h, n).attempts[i].phase.Rereading? else After(h, n).attempts[i].phase.Fetching?)
  }

  predicate FirstRead(h: History, n: nat, i: nat, g: Group) {
    exists m: nat :: m < n && ReadAt(h, m, i, g, false)
  }

  /** Before action `n` attempt `i` read the group as `seen`; if it wrote, it had first read it as `written`. */
  ghost predicate Backed(h: History, n: nat, i: nat, seen: Group, written: Option<Group>) {
    if written == None then FirstRead(h, n, i, seen)
    else exists m: nat :: m < n && ReadAt(h, m, i, seen, true) && FirstRead(h, m, i, written.value)
  }

  /** Action `p` took attempt `i` to `phase`, and the attempt was current when it did. */
  predicate AuthorizedAt(h: History, p: nat, i: nat, phase: Phase) {
    && p < |h.actions| && h.actions[p].Advance? && h.actions[p].i == i && i < |After(h, p).attempts|
    && Current(After(h, p).control, i, After(h, p).attempts[i].generation, After(h, p).now)
    && i < |After(h, p + 1).attempts| && After(h, p + 1).attempts[i].phase == phase
  }

  predicate Authorized(h: History, n: nat, i: nat, phase: Phase) {
    exists p: nat :: p < n && AuthorizedAt(h, p, i, phase)
  }

  /** Action `p` issued the certificate: its holder was current and completing, and had read what it certifies. */
  ghost predicate IssuedAt(h: History, p: nat, c: Certificate) {
    && p < |h.actions| && h.actions[p].Advance? && h.actions[p].i == c.holder && c.holder < |After(h, p).attempts|
    && Current(After(h, p).control, c.holder, c.generation, After(h, p).now) && After(h, p).now == c.at
    && After(h, p).attempts[c.holder].phase.Completing? && Backed(h, p, c.holder, c.seen, c.written)
  }

  ghost predicate Issued(h: History, n: nat, c: Certificate) {
    exists p: nat :: p < n && IssuedAt(h, p, c)
  }

  ghost predicate AttemptTraced(h: History, n: nat, i: nat, phase: Phase) {
    match phase
    case Fetching(_, _) => Authorized(h, n, i, phase)
    case Writing(_, first, _) => FirstRead(h, n, i, first)
    case Putting(_, first, _) => Authorized(h, n, i, phase) && FirstRead(h, n, i, first)
    case Checking(_, first, _) => FirstRead(h, n, i, first)
    case Rereading(_, first, _) => Authorized(h, n, i, phase) && FirstRead(h, n, i, first)
    case Verified(_, seen, written) => Backed(h, n, i, seen, written)
    case Completing(_, seen, written) => Backed(h, n, i, seen, written)
    case _ => true
  }

  ghost predicate Traced(h: History, n: nat)
    requires n <= |h.actions|
  {
    && (forall i :: 0 <= i < |After(h, n).attempts| ==> AttemptTraced(h, n, i, After(h, n).attempts[i].phase))
    && (forall k :: 0 <= k < |After(h, n).certificates| ==> Issued(h, n, After(h, n).certificates[k]))
  }

  lemma TracedLater(h: History, n: nat, i: nat, phase: Phase)
    requires AttemptTraced(h, n, i, phase)
    ensures AttemptTraced(h, n + 1, i, phase)
  {
  }

  lemma ReadTraced(h: History, n: nat)
    requires n < |h.actions| && h.actions[n].Advance? && h.actions[n].i < |After(h, n).attempts|
    requires AttemptTraced(h, n, h.actions[n].i, After(h, n).attempts[h.actions[n].i].phase)
    requires After(h, n).attempts[h.actions[n].i].phase.Fetching? || After(h, n).attempts[h.actions[n].i].phase.Rereading?
    ensures h.actions[n].i < |After(h, n + 1).attempts|
    ensures AttemptTraced(h, n + 1, h.actions[n].i, After(h, n + 1).attempts[h.actions[n].i].phase)
  {
    AfterStep(h, n);
    var i, s := h.actions[n].i, After(h, n);
    if h.actions[n].reply.Good? { assert ReadAt(h, n, i, s.group, s.attempts[i].phase.Rereading?); }
  }

  lemma RequestTraced(h: History, n: nat)
    requires n < |h.actions| && h.actions[n].Advance? && h.actions[n].i < |After(h, n).attempts|
    requires AttemptTraced(h, n, h.actions[n].i, After(h, n).attempts[h.actions[n].i].phase)
    requires !After(h, n).attempts[h.actions[n].i].phase.Fetching? && !After(h, n).attempts[h.actions[n].i].phase.Rereading?
    ensures h.actions[n].i < |After(h, n + 1).attempts|
    ensures AttemptTraced(h, n + 1, h.actions[n].i, After(h, n + 1).attempts[h.actions[n].i].phase)
  {
    AfterStep(h, n);
    var i := h.actions[n].i;
    var p, q := After(h, n).attempts[i].phase, After(h, n + 1).attempts[i].phase;
    if (p.Reading? || p.Writing? || p.Checking?) && !q.Failing? { assert AuthorizedAt(h, n, i, q); }
  }

  lemma AttemptsTraced(h: History, n: nat, i: nat)
    requires n < |h.actions| && Traced(h, n) && i < |After(h, n + 1).attempts|
    ensures AttemptTraced(h, n + 1, i, After(h, n + 1).attempts[i].phase)
  {
    AfterStep(h, n);
    if i < |After(h, n).attempts| { TracedLater(h, n, i, After(h, n).attempts[i].phase); }
    if h.actions[n].Advance? && h.actions[n].i == i {
      if After(h, n).attempts[i].phase.Fetching? || After(h, n).attempts[i].phase.Rereading? {
        ReadTraced(h, n);
      } else {
        RequestTraced(h, n);
      }
    }
  }

  lemma CertificatesTraced(h: History, n: nat, k: nat)
    requires n < |h.actions| && Traced(h, n) && k < |After(h, n + 1).certificates|
    ensures Issued(h, n + 1, After(h, n + 1).certificates[k])
  {
    AfterStep(h, n);
    var c := After(h, n + 1).certificates[k];
    if k < |After(h, n).certificates| {
      assert Issued(h, n, After(h, n).certificates[k]);
    } else {
      assert IssuedAt(h, n, c);
    }
  }

  lemma {:induction false} RunTraced(h: History, n: nat)
    requires n <= |h.actions|
    ensures Traced(h, n)
    decreases n
  {
    if n == 0 {
      assert h.actions[..0] == [];
    } else {
      RunTraced(h, n - 1);
      forall i | 0 <= i < |After(h, n).attempts| ensures AttemptTraced(h, n, i, After(h, n).attempts[i].phase) { AttemptsTraced(h, n - 1, i); }
      forall k | 0 <= k < |After(h, n).certificates| ensures Issued(h, n, After(h, n).certificates[k]) { CertificatesTraced(h, n - 1, k); }
    }
  }

  /** Over every run: a certificate was issued at some action `p` by the attempt that then held the lease for its
      generation. That attempt had read the remote group, which at the time of the read admitted exactly the members of the
      generation's cohort; if it wrote the group, it had read it before as well, and the other fields were the same. */
  lemma CertificatesAreTrue(h: History, k: nat) returns (p: nat)
    requires k < |After(h, |h.actions|).certificates|
    ensures var s := After(h, |h.actions|);
            var c := s.certificates[k];
            && IssuedAt(h, p, c)
            && c.generation <= s.control.applied <= s.control.generation == |s.cohorts| - 1
            && Managed(c.seen, h.config).Some? && multiset(Managed(c.seen, h.config).value) == multiset(s.cohorts[c.generation])
            && (c.written.Some? ==> SameBesides(c.seen, c.written.value))
  {
    AfterKeeps(h, |h.actions|);
    CertificateMeans(After(h, |h.actions|), h.config, k);
    RunTraced(h, |h.actions|);
    var c := After(h, |h.actions|).certificates[k];
    assert Issued(h, |h.actions|, c);
    p :| p < |h.actions| && IssuedAt(h, p, c);
  }

  /** A request to the remote group is under way only for an attempt that was current when it was sent. */
  lemma RequestsAreAuthorized(h: History, i: nat) returns (p: nat)
    requires i < |After(h, |h.actions|).attempts|
    requires var phase := After(h, |h.actions|).attempts[i].phase; phase.Fetching? || phase.Putting? || phase.Rereading?
    ensures AuthorizedAt(h, p, i, After(h, |h.actions|).attempts[i].phase)
    ensures After(h, p).control.generation == After(h, p).attempts[i].generation
  {
    RunTraced(h, |h.actions|);
    var phase := After(h, |h.actions|).attempts[i].phase;
    assert AttemptTraced(h, |h.actions|, i, phase);
    p :| p < |h.actions| && AuthorizedAt(h, p, i, phase);
  }

  lemma StepCertifies(s: State, action: Action, config: Config)
    requires Inv(s, config)
    ensures var t := Next(s, action, config);
            t.control.applied >= s.control.applied && s.certificates <= t.certificates && t.now >= s.now
  {
  }

  predicate CertifiesOn(s: State, t: State) {
    s.control.applied <= t.control.applied && s.certificates <= t.certificates && s.now <= t.now
  }

  lemma CertifiedStep(h: History, n: nat)
    requires n < |h.actions|
    ensures CertifiesOn(After(h, n), After(h, n + 1))
  {
    AfterKeeps(h, n);
    AfterStep(h, n);
    StepCertifies(After(h, n), h.actions[n], h.config);
  }

  lemma CertifiesOnward(s: State, t: State, u: State)
    requires CertifiesOn(s, t) && CertifiesOn(t, u)
    ensures CertifiesOn(s, u)
  {
  }

  /** Whatever happens later, the certified generation does not go back and no certificate is withdrawn. */
  lemma {:induction false} CertifiedStays(h: History, m: nat, n: nat)
    requires m <= n <= |h.actions|
    ensures CertifiesOn(After(h, m), After(h, n))
    decreases n
  {
    if m < n {
      CertifiedStays(h, m, n - 1);
      CertifiedStep(h, n - 1);
      CertifiesOnward(After(h, m), After(h, n - 1), After(h, n));
    }
  }

  /** An attempt that has lost its lease neither completes nor touches the row, whoever holds it now. */
  lemma SupersededIsHarmless(s: State, i: nat, reply: Reply, landed: bool, config: Config)
    requires s.cohorts != [] && i < |s.attempts| && !s.attempts[i].phase.Claiming?
    requires s.control.lease.Some? ==> s.control.lease.value.holder != i
    ensures Moved(s, i, reply, landed, config).control == s.control
    ensures Moved(s, i, reply, landed, config).attempts[i].phase != Done(Applied) || s.attempts[i].phase == Done(Applied)
  {
  }

  lemma LeaseIsKept(s: State, action: Action, config: Config)
    requires Inv(s, config) && s.control.lease.Some? && s.control.lease.value.until > s.now
    requires action.Advance? ==> action.i != s.control.lease.value.holder
    ensures Next(s, action, config).control.lease == s.control.lease
  {
  }

  lemma LeaseStep(h: History, n: nat, hold: Hold)
    requires n < |h.actions| && After(h, n).control.lease == Some(hold) && After(h, n).now < hold.until
    requires h.actions[n].Advance? ==> h.actions[n].i != hold.holder
    ensures After(h, n + 1).control.lease == Some(hold)
  {
    AfterKeeps(h, n);
    AfterStep(h, n);
    LeaseIsKept(After(h, n), h.actions[n], h.config);
  }

  /** Until it runs out, a lease stays with its holder whatever the other attempts do. */
  lemma {:induction false} LeasesAreExclusive(h: History, m: nat, n: nat, hold: Hold)
    requires m <= n <= |h.actions| && After(h, m).control.lease == Some(hold) && After(h, n).now < hold.until
    requires forall k :: m <= k < n && h.actions[k].Advance? ==> h.actions[k].i != hold.holder
    ensures After(h, n).control.lease == Some(hold)
    decreases n
  {
    if m < n {
      CertifiedStep(h, n - 1);
      LeasesAreExclusive(h, m, n - 1, hold);
      LeaseStep(h, n - 1, hold);
    }
  }

  // ---------- an attempt left alone ----------

  /** The group is the configured one and readable, and the addresses are ready to be written. */
  predicate Reachable(g: Group, emails: seq<string>, config: Config) {
    && Identified(g, config) && Managed(g, config).Some?
    && SortStrings(emails) == emails && forall e :: e in emails ==> config.fold(e) == e
  }

  lemma {:induction false} AddressesOfRules(emails: seq<string>, fold: string -> string)
    requires forall e :: e in emails ==> fold(e) == e
    ensures Addresses(Rules(emails), fold) == emails
  {
    if emails != [] {
      AddressesOfRules(emails[1..], fold);
      assert Rules(emails)[1..] == Rules(emails[1..]);
    }
  }

  /** A group that has been replaced admits the addresses it was given, and differs from before in them alone. */
  lemma ReplacedAdmits(g: Group, emails: seq<string>, config: Config)
    requires SortStrings(emails) == emails && forall e :: e in emails ==> config.fold(e) == e
    ensures Admits(Replaced(g, g, emails), emails, config) && SameBesides(Replaced(g, g, emails), g)
  {
    AddressesOfRules(emails, config.fold);
    assert Unmanaged !in Rules(emails);
  }

  /** Sorted, a valid cohort stays as it is when its addresses are folded and sorted. */
  lemma CohortIsNormal(cohort: seq<string>, config: Config)
    requires ValidCohort(cohort, config)
    ensures var emails := SortStrings(cohort);
            SortStrings(emails) == emails && forall e :: e in emails ==> config.fold(e) == e
  {
    var emails := SortStrings(cohort);
    SortInOrder(cohort);
    SortedAlike(emails, cohort);
    forall e | e in emails ensures config.fold(e) == e {
      assert e in multiset(emails);
      assert e in multiset(cohort);
    }
  }

  /** What is left of the group when an attempt has brought it to these addresses undisturbed. */
  function Brought(g: Group, emails: seq<string>, config: Config): Group {
    if Admits(g, emails, config) then g else Replaced(g, g, emails)
  }

  /** A run in which only attempt `i` acts, every request is answered well and every write lands. */
  ghost predicate Alone(run: seq<State>, i: nat, config: Config) {
    && (forall k :: 0 <= k < |run| ==> run[k].cohorts != [])
    && (forall k :: 0 <= k < |run| - 1 ==> run[k + 1] == Next(run[k], Advance(i, Good, true), config))
  }

  /** Such a run from `s` to `t`. */
  ghost predicate Leads(run: seq<State>, s: State, t: State, i: nat, config: Config) {
    run != [] && run[0] == s && run[|run| - 1] == t && Alone(run, i, config)
  }

  lemma LeadsOn(one: seq<State>, s: State, t: State, two: seq<State>, u: State, i: nat, config: Config) returns (run: seq<State>)
    requires Leads(one, s, t, i, config) && Leads(two, t, u, i, config)
    ensures Leads(run, s, u, i, config) && |run| == |one| + |two| - 1
  {
    run := one + two[1..];
    forall k | 0 <= k < |run| - 1 ensures run[k + 1] == Next(run[k], Advance(i, Good, true), config) {
      if k >= |one| - 1 { assert run[k] == two[k + 1 - |one|] && run[k + 1] == two[k + 2 - |one|]; }
    }
  }

  /** Attempt `i` is the current one, at `phase`. */
  predicate IsAt(s: State, i: nat, phase: Phase) {
    i < |s.attempts| && s.attempts[i] == Attempt(s.control.generation, phase) && Current(s.control, i, s.control.generation, s.now)
  }

  /** The rest of the world is as it was; only the lease may have changed hands. */
  predicate Alike(s: State, t: State) {
    && t.now == s.now && t.cohorts == s.cohorts && t.group == s.group && t.certificates == s.certificates
    && t.control.(lease := s.control.lease, attempt := s.control.attempt) == s.control
  }

  /** Two statements. */
  function Twice(s: State, i: nat, config: Config): State
    requires s.cohorts != []
  {
    Next(Next(s, Advance(i, Good, true), config), Advance(i, Good, true), config)
  }

  lemma TwiceLeads(s: State, i: nat, config: Config) returns (run: seq<State>)
    requires s.cohorts != []
    ensures Leads(run, s, Twice(s, i, config), i, config) && |run| == 3
  {
    run := [s, Next(s, Advance(i, Good, true), config), Twice(s, i, config)];
  }

  lemma Claims(s: State, i: nat, config: Config)
    requires s.cohorts != [] && i < |s.attempts| && s.attempts[i].phase.Started? && Claimable(s.control, s.control.generation, s.now)
    ensures var t := Twice(s, i, config); IsAt(t, i, Listing) && Alike(s, t)
  {
  }

  lemma Lists(s: State, i: nat, config: Config)
    requires s.cohorts != [] && s.control.generation == |s.cohorts| - 1
    requires ValidCohort(s.cohorts[|s.cohorts| - 1], config) && IsAt(s, i, Listing)
    ensures var t := Twice(s, i, config); IsAt(t, i, Reading(SortStrings(s.cohorts[|s.cohorts| - 1]), 0)) && Alike(s, t)
  {
  }

  lemma Reads(s: State, i: nat, emails: seq<string>, config: Config)
    requires s.cohorts != [] && IsAt(s, i, Reading(emails, 0)) && Reachable(s.group, emails, config)
    ensures var t := Twice(s, i, config);
            Alike(s, t) && IsAt(t, i, if Admits(s.group, emails, config) then Verified(emails, s.group, None) else Writing(emails, s.group, 0))
  {
  }

  lemma Puts(s: State, i: nat, emails: seq<string>, config: Config)
    requires s.cohorts != [] && IsAt(s, i, Writing(emails, s.group, 0))
    ensures var t := Twice(s, i, config);
            IsAt(t, i, Checking(emails, s.group, 0)) && Alike(s.(group := Replaced(s.group, s.group, emails)), t)
  {
  }

  lemma Checks(s: State, i: nat, emails: seq<string>, first: Group, config: Config)
    requires s.cohorts != [] && IsAt(s, i, Checking(emails, first, 0))
    requires Admits(s.group, emails, config) && SameBesides(s.group, first)
    ensures var t := Twice(s, i, config); IsAt(t, i, Verified(emails, s.group, Some(first))) && Alike(s, t)
  {
  }

  lemma Completes(s: State, i: nat, emails: seq<string>, written: Option<Group>, config: Config)
    requires s.cohorts != [] && IsAt(s, i, Verified(emails, s.group, written))
    ensures var t := Twice(s, i, config);
            && t.group == s.group && i < |t.attempts| && t.attempts[i].phase == Done(Applied)
            && t.control.applied == t.control.generation == s.control.generation && t.control.lease == None
            && t.certificates == s.certificates + [Certificate(s.control.generation, i, s.now, s.group, written)]
  {
  }

  /** From the claim to the first read. */
  lemma ComesToRead(s: State, i: nat, config: Config) returns (run: seq<State>, t: State)
    requires s.cohorts != [] && s.control.generation == |s.cohorts| - 1 && ValidCohort(s.cohorts[|s.cohorts| - 1], config)
    requires i < |s.attempts| && s.attempts[i].phase.Started? && Claimable(s.control, s.control.generation, s.now)
    ensures Leads(run, s, t, i, config) && |run| == 5
    ensures IsAt(t, i, Reading(SortStrings(s.cohorts[|s.cohorts| - 1]), 0)) && Alike(s, t)
  {
    Claims(s, i, config);
    var u := Twice(s, i, config);
    Lists(u, i, config);
    t := Twice(u, i, config);
    var one := TwiceLeads(s, i, config);
    var two := TwiceLeads(u, i, config);
    run := LeadsOn(one, s, u, two, t, i, config);
  }

  /** A group that differs is replaced and read back. */
  lemma WritesAndChecks(s: State, i: nat, emails: seq<string>, config: Config) returns (run: seq<State>, t: State)
    requires s.cohorts != [] && IsAt(s, i, Writing(emails, s.group, 0)) && Reachable(s.group, emails, config)
    ensures Leads(run, s, t, i, config) && |run| == 5
    ensures IsAt(t, i, Verified(emails, t.group, Some(s.group))) && Alike(s.(group := Replaced(s.group, s.group, emails)), t)
    ensures Admits(t.group, emails, config)
  {
    ReplacedAdmits(s.group, emails, config);
    Puts(s, i, emails, config);
    var u := Twice(s, i, config);
    Checks(u, i, emails, s.group, config);
    t := Twice(u, i, config);
    var one := TwiceLeads(s, i, config);
    var two := TwiceLeads(u, i, config);
    run := LeadsOn(one, s, u, two, t, i, config);
  }

  /** From the first read to the last one, the group is brought to the addresses. */
  lemma Brings(s: State, i: nat, emails: seq<string>, config: Config) returns (run: seq<State>, t: State, written: Option<Group>)
    requires s.cohorts != [] && IsAt(s, i, Reading(emails, 0)) && Reachable(s.group, emails, config)
    ensures Leads(run, s, t, i, config) && |run| <= 7 && t.cohorts != [] && IsAt(t, i, Verified(emails, t.group, written))
    ensures t.group == Brought(s.group, emails, config) && t.control.generation == s.control.generation
    ensures Admits(t.group, emails, config) && (written.Some? <==> !Admits(s.group, emails, config))
  {
    Reads(s, i, emails, config);
    t, written := Twice(s, i, config), None;
    run := TwiceLeads(s, i, config);
    if !Admits(s.group, emails, config) {
      var two, u := WritesAndChecks(t, i, emails, config);
      run := LeadsOn(run, s, t, two, u, i, config);
      t, written := u, Some(s.group);
    }
  }

  lemma BringsAndCompletes(s: State, i: nat, emails: seq<string>, config: Config) returns (run: seq<State>, t: State)
    requires s.cohorts != [] && IsAt(s, i, Reading(emails, 0)) && Reachable(s.group, emails, config)
    ensures Leads(run, s, t, i, config) && |run| <= 9 && i < |t.attempts| && t.attempts[i].phase == Done(Applied)
    ensures t.control.applied == t.control.generation == s.control.generation
    ensures t.group == Brought(s.group, emails, config) && Admits(t.group, emails, config)
  {
    var one, u, written := Brings(s, i, emails, config);
    Completes(u, i, emails, written, config);
    t := Twice(u, i, config);
    var two := TwiceLeads(u, i, config);
    run := LeadsOn(one, s, u, two, t, i, config);
  }

  lemma StartedCertifies(s: State, i: nat, config: Config) returns (run: seq<State>, t: State)
    requires s.cohorts != [] && s.control.generation == |s.cohorts| - 1 && ValidCohort(s.cohorts[|s.cohorts| - 1], config)
    requires i < |s.attempts| && s.attempts[i].phase.Started? && Claimable(s.control, s.control.generation, s.now)
    requires Identified(s.group, config) && Managed(s.group, config).Some?
    ensures Leads(run, s, t, i, config) && |run| <= 1 + 12 && i < |t.attempts| && t.attempts[i].phase == Done(Applied)
    ensures t.control.applied == t.control.generation == s.control.generation
    ensures var emails := SortStrings(s.cohorts[|s.cohorts| - 1]);
            t.group == Brought(s.group, emails, config) && Admits(t.group, emails, config)
  {
    CohortIsNormal(s.cohorts[|s.cohorts| - 1], config);
    var one, u := ComesToRead(s, i, config);
    var two;
    two, t := BringsAndCompletes(u, i, SortStrings(s.cohorts[|s.cohorts| - 1]), config);
    run := LeadsOn(one, s, u, two, t, i, config);
  }

  /** Nothing stands in the way of a new attempt. */
  predicate Ready(s: State, config: Config) {
    && s.cohorts != [] && Claimable(s.control, s.control.generation, s.now) && ValidCohort(s.cohorts[|s.cohorts| - 1], config)
    && Identified(s.group, config) && Managed(s.group, config).Some?
  }

  /** `t` is where the attempt `i` has ended: the generation of `s` is certified, and the group admits exactly its cohort. */
  predicate Achieved(s: State, t: State, i: nat, config: Config)
    requires s.cohorts != []
  {
    var cohort := s.cohorts[|s.cohorts| - 1];
    && i < |t.attempts| && t.attempts[i].phase == Done(Applied) && t.control.applied == t.control.generation == s.control.generation
    && t.group == Brought(s.group, SortStrings(cohort), config)
    && Managed(t.group, config).Some? && multiset(Managed(t.group, config).value) == multiset(cohort)
  }

  lemma NewAttemptCertifies(s: State, config: Config) returns (run: seq<State>, t: State)
    requires Ready(s, config) && s.control.generation == |s.cohorts| - 1
    ensures Leads(run, Next(s, Begin, config), t, |s.attempts|, config) && |run| <= 1 + 12
    ensures Achieved(s, t, |s.attempts|, config)
  {
    var begun := Next(s, Begin, config);
    assert begun == s.(attempts := s.attempts + [Attempt(0, Started)]);
    run, t := StartedCertifies(begun, |s.attempts|, config);
    SortedAlike(Managed(t.group, config).value, s.cohorts[|s.cohorts| - 1]);
  }

  /** Whatever went before: a new attempt that finds the row enabled and its lease free or run out, a valid cohort and a
      readable group, and that is left alone with every request answered, ends after twelve statements at most with the
      group admitting exactly the cohort and the cohort's generation certified. */
  lemma LeftAloneCertifies(h: History) returns (run: seq<State>, t: State)
    requires Ready(After(h, |h.actions|), h.config)
    ensures var s := After(h, |h.actions|);
            Leads(run, Next(s, Begin, h.config), t, |s.attempts|, h.config) && |run| <= 1 + 12 && Achieved(s, t, |s.attempts|, h.config)
  {
    AfterKeeps(h, |h.actions|);
    run, t := NewAttemptCertifies(After(h, |h.actions|), h.config);
  }

  // ---------- the reconciler ----------

  /** The control row and the remote group. */
  datatype World = World(control: Control, group: Group)

  /** What others have made of either by the time of a statement or an answer. */
  datatype Change = Change(control: Option<Control>, group: Option<Group>)

  function Changed(w: World, c: Change): World {
    World(if c.control.Some? then c.control.value else w.control, if c.group.Some? then c.group.value else w.group)
  }

  /** What a request puts in place: the rules for these addresses, and the other fields as in the first read. */
  datatype Write = Write(first: Group, emails: seq<string>)

  /** One kind of request: for each try, what others do before it is authorized and while it is under way, when it is authorized,
      whether the group takes on what it writes, acknowledged or not, and what comes back. */
  datatype Exchange = Exchange(before: nat -> Change, during: nat -> Change, clock: nat -> int, landed: nat -> bool, replies: nat -> Reply)

  /** The world after `k` tries have been answered. */
  function Answered(w: World, x: Exchange, write: Option<Write>, k: nat): World
    decreases k, 0
  {
    if k == 0 then w
    else
      var v := Changed(Authorizing(w, x, write, k - 1), x.during(k - 1));
      if write.Some? && x.landed(k - 1) then World(v.control, Replaced(v.group, write.value.first, write.value.emails)) else v
  }

  /** The world when the try after that is authorized. */
  function Authorizing(w: World, x: Exchange, write: Option<Write>, k: nat): World
    decreases k, 1
  {
    Changed(Answered(w, x, write, k), x.before(k))
  }

  /** A try of a read was answered well, and the group was `g`. */
  predicate ReadAs(w: World, x: Exchange, g: Group, k: nat) {
    k < ATTEMPTS && x.replies(k).Good? && Answered(w, x, None, k + 1).group == g
  }

  ghost predicate WasRead(w: World, x: Exchange, g: Group) {
    exists k: nat :: ReadAs(w, x, g, k)
  }

  /** The group as it was found to admit the cohort, and as it was first read if it has been written. */
  datatype Sight = Sight(seen: Group, written: Option<Group>)

  /** The first read allows a write: the group is the configured one, is readable, and does not admit the cohort. */
  predicate CallsForWrite(g: Group, emails: seq<string>, config: Config) {
    Identified(g, config) && Managed(g, config).Some? && !Admits(g, emails, config)
  }

  // ---------- when nobody interferes ----------

  predicate Quiet(c: Change) { c.control.None? && c.group.None? }

  /** Try `k` is answered well after others that were worth another try, and nobody acts until then. */
  ghost predicate Answers(x: Exchange, k: nat) {
    && k < ATTEMPTS && x.replies(k).Good? && (forall j: nat :: j < k ==> x.replies(j).Again?)
    && (forall j: nat :: j <= k ==> Quiet(x.before(j)) && Quiet(x.during(j)))
  }

  ghost predicate AnswersInTime(x: Exchange, landing: bool, c: Control, holder: nat, expected: nat) {
    && (exists k: nat :: Answers(x, k) && (landing ==> x.landed(k)))
    && (forall j: nat :: j < ATTEMPTS ==> Current(c, holder, expected, x.clock(j)))
  }

  /** Each of the three requests gets its good answer while the attempt is current, and the write that gets it has landed. */
  ghost predicate Smooth(c: Control, holder: nat, expected: nat, read: Exchange, write: Exchange, check: Exchange) {
    && AnswersInTime(read, false, c, holder, expected)
    && AnswersInTime(write, true, c, holder, expected)
    && AnswersInTime(check, false, c, holder, expected)
  }

  lemma {:induction false} QuietRead(w: World, x: Exchange, k: nat)
    requires forall j: nat :: j < k ==> Quiet(x.before(j)) && Quiet(x.during(j))
    ensures Answered(w, x, None, k) == w
  {
    if k > 0 { QuietRead(w, x, k - 1); }
  }

  /** Nobody acts while a group is being replaced: it is as it was, or as written. */
  lemma {:induction false} QuietWrite(w: World, x: Exchange, emails: seq<string>, k: nat)
    requires forall j: nat :: j < k ==> Quiet(x.before(j)) && Quiet(x.during(j))
    ensures var end := Answered(w, x, Some(Write(w.group, emails)), k);
            && end.control == w.control && (end.group == w.group || end.group == Replaced(w.group, w.group, emails))
            && (k > 0 && x.landed(k - 1) ==> end.group == Replaced(w.group, w.group, emails))
  {
    if k > 0 { QuietWrite(w, x, emails, k - 1); }
  }

  /** What boundedFetch does: at most three requests, each authorized just before it is sent, a further one only after an
      answer worth another try; it ends where one is answered otherwise, all are spent, or the attempt is not current. */
  ghost predicate Fetched(w: World, x: Exchange, write: Option<Write>, holder: nat, expected: nat, ok: bool, sent: nat, end: World) {
    && sent <= ATTEMPTS
    && (forall k: nat :: k < sent ==> Current(Authorizing(w, x, write, k).control, holder, expected, x.clock(k)))
    && (forall k: nat :: k + 1 < sent ==> x.replies(k).Again?)
    && (ok <==> sent > 0 && x.replies(sent - 1).Good?)
    && if sent == ATTEMPTS || (sent > 0 && !x.replies(sent - 1).Again?) then end == Answered(w, x, write, sent)
       else end == Authorizing(w, x, write, sent) && !Current(end.control, holder, expected, x.clock(sent))
  }

  /** With a good answer in time it succeeds, and at that answer. */
  lemma FetchSucceeds(w: World, x: Exchange, write: Option<Write>, holder: nat, expected: nat, ok: bool, sent: nat, end: World, k: nat)
    requires Fetched(w, x, write, holder, expected, ok, sent, end) && Answers(x, k)
    requires forall j: nat :: j <= k ==> Current(Authorizing(w, x, write, j).control, holder, expected, x.clock(j))
    ensures ok && sent == k + 1 && end == Answered(w, x, write, k + 1)
  {
  }

  lemma ReadSucceeds(w: World, x: Exchange, holder: nat, expected: nat, ok: bool, sent: nat, end: World)
    requires Fetched(w, x, None, holder, expected, ok, sent, end) && AnswersInTime(x, false, w.control, holder, expected)
    ensures ok && end == w
  {
    var k: nat :| Answers(x, k);
    forall j: nat | j <= k ensures Authorizing(w, x, None, j) == w { QuietRead(w, x, j); }
    FetchSucceeds(w, x, None, holder, expected, ok, sent, end, k);
    QuietRead(w, x, k + 1);
  }

  lemma WriteSucceeds(w: World, x: Exchange, emails: seq<string>, holder: nat, expected: nat, ok: bool, sent: nat, end: World)
    requires Fetched(w, x, Some(Write(w.group, emails)), holder, expected, ok, sent, end)
    requires AnswersInTime(x, true, w.control, holder, expected)
    ensures ok && sent > 0 && end == World(w.control, Replaced(w.group, w.group, emails))
  {
    var k: nat :| Answers(x, k) && x.landed(k);
    forall j: nat | j <= k ensures Authorizing(w, x, Some(Write(w.group, emails)), j).control == w.control {
      QuietWrite(w, x, emails, j);
    }
    FetchSucceeds(w, x, Some(Write(w.group, emails)), holder, expected, ok, sent, end, k);
    QuietWrite(w, x, emails, k + 1);
  }

  // ---------- the reconciler itself ----------

  /** The control row and the remote group as one attempt meets them, while others change either between its statements. */
  class Reconciler {
    var enabled: bool
    var generation: nat
    var applied: nat
    var lease: Option<Hold>
    var attempt: Option<nat>
    var group: Group

    function View(): Control
      reads this
    {
      Control(enabled, generation, applied, lease, attempt)
    }

    function Here(): World
      reads this
    {
      World(View(), group)
    }

    constructor (group: Group)
      ensures View() == Control(false, 0, 0, None, None) && this.group == group
    {
      enabled, generation, applied, lease, attempt, this.group := false, 0, 0, None, None, group;
    }

    /** What others do. */
    method Meanwhile(c: Change)
      modifies this
      ensures Here() == Changed(old(Here()), c)
    {
      if c.control.Some? {
        var row := c.control.value;
        enabled, generation, applied, lease, attempt := row.enabled, row.generation, row.applied, row.lease, row.attempt;
      }
      if c.group.Some? { group := c.group.value; }
    }

    method ClaimLease(holder: nat, expected: nat, now: int) returns (changed: bool)
      modifies `applied, `lease, `attempt
      ensures changed == Claimable(old(View()), expected, now)
      ensures View() == if changed then Claim(old(View()), holder, now) else old(View())
    {
      changed := enabled && generation == expected && (lease == None || lease.value.until <= now);
      if changed { lease, attempt := Some(Hold(holder, now + LEASE)), Some(generation); }
    }

    method CompleteAttempt(holder: nat, expected: nat, now: int) returns (changed: bool)
      modifies `applied, `lease, `attempt
      ensures changed == Current(old(View()), holder, expected, now)
      ensures View() == if changed then Complete(old(View()), expected) else old(View())
    {
      changed := enabled && generation == expected && attempt == Some(expected)
                 && lease.Some? && lease.value.holder == holder && lease.value.until > now;
      if changed { applied, lease, attempt := expected, None, None; }
    }

    method GiveUp(holder: nat)
      modifies `lease, `attempt
      ensures View() == Clear(old(View()), holder)
    {
      if lease.Some? && lease.value.holder == holder { lease, attempt := None, None; }
    }

    /** One try that is authorized: it is under way while others act, and may land. */
    method Send(x: Exchange, write: Option<Write>, k: nat, ghost start: World)
      requires Here() == Authorizing(start, x, write, k)
      modifies this
      ensures Here() == Answered(start, x, write, k + 1)
    {
      Meanwhile(x.during(k));
      if write.Some? && x.landed(k) { group := Replaced(group, write.value.first, write.value.emails); }
    }

    /** boundedFetch: at most three requests, each authorized just before it is sent. */
    method BoundedFetch(holder: nat, expected: nat, x: Exchange, write: Option<Write>) returns (ok: bool, sent: nat)
      modifies this
      ensures Fetched(old(Here()), x, write, holder, expected, ok, sent, Here())
    {
      ok, sent := false, 0;
      ghost var start := Here();
      while sent < ATTEMPTS
        invariant sent <= ATTEMPTS && !ok && Here() == Answered(start, x, write, sent)
        invariant forall k :: 0 <= k < sent ==>
                    Current(Authorizing(start, x, write, k).control, holder, expected, x.clock(k)) && x.replies(k).Again?
      {
        Meanwhile(x.before(sent));
        if !Current(View(), holder, expected, x.clock(sent)) { return; }
        Send(x, write, sent, start);
        var reply := x.replies(sent);
        sent := sent + 1;
        if !reply.Again? { return reply.Good?, sent; }
      }
    }

    /** applyManagedEmails with its check of the write. What is seen is the group as the last good answer found it; what is
        written follows a read that called for it. */
    method ApplyManagedEmails(holder: nat, expected: nat, emails: seq<string>, read: Exchange, write: Exchange, check: Exchange,
                              config: Config) returns (sight: Option<Sight>, ghost writes: nat)
      modifies this
      ensures sight.Some? ==> sight.value.seen == group && Admits(group, emails, config)
      ensures sight.Some? && sight.value.written == None ==> writes == 0 && WasRead(old(Here()), read, group)
      ensures sight.Some? && sight.value.written.Some? ==>
                var first := sight.value.written.value;
                writes > 0 && SameBesides(group, first) && CallsForWrite(first, emails, config) && WasRead(old(Here()), read, first)
      ensures writes > 0 ==> exists first :: WasRead(old(Here()), read, first) && CallsForWrite(first, emails, config)
      ensures Smooth(old(View()), holder, expected, read, write, check) && Reachable(old(group), emails, config) ==>
                && sight.Some? && (sight.value.written.Some? <==> !Admits(old(group), emails, config))
                && (writes > 0 <==> !Admits(old(group), emails, config))
                && View() == old(View()) && group == Brought(old(group), emails, config)
    {
      sight, writes := None, 0;
      ghost var start := Here();
      ghost var smooth := Smooth(View(), holder, expected, read, write, check) && Reachable(group, emails, config);
      var ok, sent := BoundedFetch(holder, expected, read, None);
      if smooth { ReadSucceeds(start, read, holder, expected, ok, sent, Here()); }
      if !ok { return; }
      assert ReadAs(old(Here()), read, group, sent - 1);
      if !Identified(group, config) || Managed(group, config) == None { return; }
      var first := group;
      if Admits(first, emails, config) { return Some(Sight(first, None)), 0; }
      assert WasRead(old(Here()), read, first) && CallsForWrite(first, emails, config);
      ok, sent := BoundedFetch(holder, expected, write, Some(Write(first, emails)));
      writes := sent;
      if smooth {
        WriteSucceeds(start, write, emails, holder, expected, ok, sent, Here());
        ReplacedAdmits(first, emails, config);
      }
      if !ok { return; }
      ghost var written := Here();
      ok, sent := BoundedFetch(holder, expected, check, None);
      if smooth { ReadSucceeds(written, check, holder, expected, ok, sent, Here()); }
      if !ok || !Admits(group, emails, config) || !SameBesides(group, first) { return; }
      sight := Some(Sight(group, Some(first)));
    }

    /** What follows the claim: the cohort is read and the group brought to it, and the attempt is current before and after. */
    method BringGroup(holder: nat, expected: nat, cohort: Option<seq<string>>, listed: int, verified: int, others: nat -> Change,
                      read: Exchange, write: Exchange, check: Exchange, config: Config) returns (sight: Option<Sight>)
      modifies this
      ensures sight.Some? ==> cohort.Some? && ValidCohort(cohort.value, config) && Current(View(), holder, expected, verified)
      ensures sight.Some? ==> Current(Changed(old(Here()), others(0)).control, holder, expected, listed)
      ensures sight.Some? ==> Certifies(sight.value, cohort.value, Changed(old(Here()), others(0)), read, config)
      ensures Favoured(old(Here()), holder, expected, cohort, listed, verified, others, read, write, check, config) ==>
                && sight.Some? && View() == old(View())
                && group == Brought(old(group), SortStrings(cohort.value), config) && Admits(group, SortStrings(cohort.value), config)
    {
      if cohort == None || !ValidCohort(cohort.value, config) { return None; }
      Meanwhile(others(0));
      if !Current(View(), holder, expected, listed) { return None; }
      ghost var writes;
      CohortIsNormal(cohort.value, config);
      sight, writes := ApplyManagedEmails(holder, expected, SortStrings(cohort.value), read, write, check, config);
      if sight == None { return; }
      SortedAlike(Managed(sight.value.seen, config).value, cohort.value);
      Meanwhile(others(1));
      if !Current(View(), holder, expected, verified) { sight := None; }
    }

    /** reconcileNativeStaffAccess: `claimed`, `listed`, `verified` and `completed` are the times of its own statements, and
        `others` what happens before each of them. `met` is the control row as its last statement found it. */
    method Reconcile(holder: nat, cohort: Option<seq<string>>, claimed: int, listed: int, verified: int, completed: int,
                     others: nat -> Change, read: Exchange, write: Exchange, check: Exchange, config: Config)
      returns (outcome: Outcome, sight: Option<Sight>, ghost met: Control)
      modifies this
      ensures outcome == Disabled <==> !old(enabled)
      ensures outcome == Disabled ==> Here() == old(Here())
      ensures outcome == Busy <==> old(enabled) && !Claimable(Changed(old(Here()), others(0)).control, old(generation), claimed)
      ensures outcome == Busy ==> Here() == Changed(old(Here()), others(0))
      ensures outcome == Outcome.Pending ==> View() == Clear(met, holder) && (lease.Some? ==> lease.value.holder != holder)
      ensures outcome == Applied ==>
                && Current(met, holder, old(generation), completed) && View() == Complete(met, old(generation))
                && sight.Some? && cohort.Some? && ValidCohort(cohort.value, config)
                && exists w :: Certifies(sight.value, cohort.value, w, read, config)
      ensures var w := World(Claim(old(View()), holder, claimed), old(group));
              && Claimable(old(View()), old(generation), claimed) && (forall i: nat :: i <= 3 ==> Quiet(others(i)))
              && Favoured(w, holder, old(generation), cohort, listed, verified, (i: nat) => others(i + 1), read, write, check, config)
              && Current(w.control, holder, old(generation), completed) ==>
                && outcome == Applied && applied == old(generation) && lease == None
                && group == Brought(old(group), SortStrings(cohort.value), config) && Admits(group, SortStrings(cohort.value), config)
    {
      sight, met := None, View();
      if !enabled { return Disabled, None, met; }
      var expected := generation;
      Meanwhile(others(0));
      var changed := ClaimLease(holder, expected, claimed);
      if !changed { return Busy, None, met; }
      sight := BringGroup(holder, expected, cohort, listed, verified, (i: nat) => others(i + 1), read, write, check, config);
      if sight.Some? {
        Meanwhile(others(3));
        met := View();
        changed := CompleteAttempt(holder, expected, completed);
        if changed { return Applied, sight, met; }
      }
      Meanwhile(others(4));
      met := View();
      GiveUp(holder);
      outcome := Outcome.Pending;
    }
  }

  /** An attempt at a readable group for a valid cohort that nothing stands in the way of. */
  ghost predicate Favoured(w: World, holder: nat, expected: nat, cohort: Option<seq<string>>, listed: int, verified: int,
                           others: nat -> Change, read: Exchange, write: Exchange, check: Exchange, config: Config) {
    && cohort.Some? && ValidCohort(cohort.value, config) && Quiet(others(0)) && Quiet(others(1))
    && Identified(w.group, config) && Managed(w.group, config).Some?
    && Current(w.control, holder, expected, listed) && Current(w.control, holder, expected, verified)
    && Smooth(w.control, holder, expected, read, write, check)
  }

  /** What an attempt may certify: from the world `w` on, the group was read as admitting exactly the members of the cohort,
      either at once, or after it had been read as calling for a write and with the other fields as they were then. */
  ghost predicate Certifies(sight: Sight, cohort: seq<string>, w: World, read: Exchange, config: Config) {
    && Managed(sight.seen, config).Some? && multiset(Managed(sight.seen, config).value) == multiset(cohort)
    && match sight.written
       case None => WasRead(w, read, sight.seen)
       case Some(first) => SameBesides(sight.seen, first) && CallsForWrite(first, SortStrings(cohort), config) && WasRead(w, read, first)
  }
}
