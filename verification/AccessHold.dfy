/**
 * Holding denied requests until access is renewed: many requests share one wait,
 * and each is retried at most once.
 */
module AccessHold {
  import opened Wrappers

  type WaitId = nat

  /** What has become of a wait, for good once it is resolved. */
  datatype Wait = Open | Resolved(allowed: bool)

  /** The closure's variables. `waits` remembers every wait, `timers` are the ones still running, and the counters say how
      often each callback has been called. */
  datatype Gate = Gate(pending: Option<WaitId>, disposed: bool, generation: nat, directory: string, waits: seq<Wait>,
                       timers: set<WaitId>, required: nat, restored: nat, unavailable: nat)

  function Installed(directory: string): Gate {
    Gate(None, false, 0, directory, [], {}, 0, 0, 0)
  }

  // ---------- the closure's functions ----------

  function Finish(g: Gate, allowed: bool): Gate {
    if g.pending == None || g.pending.value >= |g.waits| then g
    else
      var w := g.pending.value;
      g.(pending := None, timers := g.timers - {w}, waits := g.waits[w := Resolved(allowed)],
         restored := if allowed then g.restored + 1 else g.restored,
         unavailable := if allowed then g.unavailable else g.unavailable + 1)
  }

  /** Where a renewal points: nowhere new, to another origin, or to a directory. */
  datatype Address = Unchanged | Foreign | Directory(path: string)

  function Renew(g: Gate, address: Address): Gate {
    if g.disposed then g
    else match address
      case Foreign => Finish(g, false)
      case Unchanged => Finish(g.(generation := g.generation + 1), true)
      case Directory(path) => Finish(g.(directory := path, generation := g.generation + 1), true)
  }

  function TimerFires(g: Gate, w: WaitId): Gate {
    if w in g.timers then Finish(g.(timers := g.timers - {w}), false) else g
  }

  function Dispose(g: Gate): Gate {
    Finish(g.(disposed := true), false)
  }

  /** The wait that a denied request joins, opened if there is none. */
  function Join(g: Gate): (Gate, WaitId) {
    match g.pending
    case Some(w) => (g, w)
    case None =>
      var w := |g.waits|;
      (g.(pending := Some(w), waits := g.waits + [Open], timers := g.timers + {w}, required := g.required + 1), w)
  }

  // ---------- addresses ----------

  predicate Within(path: string, directory: string) {
    |directory| <= |path| && path[..|directory|] == directory
  }

  /** The same file under the current directory. */
  function Redirected(path: string, directory: string, current: string): string {
    if current == directory || !Within(path, directory) then path else current + path[|directory|..]
  }

  /** `address` is under `current` what `path` is under `directory`. */
  predicate SameFile(address: string, current: string, path: string, directory: string) {
    Within(path, directory) && Within(address, current) && address[|current|..] == path[|directory|..]
  }

  lemma RedirectedStays(path: string, directory: string, current: string)
    requires Within(path, directory)
    ensures SameFile(Redirected(path, directory, current), current, path, directory)
  {
  }

  // ---------- requests ----------

  /** Where a call of the wrapped fetch has come to. */
  datatype Phase =
    | Sent
    | Waiting(wait: WaitId)
    | Retrying
    | Returned(retried: bool)
    | Aborted

  /** One call; `sent` is the generation it was sent under, `fetched` the addresses asked for so far, `joined` the wait that
      it has joined and `saw` the outcome that it was given. */
  datatype Request = Request(path: string, scoped: bool, sent: nat, aborted: bool, phase: Phase, fetched: seq<string>,
                             joined: Option<WaitId>, saw: Option<bool>)

  datatype State = State(gate: Gate, requests: seq<Request>)

  datatype Step =
    | Call(path: string, get: bool)
    | Respond(r: nat, denied: bool)
    | Abort(r: nat)
    | Wake(r: nat)
    | RespondRetry(r: nat, denied: bool)
    | DoRenew(address: Address)
    | DoUnavailable
    | DoTimer(wait: WaitId)
    | DoDispose

  /** A call: only GET requests below the directory of the installation are held. */
  function Called(g: Gate, directory: string, path: string, get: bool): Request {
    var scoped := get && Within(path, directory);
    Request(path, scoped, g.generation, false, Sent, [if scoped then Redirected(path, directory, g.directory) else path], None, None)
  }

  /** What happens to a request when its first response arrives. */
  function Answered(g: Gate, q: Request, directory: string, denied: bool): (Gate, Request) {
    if g.disposed || !q.scoped || !denied then (g, q.(phase := Returned(false)))
    else if q.aborted then (g, q.(phase := Aborted))
    else if q.sent != g.generation then (g, Retried(g, q, directory))
    else var (h, w) := Join(g); (h, q.(phase := Waiting(w), joined := Some(w)))
  }

  function Retried(g: Gate, q: Request, directory: string): Request {
    q.(phase := Retrying, fetched := q.fetched + [Redirected(q.path, directory, g.directory)])
  }

  /** A waiter learns the outcome of its wait. */
  function Woken(g: Gate, q: Request, directory: string): Request {
    if !q.phase.Waiting? || q.phase.wait >= |g.waits| || g.waits[q.phase.wait].Open? then q
    else
      var allowed := g.waits[q.phase.wait].allowed;
      if !allowed || g.disposed then q.(phase := Returned(false), saw := Some(allowed))
      else Retried(g, q, directory).(saw := Some(allowed))
  }

  function Next(s: State, directory: string, step: Step): State {
    match step
    case Call(path, get) => s.(requests := s.requests + [Called(s.gate, directory, path, get)])
    case Respond(r, denied) =>
      if r < |s.requests| && s.requests[r].phase == Sent
      then var (g, q) := Answered(s.gate, s.requests[r], directory, denied); State(g, s.requests[r := q])
      else s
    case Abort(r) =>
      if r < |s.requests| && s.requests[r].phase == Sent then s.(requests := s.requests[r := s.requests[r].(aborted := true)])
      else if r < |s.requests| && s.requests[r].phase.Waiting?
      then s.(requests := s.requests[r := s.requests[r].(aborted := true, phase := Aborted)])
      else s
    case Wake(r) =>
      if r < |s.requests| then s.(requests := s.requests[r := Woken(s.gate, s.requests[r], directory)]) else s
    case RespondRetry(r, denied) =>
      if r < |s.requests| && s.requests[r].phase == Retrying
      then State(if denied then s.gate.(unavailable := s.gate.unavailable + 1) else s.gate,
                 s.requests[r := s.requests[r].(phase := Returned(true))])
      else s
    case DoRenew(address) => s.(gate := Renew(s.gate, address))
    case DoUnavailable => s.(gate := Finish(s.gate, false))
    case DoTimer(w) => s.(gate := TimerFires(s.gate, w))
    case DoDispose => s.(gate := Dispose(s.gate))
  }

  function Run(directory: string, steps: seq<Step>): State
    decreases |steps|
  {
    if steps == [] then State(Installed(directory), [])
    else Next(Run(directory, steps[..|steps| - 1]), directory, steps[|steps| - 1])
  }

  // ---------- what every step keeps ----------

  /** The pending wait is the only open one, its timer the only one running, and each wait was asked for once. */
  ghost predicate Sound(g: Gate) {
    && (forall w :: 0 <= w < |g.waits| ==> (g.waits[w].Open? <==> g.pending == Some(w)))
    && (g.pending.Some? ==> g.pending.value < |g.waits|)
    && (forall w :: w in g.timers <==> g.pending == Some(w))
    && g.required == |g.waits| && (g.disposed ==> g.pending == None)
  }

  /** A request has seen the outcome of the wait that it has joined, and acts on it. */
  predicate Informed(q: Request, g: Gate) {
    && (q.joined == None ==> q.saw == None)
    && (q.joined.Some? ==> q.joined.value < |g.waits| && (q.saw.Some? ==> g.waits[q.joined.value] == Resolved(q.saw.value)))
    && (q.joined.Some? && (q.phase.Returned? || q.phase.Retrying?) ==> q.saw.Some?)
    && (q.joined.Some? && |q.fetched| == 2 ==> q.saw == Some(true))
    && (q.saw == Some(true) && |q.fetched| == 1 ==> g.disposed)
  }

  /** A request is held only by waits there have been, retried only after a renewal, and never fetched more than twice. */
  predicate Orderly(q: Request, g: Gate) {
    && 1 <= |q.fetched| <= 2 && q.sent <= g.generation && (q.phase.Waiting? || |q.fetched| == 2 ==> !q.aborted)
    && (q.phase.Sent? ==> |q.fetched| == 1 && q.joined == None)
    && Informed(q, g)
    && (q.phase.Waiting? ==>
          && |q.fetched| == 1 && q.joined == Some(q.phase.wait) && q.saw == None && q.scoped
          && (g.waits[q.phase.wait] == Resolved(true) ==> q.sent < g.generation))
    && (|q.fetched| == 2 ==> q.sent < g.generation && q.scoped && q.saw != Some(false))
    && (q.phase == Returned(true) || q.phase == Retrying ==> |q.fetched| == 2)
    && (q.phase == Returned(false) ==> |q.fetched| == 1)
  }

  ghost predicate Inv(s: State) {
    Sound(s.gate) && forall r :: 0 <= r < |s.requests| ==> Orderly(s.requests[r], s.gate)
  }

  /** How the gate may change: waits are only added, and resolved once; generations and disposal only go one way. */
  ghost predicate Progress(g: Gate, h: Gate) {
    && |g.waits| <= |h.waits| && (forall w :: 0 <= w < |g.waits| && g.waits[w].Resolved? ==> h.waits[w] == g.waits[w])
    && g.generation <= h.generation && (g.disposed ==> h.disposed && |h.waits| == |g.waits|)
    && (forall w :: 0 <= w < |g.waits| && g.waits[w].Open? && h.waits[w] == Resolved(true) ==> g.generation < h.generation)
  }

  lemma FinishSound(g: Gate, before: Gate, allowed: bool)
    requires Sound(before) && g.pending == before.pending && g.waits == before.waits && g.required == before.required
    requires g.timers == before.timers || g.timers == {}
    requires g.generation >= before.generation && (before.disposed ==> g.disposed) && (allowed ==> g.generation > before.generation)
    ensures Sound(Finish(g, allowed)) && Progress(before, Finish(g, allowed))
  {
  }

  lemma JoinSound(g: Gate)
    requires Sound(g) && !g.disposed
    ensures Sound(Join(g).0) && Progress(g, Join(g).0) && Join(g).1 < |Join(g).0.waits| && Join(g).0.waits[Join(g).1].Open?
  {
    var (h, w) := Join(g);
    if g.pending == None {
      forall v | 0 <= v < |h.waits| ensures h.waits[v].Open? <==> h.pending == Some(v) {
        if v < |g.waits| { assert h.waits[v] == g.waits[v]; }
      }
    }
  }

  lemma RenewMoves(g: Gate, address: Address)
    requires Sound(g)
    ensures Sound(Renew(g, address)) && Progress(g, Renew(g, address))
  {
    match address
    case Foreign => FinishSound(g, g, false);
    case Unchanged => FinishSound(g.(generation := g.generation + 1), g, true);
    case Directory(path) => FinishSound(g.(directory := path, generation := g.generation + 1), g, true);
  }

  lemma TimerMoves(g: Gate, w: WaitId)
    requires Sound(g)
    ensures Sound(TimerFires(g, w)) && Progress(g, TimerFires(g, w))
  {
    if w in g.timers {
      assert g.timers - {w} == {};
      FinishSound(g.(timers := g.timers - {w}), g, false);
    }
  }

  lemma AnswerMoves(g: Gate, q: Request, directory: string, denied: bool)
    requires Sound(g)
    ensures Sound(Answered(g, q, directory, denied).0) && Progress(g, Answered(g, q, directory, denied).0)
  {
    if !g.disposed { JoinSound(g); }
  }

  lemma GateMoves(s: State, directory: string, step: Step)
    requires Inv(s)
    ensures Sound(Next(s, directory, step).gate) && Progress(s.gate, Next(s, directory, step).gate)
  {
    match step
    case Respond(r, denied) => if r < |s.requests| { AnswerMoves(s.gate, s.requests[r], directory, denied); }
    case DoRenew(address) => RenewMoves(s.gate, address);
    case DoUnavailable => FinishSound(s.gate, s.gate, false);
    case DoTimer(w) => TimerMoves(s.gate, w);
    case DoDispose => FinishSound(s.gate.(disposed := true), s.gate, false);
    case _ =>
  }

  /** Progress of the gate disturbs no request. */
  lemma OrderlyStays(q: Request, g: Gate, h: Gate)
    requires Orderly(q, g) && Progress(g, h)
    ensures Orderly(q, h)
  {
  }

  lemma AnsweredOrderly(g: Gate, q: Request, directory: string, denied: bool)
    requires Sound(g) && Orderly(q, g) && q.phase == Sent
    ensures Orderly(Answered(g, q, directory, denied).1, Answered(g, q, directory, denied).0)
  {
    if !g.disposed { JoinSound(g); }
  }

  lemma NextKeeps(s: State, directory: string, step: Step)
    requires Inv(s)
    ensures Inv(Next(s, directory, step))
  {
    GateMoves(s, directory, step);
    var t := Next(s, directory, step);
    forall r | 0 <= r < |t.requests| ensures Orderly(t.requests[r], t.gate) {
      if r < |s.requests| {
        OrderlyStays(s.requests[r], s.gate, t.gate);
        if step.Respond? && step.r == r && s.requests[r].phase == Sent { AnsweredOrderly(s.gate, s.requests[r], directory, step.denied); }
      }
    }
  }

  lemma {:induction false} RunKeeps(directory: string, steps: seq<Step>)
    ensures Inv(Run(directory, steps))
    decreases |steps|
  {
    if steps != [] {
      RunKeeps(directory, steps[..|steps| - 1]);
      NextKeeps(Run(directory, steps[..|steps| - 1]), directory, steps[|steps| - 1]);
    }
  }

  // ---------- what callers can rely on ----------

  /** One renewal for everybody: over any interleaving there is at most one open wait, access was asked for once per wait,
      and a timer runs exactly for the open wait. */
  lemma OneWait(directory: string, steps: seq<Step>, v: WaitId, w: WaitId)
    ensures var g := Run(directory, steps).gate;
            && (v < |g.waits| && w < |g.waits| && g.waits[v].Open? && g.waits[w].Open? ==> v == w)
            && g.required == |g.waits|
            && (w in g.timers <==> w < |g.waits| && g.waits[w].Open?)
  {
    RunKeeps(directory, steps);
  }

  /** Bounded retries: no call is fetched more than twice, and a second time only if it was not aborted before and access
      was renewed since it was sent. */
  lemma BoundedRetries(directory: string, steps: seq<Step>, r: nat)
    requires r < |Run(directory, steps).requests|
    ensures var s := Run(directory, steps);
            var q := s.requests[r];
            1 <= |q.fetched| <= 2 && (|q.fetched| == 2 ==> q.scoped && !q.aborted && q.sent < s.gate.generation)
  {
    RunKeeps(directory, steps);
    assert Orderly(Run(directory, steps).requests[r], Run(directory, steps).gate);
  }

  lemma WaitOpens(s: State, directory: string, step: Step)
    requires Inv(s) && |Next(s, directory, step).gate.waits| != |s.gate.waits|
    ensures step.Respond? && step.denied && step.r < |s.requests| && !s.gate.disposed
            && s.requests[step.r].sent == s.gate.generation && s.requests[step.r].scoped && !s.requests[step.r].aborted
            && s.gate.pending == None
    ensures |Next(s, directory, step).gate.waits| == |s.gate.waits| + 1
  {
  }

  function After(directory: string, steps: seq<Step>, n: nat): State
    requires n <= |steps|
  {
    Run(directory, steps[..n])
  }

  lemma AfterStep(directory: string, steps: seq<Step>, n: nat)
    requires n < |steps|
    ensures After(directory, steps, n + 1) == Next(After(directory, steps, n), directory, steps[n])
  {
    assert steps[..n + 1][..n] == steps[..n];
  }

  /** Step `n` is the denial of a request that was sent under the generation of that moment and not aborted; nothing was
      pending and the page was still there. */
  predicate OpenedAt(directory: string, steps: seq<Step>, n: nat, w: WaitId) {
    && n < |steps| && steps[n].Respond? && steps[n].denied
    && var s := After(directory, steps, n);
       && |s.gate.waits| == w && s.gate.pending == None && !s.gate.disposed && steps[n].r < |s.requests|
       && s.requests[steps[n].r].scoped && !s.requests[steps[n].r].aborted && s.requests[steps[n].r].sent == s.gate.generation
  }

  /** Every wait there has been was opened by such a denial. */
  lemma {:induction false} WaitsOpenOnlyWhenNeeded(directory: string, steps: seq<Step>, m: nat, w: WaitId) returns (n: nat)
    requires m <= |steps| && w < |After(directory, steps, m).gate.waits|
    ensures n < m && OpenedAt(directory, steps, n, w)
    decreases m
  {
    if m == 0 {
      assert false;
    } else {
      AfterStep(directory, steps, m - 1);
      RunKeeps(directory, steps[..m - 1]);
      var s := After(directory, steps, m - 1);
      if w < |s.gate.waits| {
        n := WaitsOpenOnlyWhenNeeded(directory, steps, m - 1, w);
      } else {
        WaitOpens(s, directory, steps[m - 1]);
        n := m - 1;
      }
    }
  }

  /** `address` is what `path` is under the directory that was current after `n` steps. */
  predicate AskedUnder(directory: string, steps: seq<Step>, n: nat, address: string, path: string) {
    n <= |steps| && SameFile(address, After(directory, steps, n).gate.directory, path, directory)
  }

  ghost predicate Asked(directory: string, steps: seq<Step>, n: nat, address: string, path: string) {
    exists m: nat :: m <= n && AskedUnder(directory, steps, m, address, path)
  }

  /** Within `n` steps: a held request has been fetched under the directories of the time, any other one as it is. */
  ghost predicate Traced(directory: string, steps: seq<Step>, n: nat, q: Request) {
    if !q.scoped then q.fetched == [q.path]
    else
      Within(q.path, directory) &&
      forall k :: 0 <= k < |q.fetched| ==> Asked(directory, steps, n, q.fetched[k], q.path)
  }

  lemma AskedLater(directory: string, steps: seq<Step>, n: nat, address: string, path: string)
    ensures Asked(directory, steps, n, address, path) ==> Asked(directory, steps, n + 1, address, path)
  {
  }

  lemma AskedNow(directory: string, steps: seq<Step>, n: nat, path: string)
    requires n <= |steps| && Within(path, directory)
    ensures Asked(directory, steps, n + 1, Redirected(path, directory, After(directory, steps, n).gate.directory), path)
  {
    var current := After(directory, steps, n).gate.directory;
    RedirectedStays(path, directory, current);
    assert AskedUnder(directory, steps, n, Redirected(path, directory, current), path);
  }

  lemma TracedLater(directory: string, steps: seq<Step>, n: nat, q: Request, next: Request)
    requires Traced(directory, steps, n, q)
    requires next.scoped == q.scoped && next.path == q.path && next.fetched == q.fetched
    ensures Traced(directory, steps, n + 1, next)
  {
    forall k | 0 <= k < |q.fetched| { AskedLater(directory, steps, n, q.fetched[k], q.path); }
  }

  lemma TracedRetry(directory: string, steps: seq<Step>, n: nat, q: Request, next: Request)
    requires n <= |steps| && Traced(directory, steps, n, q) && q.scoped && next.scoped && next.path == q.path
    requires next.fetched == q.fetched + [Redirected(q.path, directory, After(directory, steps, n).gate.directory)]
    ensures Traced(directory, steps, n + 1, next)
  {
    forall k | 0 <= k < |q.fetched| { AskedLater(directory, steps, n, q.fetched[k], q.path); }
    AskedNow(directory, steps, n, q.path);
  }

  lemma TracedCall(directory: string, steps: seq<Step>, n: nat, path: string, get: bool)
    requires n <= |steps|
    ensures Traced(directory, steps, n + 1, Called(After(directory, steps, n).gate, directory, path, get))
  {
    if get && Within(path, directory) { AskedNow(directory, steps, n, path); }
  }

  /** What a step does to a request: it may fetch it once more, where the file is then. */
  lemma RequestMoves(s: State, directory: string, step: Step, r: nat)
    requires Inv(s) && r < |s.requests|
    ensures var q, next := s.requests[r], Next(s, directory, step).requests[r];
            next.scoped == q.scoped && next.path == q.path &&
            (next.fetched == q.fetched
             || (q.scoped && next.fetched == q.fetched + [Redirected(q.path, directory, s.gate.directory)]))
  {
    assert Orderly(s.requests[r], s.gate);
  }

  lemma TracedStep(directory: string, steps: seq<Step>, n: nat, r: nat)
    requires n < |steps| && r < |After(directory, steps, n + 1).requests|
    requires forall i :: 0 <= i < |After(directory, steps, n).requests| ==> Traced(directory, steps, n, After(directory, steps, n).requests[i])
    ensures Traced(directory, steps, n + 1, After(directory, steps, n + 1).requests[r])
  {
    AfterStep(directory, steps, n);
    RunKeeps(directory, steps[..n]);
    var s := After(directory, steps, n);
    if r < |s.requests| {
      RequestMoves(s, directory, steps[n], r);
      var q, next := s.requests[r], After(directory, steps, n + 1).requests[r];
      if next.fetched == q.fetched { TracedLater(directory, steps, n, q, next); } else { TracedRetry(directory, steps, n, q, next); }
    } else {
      TracedCall(directory, steps, n, steps[n].path, steps[n].get);
    }
  }

  /** Over every run: each address a held request was fetched at is the same file, under the directory that was current
      when it was asked for; every other request is fetched once, where it was asked for. */
  lemma {:induction false} FetchesStayOnTheFile(directory: string, steps: seq<Step>, n: nat, r: nat)
    requires n <= |steps| && r < |After(directory, steps, n).requests|
    ensures Traced(directory, steps, n, After(directory, steps, n).requests[r])
    decreases n
  {
    if n > 0 {
      var before := After(directory, steps, n - 1);
      forall i | 0 <= i < |before.requests| ensures Traced(directory, steps, n - 1, before.requests[i]) {
        FetchesStayOnTheFile(directory, steps, n - 1, i);
      }
      TracedStep(directory, steps, n - 1, r);
    }
  }

  /** Over every run: a request that has been given an outcome was given that of the wait it had joined, which stays so
      whatever happens later. It is fetched again exactly if access was allowed and the page was still there; a request
      that has joined a wait does not come back without its outcome. */
  lemma WaitersSeeTheOutcome(directory: string, steps: seq<Step>, more: seq<Step>, r: nat)
    requires r < |Run(directory, steps).requests|
    ensures var s, t := Run(directory, steps), Run(directory, steps + more);
            var q := s.requests[r];
            && (q.saw.Some? ==>
                  && q.joined.Some?
                  && ResolvedTo(s, q.joined.value, Resolved(q.saw.value)) && ResolvedTo(t, q.joined.value, Resolved(q.saw.value)))
            && (q.joined.Some? && (q.phase.Returned? || q.phase.Retrying?) ==> q.saw.Some?)
            && (q.joined.Some? && |q.fetched| == 2 ==> q.saw == Some(true))
            && (q.saw == Some(true) && !s.gate.disposed ==> |q.fetched| == 2)
  {
    RunKeeps(directory, steps);
    var s := Run(directory, steps);
    assert Orderly(s.requests[r], s.gate);
    if s.requests[r].saw.Some? { ResolvedForGood(directory, steps, more, s.requests[r].joined.value, Resolved(s.requests[r].saw.value)); }
  }

  predicate ResolvedTo(s: State, w: WaitId, outcome: Wait) {
    w < |s.gate.waits| && s.gate.waits[w] == outcome && outcome.Resolved?
  }

  lemma ResolvedStays(s: State, directory: string, step: Step, w: WaitId, outcome: Wait)
    requires Inv(s) && ResolvedTo(s, w, outcome)
    ensures ResolvedTo(Next(s, directory, step), w, outcome)
  {
    GateMoves(s, directory, step);
  }

  lemma RunSnoc(directory: string, steps: seq<Step>, step: Step)
    ensures Run(directory, steps + [step]) == Next(Run(directory, steps), directory, step)
  {
    assert (steps + [step])[..|steps|] == steps;
  }

  lemma {:induction false} ResolvedForGood(directory: string, steps: seq<Step>, more: seq<Step>, w: WaitId, outcome: Wait)
    requires ResolvedTo(Run(directory, steps), w, outcome)
    ensures ResolvedTo(Run(directory, steps + more), w, outcome)
    decreases |more|
  {
    if more == [] {
      assert steps + more == steps;
    } else {
      var init, last := more[..|more| - 1], more[|more| - 1];
      ResolvedForGood(directory, steps, init, w, outcome);
      RunKeeps(directory, steps + init);
      ResolvedStays(Run(directory, steps + init), directory, last, w, outcome);
      RunSnoc(directory, steps + init, last);
      assert steps + init + [last] == steps + more;
    }
  }

  /** Nobody waits in vain: when no wait is pending, every waiter can be woken. */
  lemma NobodyIsStuck(directory: string, steps: seq<Step>, r: nat)
    requires var s := Run(directory, steps); r < |s.requests| && s.requests[r].phase.Waiting? && s.gate.pending == None
    ensures var s := Run(directory, steps); !Woken(s.gate, s.requests[r], directory).phase.Waiting?
  {
    RunKeeps(directory, steps);
    assert Orderly(Run(directory, steps).requests[r], Run(directory, steps).gate);
  }

  // ---------- what becomes of a denied request ----------

  /** A denied response to a request that is held, sent from a page that is still there. */
  predicate Denies(s: State, r: nat) {
    && r < |s.requests| && s.requests[r].phase == Sent && s.requests[r].scoped && !s.requests[r].aborted && !s.gate.disposed
  }

  /** Without a renewal since it was sent, the request waits, and access is asked for unless it already has been. */
  lemma DeniedIsHeld(directory: string, steps: seq<Step>, r: nat) returns (w: WaitId)
    requires var s := Run(directory, steps); Denies(s, r) && s.requests[r].sent == s.gate.generation
    ensures var s, t := Run(directory, steps), Run(directory, steps + [Respond(r, true)]);
            && r < |t.requests| && t.requests[r].phase == Waiting(w) && t.requests[r].fetched == s.requests[r].fetched
            && t.gate.pending == Some(w) && w < |t.gate.waits| && t.gate.waits[w].Open? && w in t.gate.timers
            && (s.gate.pending == Some(w) || (s.gate.pending == None && w == |s.gate.waits|))
            && t.gate.required == s.gate.required + if s.gate.pending == None then 1 else 0
  {
    RunKeeps(directory, steps);
    RunSnoc(directory, steps, Respond(r, true));
    w := Join(Run(directory, steps).gate).1;
  }

  lemma ScopedIsBelow(directory: string, steps: seq<Step>, r: nat)
    requires var s := Run(directory, steps); r < |s.requests| && s.requests[r].scoped
    ensures Within(Run(directory, steps).requests[r].path, directory)
  {
    assert steps[..|steps|] == steps;
    FetchesStayOnTheFile(directory, steps, |steps|, r);
  }

  /** After a renewal it is fetched again at once, at the same file under the current directory. */
  lemma DeniedIsRetried(directory: string, steps: seq<Step>, r: nat)
    requires var s := Run(directory, steps); Denies(s, r) && s.requests[r].sent != s.gate.generation
    ensures var s, t := Run(directory, steps), Run(directory, steps + [Respond(r, true)]);
            && t.gate == s.gate && r < |t.requests| && t.requests[r].phase == Retrying && |t.requests[r].fetched| == 2
            && SameFile(t.requests[r].fetched[1], s.gate.directory, s.requests[r].path, directory)
  {
    RunKeeps(directory, steps);
    ScopedIsBelow(directory, steps, r);
    RunSnoc(directory, steps, Respond(r, true));
    var s := Run(directory, steps);
    assert Orderly(s.requests[r], s.gate);
    RedirectedStays(s.requests[r].path, directory, s.gate.directory);
  }

  /** A request that waits for access. */
  predicate Waits(s: State, r: nat) {
    r < |s.requests| && s.requests[r].phase.Waiting? && s.gate.pending == Some(s.requests[r].phase.wait)
  }

  lemma WaitEnds(directory: string, steps: seq<Step>, step: Step, r: nat)
    requires Waits(Run(directory, steps), r)
    ensures var t := Run(directory, steps + [step] + [Wake(r)]);
            t == Next(Next(Run(directory, steps), directory, step), directory, Wake(r))
  {
    RunSnoc(directory, steps, step);
    RunSnoc(directory, steps + [step], Wake(r));
  }

  /** A renewal of this origin ends the wait as allowed, and the request is fetched again where the file is by then. */
  lemma RenewalRetries(directory: string, steps: seq<Step>, address: Address, r: nat)
    requires Waits(Run(directory, steps), r) && !address.Foreign?
    ensures var s, t := Run(directory, steps), Run(directory, steps + [DoRenew(address)] + [Wake(r)]);
            && r < |t.requests| && t.requests[r].phase == Retrying && |t.requests[r].fetched| == 2
            && t.gate.directory == (if address.Directory? then address.path else s.gate.directory)
            && SameFile(t.requests[r].fetched[1], t.gate.directory, s.requests[r].path, directory)
            && t.gate.pending == None && t.gate.timers == {} && t.gate.restored == s.gate.restored + 1
  {
    RunKeeps(directory, steps);
    WaitEnds(directory, steps, DoRenew(address), r);
    var s := Run(directory, steps);
    assert Orderly(s.requests[r], s.gate);
    ScopedIsBelow(directory, steps, r);
    var renewed := Renew(s.gate, address);
    RenewMoves(s.gate, address);
    assert renewed.waits[s.requests[r].phase.wait] == Resolved(true);
    RedirectedStays(s.requests[r].path, directory, renewed.directory);
  }

  /** A renewal of another origin, a notice that access is unavailable, its timer, or leaving the page ends it as denied, and
      the request gets the denial it was answered with. */
  lemma EndReturnsTheDenial(directory: string, steps: seq<Step>, end: Step, r: nat)
    requires Waits(Run(directory, steps), r)
    requires end in {DoRenew(Foreign), DoUnavailable, DoTimer(Run(directory, steps).requests[r].phase.wait), DoDispose}
    ensures var s, t := Run(directory, steps), Run(directory, steps + [end] + [Wake(r)]);
            && r < |t.requests| && t.requests[r].phase == Returned(false) && t.requests[r].fetched == s.requests[r].fetched
            && t.gate.pending == None && t.gate.timers == {} && t.gate.unavailable == s.gate.unavailable + 1
  {
    RunKeeps(directory, steps);
    WaitEnds(directory, steps, end, r);
    var s := Run(directory, steps);
    assert Orderly(s.requests[r], s.gate);
    var w := s.requests[r].phase.wait;
    assert w in s.gate.timers;
    var g := Next(s, directory, end).gate;
    assert g.waits[w] == Resolved(false);
  }

  // ---------- the closure ----------

  class PointCloudAccess {
    const directory: string
    var pending: Option<WaitId>
    var disposed: bool
    var generation: nat
    var currentDirectory: string
    var waits: seq<Wait>
    var timers: set<WaitId>
    var required: nat
    var restored: nat
    var unavailable: nat

    function View(): Gate
      reads this
    {
      Gate(pending, disposed, generation, currentDirectory, waits, timers, required, restored, unavailable)
    }

    constructor (directory: string)
      ensures View() == Installed(directory) && this.directory == directory
    {
      this.directory, currentDirectory := directory, directory;
      pending, disposed, generation, waits, timers, required, restored, unavailable := None, false, 0, [], {}, 0, 0, 0;
    }

    method EndWait(allowed: bool)
      requires pending.Some? ==> pending.value < |waits|
      modifies this
      ensures View() == Finish(old(View()), allowed)
    {
      if pending == None { return; }
      var current := pending.value;
      pending := None;
      timers := timers - {current};
      waits := waits[current := Resolved(allowed)];
      if allowed { restored := restored + 1; } else { unavailable := unavailable + 1; }
    }

    method WaitForAccess() returns (w: WaitId)
      modifies this
      ensures (View(), w) == Join(old(View()))
    {
      if pending == None {
        w := |waits|;
        pending, waits, timers := Some(w), waits + [Open], timers + {w};
        required := required + 1;
      }
      w := pending.value;
    }

    /** wrappedFetch, up to its first request. */
    method Fetch(path: string, get: bool) returns (q: Request)
      ensures q == Called(View(), directory, path, get)
      ensures (q.scoped <==> get && Within(path, directory)) && q.path == path && q.sent == generation && |q.fetched| == 1
      ensures if q.scoped then SameFile(q.fetched[0], currentDirectory, path, directory) else q.fetched[0] == path
    {
      if Within(path, directory) { RedirectedStays(path, directory, currentDirectory); }
      var scoped := get && Within(path, directory);
      var first := if scoped then Redirected(path, directory, currentDirectory) else path;
      q := Request(path, scoped, generation, false, Sent, [first], None, None);
    }

    /** wrappedFetch, from its first response to where it waits, retries or returns. */
    method Receive(q: Request, denied: bool) returns (next: Request)
      modifies this
      ensures (View(), next) == Answered(old(View()), q, directory, denied)
    {
      if disposed || !q.scoped || !denied { return q.(phase := Returned(false)); }
      if q.aborted { return q.(phase := Aborted); }
      if q.sent != generation { return Retried(View(), q, directory); }
      var w := WaitForAccess();
      next := q.(phase := Waiting(w), joined := Some(w));
    }

    /** wrappedFetch, from the end of its wait on. */
    method Resume(q: Request, allowed: bool) returns (next: Request)
      requires q.phase.Waiting? && q.phase.wait < |waits| && waits[q.phase.wait] == Resolved(allowed)
      ensures next == Woken(View(), q, directory)
    {
      if !allowed || disposed { return q.(phase := Returned(false), saw := Some(allowed)); }
      next := Retried(View(), q, directory).(saw := Some(allowed));
    }

    method Renewed(address: Address)
      requires pending.Some? ==> pending.value < |waits|
      modifies this
      ensures View() == Renew(old(View()), address)
    {
      if disposed { return; }
      match address {
        case Foreign =>
          EndWait(false);
          return;
        case Directory(path) => currentDirectory := path;
        case Unchanged =>
      }
      generation := generation + 1;
      EndWait(true);
    }

    method Close()
      requires pending.Some? ==> pending.value < |waits|
      modifies this
      ensures View() == Dispose(old(View()))
    {
      disposed := true;
      EndWait(false);
    }
  }
}
