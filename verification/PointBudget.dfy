/**
 * The adaptive point budget: a controller that lowers the number of points drawn
 * when frames take too long, and probes upwards again with exponential backoff.
 */
module PointBudget {
  import opened Wrappers

  const ROOT_POINTS := 250000.0
  const FIRST_DELAY := 4000.0
  const LAST_DELAY := 60000.0

  /** What the renderer knows about the detail it would like to draw. */
  datatype Demand = Demand(settled: bool, drawn: Option<real>, required: Option<real>)

  /** One call of sample; None stands for a number that is not finite. */
  datatype Frame = Frame(time: Option<real>, active: bool, minimum: Option<real>, visible: real, demand: Option<Demand>)

  datatype Budget = Budget(target: real, live: real, auto: bool, lastFrame: Option<real>, samples: nat, elapsed: real,
                           healthyMs: real, longFrames: nat, probeBase: Option<real>, probeAgeMs: real, delayMs: real)

  function Min(a: real, b: real): real { if a <= b then a else b }

  function Max(a: real, b: real): real { if a <= b then b else a }

  function Ceil(x: real): real { -((-x).Floor as real) }

  function Start(target: real): Budget {
    Budget(target, target, false, None, 0, 0.0, 0.0, 0, None, 0.0, FIRST_DELAY)
  }

  function ResetTiming(b: Budget): Budget {
    b.(lastFrame := None, samples := 0, elapsed := 0.0, healthyMs := 0.0)
  }

  function SetTarget(b: Budget, value: Option<real>): Budget {
    if value == None || value.value <= 0.0 then b
    else
      var target := (value.value + 0.5).Floor as real;
      ResetTiming(b.(target := target, live := target, auto := false, probeBase := None, probeAgeMs := 0.0, delayMs := FIRST_DELAY))
  }

  /** The least that may be drawn: the root of the hierarchy, unless the request is smaller. */
  function Floor(b: Budget, minimum: Option<real>): real {
    Min(b.target, Max(ROOT_POINTS, match minimum { case Some(m) => m case None => ROOT_POINTS }))
  }

  /** A decision window: how long it was, how long a frame took on average, and what could be drawn. */
  datatype Window = Window(ms: real, frameMs: real, floor: real, settled: bool, canGrow: bool, fast: bool)

  function WindowOf(b: Budget, f: Frame): Window
    requires b.samples > 0
  {
    var frameMs := b.elapsed / b.samples as real;
    var settledDemand := f.demand.Some? && f.demand.value.settled && f.demand.value.drawn.Some? && f.demand.value.drawn.value > 0.0;
    var filled := f.visible >= b.live * 0.7;
    var canGrow := if f.demand.None? then filled
                   else settledDemand && f.demand.value.required.Some? && b.live < f.demand.value.required.value <= b.target;
    Window(b.elapsed, frameMs, Floor(b, f.minimum), if f.demand.None? then filled else settledDemand, canGrow,
           frameMs <= 30.0 && settledDemand && f.demand.value.drawn.value >= b.live * 0.7)
  }

  // ---------- one decision ----------

  /** A probe that has lived two seconds in good health has succeeded, and the delay starts over. */
  predicate Settles(b: Budget, w: Window) {
    b.probeBase.Some? && b.probeAgeMs + w.ms >= 2000.0 && w.frameMs <= 45.0 && w.settled
  }

  /** The window is counted, and the probe looked at. */
  function Observe(b: Budget, w: Window): Budget {
    var c := b.(elapsed := 0.0, samples := 0, healthyMs := if w.frameMs <= 44.0 then b.healthyMs + w.ms else 0.0,
                probeAgeMs := if b.probeBase.Some? then b.probeAgeMs + w.ms else b.probeAgeMs);
    if Settles(b, w) then c.(probeBase := None, delayMs := FIRST_DELAY) else c
  }

  /** How long frames have to stay healthy before the next probe; fixed before the probe is looked at. */
  function Wait(b: Budget, w: Window): real {
    if w.fast && b.delayMs == FIRST_DELAY then 2000.0 else b.delayMs
  }

  predicate Overloaded(b: Budget, w: Window) {
    w.frameMs > 45.0 && b.live > w.floor
  }

  predicate StartsProbe(b: Budget, w: Window, wait: real) {
    !Overloaded(b, w) && b.probeBase == None && b.healthyMs >= wait && w.canGrow && b.live < b.target
  }

  function Cut(live: real, w: Window): real { if w.frameMs > 90.0 then live * 0.5 else live * 0.75 }

  function Grown(live: real, w: Window): real { if w.fast then live * 1.5 else live * 1.15 }

  function Reduce(b: Budget, w: Window): Budget {
    var c := if b.probeBase.Some?
             then b.(live := Max(w.floor, b.probeBase.value), delayMs := Min(LAST_DELAY, b.delayMs * 2.0), probeBase := None)
             else b.(live := Max(w.floor, Cut(b.live, w).Floor as real));
    c.(healthyMs := 0.0)
  }

  function Probe(b: Budget, w: Window): Budget {
    b.(probeBase := Some(b.live), probeAgeMs := 0.0, live := Min(b.target, Ceil(Grown(b.live, w))), healthyMs := 0.0)
  }

  function Decide(b: Budget, w: Window): Budget {
    var c := Observe(b, w);
    var d := if Overloaded(c, w) then Reduce(c, w) else if StartsProbe(c, w, Wait(b, w)) then Probe(c, w) else c;
    d.(auto := d.live < d.target)
  }

  // ---------- one sample ----------

  /** The budget is raised to the floor. */
  function Raise(b: Budget, f: Frame): Budget {
    var live := Max(b.live, Floor(b, f.minimum));
    b.(live := live, auto := live < b.target)
  }

  /** The frame is counted; dt is the time since the last one. */
  function Count(b: Budget, dt: real): Budget {
    var long := if dt > 1000.0 then b.longFrames + 1 else 0;
    if long == 1 then b.(longFrames := long, samples := 0, elapsed := 0.0, healthyMs := 0.0)
    else b.(longFrames := long, samples := b.samples + 1, elapsed := b.elapsed + Min(1000.0, dt))
  }

  predicate WindowFull(b: Budget) {
    b.samples >= 8 && b.elapsed >= 1000.0
  }

  function Sample(b: Budget, f: Frame): Budget {
    if !f.active || f.time == None then ResetTiming(b.(longFrames := 0))
    else
      var r := Raise(b, f);
      if b.lastFrame == None then r.(lastFrame := f.time)
      else
        var dt := f.time.value - b.lastFrame.value;
        if dt <= 0.0 then ResetTiming(r)
        else
          Close(Count(r.(lastFrame := f.time), dt), f)
  }

  /** A full window is decided on. */
  function Close(c: Budget, f: Frame): Budget {
    if WindowFull(c) then Decide(c, WindowOf(c, f)) else c
  }

  // ---------- the controller ----------

  class AdaptivePointBudget {
    var target: real
    var live: real
    var auto: bool
    var lastFrame: Option<real>
    var samples: nat
    var elapsed: real
    var healthyMs: real
    var longFrames: nat
    var probeBase: Option<real>
    var probeAgeMs: real
    var recoveryDelayMs: real

    function View(): Budget
      reads this
    {
      Budget(target, live, auto, lastFrame, samples, elapsed, healthyMs, longFrames, probeBase, probeAgeMs, recoveryDelayMs)
    }

    constructor (initialTarget: real)
      ensures View() == Start(initialTarget)
    {
      target, live, auto, lastFrame, samples, elapsed := initialTarget, initialTarget, false, None, 0, 0.0;
      healthyMs, longFrames, probeBase, probeAgeMs, recoveryDelayMs := 0.0, 0, None, 0.0, FIRST_DELAY;
    }

    method ClearTiming()
      modifies this
      ensures View() == ResetTiming(old(View()))
    {
      lastFrame, samples, elapsed, healthyMs := None, 0, 0.0, 0.0;
    }

    method ChangeTarget(value: Option<real>) returns (r: real)
      modifies this
      ensures View() == SetTarget(old(View()), value) && r == live
      ensures if value.Some? && value.value > 0.0
              then && value.value - 0.5 < target <= value.value + 0.5 && target.Floor as real == target && live == target
                   && !auto && probeBase == None && recoveryDelayMs == FIRST_DELAY && lastFrame == None && samples == 0 && healthyMs == 0.0
              else View() == old(View())
    {
      if value == None || value.value <= 0.0 { return live; }
      target := (value.value + 0.5).Floor as real;
      live, auto, probeBase, probeAgeMs, recoveryDelayMs := target, false, None, 0.0, FIRST_DELAY;
      ClearTiming();
      r := live;
    }

    method ObserveWindow(w: Window) returns (recoveryWait: real)
      modifies this
      ensures View() == Observe(old(View()), w) && recoveryWait == Wait(old(View()), w)
    {
      elapsed, samples := 0.0, 0;
      healthyMs := if w.frameMs <= 44.0 then healthyMs + w.ms else 0.0;
      recoveryWait := if w.fast && recoveryDelayMs == FIRST_DELAY then 2000.0 else recoveryDelayMs;
      if probeBase.Some? {
        probeAgeMs := probeAgeMs + w.ms;
        if probeAgeMs >= 2000.0 && w.frameMs <= 45.0 && w.settled {
          probeBase, recoveryDelayMs := None, FIRST_DELAY;
        }
      }
    }

    method LowerBudget(w: Window)
      modifies this
      ensures View() == Reduce(old(View()), w)
    {
      if probeBase.Some? {
        live := Max(w.floor, probeBase.value);
        recoveryDelayMs := Min(LAST_DELAY, recoveryDelayMs * 2.0);
        probeBase := None;
      } else {
        live := Max(w.floor, Cut(live, w).Floor as real);
      }
      healthyMs := 0.0;
    }

    method StartProbe(w: Window)
      modifies this
      ensures View() == Probe(old(View()), w)
    {
      probeBase, probeAgeMs := Some(live), 0.0;
      live := Min(target, Ceil(Grown(live, w)));
      healthyMs := 0.0;
    }

    /** The decision at the end of a full window. */
    method EndWindow(w: Window)
      modifies this
      ensures View() == Decide(old(View()), w)
    {
      var recoveryWait := ObserveWindow(w);
      if w.frameMs > 45.0 && live > w.floor {
        LowerBudget(w);
      } else if probeBase == None && healthyMs >= recoveryWait && w.canGrow && live < target {
        StartProbe(w);
      }
      auto := live < target;
    }

    method CountFrame(dt: real)
      modifies this
      ensures View() == Count(old(View()), dt)
    {
      longFrames := if dt > 1000.0 then longFrames + 1 else 0;
      if longFrames == 1 {
        samples, elapsed, healthyMs := 0, 0.0, 0.0;
      } else {
        samples, elapsed := samples + 1, elapsed + Min(1000.0, dt);
      }
    }

    method RaiseToFloor(f: Frame)
      modifies this
      ensures View() == Raise(old(View()), f)
    {
      var floor := Floor(View(), f.minimum);
      if live < floor { live := floor; }
      auto := live < target;
    }

    method TakeSample(f: Frame) returns (r: real)
      modifies this
      ensures View() == Sample(old(View()), f) && r == live
    {
      if !f.active || f.time == None {
        longFrames := 0;
        ClearTiming();
        return live;
      }
      RaiseToFloor(f);
      if lastFrame == None {
        lastFrame := f.time;
        return live;
      }
      var dt := f.time.value - lastFrame.value;
      lastFrame := f.time;
      if dt <= 0.0 {
        ClearTiming();
        return live;
      }
      CountFrame(dt);
      if samples >= 8 && elapsed >= 1000.0 { EndWindow(WindowOf(View(), f)); }
      r := live;
    }
  }

  // ---------- bounds ----------

  function Backoff(k: nat): real {
    if k == 0 then FIRST_DELAY else Min(LAST_DELAY, Backoff(k - 1) * 2.0)
  }

  predicate Bounded(b: Budget) {
    && Min(b.target, ROOT_POINTS) <= b.live <= b.target && (b.auto <==> b.live < b.target)
    && (b.probeBase.Some? ==> b.probeBase.value < b.live)
    && b.delayMs in {4000.0, 8000.0, 16000.0, 32000.0, 60000.0}
    && b.elapsed >= 0.0 && b.healthyMs >= 0.0 && b.probeAgeMs >= 0.0
  }

  /** A window that is decided on: it belongs to this budget, which has been raised to its floor. */
  predicate Fits(b: Budget, w: Window) {
    Min(b.target, ROOT_POINTS) <= w.floor <= b.live && w.floor <= b.target && w.ms > 0.0
  }

  lemma ReduceLowers(b: Budget, w: Window)
    requires Bounded(b) && Fits(b, w) && Overloaded(b, w)
    ensures var c := Reduce(b, w); w.floor <= c.live < b.live && c.probeBase == None && c.healthyMs == 0.0
    ensures b.probeBase == None ==> Reduce(b, w).live <= Max(w.floor, b.live * 0.75)
    ensures b.probeBase == None && b.live >= 0.0 ==> Reduce(b, w).live > b.live * 0.5 - 1.0
    ensures b.probeBase.Some? ==> Reduce(b, w).live == Max(w.floor, b.probeBase.value)
  {
  }

  lemma ProbeRaises(b: Budget, w: Window, wait: real)
    requires Bounded(b) && Fits(b, w) && StartsProbe(b, w, wait)
    ensures b.live < Probe(b, w).live <= b.target && Probe(b, w).probeBase == Some(b.live)
    ensures Probe(b, w).live < b.live * (if w.fast then 1.5 else 1.15) + 1.0
  {
    var x := Grown(b.live, w);
    assert x > b.live && Ceil(x) >= x;
  }

  lemma DecideBounded(b: Budget, w: Window)
    requires Bounded(b) && Fits(b, w)
    ensures Bounded(Decide(b, w)) && Decide(b, w).live >= w.floor
  {
    var c := Observe(b, w);
    if Overloaded(c, w) { ReduceLowers(c, w); }
    else if StartsProbe(c, w, Wait(b, w)) { ProbeRaises(c, w, Wait(b, w)); }
  }

  lemma WindowFits(c: Budget, f: Frame)
    requires Bounded(c) && WindowFull(c) && c.live >= Floor(c, f.minimum)
    ensures Fits(c, WindowOf(c, f)) && WindowOf(c, f).floor == Floor(c, f.minimum)
  {
  }

  lemma CloseBounded(c: Budget, f: Frame)
    requires Bounded(c) && c.live >= Floor(c, f.minimum)
    ensures Bounded(Close(c, f)) && Close(c, f).live >= Floor(c, f.minimum) && Close(c, f).target == c.target
  {
    if WindowFull(c) {
      WindowFits(c, f);
      DecideBounded(c, WindowOf(c, f));
    }
  }

  lemma CountBounded(b: Budget, f: Frame, dt: real)
    requires Bounded(b) && dt > 0.0
    ensures var c := Count(Raise(b, f).(lastFrame := f.time), dt);
            Bounded(c) && c.target == b.target && c.live >= Floor(b, f.minimum)
  {
  }

  /** The budget never exceeds the request, never falls below the floor of an active sample, and backs off by the book. */
  lemma SampleBounded(b: Budget, f: Frame)
    requires Bounded(b)
    ensures Bounded(Sample(b, f)) && Sample(b, f).target == b.target
    ensures f.active && f.time.Some? ==> Sample(b, f).live >= Floor(b, f.minimum)
  {
    if f.active && f.time.Some? && b.lastFrame.Some? && f.time.value > b.lastFrame.value {
      var dt := f.time.value - b.lastFrame.value;
      CountBounded(b, f, dt);
      CloseBounded(Count(Raise(b, f).(lastFrame := f.time), dt), f);
      assert Sample(b, f) == Close(Count(Raise(b, f).(lastFrame := f.time), dt), f);
    }
  }

  /** A sample decides on the window if it is full, and so never leaves a full one. */
  lemma SampleDecides(b: Budget, f: Frame)
    requires !WindowFull(b)
    ensures !WindowFull(Sample(b, f))
  {
  }

  datatype Call = Aim(value: Option<real>) | Draw(frame: Frame)

  function Next(b: Budget, c: Call): Budget {
    match c case Aim(value) => SetTarget(b, value) case Draw(f) => Sample(b, f)
  }

  function Run(b: Budget, calls: seq<Call>): Budget
    decreases |calls|
  {
    if calls == [] then b else Next(Run(b, calls[..|calls| - 1]), calls[|calls| - 1])
  }

  /** Over every sequence of calls; and no full window is left undecided. */
  lemma {:induction false} AlwaysBounded(target: real, calls: seq<Call>)
    ensures Bounded(Run(Start(target), calls)) && !WindowFull(Run(Start(target), calls))
    decreases |calls|
  {
    if calls != [] {
      AlwaysBounded(target, calls[..|calls| - 1]);
      var b := Run(Start(target), calls[..|calls| - 1]);
      match calls[|calls| - 1]
      case Aim(value) =>
      case Draw(f) => SampleBounded(b, f); SampleDecides(b, f);
    }
  }

  // ---------- backoff ----------

  function Power2(k: nat): real {
    if k == 0 then 1.0 else 2.0 * Power2(k - 1)
  }

  lemma {:induction false} BackoffIs(k: nat)
    ensures Backoff(k) == Min(LAST_DELAY, FIRST_DELAY * Power2(k))
    ensures Backoff(k) in {4000.0, 8000.0, 16000.0, 32000.0, 60000.0} && Power2(k) >= 1.0 && (k > 0 ==> Backoff(k) >= 8000.0)
  {
    if k > 0 { BackoffIs(k - 1); }
  }

  /** `rollbacks` counts the rollbacks since the delay last started over, `changed` is when the budget was last changed by
      a decision, `probed` when a probe was last started, `seen` the last time there was. */
  datatype History = History(budget: Budget, rollbacks: nat, changed: real, probed: real, seen: real)

  /** The window that a sample completes. */
  predicate Completes(b: Budget, f: Frame) {
    f.active && f.time.Some? && b.lastFrame.Some? && f.time.value > b.lastFrame.value && WindowFull(Counted(b, f))
  }

  function Counted(b: Budget, f: Frame): Budget
    requires f.time.Some? && b.lastFrame.Some?
  {
    Count(Raise(b, f).(lastFrame := f.time), f.time.value - b.lastFrame.value)
  }

  /** What a sample decides. */
  datatype Decision = Decision(settled: bool, rolledBack: bool, reduced: bool, probing: bool)

  function Decided(b: Budget, f: Frame): Decision {
    if !Completes(b, f) then Decision(false, false, false, false)
    else
      var c := Counted(b, f);
      var w := WindowOf(c, f);
      var o := Observe(c, w);
      Decision(Settles(c, w), Overloaded(o, w) && o.probeBase.Some?, Overloaded(o, w), !Overloaded(o, w) && StartsProbe(o, w, Wait(c, w)))
  }

  function Follow(h: History, f: Frame): History {
    var d := Decided(h.budget, f);
    var time := if f.time.Some? then f.time.value else h.seen;
    History(Sample(h.budget, f), if d.rolledBack then h.rollbacks + 1 else if d.settled then 0 else h.rollbacks,
            if d.reduced || d.probing then time else h.changed, if d.probing then time else h.probed, time)
  }

  /** Health is never counted for longer than it can have lasted. */
  predicate Timed(h: History) {
    && Bounded(h.budget) && h.budget.delayMs == Backoff(h.rollbacks)
    && h.probed <= h.changed <= h.seen
    && match h.budget.lastFrame
       case None => h.budget.healthyMs == 0.0 && h.budget.elapsed == 0.0
       case Some(t) => t <= h.seen && h.changed + h.budget.healthyMs + h.budget.elapsed <= t
  }

  lemma CountedTimed(h: History, f: Frame)
    requires Timed(h) && f.active && f.time.Some? && h.budget.lastFrame.Some? && f.time.value > h.budget.lastFrame.value
    ensures var c := Counted(h.budget, f);
            && Bounded(c) && h.changed + c.healthyMs + c.elapsed <= f.time.value && c.lastFrame == f.time
            && c.delayMs == Backoff(h.rollbacks) && c.target == h.budget.target && c.live >= Floor(c, f.minimum)
  {
  }

  /** What a decision does to the delay: it starts over with a probe that has succeeded, and doubles with a rollback. */
  lemma DecisionDelays(c: Budget, w: Window, k: nat)
    requires Bounded(c) && c.delayMs == Backoff(k)
    ensures var o := Observe(c, w);
            Decide(c, w).delayMs == Backoff(if Overloaded(o, w) && o.probeBase.Some? then k + 1 else if Settles(c, w) then 0 else k)
  {
    BackoffIs(k);
    BackoffIs(k + 1);
  }

  /** Health starts over when the budget is changed, and grows by the window at most. */
  lemma DecisionHeals(c: Budget, w: Window)
    requires c.healthyMs >= 0.0 && w.ms >= 0.0
    ensures var d, o := Decide(c, w), Observe(c, w);
            && d.elapsed == 0.0 && d.lastFrame == c.lastFrame && 0.0 <= d.healthyMs <= c.healthyMs + w.ms
            && (Overloaded(o, w) || StartsProbe(o, w, Wait(c, w)) ==> d.healthyMs == 0.0)
  {
  }

  lemma DecisionTimed(h: History, f: Frame)
    requires Timed(h) && Completes(h.budget, f) && f.time.value >= h.seen
    ensures Timed(Follow(h, f))
  {
    CountedTimed(h, f);
    var c := Counted(h.budget, f);
    var w := WindowOf(c, f);
    WindowFits(c, f);
    DecideBounded(c, w);
    DecisionDelays(c, w, h.rollbacks);
    DecisionHeals(c, w);
    assert Follow(h, f).budget == Decide(c, w);
  }

  /** A probe is started after as much health as the delay asks for, all of it since the budget was last changed. */
  lemma ProbeIsDue(h: History, f: Frame)
    requires Timed(h) && Decided(h.budget, f).probing
    ensures f.time.value - h.changed >= if h.rollbacks == 0 then 2000.0 else Backoff(h.rollbacks)
  {
    CountedTimed(h, f);
    BackoffIs(h.rollbacks);
  }

  lemma FollowTimed(h: History, f: Frame)
    requires Timed(h) && (f.time.Some? ==> f.time.value >= h.seen)
    ensures Timed(Follow(h, f))
  {
    if Completes(h.budget, f) {
      DecisionTimed(h, f);
    } else {
      SampleBounded(h.budget, f);
    }
  }

  function Trace(target: real, start: real, frames: seq<Frame>): History
    decreases |frames|
  {
    if frames == [] then History(Start(target), 0, start, start, start)
    else Follow(Trace(target, start, frames[..|frames| - 1]), frames[|frames| - 1])
  }

  /** Times do not go back. */
  predicate Forward(start: real, frames: seq<Frame>) {
    && (forall i :: 0 <= i < |frames| && frames[i].time.Some? ==> frames[i].time.value >= start)
    && (forall i, j :: 0 <= i < j < |frames| && frames[i].time.Some? && frames[j].time.Some? ==> frames[i].time.value <= frames[j].time.value)
  }

  lemma {:induction false} TraceTimed(target: real, start: real, frames: seq<Frame>)
    requires Forward(start, frames)
    ensures Timed(Trace(target, start, frames))
    ensures var s := Trace(target, start, frames).seen;
            s == start || exists i :: 0 <= i < |frames| && frames[i].time == Some(s)
    decreases |frames|
  {
    if frames != [] {
      var init, f := frames[..|frames| - 1], frames[|frames| - 1];
      TraceTimed(target, start, init);
      FollowTimed(Trace(target, start, init), f);
      if f.time == None && Trace(target, start, init).seen != start {
        var i :| 0 <= i < |init| && init[i].time == Some(Trace(target, start, init).seen);
        assert frames[i] == init[i];
      } else if f.time.Some? {
        assert frames[|frames| - 1].time == Some(f.time.value);
      }
    }
  }

  lemma ForwardInit(start: real, frames: seq<Frame>, f: Frame)
    requires Forward(start, frames + [f]) && f.time.Some?
    ensures Forward(start, frames) && start <= f.time.value
    ensures forall i :: 0 <= i < |frames| && frames[i].time.Some? ==> frames[i].time.value <= f.time.value
  {
    var all := frames + [f];
    assert forall i :: 0 <= i < |frames| ==> all[i] == frames[i];
    assert all[|frames|] == f;
  }

  lemma SeenBefore(target: real, start: real, frames: seq<Frame>, f: Frame) returns (h: History)
    requires Forward(start, frames + [f]) && f.time.Some?
    ensures h == Trace(target, start, frames) && Timed(h) && h.seen <= f.time.value
  {
    h := Trace(target, start, frames);
    ForwardInit(start, frames, f);
    TraceTimed(target, start, frames);
  }

  lemma ProbeWaits(h: History, f: Frame)
    requires Timed(h) && f.time.Some? && f.time.value >= h.seen && Decided(h.budget, f).probing
    ensures f.time.value - h.probed >= 2000.0
    ensures h.rollbacks >= 1 ==> f.time.value - h.probed >= Min(LAST_DELAY, FIRST_DELAY * Power2(h.rollbacks))
  {
    BackoffIs(h.rollbacks);
    ProbeIsDue(h, f);
  }

  /** Backoff: after k rollbacks in a row the next probe starts no sooner than min(60000, 4000 * 2^k) ms after the
      previous one, and never sooner than two seconds after it. */
  lemma ProbesBackOff(target: real, start: real, frames: seq<Frame>, f: Frame)
    requires Forward(start, frames + [f]) && f.time.Some?
    requires Decided(Trace(target, start, frames).budget, f).probing
    ensures var h := Trace(target, start, frames);
            && f.time.value - h.probed >= 2000.0
            && (h.rollbacks >= 1 ==> f.time.value - h.probed >= Min(LAST_DELAY, FIRST_DELAY * Power2(h.rollbacks)))
  {
    var h := SeenBefore(target, start, frames, f);
    ProbeWaits(h, f);
  }
}
