/**
 * Sustained health: frames that take no longer than 44 ms never lower the point
 * budget, and bring it up to what is asked for by 15 per cent at least in every
 * 61 seconds.
 */
module PointRecovery {
  import opened PointBudget
  import opened PointOverload
  import opened Wrappers

  /** 15 per cent more, n times over. */
  function Climb(live: real, n: nat): real {
    if n == 0 then live else 1.15 * Climb(live, n - 1)
  }

  /** The longest delay before a probe, the window that is open by then, and the frame that ends it. */
  const ROUND := 61044.0

  /** The scene would fill a budget of `goal`: either that many points are visible, up to the share that counts as filled, or
      settled demand asks for them. */
  predicate Wants(f: Frame, goal: real, target: real) {
    match f.demand
    case None => f.visible >= goal * 0.7
    case Some(d) => d.settled && d.drawn.Some? && d.drawn.value > 0.0 && d.required.Some? && goal <= d.required.value <= target
  }

  predicate HealthyAt(b: Budget, frames: seq<Frame>, goal: real, k: nat)
    requires k < |frames|
  {
    RunningAt(b, frames, k) && Gap(b, frames, k) <= 44.0 && Wants(frames[k], goal, b.target)
  }

  predicate Healthy(b: Budget, frames: seq<Frame>, goal: real) {
    forall k :: 0 <= k < |frames| ==> HealthyAt(b, frames, goal, k)
  }

  /** The frames counted so far were healthy on average. */
  predicate Clean(b: Budget) {
    b.elapsed <= 44.0 * b.samples as real
  }

  lemma OpenWindow(c: Budget)
    requires Clean(c) && !WindowFull(c)
    ensures c.elapsed < 1000.0
  {
  }

  lemma AverageBelow(elapsed: real, samples: nat)
    requires samples > 0 && elapsed <= 44.0 * samples as real
    ensures elapsed / samples as real <= 44.0
  {
  }

  /** `d` is how long the budget has been healthy since it was last raised: every millisecond of it counts for the next probe,
      and up to the last decision it was not enough for one. */
  predicate Waiting(c: Budget, d: real) {
    && d - c.elapsed < LAST_DELAY && c.healthyMs >= d - c.elapsed
    && (c.probeBase.Some? ==> c.probeAgeMs >= d - c.elapsed)
  }

  /** `m` raises, and `d` since the last of them, account for the time up to now. */
  predicate Climbing(b: Budget, c: Budget, goal: real, m: nat, d: real, spent: real) {
    && Bounded(c) && !WindowFull(c) && Clean(c) && c.target == b.target && c.live >= b.live
    && (c.live < goal ==> c.live >= Climb(b.live, m) && Waiting(c, d) && spent <= ROUND * m as real + d)
  }

  /** A decision on a healthy window lowers nothing. */
  lemma HealthyDecision(c: Budget, w: Window)
    requires Bounded(c) && Fits(c, w) && w.frameMs <= 44.0
    ensures Decide(c, w).live >= c.live && Bounded(Decide(c, w)) && Decide(c, w).target == c.target
    ensures Decide(c, w).elapsed == 0.0 && Decide(c, w).samples == 0
  {
    DecideBounded(c, w);
    var o := Observe(c, w);
    if StartsProbe(o, w, Wait(c, w)) { ProbeRaises(o, w, Wait(c, w)); }
  }

  /** It starts a probe, or the wait has not been long enough. */
  lemma DecisionClimbs(c: Budget, w: Window, d: real, goal: real)
    requires Bounded(c) && Fits(c, w) && w.frameMs <= 44.0 && w.ms == c.elapsed && w.settled && w.canGrow
    requires c.live < goal <= c.target && Waiting(c, d)
    ensures var e := Decide(c, w);
            (Waiting(e, d) && e.live == c.live) || (Waiting(e, 0.0) && e.live >= Min(goal, 1.15 * c.live))
  {
    var o, e := Observe(c, w), Decide(c, w);
    assert !Overloaded(o, w);
    if StartsProbe(o, w, Wait(c, w)) {
      ProbeRaises(o, w, Wait(c, w));
      assert e == Probe(o, w).(auto := e.auto);
      assert Ceil(Grown(o.live, w)) >= Grown(o.live, w) >= 1.15 * c.live;
    } else {
      assert e == o.(auto := e.auto);
      assert o.probeBase.Some? || o.healthyMs < Wait(c, w);
    }
  }

  /** The window that a healthy frame completes. */
  lemma HealthyWindow(c: Budget, f: Frame, goal: real)
    requires Bounded(c) && Clean(c) && Completes(c, f) && f.time.value - c.lastFrame.value <= 44.0
    requires Wants(f, goal, c.target)
    ensures var k := Counted(c, f);
            var w := WindowOf(k, f);
            && Bounded(k) && Fits(k, w) && w.frameMs <= 44.0 && w.ms == k.elapsed && k.target == c.target && k.live >= c.live
            && (k.live < goal ==> w.settled && w.canGrow)
  {
    CountBounded(c, f, f.time.value - c.lastFrame.value);
    var k := Counted(c, f);
    WindowFits(k, f);
    AverageBelow(k.elapsed, k.samples);
  }

  /** A frame that completes no window only adds to the wait. */
  lemma FrameWaits(c: Budget, f: Frame, d: real, gap: real)
    requires Bounded(c) && Clean(c) && !Completes(c, f) && f.active && f.time.Some? && 0.0 <= gap <= 44.0
    requires if c.lastFrame.Some? then gap == f.time.value - c.lastFrame.value > 0.0 else gap == 0.0
    ensures var e := Sample(c, f);
            Bounded(e) && Clean(e) && e.target == c.target && e.live >= c.live && (Waiting(c, d) ==> Waiting(e, d + gap))
  {
    SampleBounded(c, f);
  }

  lemma Counts(c: Budget, f: Frame, d: real)
    requires Clean(c) && Completes(c, f) && f.time.value - c.lastFrame.value <= 44.0 && Waiting(c, d)
    ensures Waiting(Counted(c, f), d + (f.time.value - c.lastFrame.value))
  {
  }

  /** Every frame of a climb: the time it takes is accounted for, by the wait or by one more raise. */
  lemma FrameClimbs(b: Budget, c: Budget, f: Frame, goal: real, m: nat, d: real, spent: real, gap: real) returns (m': nat, d': real)
    requires Climbing(b, c, goal, m, d, spent) && goal <= b.target && f.active && f.time.Some? && Wants(f, goal, b.target)
    requires 0.0 <= gap <= 44.0 && if c.lastFrame.Some? then gap == f.time.value - c.lastFrame.value > 0.0 else gap == 0.0
    ensures Climbing(b, Sample(c, f), goal, m', d', spent + gap)
  {
    var e := Sample(c, f);
    SampleDecides(c, f);
    OpenWindow(c);
    if !Completes(c, f) {
      m', d' := m, d + gap;
      FrameWaits(c, f, d, gap);
    } else {
      var k := Counted(c, f);
      var w := WindowOf(k, f);
      HealthyWindow(c, f, goal);
      HealthyDecision(k, w);
      assert e == Decide(k, w);
      m', d' := CompletedClimbs(b, c, f, goal, m, d, spent, gap);
    }
  }

  lemma CompletedClimbs(b: Budget, c: Budget, f: Frame, goal: real, m: nat, d: real, spent: real, gap: real) returns (m': nat, d': real)
    requires Climbing(b, c, goal, m, d, spent) && goal <= b.target && Completes(c, f) && Wants(f, goal, b.target)
    requires gap == f.time.value - c.lastFrame.value <= 44.0
    ensures var e := Decide(Counted(c, f), WindowOf(Counted(c, f), f));
            e.live < goal ==> e.live >= Climb(b.live, m') && Waiting(e, d') && spent + gap <= ROUND * m' as real + d'
  {
    var k := Counted(c, f);
    var w := WindowOf(k, f);
    m', d' := m, d + gap;
    HealthyWindow(c, f, goal);
    HealthyDecision(k, w);
    if k.live < goal {
      Counts(c, f, d);
      DecisionClimbs(k, w, d + gap, goal);
      if !(Waiting(Decide(k, w), d + gap) && Decide(k, w).live == k.live) {
        OpenWindow(c);
        m', d' := m + 1, 0.0;
        assert spent + gap <= ROUND * m as real + ROUND == ROUND * m' as real;
      }
    }
  }

  lemma {:induction false} HealthAccounts(b: Budget, frames: seq<Frame>, goal: real, n: nat) returns (m: nat, d: real)
    requires n <= |frames| && Bounded(b) && !WindowFull(b) && Clean(b) && goal <= b.target && Healthy(b, frames, goal)
    ensures Climbing(b, After(b, frames, n).budget, goal, m, d, Spent(b, frames, 0, n))
    decreases n
  {
    if n == 0 {
      assert frames[..0] == [];
      m, d := 0, b.elapsed;
    } else {
      m, d := HealthAccounts(b, frames, goal, n - 1);
      assert HealthyAt(b, frames, goal, n - 1);
      forall k | 0 <= k < |frames| ensures RunningAt(b, frames, k) { assert HealthyAt(b, frames, goal, k); }
      AllTracked(b, frames, n - 1);
      AfterStep(b, frames, n - 1);
      m, d := FrameClimbs(b, After(b, frames, n - 1).budget, frames[n - 1], goal, m, d, Spent(b, frames, 0, n - 1), Gap(b, frames, n - 1));
    }
  }

  lemma {:induction false} ClimbGrows(live: real, m: nat, n: nat)
    requires live >= 0.0 && m <= n
    ensures 0.0 <= Climb(live, m) <= Climb(live, n)
  {
    if m < n {
      ClimbGrows(live, m, n - 1);
    } else if m > 0 {
      ClimbGrows(live, m - 1, n - 1);
    }
  }

  /** Healthy frames never lower the budget, and n times 61 seconds of them raise it to the goal or by 15 per cent n times over. */
  lemma HealthReachesGoal(b: Budget, frames: seq<Frame>, goal: real, n: nat)
    requires Bounded(b) && !WindowFull(b) && Clean(b) && b.live >= 0.0 && goal <= b.target && Healthy(b, frames, goal)
    requires Spent(b, frames, 0, |frames|) >= ROUND * n as real
    ensures var live := Draws(b, frames).budget.live;
            b.live <= live <= b.target && live >= Min(goal, Climb(b.live, n))
  {
    var m, d := HealthAccounts(b, frames, goal, |frames|);
    assert frames[..|frames|] == frames;
    var c := Draws(b, frames).budget;
    if c.live < goal {
      OpenWindow(c);
      assert d < ROUND;
      assert m < n ==> ROUND * (m + 1) as real <= ROUND * n as real;
      ClimbGrows(b.live, n, m);
    }
  }
}
