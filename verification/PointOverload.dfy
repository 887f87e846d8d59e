/**
 * Sustained overload: which frames make the point budget decide, and how far down
 * the decisions bring it. Everything here is a function of the frame times.
 */
module PointOverload {
  import opened PointBudget
  import opened Wrappers

  // ---------- the ladder ----------

  /** Three quarters, n times over. */
  function Rung(live: real, n: nat): real {
    if n == 0 then live else 0.75 * Rung(live, n - 1)
  }

  /** The budget, and how many decisions were made. */
  datatype Tally = Tally(budget: Budget, decisions: nat)

  function Tallied(t: Tally, f: Frame): Tally {
    Tally(Sample(t.budget, f), if Completes(t.budget, f) then t.decisions + 1 else t.decisions)
  }

  function Draws(b: Budget, frames: seq<Frame>): Tally
    decreases |frames|
  {
    if frames == [] then Tally(b, 0) else Tallied(Draws(b, frames[..|frames| - 1]), frames[|frames| - 1])
  }

  /** How high the budget can still be after n decisions; the first one may only take back a probe. */
  function Ceiling(live: real, floor: real, n: nat): real {
    Max(floor, Rung(live, if n == 0 then 0 else n - 1))
  }

  lemma {:induction false} RungShrinks(live: real, n: nat)
    requires live >= 0.0
    ensures 0.0 <= Rung(live, n) <= live && (n > 0 ==> Rung(live, n) <= Rung(live, n - 1))
  {
    if n > 0 { RungShrinks(live, n - 1); }
  }

  lemma AverageAbove(elapsed: real, samples: nat)
    requires samples > 0 && elapsed > 45.0 * samples as real
    ensures elapsed / samples as real > 45.0
  {
  }

  /** One overloaded decision takes the budget down the ladder. */
  lemma StepDown(live: real, c: Budget, w: Window, n: nat)
    requires Bounded(c) && Fits(c, w) && w.frameMs > 45.0 && live >= 0.0 && w.floor >= 0.0
    requires c.live <= Ceiling(live, w.floor, n) && (n > 0 ==> c.probeBase == None || c.live == w.floor)
    ensures var d := Decide(c, w);
            && d.live <= Ceiling(live, w.floor, n + 1) && (d.probeBase == None || d.live == w.floor)
            && (c.live > w.floor ==> d.live < c.live)
  {
    RungShrinks(live, n);
    if Overloaded(Observe(c, w), w) { ReduceLowers(Observe(c, w), w); }
  }

  /** Every window that the frames complete is overloaded, and the floor stays where it is. */
  predicate Overloads(b: Budget, frames: seq<Frame>, minimum: Option<real>)
    decreases |frames|
  {
    frames == [] ||
    (var init, f := frames[..|frames| - 1], frames[|frames| - 1];
     var c := Draws(b, init).budget;
     Overloads(b, init, minimum) && f.minimum == minimum && (Completes(c, f) ==> WindowOf(Counted(c, f), f).frameMs > 45.0))
  }

  /** At the floor, or on its way down with no probe to take back. */
  predicate Descending(live: real, c: Budget, n: nat, floor: real) {
    Bounded(c) && floor <= c.live <= Ceiling(live, floor, n) && (n > 0 ==> c.probeBase == None || c.live == floor)
  }

  lemma DecisionDescends(live: real, c: Budget, n: nat, w: Window)
    requires Bounded(c) && Fits(c, w) && w.frameMs > 45.0 && live >= 0.0 && w.floor >= 0.0 && Descending(live, c, n, w.floor)
    ensures Descending(live, Decide(c, w), n + 1, w.floor) && (c.live > w.floor ==> Decide(c, w).live < c.live)
  {
    DecideBounded(c, w);
    StepDown(live, c, w, n);
  }

  lemma CountDescends(live: real, c: Budget, n: nat, f: Frame)
    requires Descending(live, c, n, Floor(c, f.minimum)) && Completes(c, f)
    ensures var d := Counted(c, f);
            && Descending(live, d, n, Floor(c, f.minimum)) && d.live == c.live && d.target == c.target
            && d.live >= Floor(d, f.minimum) == Floor(c, f.minimum)
  {
    CountBounded(c, f, f.time.value - c.lastFrame.value);
  }

  lemma OverloadedFrame(live: real, c: Budget, n: nat, f: Frame)
    requires Descending(live, c, n, Floor(c, f.minimum)) && live >= 0.0 && Floor(c, f.minimum) >= 0.0
    requires Completes(c, f) ==> WindowOf(Counted(c, f), f).frameMs > 45.0
    ensures Sample(c, f).target == c.target
    ensures Descending(live, Sample(c, f), if Completes(c, f) then n + 1 else n, Floor(c, f.minimum))
    ensures Completes(c, f) && c.live > Floor(c, f.minimum) ==> Sample(c, f).live < c.live
  {
    if Completes(c, f) {
      CountDescends(live, c, n, f);
      WindowFits(Counted(c, f), f);
      DecisionDescends(live, Counted(c, f), n, WindowOf(Counted(c, f), f));
    } else {
      SampleBounded(c, f);
    }
  }

  ghost predicate Descends(b: Budget, t: Tally, floor: real) {
    t.budget.target == b.target && Descending(b.live, t.budget, t.decisions, floor)
  }

  lemma DescendsOn(b: Budget, t: Tally, f: Frame)
    requires Descends(b, t, Floor(b, f.minimum)) && 0.0 <= Floor(b, f.minimum) <= b.live
    requires Completes(t.budget, f) ==> WindowOf(Counted(t.budget, f), f).frameMs > 45.0
    ensures Descends(b, Tallied(t, f), Floor(b, f.minimum))
  {
    OverloadedFrame(b.live, t.budget, t.decisions, f);
  }

  /** However the frames come, n overloaded windows in a row leave the budget at the floor or on the n-th rung at most. */
  lemma {:induction false} OverloadDescends(b: Budget, frames: seq<Frame>, minimum: Option<real>)
    requires Bounded(b) && 0.0 <= Floor(b, minimum) <= b.live && Overloads(b, frames, minimum)
    ensures Descends(b, Draws(b, frames), Floor(b, minimum))
    decreases |frames|
  {
    if frames != [] {
      OverloadDescends(b, frames[..|frames| - 1], minimum);
      DescendsOn(b, Draws(b, frames[..|frames| - 1]), frames[|frames| - 1]);
    }
  }

  lemma {:induction false} RungDown(live: real, m: nat, n: nat)
    requires live >= 0.0 && m <= n
    ensures Rung(live, n) <= Rung(live, m)
  {
    if m < n {
      RungShrinks(live, n);
      RungDown(live, m, n - 1);
    }
  }

  // ---------- stretches of frames ----------

  /** The time of the frame before, if there has been one. */
  function TimeBefore(b: Budget, frames: seq<Frame>, k: nat): Option<real>
    requires k <= |frames|
  {
    if k == 0 then b.lastFrame else frames[k - 1].time
  }

  /** How long frame `k` has taken; the very first one only sets the clock. */
  function Gap(b: Budget, frames: seq<Frame>, k: nat): real
    requires k < |frames|
  {
    var before, time := TimeBefore(b, frames, k), frames[k].time;
    if before.Some? && time.Some? then time.value - before.value else 0.0
  }

  predicate RunningAt(b: Budget, frames: seq<Frame>, k: nat)
    requires k < |frames|
  {
    frames[k].active && frames[k].time.Some? && (TimeBefore(b, frames, k).Some? ==> Gap(b, frames, k) > 0.0)
  }

  /** Active frames, each later than the one before. */
  predicate Running(b: Budget, frames: seq<Frame>) {
    forall k :: 0 <= k < |frames| ==> RunningAt(b, frames, k)
  }

  /** The last frame before frame `k` that took any time took longer than a second. */
  predicate LongBefore(b: Budget, frames: seq<Frame>, k: nat)
    requires k <= |frames|
  {
    if k == 0 then b.longFrames > 0
    else if TimeBefore(b, frames, k - 1) == None then LongBefore(b, frames, k - 1)
    else Gap(b, frames, k - 1) > 1000.0
  }

  /** A frame longer than a second after one that was not: it is taken for a pause. */
  predicate Stalls(b: Budget, frames: seq<Frame>, k: nat)
    requires k < |frames|
  {
    Gap(b, frames, k) > 1000.0 && !LongBefore(b, frames, k)
  }

  /** How many frames are counted from `i` up to `j`, what was counted before the first one included. */
  function Frames(b: Budget, frames: seq<Frame>, i: nat, j: nat): nat
    requires i <= j <= |frames|
    decreases j
  {
    if i == j then if i == 0 then b.samples else 0
    else Frames(b, frames, i, j - 1) + if TimeBefore(b, frames, j - 1).Some? then 1 else 0
  }

  /** For how long they count, a second each at most. */
  function Spent(b: Budget, frames: seq<Frame>, i: nat, j: nat): real
    requires i <= j <= |frames|
    decreases j
  {
    if i == j then if i == 0 then b.elapsed else 0.0
    else Spent(b, frames, i, j - 1) + Min(1000.0, Gap(b, frames, j - 1))
  }

  predicate Undisturbed(b: Budget, frames: seq<Frame>, i: nat, j: nat)
    requires i <= j <= |frames|
  {
    forall k :: i <= k < j ==> !Stalls(b, frames, k)
  }

  /** Eight frames or more that take a second or more, none of which begins a pause. */
  predicate Stretch(b: Budget, frames: seq<Frame>, i: nat, j: nat) {
    && i <= j <= |frames| && Frames(b, frames, i, j) >= 8 && Spent(b, frames, i, j) >= 1000.0
    && Undisturbed(b, frames, i, j)
  }

  /** Stretches that follow one another without overlapping. */
  predicate Stretches(b: Budget, frames: seq<Frame>, s: seq<(nat, nat)>) {
    && (forall a :: 0 <= a < |s| ==> Stretch(b, frames, s[a].0, s[a].1))
    && (forall a, c :: 0 <= a < c < |s| ==> s[a].1 <= s[c].0)
  }

  // ---------- the window that is open ----------

  function After(b: Budget, frames: seq<Frame>, n: nat): Tally
    requires n <= |frames|
  {
    Draws(b, frames[..n])
  }

  lemma AfterStep(b: Budget, frames: seq<Frame>, n: nat)
    requires n < |frames|
    ensures After(b, frames, n + 1) == Tallied(After(b, frames, n), frames[n])
  {
    assert frames[..n + 1][..n] == frames[..n];
  }

  /** Where the window that is open after `n` frames begins. */
  function Opened(b: Budget, frames: seq<Frame>, n: nat): (i: nat)
    requires n <= |frames|
    ensures i <= n
  {
    if n == 0 then 0
    else if Stalls(b, frames, n - 1) || Completes(After(b, frames, n - 1).budget, frames[n - 1]) then n
    else Opened(b, frames, n - 1)
  }

  /** The counters of the budget are those of the frames since the window was opened. */
  predicate Tracks(b: Budget, frames: seq<Frame>, n: nat)
    requires n <= |frames|
  {
    var c, i := After(b, frames, n).budget, Opened(b, frames, n);
    && c.samples == Frames(b, frames, i, n) && c.elapsed == Spent(b, frames, i, n) && Undisturbed(b, frames, i, n)
    && (c.longFrames > 0 <==> LongBefore(b, frames, n)) && c.lastFrame == TimeBefore(b, frames, n)
    && !WindowFull(c)
  }

  /** A frame that only sets the clock. */
  lemma ClockFrame(c: Budget, f: Frame)
    requires f.active && f.time.Some? && c.lastFrame == None
    ensures var d := Sample(c, f);
            !Completes(c, f) && d.samples == c.samples && d.elapsed == c.elapsed && d.longFrames == c.longFrames && d.lastFrame == f.time
  {
  }

  lemma DecideResets(c: Budget, w: Window)
    ensures var d := Decide(c, w);
            d.samples == 0 && d.elapsed == 0.0 && d.target == c.target && d.lastFrame == c.lastFrame && d.longFrames == c.longFrames
  {
  }

  /** A frame that is counted starts the window over, or completes it, or makes it longer. */
  lemma TimedFrame(c: Budget, f: Frame, gap: real)
    requires f.active && f.time.Some? && c.lastFrame.Some? && gap == f.time.value - c.lastFrame.value > 0.0
    ensures var d := Sample(c, f);
            && (d.longFrames > 0 <==> gap > 1000.0) && d.lastFrame == f.time
            && if gap > 1000.0 && c.longFrames == 0 then !Completes(c, f) && d.samples == 0 && d.elapsed == 0.0
               else if c.samples + 1 >= 8 && c.elapsed + Min(1000.0, gap) >= 1000.0
               then Completes(c, f) && d.samples == 0 && d.elapsed == 0.0
               else !Completes(c, f) && d.samples == c.samples + 1 && d.elapsed == c.elapsed + Min(1000.0, gap)
  {
    if Completes(c, f) { DecideResets(PointBudget.Counted(c, f), WindowOf(PointBudget.Counted(c, f), f)); }
  }

  lemma TracksStep(b: Budget, frames: seq<Frame>, n: nat)
    requires n < |frames| && RunningAt(b, frames, n) && Tracks(b, frames, n)
    ensures Tracks(b, frames, n + 1)
    ensures Completes(After(b, frames, n).budget, frames[n]) ==> Stretch(b, frames, Opened(b, frames, n), n + 1)
  {
    AfterStep(b, frames, n);
    var c := After(b, frames, n).budget;
    if c.lastFrame == None { ClockFrame(c, frames[n]); } else { TimedFrame(c, frames[n], Gap(b, frames, n)); }
  }

  lemma {:induction false} AllTracked(b: Budget, frames: seq<Frame>, n: nat)
    requires n <= |frames| && Running(b, frames) && !WindowFull(b)
    ensures Tracks(b, frames, n)
    decreases n
  {
    if n == 0 {
      assert frames[..0] == [];
    } else {
      AllTracked(b, frames, n - 1);
      assert RunningAt(b, frames, n - 1);
      TracksStep(b, frames, n - 1);
    }
  }

  // ---------- when decisions are made ----------

  lemma {:induction false} DecisionsGrow(b: Budget, frames: seq<Frame>, i: nat, j: nat)
    requires i <= j <= |frames|
    ensures After(b, frames, i).decisions <= After(b, frames, j).decisions
    decreases j
  {
    if i < j {
      DecisionsGrow(b, frames, i, j - 1);
      AfterStep(b, frames, j - 1);
    }
  }

  /** A window stays open while nothing is decided and no pause begins. */
  lemma {:induction false} StaysOpen(b: Budget, frames: seq<Frame>, i: nat, j: nat)
    requires i <= j <= |frames| && Undisturbed(b, frames, i, j)
    requires After(b, frames, j).decisions == After(b, frames, i).decisions
    ensures Opened(b, frames, j) == Opened(b, frames, i)
    decreases j
  {
    if i < j {
      DecisionsGrow(b, frames, i, j - 1);
      DecisionsGrow(b, frames, j - 1, j);
      AfterStep(b, frames, j - 1);
      StaysOpen(b, frames, i, j - 1);
    }
  }

  /** More frames take more time. */
  lemma {:induction false} LongerCounts(b: Budget, frames: seq<Frame>, i: nat, k: nat, j: nat)
    requires i <= k <= j <= |frames| && Running(b, frames) && b.elapsed >= 0.0
    ensures Frames(b, frames, k, j) <= Frames(b, frames, i, j) && Spent(b, frames, k, j) <= Spent(b, frames, i, j)
    ensures Spent(b, frames, i, j) >= 0.0
    decreases j
  {
    if i < j {
      assert RunningAt(b, frames, j - 1);
      LongerCounts(b, frames, i, if k < j then k else j - 1, j - 1);
    }
  }

  lemma StretchDecides(b: Budget, frames: seq<Frame>, i: nat, j: nat)
    requires Running(b, frames) && !WindowFull(b) && b.elapsed >= 0.0 && Stretch(b, frames, i, j)
    ensures After(b, frames, i).decisions < After(b, frames, j).decisions
  {
    DecisionsGrow(b, frames, i, j);
    if After(b, frames, i).decisions == After(b, frames, j).decisions {
      StaysOpen(b, frames, i, j);
      AllTracked(b, frames, j);
      LongerCounts(b, frames, Opened(b, frames, j), i, j);
      assert false;
    }
  }

  lemma {:induction false} StretchesDecide(b: Budget, frames: seq<Frame>, s: seq<(nat, nat)>)
    requires Running(b, frames) && !WindowFull(b) && b.elapsed >= 0.0 && Stretches(b, frames, s)
    ensures |s| > 0 ==> s[|s| - 1].1 <= |frames| && After(b, frames, s[|s| - 1].1).decisions >= |s|
    decreases |s|
  {
    if |s| > 0 {
      var init, last := s[..|s| - 1], s[|s| - 1];
      assert Stretches(b, frames, init) by {
        forall a | 0 <= a < |init| ensures Stretch(b, frames, init[a].0, init[a].1) { assert init[a] == s[a]; }
      }
      StretchesDecide(b, frames, init);
      assert Stretch(b, frames, last.0, last.1);
      StretchDecides(b, frames, last.0, last.1);
      if |init| > 0 {
        assert init[|init| - 1] == s[|s| - 2];
        DecisionsGrow(b, frames, s[|s| - 2].1, last.0);
      }
    }
  }

  lemma StretchesAdd(b: Budget, frames: seq<Frame>, s: seq<(nat, nat)>, i: nat, j: nat)
    requires Stretches(b, frames, s) && Stretch(b, frames, i, j) && forall a :: 0 <= a < |s| ==> s[a].1 <= i
    ensures Stretches(b, frames, s + [(i, j)])
  {
  }

  /** Each decision closes a stretch of its own. */
  lemma {:induction false} DecisionsAre(b: Budget, frames: seq<Frame>, n: nat) returns (s: seq<(nat, nat)>)
    requires n <= |frames| && Running(b, frames) && !WindowFull(b)
    ensures Stretches(b, frames, s) && |s| == After(b, frames, n).decisions
    ensures forall a :: 0 <= a < |s| ==> s[a].1 <= Opened(b, frames, n)
    decreases n
  {
    if n == 0 {
      assert frames[..0] == [];
      s := [];
    } else {
      s := DecisionsAre(b, frames, n - 1);
      AfterStep(b, frames, n - 1);
      AllTracked(b, frames, n - 1);
      assert RunningAt(b, frames, n - 1);
      TracksStep(b, frames, n - 1);
      if Completes(After(b, frames, n - 1).budget, frames[n - 1]) {
        StretchesAdd(b, frames, s, Opened(b, frames, n - 1), n);
        s := s + [(Opened(b, frames, n - 1), n)];
      }
    }
  }

  /** Exactly when decisions are made, in terms of the frame times alone: `n` of them or more if and only if there are `n`
      stretches that do not overlap. */
  lemma DecisionsExactly(b: Budget, frames: seq<Frame>, n: nat)
    requires Running(b, frames) && !WindowFull(b) && b.elapsed >= 0.0
    ensures Draws(b, frames).decisions >= n <==> exists s :: |s| == n && Stretches(b, frames, s)
  {
    assert frames[..|frames|] == frames;
    if Draws(b, frames).decisions >= n {
      var s := DecisionsAre(b, frames, |frames|);
      assert Stretches(b, frames, s[..n]) by {
        forall a | 0 <= a < n ensures Stretch(b, frames, s[..n][a].0, s[..n][a].1) { assert s[..n][a] == s[a]; }
      }
    }
    forall s: seq<(nat, nat)> | |s| == n && Stretches(b, frames, s) ensures Draws(b, frames).decisions >= n {
      StretchesDecide(b, frames, s);
      if n > 0 { DecisionsGrow(b, frames, s[n - 1].1, |frames|); }
    }
  }

  // ---------- slow frames ----------

  predicate SlowAt(b: Budget, frames: seq<Frame>, minimum: Option<real>, k: nat)
    requires k < |frames|
  {
    var f := frames[k];
    f.active && f.time.Some? && f.minimum == minimum && (TimeBefore(b, frames, k).Some? ==> Gap(b, frames, k) > 45.0)
  }

  /** Frames that all take longer than 45 ms, under a fixed floor. */
  predicate Slow(b: Budget, frames: seq<Frame>, minimum: Option<real>) {
    forall k :: 0 <= k < |frames| ==> SlowAt(b, frames, minimum, k)
  }

  lemma SlowRuns(b: Budget, frames: seq<Frame>, minimum: Option<real>)
    requires Slow(b, frames, minimum)
    ensures Running(b, frames)
  {
    forall k | 0 <= k < |frames| ensures RunningAt(b, frames, k) { assert SlowAt(b, frames, minimum, k); }
  }

  /** What has been counted of the current window was slow as well; so it is if nothing has been counted. */
  predicate Strained(b: Budget) {
    b.elapsed >= 45.0 * b.samples as real
  }

  lemma {:induction false} SlowAverage(b: Budget, frames: seq<Frame>, minimum: Option<real>, i: nat, j: nat)
    requires i <= j <= |frames| && Slow(b, frames, minimum) && (i > 0 || Strained(b))
    ensures Spent(b, frames, i, j) >= 45.0 * Frames(b, frames, i, j) as real
    ensures i < j && TimeBefore(b, frames, j - 1).Some? ==> Spent(b, frames, i, j) > 45.0 * Frames(b, frames, i, j) as real
    decreases j
  {
    if i < j {
      SlowAverage(b, frames, minimum, i, j - 1);
      assert SlowAt(b, frames, minimum, j - 1);
    }
  }

  /** The window that frame `n` completes is overloaded. */
  lemma SlowWindow(b: Budget, frames: seq<Frame>, minimum: Option<real>, n: nat)
    requires n < |frames| && Slow(b, frames, minimum) && !WindowFull(b) && (Opened(b, frames, n) > 0 || Strained(b))
    ensures Completes(After(b, frames, n).budget, frames[n]) ==>
              WindowOf(Counted(After(b, frames, n).budget, frames[n]), frames[n]).frameMs > 45.0
  {
    SlowRuns(b, frames, minimum);
    AllTracked(b, frames, n);
    var c := After(b, frames, n).budget;
    if Completes(c, frames[n]) {
      SlowAverage(b, frames, minimum, Opened(b, frames, n), n + 1);
      AverageAbove(Counted(c, frames[n]).elapsed, Counted(c, frames[n]).samples);
    }
  }

  /** A slow frame lowers the budget if it completes an overloaded window above the floor, and never raises it. */
  lemma FrameLowers(c: Budget, f: Frame)
    requires Bounded(c) && c.live >= Floor(c, f.minimum) >= 0.0 && f.active && f.time.Some?
    requires Completes(c, f) ==> WindowOf(Counted(c, f), f).frameMs > 45.0
    requires c.lastFrame.Some? ==> f.time.value > c.lastFrame.value
    ensures var d := Sample(c, f);
            && Bounded(d) && d.target == c.target && Floor(c, f.minimum) <= d.live
            && if Completes(c, f) && c.live > Floor(c, f.minimum) then d.live < c.live else d.live == c.live
  {
    SampleBounded(c, f);
    if Completes(c, f) {
      var d := Counted(c, f);
      CountBounded(c, f, f.time.value - c.lastFrame.value);
      WindowFits(d, f);
      if Overloaded(Observe(d, WindowOf(d, f)), WindowOf(d, f)) { ReduceLowers(Observe(d, WindowOf(d, f)), WindowOf(d, f)); }
    }
  }

  predicate Lowered(b: Budget, t: Tally, floor: real) {
    && Bounded(t.budget) && t.budget.target == b.target
    && if t.decisions == 0 then t.budget.live == b.live else floor <= t.budget.live < b.live
  }

  lemma {:induction false} SlowFramesLower(b: Budget, frames: seq<Frame>, minimum: Option<real>, n: nat)
    requires n <= |frames| && Slow(b, frames, minimum) && Bounded(b) && !WindowFull(b) && Strained(b)
    requires 0.0 <= Floor(b, minimum) < b.live
    ensures Lowered(b, After(b, frames, n), Floor(b, minimum))
    decreases n
  {
    if n == 0 {
      assert frames[..0] == [];
    } else {
      SlowFramesLower(b, frames, minimum, n - 1);
      SlowRuns(b, frames, minimum);
      AllTracked(b, frames, n - 1);
      SlowWindow(b, frames, minimum, n - 1);
      AfterStep(b, frames, n - 1);
      assert SlowAt(b, frames, minimum, n - 1);
      FrameLowers(After(b, frames, n - 1).budget, frames[n - 1]);
    }
  }

  /** Exactly when overload lowers a budget above its floor: if and only if some stretch of the slow frames is undisturbed.
      Otherwise nothing is decided, and the budget stays as it is. */
  lemma OverloadLowersExactly(b: Budget, frames: seq<Frame>, minimum: Option<real>)
    requires Slow(b, frames, minimum) && Bounded(b) && !WindowFull(b) && Strained(b) && 0.0 <= Floor(b, minimum) < b.live
    ensures Draws(b, frames).budget.live < b.live <==> exists i, j :: Stretch(b, frames, i, j)
    ensures Draws(b, frames).budget.live <= b.live
    ensures Draws(b, frames).budget.live == b.live <==> Draws(b, frames).decisions == 0
  {
    assert frames[..|frames|] == frames;
    SlowRuns(b, frames, minimum);
    SlowFramesLower(b, frames, minimum, |frames|);
    if Draws(b, frames).decisions > 0 {
      var s := DecisionsAre(b, frames, |frames|);
      assert Stretch(b, frames, s[0].0, s[0].1);
    }
    forall i, j | Stretch(b, frames, i, j) ensures Draws(b, frames).decisions > 0 {
      StretchDecides(b, frames, i, j);
      DecisionsGrow(b, frames, j, |frames|);
    }
  }

  // ---------- down to the floor ----------

  /** How many of the decisions are known to be about slow frames only: a window that had begun before may not be. */
  function Sure(b: Budget, decisions: nat): nat {
    if Strained(b) then decisions else if decisions == 0 then 0 else decisions - 1
  }

  function Top(b: Budget): real { if Strained(b) then b.live else b.target }

  /** Under its ceiling, and with no probe to take back once an overloaded window has been seen. */
  predicate Sinking(b: Budget, t: Tally, floor: real) {
    && Bounded(t.budget) && t.budget.target == b.target && t.budget.live <= Ceiling(Top(b), floor, Sure(b, t.decisions))
    && (Sure(b, t.decisions) > 0 ==> t.budget.probeBase == None || t.budget.live == floor)
  }

  lemma DecisionSinks(b: Budget, c: Budget, decisions: nat, w: Window)
    requires b.target >= 0.0 && Bounded(b) && Sinking(b, Tally(c, decisions), w.floor) && Fits(c, w) && w.floor >= 0.0
    requires Strained(b) || decisions > 0 ==> w.frameMs > 45.0
    ensures Sinking(b, Tally(Decide(c, w), decisions + 1), w.floor)
  {
    DecideBounded(c, w);
    DecideResets(c, w);
    if Strained(b) || decisions > 0 { StepDown(Top(b), c, w, Sure(b, decisions)); }
  }

  /** Raising the budget to its floor does not take it over its ceiling. */
  lemma RaiseSinks(b: Budget, t: Tally, f: Frame, gap: real)
    requires Sinking(b, t, Floor(b, f.minimum)) && gap > 0.0
    ensures var d := Count(Raise(t.budget, f).(lastFrame := f.time), gap);
            Sinking(b, Tally(d, t.decisions), Floor(b, f.minimum)) && d.live >= Floor(b, f.minimum)
  {
    CountBounded(t.budget, f, gap);
  }

  lemma FrameSinks(b: Budget, t: Tally, f: Frame, floor: real)
    requires Bounded(b) && b.target >= 0.0 && Sinking(b, t, floor) && floor == Floor(b, f.minimum) && f.active && f.time.Some?
    requires t.budget.lastFrame.Some? ==> f.time.value > t.budget.lastFrame.value
    requires Completes(t.budget, f) && (Strained(b) || t.decisions > 0) ==> WindowOf(Counted(t.budget, f), f).frameMs > 45.0
    ensures Sinking(b, Tallied(t, f), floor) && Tallied(t, f).budget.live >= floor
  {
    var c := t.budget;
    if c.lastFrame == None {
      SampleBounded(c, f);
    } else {
      RaiseSinks(b, t, f, f.time.value - c.lastFrame.value);
      var d := Counted(c, f);
      if Completes(c, f) {
        WindowFits(d, f);
        DecisionSinks(b, d, t.decisions, WindowOf(d, f));
        DecideBounded(d, WindowOf(d, f));
        assert Tallied(t, f) == Tally(Decide(d, WindowOf(d, f)), t.decisions + 1);
      } else {
        assert Tallied(t, f) == Tally(d, t.decisions);
      }
    }
  }

  /** A window is opened after the decisions so far. */
  lemma {:induction false} OpenedLater(b: Budget, frames: seq<Frame>, n: nat)
    requires n <= |frames| && After(b, frames, n).decisions > 0
    ensures Opened(b, frames, n) > 0
    decreases n
  {
    if n == 0 {
      assert false;
    } else {
      AfterStep(b, frames, n - 1);
      if After(b, frames, n - 1).decisions > 0 { OpenedLater(b, frames, n - 1); }
    }
  }

  lemma SlowFrameSinks(b: Budget, frames: seq<Frame>, minimum: Option<real>, n: nat)
    requires n < |frames| && Slow(b, frames, minimum) && Bounded(b) && b.target >= 0.0 && !WindowFull(b)
    requires Sinking(b, After(b, frames, n), Floor(b, minimum))
    ensures Sinking(b, After(b, frames, n + 1), Floor(b, minimum)) && After(b, frames, n + 1).budget.live >= Floor(b, minimum)
  {
    SlowRuns(b, frames, minimum);
    AllTracked(b, frames, n);
    var t := After(b, frames, n);
    if t.decisions > 0 { OpenedLater(b, frames, n); }
    if Strained(b) || t.decisions > 0 { SlowWindow(b, frames, minimum, n); }
    AfterStep(b, frames, n);
    assert SlowAt(b, frames, minimum, n);
    FrameSinks(b, t, frames[n], Floor(b, minimum));
  }

  lemma {:induction false} SlowFramesSink(b: Budget, frames: seq<Frame>, minimum: Option<real>, n: nat)
    requires n <= |frames| && Slow(b, frames, minimum) && Bounded(b) && b.target >= 0.0 && !WindowFull(b)
    ensures Sinking(b, After(b, frames, n), Floor(b, minimum))
    ensures n > 0 ==> After(b, frames, n).budget.live >= Floor(b, minimum)
    decreases n
  {
    if n == 0 {
      assert frames[..0] == [];
    } else {
      SlowFramesSink(b, frames, minimum, n - 1);
      SlowFrameSinks(b, frames, minimum, n - 1);
    }
  }

  lemma DecisionsReach(b: Budget, frames: seq<Frame>, minimum: Option<real>, m: nat)
    requires Slow(b, frames, minimum) && Bounded(b) && b.target >= 0.0 && !WindowFull(b)
    requires Draws(b, frames).decisions >= m + if Strained(b) then 1 else 2
    ensures Floor(b, minimum) <= Draws(b, frames).budget.live <= Max(Floor(b, minimum), Rung(Top(b), m))
  {
    assert frames[..|frames|] == frames;
    SlowFramesSink(b, frames, minimum, |frames|);
    RungDown(Top(b), m, Sure(b, Draws(b, frames).decisions) - 1);
  }

  /** Sustained overload, from any state and with frames of any length above 45 ms: m + 1 stretches that do not overlap leave
      the budget at the floor or at most at (3/4)^m of where it was; one more is needed, and the target is what counts, if
      the window had begun with frames that were not slow. */
  lemma OverloadReachesFloor(b: Budget, frames: seq<Frame>, minimum: Option<real>, s: seq<(nat, nat)>, m: nat)
    requires Slow(b, frames, minimum) && Bounded(b) && b.target >= 0.0 && !WindowFull(b)
    requires Stretches(b, frames, s) && |s| == m + if Strained(b) then 1 else 2
    ensures Floor(b, minimum) <= Draws(b, frames).budget.live <= Max(Floor(b, minimum), Rung(Top(b), m))
  {
    SlowRuns(b, frames, minimum);
    DecisionsExactly(b, frames, |s|);
    DecisionsReach(b, frames, minimum, m);
  }

  // ---------- how many frames it takes ----------

  /** How many pauses begin among the first `n` frames. */
  function Pauses(b: Budget, frames: seq<Frame>, n: nat): nat
    requires n <= |frames|
  {
    if n == 0 then 0 else Pauses(b, frames, n - 1) + if Stalls(b, frames, n - 1) then 1 else 0
  }

  lemma {:induction false} FramesAre(b: Budget, frames: seq<Frame>, i: nat, j: nat)
    requires i <= j <= |frames| && forall k :: 0 <= k < |frames| ==> frames[k].time.Some?
    ensures Frames(b, frames, i, j) >= j - i - if i == 0 && b.lastFrame == None then 1 else 0
    ensures j > 0 && i == 0 && b.lastFrame == None ==> Frames(b, frames, i, j) == j - 1 + b.samples
    decreases j
  {
    if i < j { FramesAre(b, frames, i, j - 1); }
  }

  /** 23 slow frames in which no pause begins are a stretch; a frame that only sets the clock does not count. */
  lemma SlowStretch(b: Budget, frames: seq<Frame>, minimum: Option<real>, i: nat, j: nat)
    requires Slow(b, frames, minimum) && b.elapsed >= 0.0 && i <= j <= |frames| && Undisturbed(b, frames, i, j)
    requires j - i >= 23 + if i == 0 && b.lastFrame == None then 1 else 0
    ensures Stretch(b, frames, i, j)
  {
    forall k | 0 <= k < |frames| ensures frames[k].time.Some? { assert SlowAt(b, frames, minimum, k); }
    FramesAre(b, frames, i, j);
    SlowTime(b, frames, minimum, i, j);
  }

  lemma {:induction false} SlowTime(b: Budget, frames: seq<Frame>, minimum: Option<real>, i: nat, j: nat)
    requires Slow(b, frames, minimum) && b.elapsed >= 0.0 && i <= j <= |frames|
    ensures Spent(b, frames, i, j) >= 45.0 * (j - i - if i == 0 < j && b.lastFrame == None then 1 else 0) as real
    decreases j
  {
    if i < j {
      SlowTime(b, frames, minimum, i, j - 1);
      assert SlowAt(b, frames, minimum, j - 1);
      if j > 1 { assert SlowAt(b, frames, minimum, j - 2); }
    }
  }

  /** So a window is never open for more than 22 frames, and frames can only be many if decisions or pauses are. */
  lemma {:induction false} FramesAddUp(b: Budget, frames: seq<Frame>, minimum: Option<real>, n: nat)
    requires n <= |frames| && Slow(b, frames, minimum) && !WindowFull(b) && b.elapsed >= 0.0
    ensures Opened(b, frames, n) <= 23 * (After(b, frames, n).decisions + Pauses(b, frames, n)) + if b.lastFrame == None then 1 else 0
    ensures n - Opened(b, frames, n) <= 22 + if Opened(b, frames, n) == 0 && b.lastFrame == None then 1 else 0
    decreases n
  {
    if n == 0 {
      assert frames[..0] == [];
    } else {
      FramesAddUp(b, frames, minimum, n - 1);
      AfterStep(b, frames, n - 1);
    }
    SlowRuns(b, frames, minimum);
    AllTracked(b, frames, n);
    var i := Opened(b, frames, n);
    if n - i >= 23 + if i == 0 && b.lastFrame == None then 1 else 0 { SlowStretch(b, frames, minimum, i, n); }
  }

  /** Logarithmically many frames bring the floor, and 23 more for each pause among them. */
  lemma SlowFramesReachFloor(b: Budget, frames: seq<Frame>, minimum: Option<real>, m: nat)
    requires Slow(b, frames, minimum) && Bounded(b) && b.target >= 0.0 && !WindowFull(b)
    requires |frames| >= 23 * (m + (if Strained(b) then 1 else 2) + Pauses(b, frames, |frames|)) + 1
    ensures Floor(b, minimum) <= Draws(b, frames).budget.live <= Max(Floor(b, minimum), Rung(Top(b), m))
  {
    assert frames[..|frames|] == frames;
    FramesAddUp(b, frames, minimum, |frames|);
    DecisionsReach(b, frames, minimum, m);
  }

  // ---------- what hides overload ----------

  /** Every other frame takes longer than a second. */
  predicate Alternate(b: Budget, frames: seq<Frame>) {
    b.lastFrame.Some? && b.longFrames == 0 && forall k :: 0 <= k < |frames| ==> (Gap(b, frames, k) > 1000.0 <==> k % 2 == 0)
  }

  /** Then no stretch is undisturbed, so no decision is ever made, however slow the frames are. */
  lemma StutterHidesOverload(b: Budget, frames: seq<Frame>, minimum: Option<real>)
    requires Slow(b, frames, minimum) && Bounded(b) && !WindowFull(b) && Strained(b) && 0.0 <= Floor(b, minimum) < b.live
    requires Alternate(b, frames)
    ensures Draws(b, frames).decisions == 0 && Draws(b, frames).budget.live == b.live
  {
    SlowRuns(b, frames, minimum);
    forall i, j ensures !Stretch(b, frames, i, j) { NoStretch(b, frames, i, j); }
    OverloadLowersExactly(b, frames, minimum);
  }

  lemma NoStretch(b: Budget, frames: seq<Frame>, i: nat, j: nat)
    requires Running(b, frames) && Alternate(b, frames) && !WindowFull(b)
    ensures !Stretch(b, frames, i, j)
  {
    var k := if i % 2 == 0 then i else i + 1;
    if j <= k && i < j <= |frames| { assert j == i + 1 && Frames(b, frames, i, i) == 0; }
    if k < j <= |frames| {
      if k > 0 { assert RunningAt(b, frames, k - 1) && !LongBefore(b, frames, k); }
      if k > 1 { assert RunningAt(b, frames, k - 2); }
      assert Stalls(b, frames, k);
    }
  }

  /** The `k`-th frame of 1200 ms for two, the first of them taking 1100. */
  function Stutter(k: nat): Frame {
    Frame(Some((k / 2 * 1200 + if k % 2 == 0 then 1100 else 1200) as real), true, None, 0.0, None)
  }

  /** For instance: a fresh controller asked for a million points that has seen its first frame, and then ten frames in six
      seconds, or any other number of them. Nothing is ever decided. */
  lemma StutterExample(n: nat)
    ensures var b := Sample(Start(1000000.0), Frame(Some(0.0), true, None, 0.0, None));
            var frames := seq(n, k requires 0 <= k < n => Stutter(k));
            Slow(b, frames, None) && Draws(b, frames).decisions == 0 && Draws(b, frames).budget.live == 1000000.0
  {
    var b := Sample(Start(1000000.0), Frame(Some(0.0), true, None, 0.0, None));
    var frames := seq(n, k requires 0 <= k < n => Stutter(k));
    forall k | 0 <= k < n ensures Gap(b, frames, k) == if k % 2 == 0 then 1100.0 else 100.0 { StutterGap(b, frames, k); }
    forall k | 0 <= k < n ensures SlowAt(b, frames, None, k) { assert frames[k] == Stutter(k); }
    StutterHidesOverload(b, frames, None);
  }

  lemma StutterGap(b: Budget, frames: seq<Frame>, k: nat)
    requires k < |frames| && b.lastFrame == Some(0.0) && forall i :: 0 <= i < |frames| ==> frames[i] == Stutter(i)
    ensures Gap(b, frames, k) == if k % 2 == 0 then 1100.0 else 100.0
  {
  }

  function At(ms: real): Frame { Frame(Some(ms), true, None, 0.0, None) }

  /** The same with the frames written out: ten of them, the first eight of which take more than four seconds. */
  lemma StutterWrittenOut()
    ensures var b := Sample(Start(1000000.0), At(0.0));
            var frames := [At(1100.0), At(1200.0), At(2300.0), At(2400.0), At(3500.0), At(3600.0), At(4700.0), At(4800.0), At(5900.0), At(6000.0)];
            Draws(b, frames).decisions == 0 && Draws(b, frames).budget.live == 1000000.0
  {
    var frames := [At(1100.0), At(1200.0), At(2300.0), At(2400.0), At(3500.0), At(3600.0), At(4700.0), At(4800.0), At(5900.0), At(6000.0)];
    assert frames == seq(10, k requires 0 <= k < 10 => Stutter(k));
    StutterExample(10);
  }
}
