/** The fixed-window rate limiter, and what it guarantees for windows that slide. */
module RateLimiter {
  import opened Wrappers

  const CLEANUP_AGE := 10 * 60 * 1000
  const CLEANUP_INTERVAL := 5 * 60 * 1000

  /** A limiter's parameters, fixed for a key. */
  datatype Policy = Policy(max: int, windowMs: int)

  datatype Window = Window(start: int, count: nat)

  /** The window after a call, and whether the call is refused. */
  function Called(entry: Option<Window>, p: Policy, now: int): (Window, bool) {
    if entry == None || now - entry.value.start > p.windowMs then (Window(now, 1), false)
    else (entry.value.(count := entry.value.count + 1), entry.value.count + 1 > p.max)
  }

  predicate Forgotten(w: Window, now: int) {
    now - w.start > CLEANUP_AGE
  }

  /** What a cleanup leaves. */
  function Remembered(windows: map<string, Window>, now: int): map<string, Window> {
    windows - set k | k in windows && Forgotten(windows[k], now)
  }

  function Entry(windows: map<string, Window>, key: string): Option<Window> {
    if key in windows then Some(windows[key]) else None
  }

  class Limiter {
    var windows: map<string, Window>

    constructor ()
      ensures windows == map[]
    {
      windows := map[];
    }

    method RateLimited(key: string, max: int, windowMs: int, now: int) returns (limited: bool)
      modifies this
      ensures key in windows && (windows[key], limited) == Called(Entry(old(windows), key), Policy(max, windowMs), now)
      ensures windows == old(windows)[key := windows[key]]
    {
      if key !in windows || now - windows[key].start > windowMs {
        windows := windows[key := Window(now, 1)];
        return false;
      }
      var entry := windows[key];
      windows := windows[key := entry.(count := entry.count + 1)];
      limited := windows[key].count > max;
    }

    method Cleanup(now: int)
      modifies this
      ensures windows == Remembered(old(windows), now)
    {
      var rest := windows.Keys;
      while rest != {}
        invariant rest <= old(windows).Keys && windows.Keys <= old(windows).Keys
        invariant forall k :: k in old(windows) ==>
                    (k in windows <==> k in rest || !Forgotten(old(windows)[k], now)) && (k in windows ==> windows[k] == old(windows)[k])
        decreases |rest|
      {
        var k :| k in rest;
        rest := rest - {k};
        if k in windows && now - windows[k].start > CLEANUP_AGE { windows := windows - {k}; }
      }
      assert windows == Remembered(old(windows), now);
    }
  }

  // ---------- runs ----------

  datatype Event = Call(key: string, at: int) | Clean(at: int)

  /** An unrestricted call, and the number of the window it was counted in. */
  datatype Pass = Pass(at: int, window: nat)

  /** One key's history: `starts` are its windows, `passes` its unrestricted calls. */
  datatype History = History(windows: map<string, Window>, starts: seq<int>, passes: seq<Pass>)

  /** What a call of the key makes of its history, given the window it is counted in. */
  function Counted(h: History, now: int, w: Window, limited: bool): (seq<int>, seq<Pass>) {
    var starts := if w.count == 1 then h.starts + [now] else h.starts;
    (starts, if limited || starts == [] then h.passes else h.passes + [Pass(now, |starts| - 1)])
  }

  /** The history after a call of the key. */
  function AfterCall(h: History, key: string, p: Policy, now: int): History {
    var (w, limited) := Called(Entry(h.windows, key), p, now);
    var (starts, passes) := Counted(h, now, w, limited);
    History(h.windows[key := w], starts, passes)
  }

  function Next(h: History, e: Event, key: string, policy: string -> Policy): History {
    match e
    case Clean(now) => h.(windows := Remembered(h.windows, now))
    case Call(k, now) =>
      if k == key then AfterCall(h, k, policy(k), now)
      else h.(windows := h.windows[k := Called(Entry(h.windows, k), policy(k), now).0])
  }

  function Run(events: seq<Event>, key: string, policy: string -> Policy): History
    decreases |events|
  {
    if events == [] then History(map[], [], [])
    else Next(Run(events[..|events| - 1], key, policy), events[|events| - 1], key, policy)
  }

  predicate Forward(events: seq<Event>) {
    forall i, j :: 0 <= i < j < |events| ==> events[i].at <= events[j].at
  }

  /** When the cleanup last ran, or when its timer was set. */
  function LastClean(events: seq<Event>, began: int): int {
    if events == [] then began
    else if events[|events| - 1].Clean? then events[|events| - 1].at
    else LastClean(events[..|events| - 1], began)
  }

  /** The cleanup runs every five minutes, at most `late` milliseconds late. */
  predicate Ticking(events: seq<Event>, began: int, late: nat) {
    events == [] ||
    (var init, e := events[..|events| - 1], events[|events| - 1];
     var last := LastClean(init, began);
     && Ticking(init, began, late) && e.at <= last + CLEANUP_INTERVAL + late
     && (if e.Clean? then last + CLEANUP_INTERVAL <= e.at else last <= e.at))
  }

  // ---------- counting ----------

  function InWindow(passes: seq<Pass>, w: int): nat {
    if passes == [] then 0 else InWindow(passes[..|passes| - 1], w) + if passes[|passes| - 1].window == w then 1 else 0
  }

  /** How many unrestricted calls there were from `from` to `to`. */
  function Between(passes: seq<Pass>, from: int, to: int): nat {
    if passes == [] then 0
    else Between(passes[..|passes| - 1], from, to) + if from <= passes[|passes| - 1].at <= to then 1 else 0
  }

  lemma {:induction false} BetweenInWindows(passes: seq<Pass>, from: int, to: int, w: int)
    requires forall i :: 0 <= i < |passes| && from <= passes[i].at <= to ==> passes[i].window == w || passes[i].window == w + 1
    ensures Between(passes, from, to) <= InWindow(passes, w) + InWindow(passes, w + 1)
    decreases |passes|
  {
    if passes != [] {
      var init := passes[..|passes| - 1];
      assert forall i :: 0 <= i < |init| ==> init[i] == passes[i];
      BetweenInWindows(init, from, to, w);
    }
  }

  lemma InWindowAdd(passes: seq<Pass>, p: Pass, w: int)
    ensures InWindow(passes + [p], w) == InWindow(passes, w) + if p.window == w then 1 else 0
  {
    assert (passes + [p])[..|passes|] == passes;
  }

  // ---------- what every event keeps ----------

  /** Windows follow one another at a distance, and every unrestricted call lies in its own. */
  predicate Spaced(starts: seq<int>, windowMs: int) {
    forall i, j :: 0 <= i < j < |starts| ==> starts[j] > starts[i] + windowMs
  }

  predicate Placed(p: Pass, starts: seq<int>, windowMs: int) {
    && p.window < |starts| && starts[p.window] <= p.at <= starts[p.window] + windowMs
    && forall j :: p.window < j < |starts| ==> p.at <= starts[j]
  }

  /** The entry of the key, as far as it is still there, is its last window; it may be gone only when it is over. */
  predicate Latest(h: History, key: string, p: Policy, now: int) {
    match Entry(h.windows, key)
    case Some(w) => h.starts != [] && h.starts[|h.starts| - 1] == w.start && w.count >= 1
                    && InWindow(h.passes, |h.starts| - 1) == (if w.count <= p.max then w.count else p.max)
    case None => h.starts != [] ==> now > h.starts[|h.starts| - 1] + p.windowMs
  }

  predicate AllPlaced(passes: seq<Pass>, starts: seq<int>, windowMs: int, now: int) {
    forall i :: 0 <= i < |passes| ==> Placed(passes[i], starts, windowMs) && passes[i].at <= now
  }

  ghost predicate AllCounted(passes: seq<Pass>, max: int) {
    forall w: nat :: InWindow(passes, w) <= max
  }

  predicate AllBy(starts: seq<int>, now: int) {
    forall j :: 0 <= j < |starts| ==> starts[j] <= now
  }

  ghost predicate Inv(h: History, key: string, p: Policy, now: int) {
    && Spaced(h.starts, p.windowMs) && Latest(h, key, p, now) && AllBy(h.starts, now)
    && AllPlaced(h.passes, h.starts, p.windowMs, now) && AllCounted(h.passes, p.max)
  }

  lemma {:induction false} NotYetUsed(passes: seq<Pass>, w: nat)
    requires forall i :: 0 <= i < |passes| ==> passes[i].window != w
    ensures InWindow(passes, w) == 0
    decreases |passes|
  {
    if passes != [] {
      assert forall i :: 0 <= i < |passes| - 1 ==> passes[..|passes| - 1][i] == passes[i];
      NotYetUsed(passes[..|passes| - 1], w);
    }
  }

  lemma SpacedAdd(starts: seq<int>, windowMs: int, now: int)
    requires Spaced(starts, windowMs) && 0 <= windowMs && (starts != [] ==> now > starts[|starts| - 1] + windowMs)
    ensures Spaced(starts + [now], windowMs)
  {
    if starts != [] {
      forall i | 0 <= i < |starts| - 1 ensures starts[i] + windowMs < starts[|starts| - 1] {
        FarApart(starts, windowMs, i, |starts| - 1);
      }
    }
  }

  /** The window a call is counted in: the latest one, or a new one after it. */
  lemma CallWindow(h: History, key: string, p: Policy, last: int, now: int)
    requires Latest(h, key, p, last) && AllBy(h.starts, last) && last <= now && 0 <= p.windowMs
    ensures var (w, _) := Called(Entry(h.windows, key), p, now);
            if w.count == 1 then w.start == now && (h.starts != [] ==> now > h.starts[|h.starts| - 1] + p.windowMs)
            else h.starts != [] && w.start == h.starts[|h.starts| - 1] <= now <= w.start + p.windowMs
  {
  }

  /** One more pass in a window that has room for it. */
  lemma PassCounts(passes: seq<Pass>, p: Pass, max: int)
    requires AllCounted(passes, max) && InWindow(passes, p.window) < max
    ensures AllCounted(passes + [p], max) && InWindow(passes + [p], p.window) == InWindow(passes, p.window) + 1
  {
    forall v: nat ensures InWindow(passes + [p], v) == InWindow(passes, v) + if v == p.window then 1 else 0 { InWindowAdd(passes, p, v); }
  }

  lemma CallCounts(h: History, key: string, p: Policy, last: int, now: int)
    requires Latest(h, key, p, last) && AllCounted(h.passes, p.max) && 1 <= p.max
    requires AllPlaced(h.passes, h.starts, p.windowMs, last)
    ensures var (w, limited) := Called(Entry(h.windows, key), p, now);
            var (starts, passes) := Counted(h, now, w, limited);
            && AllCounted(passes, p.max)
            && (starts != [] ==> InWindow(passes, |starts| - 1) == if w.count <= p.max then w.count else p.max)
  {
    var (w, limited) := Called(Entry(h.windows, key), p, now);
    if w.count == 1 {
      NotYetUsed(h.passes, |h.starts|);
      PassCounts(h.passes, Pass(now, |h.starts|), p.max);
    } else if !limited {
      PassCounts(h.passes, Pass(now, |h.starts| - 1), p.max);
    }
  }

  lemma PlacedAdd(passes: seq<Pass>, starts: seq<int>, windowMs: int, last: int, now: int)
    requires AllPlaced(passes, starts, windowMs, last) && last <= now
    ensures AllPlaced(passes, starts + [now], windowMs, now)
  {
    forall i | 0 <= i < |passes| ensures Placed(passes[i], starts + [now], windowMs) { assert Placed(passes[i], starts, windowMs); }
  }

  lemma PassAdd(passes: seq<Pass>, starts: seq<int>, windowMs: int, now: int)
    requires AllPlaced(passes, starts, windowMs, now) && starts != [] && starts[|starts| - 1] <= now <= starts[|starts| - 1] + windowMs
    ensures AllPlaced(passes + [Pass(now, |starts| - 1)], starts, windowMs, now)
  {
  }

  lemma PlacedLater(passes: seq<Pass>, starts: seq<int>, windowMs: int, last: int, now: int)
    requires AllPlaced(passes, starts, windowMs, last) && last <= now
    ensures AllPlaced(passes, starts, windowMs, now)
  {
  }

  lemma CallStarts(h: History, key: string, p: Policy, last: int, now: int)
    requires Spaced(h.starts, p.windowMs) && Latest(h, key, p, last) && AllBy(h.starts, last) && last <= now && 0 <= p.windowMs
    ensures var (w, limited) := Called(Entry(h.windows, key), p, now);
            var starts := Counted(h, now, w, limited).0;
            && Spaced(starts, p.windowMs) && AllBy(starts, now)
            && starts != [] && starts[|starts| - 1] == w.start <= now <= w.start + p.windowMs
  {
    CallWindow(h, key, p, last, now);
    if Called(Entry(h.windows, key), p, now).0.count == 1 { SpacedAdd(h.starts, p.windowMs, now); }
  }

  lemma StartsAfterCall(h: History, key: string, p: Policy, last: int, now: int)
    requires Spaced(h.starts, p.windowMs) && Latest(h, key, p, last) && AllBy(h.starts, last) && last <= now && 0 <= p.windowMs
    ensures Spaced(AfterCall(h, key, p, now).starts, p.windowMs) && AllBy(AfterCall(h, key, p, now).starts, now)
  {
    CallStarts(h, key, p, last, now);
  }

  /** `t` is the history after a call that is counted in its last window, which is not over. */
  predicate Lands(h: History, t: History, now: int, windowMs: int) {
    && (t.starts == h.starts || t.starts == h.starts + [now])
    && t.starts != [] && t.starts[|t.starts| - 1] <= now <= t.starts[|t.starts| - 1] + windowMs
    && (t.passes == h.passes || t.passes == h.passes + [Pass(now, |t.starts| - 1)])
  }

  lemma LandsPlaced(h: History, t: History, now: int, windowMs: int, last: int)
    requires AllPlaced(h.passes, h.starts, windowMs, last) && last <= now && Lands(h, t, now, windowMs)
    ensures AllPlaced(t.passes, t.starts, windowMs, now)
  {
    if t.starts == h.starts { PlacedLater(h.passes, h.starts, windowMs, last, now); } else { PlacedAdd(h.passes, h.starts, windowMs, last, now); }
    PassAdd(h.passes, t.starts, windowMs, now);
  }

  lemma CallLands(h: History, key: string, p: Policy, last: int, now: int)
    requires Spaced(h.starts, p.windowMs) && Latest(h, key, p, last) && AllBy(h.starts, last) && last <= now && 0 <= p.windowMs
    ensures Lands(h, AfterCall(h, key, p, now), now, p.windowMs)
  {
    CallStarts(h, key, p, last, now);
  }

  lemma LatestAfterCall(h: History, key: string, p: Policy, last: int, now: int)
    requires Spaced(h.starts, p.windowMs) && Latest(h, key, p, last) && AllBy(h.starts, last) && last <= now && 0 <= p.windowMs
    requires AllPlaced(h.passes, h.starts, p.windowMs, last) && AllCounted(h.passes, p.max) && 1 <= p.max
    ensures Latest(AfterCall(h, key, p, now), key, p, now) && AllCounted(AfterCall(h, key, p, now).passes, p.max)
  {
    CallStarts(h, key, p, last, now);
    CallCounts(h, key, p, last, now);
  }

  lemma CallKeeps(h: History, key: string, p: Policy, last: int, now: int)
    requires Inv(h, key, p, last) && last <= now && 1 <= p.max && 0 <= p.windowMs
    ensures Inv(AfterCall(h, key, p, now), key, p, now)
  {
    StartsAfterCall(h, key, p, last, now);
    CallLands(h, key, p, last, now);
    LandsPlaced(h, AfterCall(h, key, p, now), now, p.windowMs, last);
    LatestAfterCall(h, key, p, last, now);
  }

  lemma OtherKeeps(h: History, e: Event, key: string, policy: string -> Policy, last: int)
    requires Inv(h, key, policy(key), last) && last <= e.at && policy(key).windowMs <= CLEANUP_AGE
    requires e.Call? ==> e.key != key
    ensures Inv(Next(h, e, key, policy), key, policy(key), e.at)
  {
    assert Entry(Next(h, e, key, policy).windows, key) == Entry(h.windows, key)
           || (Entry(Next(h, e, key, policy).windows, key) == None && e.Clean? && key in h.windows && Forgotten(h.windows[key], e.at));
  }

  lemma {:induction false} RunKeeps(events: seq<Event>, key: string, policy: string -> Policy, now: int)
    requires Forward(events) && 1 <= policy(key).max && 0 <= policy(key).windowMs <= CLEANUP_AGE
    requires forall i :: 0 <= i < |events| ==> events[i].at <= now
    ensures Inv(Run(events, key, policy), key, policy(key), now)
    decreases |events|
  {
    if events != [] {
      var init, e := events[..|events| - 1], events[|events| - 1];
      assert forall i :: 0 <= i < |init| ==> init[i] == events[i];
      RunKeeps(init, key, policy, e.at);
      var h := Run(init, key, policy);
      if e.Call? && e.key == key { CallKeeps(h, key, policy(key), e.at, e.at); } else { OtherKeeps(h, e, key, policy, e.at); }
      Later(Next(h, e, key, policy), key, policy(key), e.at, now);
    }
  }

  lemma Later(h: History, key: string, p: Policy, last: int, now: int)
    requires Inv(h, key, p, last) && last <= now
    ensures Inv(h, key, p, now)
  {
  }

  // ---------- the sliding window ----------

  lemma FarApart(starts: seq<int>, windowMs: int, i: nat, j: nat)
    requires Spaced(starts, windowMs) && i < j < |starts|
    ensures starts[j] > starts[i] + windowMs
  {
  }

  /** Calls within a window's length of each other are counted in the same window or in two successive ones. */
  lemma TwoWindows(h: History, key: string, p: Policy, now: int, i: nat, j: nat)
    requires Inv(h, key, p, now) && i < |h.passes| && j < |h.passes|
    requires h.passes[i].window <= h.passes[j].window && h.passes[j].at <= h.passes[i].at + p.windowMs
    ensures h.passes[j].window <= h.passes[i].window + 1
  {
    assert Placed(h.passes[i], h.starts, p.windowMs) && Placed(h.passes[j], h.starts, p.windowMs);
    var v, w := h.passes[i].window, h.passes[j].window;
    if w > v + 1 { FarApart(h.starts, p.windowMs, v + 1, w); }
  }

  /** The earliest window used from `from` to `to`. */
  lemma {:induction false} FirstWindow(passes: seq<Pass>, from: int, to: int) returns (i: nat)
    requires exists k :: 0 <= k < |passes| && from <= passes[k].at <= to
    ensures i < |passes| && from <= passes[i].at <= to
    ensures forall k :: 0 <= k < |passes| && from <= passes[k].at <= to ==> passes[i].window <= passes[k].window
    decreases |passes|
  {
    var init, n := passes[..|passes| - 1], |passes| - 1;
    assert forall k :: 0 <= k < n ==> init[k] == passes[k];
    if exists k :: 0 <= k < n && from <= init[k].at <= to {
      i := FirstWindow(init, from, to);
      if from <= passes[n].at <= to && passes[n].window < passes[i].window { i := n; }
    } else {
      i := n;
    }
  }

  lemma {:induction false} NoneBetween(passes: seq<Pass>, from: int, to: int)
    requires forall k :: 0 <= k < |passes| ==> !(from <= passes[k].at <= to)
    ensures Between(passes, from, to) == 0
    decreases |passes|
  {
    if passes != [] {
      assert forall k :: 0 <= k < |passes| - 1 ==> passes[..|passes| - 1][k] == passes[k];
      NoneBetween(passes[..|passes| - 1], from, to);
    }
  }

  /** Sliding-window bound: whatever other keys do and whatever the cleanup deletes, no stretch of time of the length of
      the window contains more than twice the permitted number of unrestricted calls of a key. */
  lemma SlidingWindow(events: seq<Event>, key: string, policy: string -> Policy, from: int)
    requires Forward(events) && 1 <= policy(key).max && 0 <= policy(key).windowMs <= CLEANUP_AGE
    ensures Between(Run(events, key, policy).passes, from, from + policy(key).windowMs) <= 2 * policy(key).max
  {
    var now := if events == [] then 0 else events[|events| - 1].at;
    RunKeeps(events, key, policy, now);
    WithinBound(Run(events, key, policy), key, policy(key), now, from);
  }

  lemma WithinBound(h: History, key: string, p: Policy, now: int, from: int)
    requires Inv(h, key, p, now) && p.max >= 1
    ensures Between(h.passes, from, from + p.windowMs) <= 2 * p.max
  {
    var to := from + p.windowMs;
    if exists k :: 0 <= k < |h.passes| && from <= h.passes[k].at <= to {
      var i := FirstWindow(h.passes, from, to);
      var w := h.passes[i].window;
      forall k | 0 <= k < |h.passes| && from <= h.passes[k].at <= to ensures h.passes[k].window == w || h.passes[k].window == w + 1 {
        TwoWindows(h, key, p, now, i, k);
      }
      BetweenInWindows(h.passes, from, to, w);
      assert InWindow(h.passes, w) <= p.max && InWindow(h.passes, w + 1) <= p.max;
    } else {
      NoneBetween(h.passes, from, to);
    }
  }

  // ---------- where it ends ----------

  /** When the bound holds whatever the calls and the cleanups are. Windows longer than the cleanup age are cut short by
      it; only with one call per window does that leave some slack. */
  predicate Safe(p: Policy) {
    p.max >= 1 && (p.windowMs <= CLEANUP_AGE || (p.max == 1 && p.windowMs <= 2 * CLEANUP_AGE + 1))
  }

  predicate Bounded(events: seq<Event>, key: string, policy: string -> Policy, from: int) {
    Between(Run(events, key, policy).passes, from, from + policy(key).windowMs) <= 2 * policy(key).max
  }

  ghost predicate AlwaysBounded(key: string, policy: string -> Policy, late: nat) {
    forall events, began, from :: Forward(events) && Ticking(events, began, late) ==> Bounded(events, key, policy, from)
  }

  /** The bound holds for all histories in which the cleanup runs every five minutes, at most `late` milliseconds late,
      exactly if the policy is safe. A timer that is late by a single millisecond is enough to make the others leak. */
  lemma ExactBound(key: string, policy: string -> Policy, late: nat)
    requires 0 <= policy(key).windowMs && late >= 1
    ensures AlwaysBounded(key, policy, late) <==> Safe(policy(key))
  {
    var p := policy(key);
    if Safe(p) {
      forall events, began: int, from | Forward(events) && Ticking(events, began, late) ensures Bounded(events, key, policy, from) {
        if p.windowMs <= CLEANUP_AGE { SlidingWindow(events, key, policy, from); } else { SingleBound(events, key, policy, from); }
      }
    } else {
      var events, from;
      if p.max < 1 { events, from := OneAlwaysPasses(key, policy); } else { events, from := Leak(key, policy); }
      Exceeds(events, key, policy, late, from);
    }
  }

  /** One history that exceeds the bound, with the cleanup at most a millisecond late. */
  lemma Exceeds(events: seq<Event>, key: string, policy: string -> Policy, late: nat, from: int)
    requires Forward(events) && Ticking(events, 0, 1) && late >= 1 && !Bounded(events, key, policy, from)
    ensures !AlwaysBounded(key, policy, late)
  {
    PunctualEnough(events, 0, late);
  }

  lemma {:induction false} PunctualEnough(events: seq<Event>, began: int, late: nat)
    requires Ticking(events, began, 1) && late >= 1
    ensures Ticking(events, began, late)
    decreases |events|
  {
    if events != [] { PunctualEnough(events[..|events| - 1], began, late); }
  }

  lemma Snoc(events: seq<Event>, e: Event, key: string, policy: string -> Policy)
    ensures Run(events + [e], key, policy) == Next(Run(events, key, policy), e, key, policy)
  {
    assert (events + [e])[..|events|] == events;
  }

  /** The first call of a window is never refused, however few are permitted. */
  lemma OneAlwaysPasses(key: string, policy: string -> Policy) returns (events: seq<Event>, from: int)
    requires 0 <= policy(key).windowMs && policy(key).max < 1
    ensures Forward(events) && Ticking(events, 0, 1) && !Bounded(events, key, policy, from)
  {
    events, from := [Call(key, 0)], 0;
    assert events[..0] == [];
    Snoc([], Call(key, 0), key, policy);
    assert [] + [Call(key, 0)] == events;
    var passes := Run(events, key, policy).passes;
    assert passes == [Pass(0, 0)] && passes[..0] == [];
  }

  // ---------- one call per window ----------

  /** Passes are further apart than the cleanup age. */
  predicate Sparse(passes: seq<Pass>) {
    forall i, j :: 0 <= i < j < |passes| ==> passes[j].at > passes[i].at + CLEANUP_AGE
  }

  /** With one call per window every pass begins one, and the entry of the last stays until it is over or old. */
  predicate Single(h: History, key: string, now: int) {
    && Sparse(h.passes) && (forall i :: 0 <= i < |h.passes| ==> h.passes[i].at <= now)
    && match Entry(h.windows, key)
       case Some(w) => w.count >= 1 && h.passes != [] && h.passes[|h.passes| - 1].at == w.start
       case None => h.passes != [] ==> now > h.passes[|h.passes| - 1].at + CLEANUP_AGE
  }

  lemma SparseAdd(passes: seq<Pass>, p: Pass)
    requires Sparse(passes) && (passes != [] ==> p.at > passes[|passes| - 1].at + CLEANUP_AGE)
    ensures Sparse(passes + [p])
  {
    var last := |passes| - 1;
    forall i, j | 0 <= i < j < |passes + [p]| ensures (passes + [p])[j].at > (passes + [p])[i].at + CLEANUP_AGE {
      if j == |passes| && i < last { assert passes[last].at > passes[i].at + CLEANUP_AGE; }
    }
  }

  lemma SingleCall(h: History, key: string, p: Policy, last: int, now: int)
    requires Single(h, key, last) && last <= now && p.max == 1 && p.windowMs > CLEANUP_AGE
    ensures Single(AfterCall(h, key, p, now), key, now)
  {
    var (w, limited) := Called(Entry(h.windows, key), p, now);
    if !limited { SparseAdd(h.passes, Pass(now, |h.starts|)); }
  }

  lemma {:induction false} SingleRun(events: seq<Event>, key: string, policy: string -> Policy, now: int)
    requires Forward(events) && policy(key).max == 1 && policy(key).windowMs > CLEANUP_AGE
    requires forall i :: 0 <= i < |events| ==> events[i].at <= now
    ensures Single(Run(events, key, policy), key, now)
    decreases |events|
  {
    if events != [] {
      var init, e := events[..|events| - 1], events[|events| - 1];
      assert forall i :: 0 <= i < |init| ==> init[i] == events[i];
      SingleRun(init, key, policy, e.at);
      var h := Run(init, key, policy);
      if e.Call? && e.key == key { SingleCall(h, key, policy(key), e.at, e.at); }
    }
  }

  /** Of passes that are far apart, few lie in a short stretch. */
  lemma {:induction false} FewBetween(passes: seq<Pass>, from: int, to: int)
    requires Sparse(passes) && to <= from + 2 * CLEANUP_AGE + 1
    ensures Between(passes, from, to) <= 2
    ensures passes != [] && passes[|passes| - 1].at <= from + CLEANUP_AGE ==> Between(passes, from, to) <= 1
    ensures passes != [] && passes[|passes| - 1].at < from ==> Between(passes, from, to) == 0
    decreases |passes|
  {
    if passes != [] {
      var init, n := passes[..|passes| - 1], |passes| - 1;
      assert forall i :: 0 <= i < n ==> init[i] == passes[i];
      if n > 0 { assert passes[n].at > passes[n - 1].at + CLEANUP_AGE && init[|init| - 1] == passes[n - 1]; }
      FewBetween(init, from, to);
    }
  }

  lemma SingleBound(events: seq<Event>, key: string, policy: string -> Policy, from: int)
    requires Forward(events) && policy(key).max == 1 && CLEANUP_AGE < policy(key).windowMs <= 2 * CLEANUP_AGE + 1
    ensures Bounded(events, key, policy, from)
  {
    SingleRun(events, key, policy, if events == [] then 0 else events[|events| - 1].at);
    FewBetween(Run(events, key, policy).passes, from, from + policy(key).windowMs);
  }

  // ---------- longer windows leak ----------

  /** In order, not after `now`, and with the last cleanup at `tick`. */
  predicate OnTime(events: seq<Event>, now: int, tick: int) {
    && Forward(events) && (forall i :: 0 <= i < |events| ==> events[i].at <= now)
    && Ticking(events, 0, 1) && LastClean(events, 0) == tick <= now
  }

  lemma OneLater(events: seq<Event>, e: Event, last: int, tick: int)
    requires OnTime(events, last, tick) && last <= e.at <= tick + CLEANUP_INTERVAL + 1
    requires e.Clean? ==> tick + CLEANUP_INTERVAL <= e.at
    ensures OnTime(events + [e], e.at, if e.Clean? then e.at else tick)
  {
    assert (events + [e])[..|events|] == events;
  }

  /** Only this key is on record, as `entry`; `passed` counts its passes between two times. */
  predicate Stands(h: History, key: string, entry: Option<Window>, from: int, to: int, passed: int) {
    && h.windows == (match entry case None => map[] case Some(w) => map[key := w])
    && (entry.Some? ==> h.starts != []) && Between(h.passes, from, to) == passed
  }

  predicate Leads(events: seq<Event>, key: string, policy: string -> Policy, entry: Option<Window>, now: int, tick: int,
                  from: int, to: int, passed: int)
  {
    OnTime(events, now, tick) && Stands(Run(events, key, policy), key, entry, from, to, passed)
  }

  function Weight(now: int, from: int, to: int): int { if from <= now <= to then 1 else 0 }

  lemma OneMore(passes: seq<Pass>, p: Pass, from: int, to: int)
    ensures Between(passes + [p], from, to) == Between(passes, from, to) + Weight(p.at, from, to)
  {
    assert (passes + [p])[..|passes|] == passes;
  }

  /** The entry after a call that is not refused. */
  function Recounted(entry: Option<Window>, now: int): Window {
    match entry case None => Window(now, 1) case Some(w) => w.(count := w.count + 1)
  }

  /** A call of the key that is not refused, as seen by its history. */
  lemma PassingStep(h: History, key: string, p: Policy, entry: Option<Window>, now: int, from: int, to: int, passed: int)
    requires Stands(h, key, entry, from, to, passed)
    requires entry.Some? ==> 1 <= entry.value.count < p.max && now - entry.value.start <= p.windowMs
    ensures Stands(AfterCall(h, key, p, now), key, Some(Recounted(entry, now)), from, to, passed + Weight(now, from, to))
  {
    assert Entry(h.windows, key) == entry;
    var (w, limited) := Called(entry, p, now);
    var starts := Counted(h, now, w, limited).0;
    OneMore(h.passes, Pass(now, |starts| - 1), from, to);
  }

  lemma PassingCall(events: seq<Event>, key: string, policy: string -> Policy, entry: Option<Window>, last: int, now: int, tick: int,
                    from: int, to: int, passed: int)
    requires Leads(events, key, policy, entry, last, tick, from, to, passed) && last <= now <= tick + CLEANUP_INTERVAL + 1
    requires entry.Some? ==> 1 <= entry.value.count < policy(key).max && now - entry.value.start <= policy(key).windowMs
    ensures Leads(events + [Call(key, now)], key, policy, Some(Recounted(entry, now)), now, tick, from, to, passed + Weight(now, from, to))
  {
    PassingStep(Run(events, key, policy), key, policy(key), entry, now, from, to, passed);
    OneLater(events, Call(key, now), last, tick);
    Snoc(events, Call(key, now), key, policy);
  }

  lemma CallAgain(events: seq<Event>, key: string, policy: string -> Policy, w: Window, count: nat, now: int, tick: int,
                  from: int, to: int, passed: int)
    requires Leads(events, key, policy, Some(w), now, tick, from, to, passed) && from <= now <= to && count == w.count + 1
    requires 1 <= w.count < policy(key).max && now - w.start <= policy(key).windowMs && now <= tick + CLEANUP_INTERVAL + 1
    ensures Leads(events + [Call(key, now)], key, policy, Some(Window(w.start, count)), now, tick, from, to, passed + 1)
  {
    PassingCall(events, key, policy, Some(w), now, now, tick, from, to, passed);
  }

  /** The calls of one moment until there are `count` in the window. */
  lemma {:induction false} PassingCalls(events: seq<Event>, key: string, policy: string -> Policy, w: Window, count: nat, now: int, tick: int,
                                        from: int, to: int, passed: int) returns (more: seq<Event>)
    requires Leads(events, key, policy, Some(w), now, tick, from, to, passed) && from <= now <= to && now <= tick + CLEANUP_INTERVAL + 1
    requires 1 <= w.count <= count <= policy(key).max && 0 <= now - w.start <= policy(key).windowMs
    ensures Leads(more, key, policy, Some(Window(w.start, count)), now, tick, from, to, passed + (count - w.count))
    decreases count
  {
    if count == w.count {
      more := events;
    } else {
      var init := PassingCalls(events, key, policy, w, count - 1, now, tick, from, to, passed);
      CallAgain(init, key, policy, Window(w.start, count - 1), count, now, tick, from, to, passed + (count - 1 - w.count));
      more := init + [Call(key, now)];
    }
  }

  /** A cleanup, which takes the key's entry away if it is old. */
  lemma Swept(events: seq<Event>, key: string, policy: string -> Policy, w: Window, last: int, now: int, tick: int,
              from: int, to: int, passed: int)
    requires Leads(events, key, policy, Some(w), last, tick, from, to, passed) && last <= now
    requires tick + CLEANUP_INTERVAL <= now <= tick + CLEANUP_INTERVAL + 1
    ensures Leads(events + [Clean(now)], key, policy, if Forgotten(w, now) then None else Some(w), now, now, from, to, passed)
  {
    OneLater(events, Clean(now), last, tick);
    Snoc(events, Clean(now), key, policy);
    assert Remembered(map[key := w], now) == if Forgotten(w, now) then map[] else map[key := w];
  }

  /** The rest of the permitted calls of a window, at a later moment. */
  lemma FullAt(events: seq<Event>, key: string, policy: string -> Policy, w: Window, last: int, now: int, tick: int,
               from: int, to: int, passed: int)
    returns (more: seq<Event>)
    requires Leads(events, key, policy, Some(w), last, tick, from, to, passed) && last <= now <= tick + CLEANUP_INTERVAL + 1
    requires from <= now <= to && w.count == 1 <= policy(key).max && 0 <= now - w.start <= policy(key).windowMs
    ensures Leads(more, key, policy, Some(Window(w.start, policy(key).max)), now, tick, from, to, passed + (policy(key).max - 1))
  {
    more := PassingCalls(events, key, policy, w, policy(key).max, now, tick, from, to, passed);
  }

  /** The first window, which survives the first cleanup, with all its calls but the first made when it is
      CLEANUP_AGE + 1 old. */
  lemma FirstLeak(key: string, policy: string -> Policy, from: int, to: int) returns (events: seq<Event>)
    requires policy(key).max >= 1 && policy(key).windowMs > CLEANUP_AGE && from <= CLEANUP_AGE + 1 <= to
    ensures Leads(events, key, policy, Some(Window(0, policy(key).max)), CLEANUP_AGE + 1, CLEANUP_INTERVAL, from, to,
                  Weight(0, from, to) + (policy(key).max - 1))
  {
    assert Leads([], key, policy, None, 0, 0, from, to, 0);
    PassingCall([], key, policy, None, 0, 0, 0, from, to, 0);
    events := [] + [Call(key, 0)];
    Swept(events, key, policy, Window(0, 1), 0, CLEANUP_INTERVAL, 0, from, to, Weight(0, from, to));
    events := events + [Clean(CLEANUP_INTERVAL)];
    events := FullAt(events, key, policy, Window(0, 1), CLEANUP_INTERVAL, CLEANUP_AGE + 1, CLEANUP_INTERVAL, from, to, Weight(0, from, to));
  }

  /** A cleanup one millisecond late and then, in the same moment, a new window with 1 + `n` calls. */
  lemma SweepAndFill(events: seq<Event>, key: string, policy: string -> Policy, w: Window, last: int, now: int, tick: int,
                     from: int, to: int, passed: int, n: nat)
    returns (more: seq<Event>)
    requires Leads(events, key, policy, Some(w), last, tick, from, to, passed) && last <= now && Forgotten(w, now) && from <= now <= to
    requires now == tick + CLEANUP_INTERVAL + 1 && 1 + n <= policy(key).max && 0 <= policy(key).windowMs
    ensures Leads(more, key, policy, Some(Window(now, 1 + n)), now, now, from, to, passed + 1 + n)
  {
    Swept(events, key, policy, w, last, now, tick, from, to, passed);
    PassingCall(events + [Clean(now)], key, policy, None, now, now, now, from, to, passed);
    more := PassingCalls(events + [Clean(now)] + [Call(key, now)], key, policy, Window(now, 1), 1 + n, now, now, from, to, passed + 1);
  }

  /** A window that began right after a cleanup survives the next one and is swept away by the one after that. */
  lemma NextLeak(events: seq<Event>, key: string, policy: string -> Policy, count: nat, now: int, from: int, to: int, passed: int, n: nat)
    returns (more: seq<Event>)
    requires Leads(events, key, policy, Some(Window(now, count)), now, now, from, to, passed) && from <= now + CLEANUP_AGE + 1 <= to
    requires 1 + n <= policy(key).max && 0 <= policy(key).windowMs
    ensures var later := now + CLEANUP_AGE + 1;
            Leads(more, key, policy, Some(Window(later, 1 + n)), later, later, from, to, passed + 1 + n)
  {
    var tick := now + CLEANUP_INTERVAL;
    Swept(events, key, policy, Window(now, count), now, tick, now, from, to, passed);
    more := SweepAndFill(events + [Clean(tick)], key, policy, Window(now, count), tick, now + CLEANUP_AGE + 1, tick, from, to, passed, n);
  }

  /** The first window is swept away in that very moment and followed by a full one, and that one, when it has been swept
      away in its turn, by a third. */
  lemma ThreeWindows(key: string, policy: string -> Policy, from: int, to: int, n: nat) returns (events: seq<Event>)
    requires policy(key).windowMs > CLEANUP_AGE && 1 + n <= policy(key).max
    requires from <= CLEANUP_AGE + 1 && 2 * (CLEANUP_AGE + 1) <= to
    ensures var later := 2 * (CLEANUP_AGE + 1);
            Leads(events, key, policy, Some(Window(later, 1 + n)), later, later, from, to, Weight(0, from, to) + 2 * policy(key).max + n)
  {
    var max, age := policy(key).max, CLEANUP_AGE + 1;
    var passed := Weight(0, from, to) + (max - 1);
    events := FirstLeak(key, policy, from, to);
    events := SweepAndFill(events, key, policy, Window(0, max), age, age, CLEANUP_INTERVAL, from, to, passed, max - 1);
    events := NextLeak(events, key, policy, max, age, from, to, passed + 1 + (max - 1), n);
  }

  /** The third window begins before the length of a window has passed. */
  lemma Leak(key: string, policy: string -> Policy) returns (events: seq<Event>, from: int)
    requires !Safe(policy(key)) && policy(key).max >= 1
    ensures Forward(events) && Ticking(events, 0, 1)
    ensures !Bounded(events, key, policy, from)
  {
    if policy(key).max == 1 {
      from := 0;
      events := ThreeWindows(key, policy, from, from + policy(key).windowMs, 0);
    } else {
      from := CLEANUP_AGE + 1;
      events := ThreeWindows(key, policy, from, from + policy(key).windowMs, 1);
    }
  }

  // ---------- who is let through ----------

  function Smaller(a: int, b: int): int { if a <= b then a else b }

  /** The window's calls so far, as long as there were no more than `max`, were let through since it began. */
  predicate Served(h: History, key: string, max: int, now: int) {
    match Entry(h.windows, key)
    case None => true
    case Some(w) => h.starts != [] && w.count >= 1 && w.start <= now && Between(h.passes, w.start, now) >= Smaller(w.count, max)
  }

  lemma {:induction false} BetweenWider(passes: seq<Pass>, from: int, to: int, from': int, to': int)
    requires from' <= from && to <= to'
    ensures Between(passes, from, to) <= Between(passes, from', to')
    decreases |passes|
  {
    if passes != [] { BetweenWider(passes[..|passes| - 1], from, to, from', to'); }
  }

  lemma BetweenAdd(passes: seq<Pass>, p: Pass, from: int, to: int)
    ensures Between(passes + [p], from, to) == Between(passes, from, to) + if from <= p.at <= to then 1 else 0
  {
    assert (passes + [p])[..|passes|] == passes;
  }

  lemma ServedAfterCall(h: History, key: string, p: Policy, last: int, now: int)
    requires Served(h, key, p.max, last) && last <= now
    ensures Served(AfterCall(h, key, p, now), key, p.max, now)
  {
    var (w, limited) := Called(Entry(h.windows, key), p, now);
    var t := AfterCall(h, key, p, now);
    assert t.windows[key] == w;
    if Entry(h.windows, key).Some? { BetweenWider(h.passes, h.windows[key].start, last, h.windows[key].start, now); }
    if !limited {
      BetweenAdd(h.passes, Pass(now, |t.starts| - 1), w.start, now);
      assert t.passes == h.passes + [Pass(now, |t.starts| - 1)];
    }
  }

  lemma ServedLater(h: History, key: string, max: int, last: int, now: int)
    requires Served(h, key, max, last) && last <= now
    ensures Served(h, key, max, now)
  {
    if Entry(h.windows, key).Some? { BetweenWider(h.passes, h.windows[key].start, last, h.windows[key].start, now); }
  }

  lemma {:induction false} RunServes(events: seq<Event>, key: string, policy: string -> Policy, now: int)
    requires Forward(events) && (events != [] ==> events[|events| - 1].at <= now)
    ensures Served(Run(events, key, policy), key, policy(key).max, now)
    decreases |events|
  {
    if events != [] {
      var init, e := events[..|events| - 1], events[|events| - 1];
      RunServes(init, key, policy, e.at);
      var h := Run(init, key, policy);
      if e.Call? && e.key == key {
        ServedAfterCall(h, key, policy(key), e.at, e.at);
      } else {
        assert Served(Next(h, e, key, policy), key, policy(key).max, e.at);
      }
      ServedLater(Run(events, key, policy), key, policy(key).max, e.at, now);
    }
  }

  /** Nobody is refused too early: when a call is refused, at least `max` calls of its key were let through in the last
      `windowMs` milliseconds, whatever the policy and whenever windows are forgotten. */
  lemma RefusedOnlyBeyondMax(events: seq<Event>, key: string, policy: string -> Policy, now: int)
    requires Forward(events) && (events != [] ==> events[|events| - 1].at <= now)
    requires Called(Entry(Run(events, key, policy).windows, key), policy(key), now).1
    ensures Between(Run(events, key, policy).passes, now - policy(key).windowMs, now) >= policy(key).max
  {
    var h := Run(events, key, policy);
    RunServes(events, key, policy, now);
    BetweenWider(h.passes, h.windows[key].start, now, now - policy(key).windowMs, now);
  }
}
