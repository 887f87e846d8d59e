/**
 * Replay protection of signed requests: a nonce table that forgets rows once they
 * have expired, and the time tests that make it safe to forget them.
 */
module ReplayProtection {

  /** What a signature covers, as far as replays are concerned; the expiry and the deadline are part of the signed body. */
  datatype Message = Message(keyId: string, nonce: string, timestamp: int, expiry: int, deadline: int, body: string)

  type Nonce = (string, string)

  const SAFE := 9_007_199_254_740_991

  function NonceOf(m: Message): Nonce {
    (m.keyId, m.nonce)
  }

  datatype Outcome = Accepted | Unauthorized | ExpiredRequest | StoreFull | Replayed

  predicate Plain(c: char) {
    'A' <= c <= 'Z' || 'a' <= c <= 'z' || '0' <= c <= '9' || c == '_' || c == '-'
  }

  predicate Hex(c: char) {
    'a' <= c <= 'f' || '0' <= c <= '9'
  }

  /** The headers have the shape that is asked for: key id, nonce and time. */
  predicate Shaped(m: Message) {
    && 1 <= |m.keyId| <= 64 && (forall i :: 0 <= i < |m.keyId| ==> Plain(m.keyId[i]))
    && |m.nonce| == 32 && (forall i :: 0 <= i < |m.nonce| ==> Hex(m.nonce[i]))
    && 1 <= m.timestamp < 10_000_000_000_000_000
  }

  /** The time tests: the message is recent, not expired, and its deadline is in reach. */
  predicate Timely(m: Message, now: real) {
    && m.timestamp <= SAFE && -30.0 <= now - m.timestamp as real <= 30.0
    && m.timestamp <= m.expiry <= m.timestamp + 30 && now < m.expiry as real
    && m.expiry <= m.deadline <= m.timestamp + 900
  }

  function Live(nonces: map<Nonce, int>, now: real): map<Nonce, int> {
    nonces - set n | n in nonces && nonces[n] as real <= now
  }

  /** The outcome of a claim and the table after it; a claim that fails leaves the table as it was. */
  function Claimed(nonces: map<Nonce, int>, capacity: nat, nonce: Nonce, expiry: int, now: real): (Outcome, map<Nonce, int>) {
    var live := Live(nonces, now);
    if |live| >= capacity then (StoreFull, nonces)
    else if nonce in live then (Replayed, nonces)
    else (Accepted, live[nonce := expiry])
  }

  class ReplayStore {
    const capacity: nat
    var nonces: map<Nonce, int>

    constructor (capacity: nat)
      requires capacity >= 1
      ensures nonces == map[] && this.capacity == capacity
    {
      this.capacity, nonces := capacity, map[];
    }

    /** ReplayStore.claim: one transaction, rolled back if it fails. */
    method Claim(nonce: Nonce, expiry: int, now: real) returns (r: Outcome)
      modifies this
      ensures (r, nonces) == Claimed(old(nonces), capacity, nonce, expiry, now)
    {
      var live := nonces - set n | n in nonces && nonces[n] as real <= now;
      if |live| >= capacity { return StoreFull; }
      if nonce in live { return Replayed; }
      nonces := live[nonce := expiry];
      r := Accepted;
    }

    /** authenticate, for a request whose signature verifies and whose body is well formed. */
    method Authenticate(m: Message, now: real) returns (r: Outcome)
      modifies this
      ensures (r, nonces) == if !Shaped(m) then (Unauthorized, old(nonces))
                             else if Timely(m, now) then Claimed(old(nonces), capacity, NonceOf(m), m.expiry, now)
                             else (ExpiredRequest, old(nonces))
    {
      if !Shaped(m) { return Unauthorized; }
      if m.timestamp > SAFE || now - m.timestamp as real > 30.0 || m.timestamp as real - now > 30.0 { return ExpiredRequest; }
      if !(m.timestamp <= m.expiry <= m.timestamp + 30) || now >= m.expiry as real { return ExpiredRequest; }
      if !(m.expiry <= m.deadline <= m.timestamp + 900) { return ExpiredRequest; }
      r := Claim(NonceOf(m), m.expiry, now);
    }
  }

  // ---------- runs ----------

  /** `log` remembers every acceptance, with its time. */
  datatype State = State(log: seq<(Message, real)>, nonces: map<Nonce, int>)

  function Grown(s: State, m: Message, now: real): State {
    State(s.log + [(m, now)], Live(s.nonces, now)[NonceOf(m) := m.expiry])
  }

  predicate Accepts(s: State, m: Message, now: real, capacity: nat) {
    Shaped(m) && Timely(m, now) && |Live(s.nonces, now)| < capacity && NonceOf(m) !in Live(s.nonces, now)
  }

  function Next(s: State, m: Message, now: real, capacity: nat): State {
    if !Shaped(m) || !Timely(m, now) then s
    else match Claimed(s.nonces, capacity, NonceOf(m), m.expiry, now)
      case (Accepted, nonces) => State(s.log + [(m, now)], nonces)
      case (_, nonces) => s.(nonces := nonces)
  }

  lemma NextIs(s: State, m: Message, now: real, capacity: nat)
    ensures Next(s, m, now, capacity) == if Accepts(s, m, now, capacity) then Grown(s, m, now) else s
  {
  }

  function Run(requests: seq<(Message, real)>, capacity: nat): State
    decreases |requests|
  {
    if requests == [] then State([], map[])
    else var (m, now) := requests[|requests| - 1];
         Next(Run(requests[..|requests| - 1], capacity), m, now, capacity)
  }

  /** The row of the i-th acceptance was due to be forgotten at the k-th. */
  predicate Outlived(log: seq<(Message, real)>, i: nat, k: nat)
    requires i < |log| && k < |log|
  {
    i < k && log[k].1 >= log[i].0.expiry as real
  }

  predicate Kept(s: State, i: nat)
    requires i < |s.log|
  {
    var m := s.log[i].0;
    NonceOf(m) in s.nonces && s.nonces[NonceOf(m)] == m.expiry
  }

  ghost predicate Overtaken(log: seq<(Message, real)>, i: nat)
    requires i < |log|
  {
    exists k :: 0 <= k < |log| && Outlived(log, i, k)
  }

  /** The row on record for `n` is that of an acceptance which has not been outlived. */
  ghost predicate Owned(s: State, n: Nonce)
    requires n in s.nonces
  {
    exists i :: 0 <= i < |s.log| && NonceOf(s.log[i].0) == n && s.log[i].0.expiry == s.nonces[n] && !Overtaken(s.log, i)
  }

  ghost predicate Successive(log: seq<(Message, real)>) {
    forall i, j :: 0 <= i < j < |log| && NonceOf(log[i].0) == NonceOf(log[j].0) ==> Overtaken(log[..j + 1], i)
  }

  /** What has been accepted is on record or overtaken; before a nonce was accepted again its acceptance was overtaken. */
  ghost predicate Inv(s: State, capacity: nat) {
    && |s.nonces| <= capacity
    && (forall n :: n in s.nonces ==> Owned(s, n))
    && (forall i :: 0 <= i < |s.log| ==> Timely(s.log[i].0, s.log[i].1))
    && (forall i :: 0 <= i < |s.log| ==> Kept(s, i) || Overtaken(s.log, i))
    && Successive(s.log)
  }

  lemma OvertakenLater(log: seq<(Message, real)>, entry: (Message, real), i: nat)
    requires i < |log|
    ensures Overtaken(log + [entry], i) <==> Overtaken(log, i) || entry.1 >= log[i].0.expiry as real
  {
    if Overtaken(log, i) {
      var k :| 0 <= k < |log| && Outlived(log, i, k);
      assert Outlived(log + [entry], i, k);
    }
    if entry.1 >= log[i].0.expiry as real { assert Outlived(log + [entry], i, |log|); }
    if Overtaken(log + [entry], i) {
      var k :| 0 <= k < |log| + 1 && Outlived(log + [entry], i, k);
      assert k < |log| ==> Outlived(log, i, k);
    }
  }

  /** Whoever was accepted is on record still, or has been overtaken, when one more is accepted. */
  lemma StillKnown(s: State, m: Message, now: real, i: nat)
    requires i < |s.log| && (Kept(s, i) || Overtaken(s.log, i)) && NonceOf(m) !in Live(s.nonces, now)
    ensures Kept(Grown(s, m, now), i) || Overtaken(Grown(s, m, now).log, i)
    ensures NonceOf(s.log[i].0) == NonceOf(m) ==> Overtaken(Grown(s, m, now).log, i)
  {
    OvertakenLater(s.log, (m, now), i);
  }

  /** A row that survives an acceptance is still owned, and so is the new one. */
  lemma StillOwned(s: State, m: Message, now: real, n: Nonce)
    requires n in Grown(s, m, now).nonces && (n in s.nonces ==> Owned(s, n))
    ensures Owned(Grown(s, m, now), n)
  {
    var t := Grown(s, m, now);
    if n == NonceOf(m) {
      assert t.log[|s.log|] == (m, now) && !Overtaken(t.log, |s.log|);
    } else {
      var i :| 0 <= i < |s.log| && NonceOf(s.log[i].0) == n && s.log[i].0.expiry == s.nonces[n] && !Overtaken(s.log, i);
      assert t.log[i] == s.log[i];
      OvertakenLater(s.log, (m, now), i);
    }
  }

  lemma GrownSuccessive(s: State, m: Message, now: real)
    requires Successive(s.log) && NonceOf(m) !in Live(s.nonces, now)
    requires forall i :: 0 <= i < |s.log| ==> Kept(s, i) || Overtaken(s.log, i)
    ensures Successive(Grown(s, m, now).log)
  {
    var log := Grown(s, m, now).log;
    forall i, j | 0 <= i < j < |log| && NonceOf(log[i].0) == NonceOf(log[j].0) ensures Overtaken(log[..j + 1], i) {
      if j == |s.log| {
        StillKnown(s, m, now, i);
        assert log[..j + 1] == log;
      } else {
        assert log[..j + 1] == s.log[..j + 1];
      }
    }
  }

  lemma GrownKnown(s: State, m: Message, now: real)
    requires NonceOf(m) !in Live(s.nonces, now) && forall i :: 0 <= i < |s.log| ==> Kept(s, i) || Overtaken(s.log, i)
    ensures var t := Grown(s, m, now); forall i :: 0 <= i < |t.log| ==> Kept(t, i) || Overtaken(t.log, i)
  {
    var t := Grown(s, m, now);
    forall i | 0 <= i < |t.log| ensures Kept(t, i) || Overtaken(t.log, i) {
      if i < |s.log| { StillKnown(s, m, now, i); }
    }
  }

  lemma GrownKeeps(s: State, m: Message, now: real, capacity: nat)
    requires Inv(s, capacity) && Timely(m, now) && |Live(s.nonces, now)| < capacity && NonceOf(m) !in Live(s.nonces, now)
    ensures Inv(Grown(s, m, now), capacity)
  {
    forall n | n in Grown(s, m, now).nonces ensures Owned(Grown(s, m, now), n) { StillOwned(s, m, now, n); }
    GrownKnown(s, m, now);
    GrownSuccessive(s, m, now);
  }

  lemma NextKeeps(s: State, m: Message, now: real, capacity: nat)
    requires Inv(s, capacity)
    ensures Inv(Next(s, m, now, capacity), capacity)
  {
    NextIs(s, m, now, capacity);
    if Accepts(s, m, now, capacity) { GrownKeeps(s, m, now, capacity); }
  }

  lemma {:induction false} RunKeeps(requests: seq<(Message, real)>, capacity: nat)
    ensures Inv(Run(requests, capacity), capacity)
    decreases |requests|
  {
    if requests != [] {
      var (m, now) := requests[|requests| - 1];
      RunKeeps(requests[..|requests| - 1], capacity);
      NextKeeps(Run(requests[..|requests| - 1], capacity), m, now, capacity);
    }
  }

  lemma RunSnoc(requests: seq<(Message, real)>, m: Message, now: real, capacity: nat)
    ensures Run(requests + [(m, now)], capacity) == Next(Run(requests, capacity), m, now, capacity)
  {
    assert (requests + [(m, now)])[..|requests|] == requests;
  }

  // ---------- at most once ----------

  /** Whatever the clock does: a message is accepted a second time only after another acceptance at or past its
      expiry, and then the clock has been set back. */
  lemma ReplayNeedsClockSetBack(requests: seq<(Message, real)>, capacity: nat, i: nat, j: nat)
    requires var log := Run(requests, capacity).log; i < j < |log| && log[i].0 == log[j].0
    ensures var log := Run(requests, capacity).log;
            exists k :: i < k < j && log[k].1 >= log[i].0.expiry as real > log[j].1
  {
    RunKeeps(requests, capacity);
    var log := Run(requests, capacity).log;
    assert Overtaken(log[..j + 1], i);
    var k :| 0 <= k < j + 1 && Outlived(log[..j + 1], i, k);
    assert log[..j + 1][k] == log[k] && Timely(log[j].0, log[j].1);
  }

  /** Nothing in the table speaks for the i-th acceptance any more when a claim is made at `now`. */
  ghost predicate Forgotten(log: seq<(Message, real)>, i: nat, now: real)
    requires i < |log|
  {
    Overtaken(log, i) || log[i].0.expiry as real <= now
  }

  /** Exactly when a message is accepted, whatever the clock has done so far: it passes the tests, there is room, and every
      earlier acceptance of its nonce has been outlived by another acceptance or is due to be forgotten now. For the same
      message the second is ruled out by the time tests, so that a replay succeeds exactly if the clock had been past the
      message's expiry at some acceptance in between and has been set back. */
  lemma AcceptedExactly(requests: seq<(Message, real)>, capacity: nat, m: Message, now: real)
    ensures var s := Run(requests, capacity);
            (Run(requests + [(m, now)], capacity).log == s.log + [(m, now)]) <==>
            && Shaped(m) && Timely(m, now) && |Live(s.nonces, now)| < capacity
            && forall i :: 0 <= i < |s.log| && NonceOf(s.log[i].0) == NonceOf(m) ==> Forgotten(s.log, i, now)
  {
    RunSnoc(requests, m, now, capacity);
    RunKeeps(requests, capacity);
    var s := Run(requests, capacity);
    NextIs(s, m, now, capacity);
    FreeMeansForgotten(s, m, now, capacity);
  }

  lemma FreeMeansForgotten(s: State, m: Message, now: real, capacity: nat)
    requires Inv(s, capacity)
    ensures NonceOf(m) !in Live(s.nonces, now)
       <==> forall i :: 0 <= i < |s.log| && NonceOf(s.log[i].0) == NonceOf(m) ==> Forgotten(s.log, i, now)
  {
    if NonceOf(m) in Live(s.nonces, now) {
      assert Owned(s, NonceOf(m));
    } else {
      forall i | 0 <= i < |s.log| && NonceOf(s.log[i].0) == NonceOf(m) ensures Forgotten(s.log, i, now) {
        assert Kept(s, i) || Overtaken(s.log, i);
      }
    }
  }

  predicate Ordered(requests: seq<(Message, real)>) {
    forall i, j :: 0 <= i < j < |requests| ==> requests[i].1 <= requests[j].1
  }

  /** Acceptances happen in the order, and at the times, of the requests. */
  lemma {:induction false} LogIsOrdered(requests: seq<(Message, real)>, capacity: nat)
    requires Ordered(requests)
    ensures Ordered(Run(requests, capacity).log)
    ensures forall i :: 0 <= i < |Run(requests, capacity).log| ==> requests != [] && Run(requests, capacity).log[i].1 <= requests[|requests| - 1].1
    decreases |requests|
  {
    if requests != [] { LogIsOrdered(requests[..|requests| - 1], capacity); }
  }

  /** At-most-once: if the clock never goes back, no message is accepted twice, in a run of any length,
      although the table forgets and never holds more than its capacity. */
  lemma AtMostOnce(requests: seq<(Message, real)>, capacity: nat)
    requires Ordered(requests)
    ensures var s := Run(requests, capacity);
            && |s.nonces| <= capacity
            && forall i, j :: 0 <= i < j < |s.log| ==> s.log[i].0 != s.log[j].0
  {
    RunKeeps(requests, capacity);
    LogIsOrdered(requests, capacity);
    var log := Run(requests, capacity).log;
    forall i, j | 0 <= i < j < |log| ensures log[i].0 != log[j].0 {
      if log[i].0 == log[j].0 { ReplayNeedsClockSetBack(requests, capacity, i, j); }
    }
  }

  /** A timely message that finds the table empty, or only rows that are due to be forgotten. */
  lemma FoundEmpty(s: State, m: Message, now: real, capacity: nat)
    requires Shaped(m) && Timely(m, now) && capacity >= 1 && forall n :: n in s.nonces ==> s.nonces[n] as real <= now
    ensures Next(s, m, now, capacity) == State(s.log + [(m, now)], map[NonceOf(m) := m.expiry])
  {
    assert Live(s.nonces, now) == map[];
  }

  lemma ForgottenReplays(s: State, m: Message, now: real)
    requires Shaped(m) && Timely(m, now) && |s.nonces| <= 1 && NonceOf(m) !in s.nonces
    ensures Next(s, m, now, 2).log == s.log + [(m, now)]
  {
    FewerLive(s.nonces, now);
  }

  lemma FewerLive(nonces: map<Nonce, int>, now: real)
    ensures |Live(nonces, now)| <= |nonces|
  {
    assert Live(nonces, now).Keys <= nonces.Keys;
    SubsetCount(Live(nonces, now).Keys, nonces.Keys);
  }

  lemma SubsetCount(a: set<Nonce>, b: set<Nonce>)
    requires a <= b
    ensures |a| <= |b|
  {
    assert b == a + (b - a);
  }

  /** Wherever the clock has been past the expiry of a message and is set back before it, the message is accepted again. */
  lemma SetBackReplays(m: Message, other: Message, first: real, between: real, again: real)
    requires Shaped(m) && Timely(m, first) && Shaped(other) && Timely(other, between) && Timely(m, again)
    requires NonceOf(other) != NonceOf(m) && m.expiry as real <= between
    ensures Run([(m, first), (other, between), (m, again)], 2).log == [(m, first), (other, between), (m, again)]
  {
    FoundEmpty(State([], map[]), m, first, 2);
    var s := State([(m, first)], map[NonceOf(m) := m.expiry]);
    FoundEmpty(s, other, between, 2);
    ForgottenReplays(State(s.log + [(other, between)], map[NonceOf(other) := other.expiry]), m, again);
    RunSnoc([], m, first, 2);
    RunSnoc([(m, first)], other, between, 2);
    RunSnoc([(m, first), (other, between)], m, again, 2);
    assert [] + [(m, first)] == [(m, first)] && [(m, first)] + [(other, between)] == [(m, first), (other, between)];
    assert [(m, first), (other, between)] + [(m, again)] == [(m, first), (other, between), (m, again)];
  }

  function Sample(digit: char, timestamp: nat): Message {
    Message("k", seq(32, _ => digit), timestamp, timestamp + 10, timestamp + 10, "")
  }

  /** Such messages exist: set back by fifteen seconds, the clock lets the same message through twice. */
  lemma SetBackClockReplays()
    ensures var requests := [(Sample('1', 100), 100.0), (Sample('2', 120), 120.0), (Sample('1', 100), 105.0)];
            Shaped(Sample('1', 100)) && Shaped(Sample('2', 120)) && Run(requests, 2).log == requests
  {
    assert Sample('1', 100).nonce[0] != Sample('2', 120).nonce[0];
    SetBackReplays(Sample('1', 100), Sample('2', 120), 100.0, 120.0, 105.0);
  }
}
