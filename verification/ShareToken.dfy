/** The framing of the inputs of an idempotent share token: four strings, each behind its length in bytes. */
module ShareToken {

  /** The UTF-8 bytes of a string. */
  type Bytes = seq<int>

  const COLON := 58
  const BAR := 124
  const ZERO := 48

  function Decimal(n: nat): (d: Bytes)
    ensures d != [] && (n >= 10 ==> |d| >= 2) && forall i :: 0 <= i < |d| ==> ZERO <= d[i] < ZERO + 10
  {
    if n < 10 then [ZERO + n] else Decimal(n / 10) + [ZERO + n % 10]
  }

  function Part(s: Bytes): Bytes {
    Decimal(|s|) + [COLON] + s
  }

  function Framed(parts: seq<Bytes>): Bytes {
    if parts == [] then []
    else if |parts| == 1 then Part(parts[0])
    else Part(parts[0]) + ([BAR] + Framed(parts[1..]))
  }

  lemma {:induction false} DecimalApart(m: nat, n: nat)
    requires Decimal(m) == Decimal(n)
    ensures m == n
    decreases m
  {
    var d, e := Decimal(m), Decimal(n);
    if m >= 10 && n >= 10 {
      assert d[..|d| - 1] == Decimal(m / 10) && e[..|e| - 1] == Decimal(n / 10);
      DecimalApart(m / 10, n / 10);
      assert d[|d| - 1] == ZERO + m % 10 && e[|e| - 1] == ZERO + n % 10;
    }
  }

  /** Digits end at the first colon. */
  lemma DigitsEnd(d: Bytes, e: Bytes, x: Bytes, y: Bytes)
    requires d + [COLON] + x == e + [COLON] + y
    requires forall i :: 0 <= i < |d| ==> d[i] != COLON
    requires forall i :: 0 <= i < |e| ==> e[i] != COLON
    ensures d == e && x == y
  {
    var s, t := d + [COLON] + x, e + [COLON] + y;
    assert s[|d|] == COLON && t[|e|] == COLON;
    assert forall i :: 0 <= i < |d| ==> s[i] == d[i];
    assert forall i :: 0 <= i < |e| ==> t[i] == e[i];
    assert s[..|d|] == d && t[..|e|] == e && s[|d| + 1..] == x && t[|e| + 1..] == y;
  }

  /** A part can be told from what follows it. */
  lemma PartsApart(a: Bytes, b: Bytes, x: Bytes, y: Bytes)
    requires Part(a) + x == Part(b) + y
    ensures a == b && x == y
  {
    assert Part(a) + x == Decimal(|a|) + [COLON] + (a + x) && Part(b) + y == Decimal(|b|) + [COLON] + (b + y);
    DigitsEnd(Decimal(|a|), Decimal(|b|), a + x, b + y);
    DecimalApart(|a|, |b|);
    assert (a + x)[..|a|] == a && (b + y)[..|b|] == b && (a + x)[|a|..] == x && (b + y)[|b|..] == y;
  }

  /** What follows the first part: nothing, or a bar and the others. */
  function Tail(parts: seq<Bytes>): Bytes
    requires parts != []
  {
    if |parts| == 1 then [] else [BAR] + Framed(parts[1..])
  }

  lemma FramedSplits(a: seq<Bytes>)
    requires a != []
    ensures Framed(a) == Part(a[0]) + Tail(a)
  {
    assert Part(a[0]) + [] == Part(a[0]);
  }

  lemma TailsApart(a: seq<Bytes>, b: seq<Bytes>)
    requires a != [] && b != [] && Tail(a) == Tail(b)
    ensures |a| == 1 <==> |b| == 1
    ensures |a| > 1 && |b| > 1 ==> Framed(a[1..]) == Framed(b[1..])
  {
    if |a| > 1 && |b| > 1 { assert Tail(a)[1..] == Framed(a[1..]) && Tail(b)[1..] == Framed(b[1..]); }
  }

  /** Different inputs never frame alike, however they are cut: not even lists of different lengths do. */
  lemma {:induction false} FramesApart(a: seq<Bytes>, b: seq<Bytes>)
    requires a != [] && b != [] && Framed(a) == Framed(b)
    ensures a == b
    decreases |a|
  {
    HeadsAndTails(a, b);
    TailsApart(a, b);
    if |a| > 1 { FramesApart(a[1..], b[1..]); }
    Together(a, b);
  }

  lemma HeadsAndTails(a: seq<Bytes>, b: seq<Bytes>)
    requires a != [] && b != [] && Framed(a) == Framed(b)
    ensures a[0] == b[0] && Tail(a) == Tail(b)
  {
    FramedSplits(a);
    FramedSplits(b);
    PartsApart(a[0], b[0], Tail(a), Tail(b));
  }

  lemma Together(a: seq<Bytes>, b: seq<Bytes>)
    requires a != [] && b != [] && a[0] == b[0] && (|a| == 1 <==> |b| == 1) && (|a| > 1 && |b| > 1 ==> a[1..] == b[1..])
    ensures a == b
  {
    assert a == [a[0]] + a[1..] && b == [b[0]] + b[1..];
  }

  /** The bytes that are signed for a token, or the error for inputs that are missing. */
  datatype Input = Input(framed: Bytes) | Invalid

  function TokenInput(scope: Bytes, sessionId: Bytes, idempotencyKey: Bytes, requestHash: Bytes): Input {
    if scope == [] || sessionId == [] || idempotencyKey == [] || requestHash == [] then Invalid
    else Input(Framed([scope, sessionId, idempotencyKey, requestHash]))
  }

  /** Two requests are given the same token input only if they agree in all four parts. */
  lemma TokensApart(a: seq<Bytes>, b: seq<Bytes>)
    requires |a| == 4 && |b| == 4 && TokenInput(a[0], a[1], a[2], a[3]).Input?
    ensures TokenInput(a[0], a[1], a[2], a[3]) == TokenInput(b[0], b[1], b[2], b[3]) <==> a == b
  {
    assert a == [a[0], a[1], a[2], a[3]] && b == [b[0], b[1], b[2], b[3]];
    if TokenInput(a[0], a[1], a[2], a[3]) == TokenInput(b[0], b[1], b[2], b[3]) { FramesApart(a, b); }
  }
}
