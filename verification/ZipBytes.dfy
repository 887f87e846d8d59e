/** Little-endian fields of ZIP structures (APPNOTE.TXT section 4.3). */
module ZipBytes {

  type Byte = x: int | 0 <= x < 256

  type Bytes = seq<Byte>

  function Power256(k: nat): nat {
    if k == 0 then 1 else 256 * Power256(k - 1)
  }

  function Encode(n: nat, width: nat): (s: Bytes)
    ensures |s| == width
  {
    if width == 0 then [] else [n % 256] + Encode(n / 256, width - 1)
  }

  lemma Widths()
    ensures Power256(2) == 0x1_0000 && Power256(4) == 0x1_0000_0000 && Power256(8) == 0x1_0000_0000_0000_0000
  {
    assert Power256(1) == 256 && Power256(3) == 0x100_0000;
    assert Power256(5) == 0x100_0000_0000 && Power256(6) == 0x1_0000_0000_0000 && Power256(7) == 0x100_0000_0000_0000;
  }

  /** The field of `width` bytes at offset `at`. */
  function Field(s: Bytes, at: nat, width: nat): nat
    requires at + width <= |s|
    decreases |s| - at
  {
    if width == 0 then 0 else s[at] + 256 * Field(s, at + 1, width - 1)
  }

  lemma {:induction false} FieldBound(s: Bytes, at: nat, width: nat)
    requires at + width <= |s|
    ensures Field(s, at, width) < Power256(width)
    decreases width
  {
    if width > 0 { FieldBound(s, at + 1, width - 1); }
  }

  /** A field depends on nothing but its bytes. */
  lemma {:induction false} SameField(s: Bytes, at: nat, t: Bytes, k: nat, width: nat)
    requires at + width <= |s| && k + width <= |t| && s[at..at + width] == t[k..k + width]
    ensures Field(s, at, width) == Field(t, k, width)
    decreases width
  {
    if width > 0 {
      assert s[at] == s[at..at + width][0] && t[k] == t[k..k + width][0];
      assert s[at + 1..at + width] == s[at..at + width][1..] && t[k + 1..k + width] == t[k..k + width][1..];
      SameField(s, at + 1, t, k + 1, width - 1);
    }
  }

  /** Reading what was written. */
  lemma {:induction false} FieldEncode(s: Bytes, at: nat, n: nat, width: nat)
    requires n < Power256(width) && at + width <= |s| && s[at..at + width] == Encode(n, width)
    ensures Field(s, at, width) == n
    decreases width
  {
    if width > 0 {
      assert s[at] == s[at..at + width][0];
      assert s[at + 1..at + width] == s[at..at + width][1..] == Encode(n / 256, width - 1);
      FieldEncode(s, at + 1, n / 256, width - 1);
    }
  }

  /** Writing what was read. */
  lemma {:induction false} EncodeField(s: Bytes, at: nat, width: nat)
    requires at + width <= |s|
    ensures Encode(Field(s, at, width), width) == s[at..at + width]
    decreases width
  {
    if width > 0 {
      EncodeField(s, at + 1, width - 1);
      LowByte(s[at], Field(s, at + 1, width - 1));
      assert s[at..at + width] == [s[at]] + s[at + 1..at + width];
    }
  }

  lemma LowByte(b: Byte, n: nat)
    ensures (b + 256 * n) % 256 == b && (b + 256 * n) / 256 == n
  {
  }

  // ---------- reading field after field ----------

  /** The bytes from `at` on are `rest`. */
  predicate From(s: Bytes, at: nat, rest: Bytes) {
    at <= |s| && s[at..] == rest
  }

  /** A written number stands at `at`. */
  predicate Holds(s: Bytes, at: nat, n: nat, width: nat) {
    at + width <= |s| && Field(s, at, width) == n
  }

  /** Reads the number at the head of what is left and moves behind it. */
  lemma ReadNumber(s: Bytes, at: nat, n: nat, width: nat, rest: Bytes)
    requires From(s, at, Encode(n, width) + rest) && n < Power256(width)
    ensures Holds(s, at, n, width) && From(s, at + width, rest)
  {
    SkipBytes(s, at, Encode(n, width), rest);
    FieldEncode(s, at, n, width);
  }

  lemma SkipBytes(s: Bytes, at: nat, b: Bytes, rest: Bytes)
    requires From(s, at, b + rest)
    ensures at + |b| <= |s| && s[at..at + |b|] == b && From(s, at + |b|, rest)
  {
    assert s[at..at + |b|] == s[at..][..|b|];
    assert s[at + |b|..] == s[at..][|b|..];
  }

  // ---------- records written piece by piece ----------

  /** The pieces in order, followed by `rest`. */
  function Written(pieces: seq<Bytes>, rest: Bytes): Bytes
    decreases |pieces|
  {
    if pieces == [] then rest else pieces[0] + Written(pieces[1..], rest)
  }

  /** How far into the record the i-th piece stands. */
  function Start(pieces: seq<Bytes>, i: nat): nat
    requires i <= |pieces|
  {
    if i == 0 then 0 else Start(pieces, i - 1) + |pieces[i - 1]|
  }

  lemma {:induction false} Remaining(s: Bytes, at: nat, pieces: seq<Bytes>, rest: Bytes, i: nat)
    requires i <= |pieces| && From(s, at, Written(pieces, rest))
    ensures From(s, at + Start(pieces, i), Written(pieces[i..], rest))
  {
    if i == 0 {
      assert pieces[0..] == pieces;
    } else {
      Remaining(s, at, pieces, rest, i - 1);
      assert pieces[i - 1..][1..] == pieces[i..];
      SkipBytes(s, at + Start(pieces, i - 1), pieces[i - 1], Written(pieces[i..], rest));
    }
  }

  /** The i-th piece stands where the ones before it end. */
  predicate PieceAt(s: Bytes, at: nat, pieces: seq<Bytes>, i: nat)
    requires i < |pieces|
  {
    var p := at + Start(pieces, i);
    p + |pieces[i]| <= |s| && s[p..p + |pieces[i]|] == pieces[i]
  }

  lemma Piece(s: Bytes, at: nat, pieces: seq<Bytes>, rest: Bytes, i: nat)
    requires i < |pieces| && From(s, at, Written(pieces, rest))
    ensures PieceAt(s, at, pieces, i)
  {
    Remaining(s, at, pieces, rest, i);
    assert pieces[i..][1..] == pieces[i + 1..];
    SkipBytes(s, at + Start(pieces, i), pieces[i], Written(pieces[i + 1..], rest));
  }

  lemma Prepend(s: Bytes, at: nat, b: Bytes, rest: Bytes)
    requires at + |b| <= |s| && s[at..at + |b|] == b && From(s, at + |b|, rest)
    ensures From(s, at, b + rest)
  {
    assert s[at..] == s[at..at + |b|] + s[at + |b|..];
  }

  /** Pieces that stand one after the other are a written record. */
  lemma {:induction false} Composed(s: Bytes, at: nat, pieces: seq<Bytes>, rest: Bytes, i: nat)
    requires i <= |pieces| && From(s, at + Start(pieces, |pieces|), rest)
    requires forall k :: 0 <= k < |pieces| ==> PieceAt(s, at, pieces, k)
    ensures From(s, at + Start(pieces, i), Written(pieces[i..], rest))
    decreases |pieces| - i
  {
    if i < |pieces| {
      Composed(s, at, pieces, rest, i + 1);
      assert pieces[i..][1..] == pieces[i + 1..] && PieceAt(s, at, pieces, i);
      Prepend(s, at + Start(pieces, i), pieces[i], Written(pieces[i + 1..], rest));
    } else {
      assert pieces[i..] == [];
    }
  }

  /** A number that is read where a piece should stand is that piece. */
  lemma NumberPiece(s: Bytes, at: nat, pieces: seq<Bytes>, i: nat, n: nat, width: nat)
    requires i < |pieces| && pieces[i] == Encode(n, width) && Holds(s, at + Start(pieces, i), n, width)
    ensures PieceAt(s, at, pieces, i)
  {
    EncodeField(s, at + Start(pieces, i), width);
  }

  /** A number written as the i-th piece is read back there. */
  lemma Number(s: Bytes, at: nat, pieces: seq<Bytes>, rest: Bytes, i: nat, n: nat, width: nat)
    requires i < |pieces| && From(s, at, Written(pieces, rest)) && pieces[i] == Encode(n, width) && n < Power256(width)
    ensures Holds(s, at + Start(pieces, i), n, width)
  {
    Piece(s, at, pieces, rest, i);
    FieldEncode(s, at + Start(pieces, i), n, width);
  }

  lemma After(s: Bytes, at: nat, pieces: seq<Bytes>, rest: Bytes)
    requires From(s, at, Written(pieces, rest))
    ensures From(s, at + Start(pieces, |pieces|), rest)
  {
    Remaining(s, at, pieces, rest, |pieces|);
  }
}
