/** Paths as text, cut at the slashes and joined again. */
module PathText {

  /** A path is the sequence of its pieces. */
  type Path = seq<string>

  function Join(p: Path): string {
    if p == [] then "" else if |p| == 1 then p[0] else p[0] + "/" + Join(p[1..])
  }

  /** The pieces of `s` between slashes: at least one, none of them with a slash. */
  function Split(s: string): (p: Path)
    ensures |p| >= 1 && forall i :: 0 <= i < |p| ==> '/' !in p[i]
    decreases |s|
  {
    if s == "" then [""]
    else var rest := Split(s[1..]);
         if s[0] == '/' then [""] + rest else [[s[0]] + rest[0]] + rest[1..]
  }

  lemma {:induction false} JoinSplit(s: string)
    ensures Join(Split(s)) == s
    decreases |s|
  {
    if s != "" {
      JoinSplit(s[1..]);
      var rest := Split(s[1..]);
      if s[0] == '/' {
        assert ([""] + rest)[1..] == rest;
      } else {
        var p := [[s[0]] + rest[0]] + rest[1..];
        assert p[1..] == rest[1..] && p[0] == [s[0]] + rest[0];
        assert s == [s[0]] + s[1..];
      }
    }
  }

  lemma {:induction false} SplitPiece(a: string)
    requires '/' !in a
    ensures Split(a) == [a]
    decreases |a|
  {
    if a != "" {
      SplitPiece(a[1..]);
      assert [a[0]] + a[1..] == a;
    }
  }

  lemma {:induction false} SplitAfterPiece(a: string, t: string)
    requires '/' !in a
    ensures Split(a + "/" + t) == [a] + Split(t)
    decreases |a|
  {
    var s := a + "/" + t;
    if a == "" {
      assert s[1..] == t;
    } else {
      SplitAfterPiece(a[1..], t);
      assert s[1..] == a[1..] + "/" + t;
      var rest := [a[1..]] + Split(t);
      assert [s[0]] + rest[0] == a && rest[1..] == Split(t);
    }
  }

  lemma {:induction false} SplitJoin(p: Path)
    requires |p| >= 1 && forall i :: 0 <= i < |p| ==> '/' !in p[i]
    ensures Split(Join(p)) == p
    decreases |p|
  {
    if |p| == 1 {
      SplitPiece(p[0]);
    } else {
      SplitJoin(p[1..]);
      SplitAfterPiece(p[0], Join(p[1..]));
      assert p == [p[0]] + p[1..];
    }
  }
}
