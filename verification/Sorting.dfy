/** Sorting by keys compared place by place, the shorter key first when one begins the other. */
module Sorting {

  type Key = seq<int>

  predicate Less(a: Key, b: Key)
    decreases |a|
  {
    b != [] && (a == [] || a[0] < b[0] || (a[0] == b[0] && Less(a[1..], b[1..])))
  }

  lemma {:induction false} LessTrichotomy(a: Key, b: Key)
    ensures a == b || Less(a, b) || Less(b, a)
    ensures !(Less(a, b) && Less(b, a)) && !Less(a, a)
    decreases |a|
  {
    if a != [] && b != [] {
      LessTrichotomy(a[1..], b[1..]);
      LessTrichotomy(a[1..], a[1..]);
      assert a == [a[0]] + a[1..] && b == [b[0]] + b[1..];
    } else if a != [] {
      LessTrichotomy(a[1..], a[1..]);
    }
  }

  lemma {:induction false} LessTransitive(a: Key, b: Key, c: Key)
    requires Less(a, b) && Less(b, c)
    ensures Less(a, c)
    decreases |a|
  {
    if a != [] && a[0] == b[0] == c[0] { LessTransitive(a[1..], b[1..], c[1..]); }
  }

  predicate Sorted<T(!new)>(s: seq<T>, key: T -> Key) {
    forall i, j :: 0 <= i < j < |s| ==> Less(key(s[i]), key(s[j]))
  }

  /** Whether every element of `s` has a key of its own. */
  predicate Separates<T>(s: set<T>, key: T -> Key) {
    forall x, y :: x in s && y in s && x != y ==> key(x) != key(y)
  }

  function Elements<T>(s: seq<T>): set<T> {
    set x | x in s
  }

  lemma HasElements<T>(s: seq<T>)
    requires s != []
    ensures Elements(s) != {}
  {
    assert s[0] in Elements(s);
  }

  /** Only one sorted sequence has a given set of elements. */
  lemma {:induction false} SortedIsUnique<T(!new)>(s: seq<T>, t: seq<T>, key: T -> Key)
    requires Sorted(s, key) && Sorted(t, key) && Elements(s) == Elements(t)
    ensures s == t
    decreases |s|
  {
    if s == [] {
      if t != [] { HasElements(t); }
    } else {
      assert s[0] in Elements(t);
      var k :| 0 <= k < |t| && t[k] == s[0];
      assert t[0] in Elements(s);
      var j :| 0 <= j < |s| && s[j] == t[0];
      LessTrichotomy(key(s[0]), key(t[0]));
      assert k == 0;
      Rest(s, key);
      Rest(t, key);
      SortedIsUnique(s[1..], t[1..], key);
      assert s == [s[0]] + s[1..] && t == [t[0]] + t[1..];
    }
  }

  lemma Rest<T(!new)>(s: seq<T>, key: T -> Key)
    requires s != [] && Sorted(s, key)
    ensures Sorted(s[1..], key) && Elements(s[1..]) == Elements(s) - {s[0]}
  {
    if s[0] in s[1..] {
      var i :| 1 <= i < |s| && s[i] == s[0];
      LessTrichotomy(key(s[0]), key(s[i]));
    }
    forall x | x in Elements(s) && x != s[0] ensures x in Elements(s[1..]) {
      var i :| 0 <= i < |s| && s[i] == x;
      assert s[1..][i - 1] == x;
    }
  }

  /** One pass of an insertion sort. */
  method Insert<T(!new)>(s: seq<T>, x: T, key: T -> Key) returns (r: seq<T>)
    requires Sorted(s, key) && forall y :: y in s ==> key(y) != key(x)
    ensures Sorted(r, key) && Elements(r) == Elements(s) + {x} && |r| == |s| + 1
  {
    var k := |s|;
    while k > 0 && Less(key(x), key(s[k - 1]))
      invariant 0 <= k <= |s| && forall i :: k <= i < |s| ==> Less(key(x), key(s[i]))
    {
      k := k - 1;
    }
    r := s[..k] + [x] + s[k..];
    if k > 0 {
      LessTrichotomy(key(x), key(s[k - 1]));
      forall i | 0 <= i < k - 1 ensures Less(key(s[i]), key(x)) { LessTransitive(key(s[i]), key(s[k - 1]), key(x)); }
    }
    assert forall y :: y in r <==> y in s[..k] || y == x || y in s[k..];
    assert forall y :: y in s <==> y in s[..k] + s[k..] by { assert s == s[..k] + s[k..]; }
  }

  method SortSet<T(!new, ==)>(s: set<T>, key: T -> Key) returns (r: seq<T>)
    requires Separates(s, key)
    ensures Sorted(r, key) && Elements(r) == s && |r| == |s|
  {
    var rest := s;
    r := [];
    while rest != {}
      invariant rest <= s && Sorted(r, key) && Elements(r) == s - rest && |r| == |s - rest|
      decreases |rest|
    {
      var x :| x in rest;
      forall y | y in r ensures key(y) != key(x) { assert y in Elements(r); }
      ghost var before := s - rest;
      r := Insert(r, x, key);
      rest := rest - {x};
      assert s - rest == before + {x};
    }
    assert s - {} == s;
  }

  // ---------- strings ----------

  /** A string by the codes of its characters. */
  function Codes(s: string): Key {
    seq(|s|, i requires 0 <= i < |s| => s[i] as int)
  }

  lemma CodesApart(a: string, c: string)
    requires Codes(a) == Codes(c)
    ensures a == c
  {
    assert |a| == |Codes(a)| == |c|;
    forall i | 0 <= i < |a| ensures a[i] == c[i] { assert Codes(a)[i] == Codes(c)[i]; }
  }

  predicate Before(a: string, b: string) {
    a == b || Less(Codes(a), Codes(b))
  }

  function InsertString(s: seq<string>, x: string): seq<string> {
    if s == [] || Before(x, s[0]) then [x] + s else [s[0]] + InsertString(s[1..], x)
  }

  function SortStrings(s: seq<string>): seq<string> {
    if s == [] then [] else InsertString(SortStrings(s[1..]), s[0])
  }

  predicate InOrder(s: seq<string>) {
    forall i, j :: 0 <= i < j < |s| ==> Before(s[i], s[j])
  }

  lemma BeforeTotal(a: string, b: string)
    ensures Before(a, b) || Before(b, a)
    ensures Before(a, b) && Before(b, a) ==> a == b
  {
    LessTrichotomy(Codes(a), Codes(b));
    if Codes(a) == Codes(b) { CodesApart(a, b); }
  }

  lemma BeforeTransitive(a: string, b: string, c: string)
    requires Before(a, b) && Before(b, c)
    ensures Before(a, c)
  {
    if a != b && b != c { LessTransitive(Codes(a), Codes(b), Codes(c)); }
  }

  lemma {:induction false} InsertInOrder(s: seq<string>, x: string)
    requires InOrder(s)
    ensures InOrder(InsertString(s, x)) && multiset(InsertString(s, x)) == multiset(s) + multiset{x}
    decreases |s|
  {
    if s == [] {
    } else if Before(x, s[0]) {
      forall i | 0 <= i < |s| ensures Before(x, s[i]) { if i > 0 { BeforeTransitive(x, s[0], s[i]); } }
    } else {
      InsertInOrder(s[1..], x);
      BeforeTotal(x, s[0]);
      var rest := InsertString(s[1..], x);
      assert s == [s[0]] + s[1..];
      forall i | 0 <= i < |rest| ensures Before(s[0], rest[i]) {
        assert rest[i] in multiset(rest);
        assert rest[i] == x || rest[i] in s[1..];
      }
    }
  }

  lemma {:induction false} SortInOrder(s: seq<string>)
    ensures InOrder(SortStrings(s)) && multiset(SortStrings(s)) == multiset(s)
    decreases |s|
  {
    if s != [] {
      SortInOrder(s[1..]);
      InsertInOrder(SortStrings(s[1..]), s[0]);
      assert s == [s[0]] + s[1..];
    }
  }

  lemma FirstIsBefore(a: seq<string>, x: string)
    requires InOrder(a) && x in multiset(a)
    ensures a != [] && Before(a[0], x)
  {
    var j :| 0 <= j < |a| && a[j] == x;
  }

  lemma {:induction false} OrderIsUnique(a: seq<string>, b: seq<string>)
    requires InOrder(a) && InOrder(b) && multiset(a) == multiset(b)
    ensures a == b
    decreases |a|
  {
    assert |multiset(a)| == |a| && |multiset(b)| == |b|;
    if a != [] {
      assert a[0] in multiset(a) && b[0] in multiset(b);
      FirstIsBefore(a, b[0]);
      FirstIsBefore(b, a[0]);
      BeforeTotal(a[0], b[0]);
      assert a == [a[0]] + a[1..] && b == [b[0]] + b[1..];
      assert multiset(a[1..]) == multiset(a) - multiset{a[0]} && multiset(b[1..]) == multiset(b) - multiset{b[0]};
      OrderIsUnique(a[1..], b[1..]);
    }
  }

  /** Two lists are the same after sorting exactly if they hold the same strings equally often. */
  lemma SortedAlike(a: seq<string>, b: seq<string>)
    ensures SortStrings(a) == SortStrings(b) <==> multiset(a) == multiset(b)
  {
    SortInOrder(a);
    SortInOrder(b);
    if multiset(a) == multiset(b) { OrderIsUnique(SortStrings(a), SortStrings(b)); }
  }
}
