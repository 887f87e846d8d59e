/** The paths that the employee read gateway accepts from a request. */
module GatewayPaths {
  import opened PathText
  import opened Wrappers

  const MAX_BYTES := 4096
  const MAX_PARTS := 64
  const MAX_PART_BYTES := 255

  /** What the interpreter's text library decides: control, format and surrogate characters, and encoded sizes. */
  datatype Text = Text(unprintable: char -> bool, size: string -> nat)

  predicate Allowed(c: char, text: Text) {
    c != '\\' && c != '%' && c != ':' && !text.unprintable(c)
  }

  predicate AllAllowed(s: string, text: Text) {
    forall i :: 0 <= i < |s| ==> Allowed(s[i], text)
  }

  predicate GoodPart(part: string, text: Text) {
    part != "" && part != "." && part != ".." && text.size(part) <= MAX_PART_BYTES
  }

  /** path_parts; None is the refusal. */
  function PathParts(value: string, allowEmpty: bool, text: Text): Option<Path> {
    if value == "" && allowEmpty then Some([])
    else if !AllAllowed(value, text) then None
    else
      var parts := Split(value);
      if text.size(value) > MAX_BYTES || |parts| > MAX_PARTS || exists i :: 0 <= i < |parts| && !GoodPart(parts[i], text)
      then None
      else Some(parts)
  }

  /** Parts that stay below the root and spell a path within the limits. */
  predicate Below(parts: Path, text: Text) {
    && 1 <= |parts| <= MAX_PARTS && text.size(Join(parts)) <= MAX_BYTES
    && forall i :: 0 <= i < |parts| ==> IsName(parts[i], text)
  }

  /** One step down from a directory: neither nothing nor a step to the same place or up, no separator of any kind, and no
      character that is read as something else or not seen at all. */
  predicate IsName(part: string, text: Text) {
    && part !in {"", ".", ".."} && text.size(part) <= MAX_PART_BYTES && '/' !in part && '\\' !in part && '%' !in part && ':' !in part
    && forall i :: 0 <= i < |part| ==> !text.unprintable(part[i])
  }

  lemma NameIs(part: string, text: Text)
    ensures IsName(part, text) <==> GoodPart(part, text) && '/' !in part && AllAllowed(part, text)
  {
  }

  lemma {:induction false} AllAllowedParts(p: Path, text: Text)
    requires Allowed('/', text)
    ensures AllAllowed(Join(p), text) <==> forall i :: 0 <= i < |p| ==> AllAllowed(p[i], text)
    decreases |p|
  {
    if |p| > 1 {
      AllAllowedParts(p[1..], text);
      AllAllowedBoth(p[0], Join(p[1..]), text);
      assert forall i :: 1 <= i < |p| ==> p[i] == p[1..][i - 1];
    }
  }

  lemma AllAllowedBoth(a: string, b: string, text: Text)
    requires Allowed('/', text)
    ensures AllAllowed(a + "/" + b, text) <==> AllAllowed(a, text) && AllAllowed(b, text)
  {
    var s := a + "/" + b;
    assert forall i :: 0 <= i < |a| ==> s[i] == a[i];
    assert forall i :: 0 <= i < |b| ==> s[|a| + 1 + i] == b[i];
  }

  /** A non-empty path is accepted exactly when it spells parts that stay below the root, and as those parts. */
  lemma PathPartsAreBelow(value: string, allowEmpty: bool, parts: Path, text: Text)
    requires Allowed('/', text) && (value != "" || !allowEmpty)
    ensures PathParts(value, allowEmpty, text) == Some(parts) <==> value == Join(parts) && Below(parts, text)
  {
    JoinSplit(value);
    AllAllowedParts(Split(value), text);
    forall i | 0 <= i < |Split(value)|
      ensures IsName(Split(value)[i], text) <==> GoodPart(Split(value)[i], text) && AllAllowed(Split(value)[i], text)
    {
      NameIs(Split(value)[i], text);
    }
    if value == Join(parts) && Below(parts, text) { SplitJoin(parts); }
  }

  /** A directory entry is a single part, so no listed name leads anywhere else. */
  lemma NamesAreSingle(name: string, text: Text)
    requires Allowed('/', text)
    ensures PathParts(name, false, text) == Some([name]) <==> IsName(name, text) && text.size(name) <= MAX_BYTES
  {
    PathPartsAreBelow(name, false, [name], text);
    assert Join([name]) == name;
  }
}
