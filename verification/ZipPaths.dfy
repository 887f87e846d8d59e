/** Member names of a ZIP archive and the normal form the inventory gives them. */
module ZipPaths {
  import opened PathText
  import opened ZipBytes
  import opened ZipDirectory
  import opened Wrappers

  /** What the interpreter's text library decides: decoding, letters, and encoded sizes. */
  datatype Text = Text(decode: (Bytes, bool) -> Option<string>, isAlpha: char -> bool, size: string -> nat)

  // ---------- the normal form ----------

  /** No backslash and no control character. */
  predicate Printable(s: string) {
    forall i :: 0 <= i < |s| ==> s[i] != '\\' && s[i] >= ' '
  }

  /** A relative path that stays below its root. */
  predicate Safe(p: Path, isAlpha: char -> bool, maxDepth: int) {
    && 1 <= |p| <= maxDepth
    && (forall i :: 0 <= i < |p| ==> p[i] != "" && p[i] != "." && p[i] != ".." && '/' !in p[i] && Printable(p[i]))
    && !(|p[0]| >= 2 && isAlpha(p[0][0]) && p[0][1] == ':')
  }

  predicate PlainPieces(p: Path) {
    forall i :: 0 <= i < |p| ==> p[i] != "" && p[i] != "." && p[i] != ".."
  }

  function NormalPath(raw: Bytes, utf8: bool, directory: bool, text: Text, maxDepth: int): Result<Path> {
    match text.decode(raw, utf8)
    case None => Failed(InvalidPath)
    case Some(name) =>
      if name == "" || !Printable(name) then Failed(InvalidPath)
      else if name[0] == '/' || (|name| >= 2 && text.isAlpha(name[0]) && name[1] == ':') then Failed(InvalidPath)
      else if directory != (name[|name| - 1] == '/') then Failed(InvalidPath)
      else
        var pieces := Split(if directory then name[..|name| - 1] else name);
        if PlainPieces(pieces) && |pieces| <= maxDepth then Ok(pieces) else Failed(InvalidPath)
  }

  // ---------- what is accepted ----------

  lemma {:induction false} PrintablePieces(p: Path)
    ensures Printable(Join(p)) <==> forall i :: 0 <= i < |p| ==> Printable(p[i])
    decreases |p|
  {
    if |p| > 1 {
      PrintablePieces(p[1..]);
      var tail := Join(p[1..]);
      assert Printable(p[0] + "/" + tail) <==> Printable(p[0]) && Printable(tail) by {
        if Printable(p[0] + "/" + tail) {
          forall i | 0 <= i < |tail| ensures tail[i] != '\\' && tail[i] >= ' ' {
            assert (p[0] + "/" + tail)[|p[0]| + 1 + i] == tail[i];
          }
          forall i | 0 <= i < |p[0]| ensures p[0][i] != '\\' && p[0][i] >= ' ' {
            assert (p[0] + "/" + tail)[i] == p[0][i];
          }
        }
      }
      if Printable(p[0]) && Printable(tail) {
        forall i | 0 <= i < |p| ensures Printable(p[i]) { if i > 0 { assert p[i] == p[1..][i - 1]; } }
      }
      if forall i :: 0 <= i < |p| ==> Printable(p[i]) {
        forall i | 0 <= i < |p[1..]| ensures Printable(p[1..][i]) { assert p[1..][i] == p[i + 1]; }
      }
    }
  }

  /** How a path begins and ends when written out. */
  lemma {:induction false} JoinEnds(p: Path)
    requires |p| >= 1 && forall i :: 0 <= i < |p| ==> p[i] != "" && '/' !in p[i]
    ensures |Join(p)| >= |p[0]| >= 1 && Join(p)[..|p[0]|] == p[0]
    ensures |Join(p)| > |p[0]| ==> Join(p)[|p[0]|] == '/'
    ensures Join(p)[|Join(p)| - 1] != '/'
    decreases |p|
  {
    if |p| > 1 {
      JoinEnds(p[1..]);
    }
  }

  /** The name of the member that has this path. */
  function NameOf(p: Path, directory: bool): string {
    Join(p) + if directory then "/" else ""
  }

  lemma SafeIsAccepted(raw: Bytes, utf8: bool, directory: bool, text: Text, maxDepth: int, p: Path)
    requires Safe(p, text.isAlpha, maxDepth) && text.decode(raw, utf8) == Some(NameOf(p, directory))
    ensures NormalPath(raw, utf8, directory, text, maxDepth) == Ok(p)
  {
    var name := NameOf(p, directory);
    JoinEnds(p);
    PrintablePieces(p);
    SplitJoin(p);
    assert name[..|Join(p)|] == Join(p) && name[0] == p[0][0] == Join(p)[..|p[0]|][0];
    if |name| >= 2 && name[1] == ':' { assert |p[0]| >= 2 && p[0][1] == ':'; }
    if !directory { assert name == Join(p); }
  }

  lemma AcceptedIsSafe(raw: Bytes, utf8: bool, directory: bool, text: Text, maxDepth: int)
    requires NormalPath(raw, utf8, directory, text, maxDepth).Ok?
    ensures var p := NormalPath(raw, utf8, directory, text, maxDepth).value;
            Safe(p, text.isAlpha, maxDepth) && text.decode(raw, utf8) == Some(NameOf(p, directory))
  {
    var name := text.decode(raw, utf8).value;
    var body := if directory then name[..|name| - 1] else name;
    var p := Split(body);
    JoinSplit(body);
    PrintablePieces(p);
    JoinEnds(p);
    assert name == NameOf(p, directory);
    assert Printable(body);
    assert name[0] == body[0] == Join(p)[..|p[0]|][0];
    if |p[0]| >= 2 { assert name[1] == body[1] == Join(p)[..|p[0]|][1]; }
  }

  /** A name is accepted exactly when it spells a safe path, and the path is the one it spells. */
  lemma NormalPathIsSafe(raw: Bytes, utf8: bool, directory: bool, text: Text, maxDepth: int, p: Path)
    ensures NormalPath(raw, utf8, directory, text, maxDepth) == Ok(p)
       <==> Safe(p, text.isAlpha, maxDepth) && text.decode(raw, utf8) == Some(NameOf(p, directory))
  {
    if NormalPath(raw, utf8, directory, text, maxDepth) == Ok(p) {
      AcceptedIsSafe(raw, utf8, directory, text, maxDepth);
    }
    if Safe(p, text.isAlpha, maxDepth) && text.decode(raw, utf8) == Some(NameOf(p, directory)) {
      SafeIsAccepted(raw, utf8, directory, text, maxDepth, p);
    }
  }
}
