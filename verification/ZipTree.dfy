/**
 * The incremental tree of an inventory: members are added one by one, each with
 * the folders above it, under an entry limit and a metadata limit.
 */
module ZipTree {
  import opened PathText
  import opened ZipDirectory
  import opened ZipPaths
  import opened ZipRecords

  /** `count` is the number of files and folders so far, `charge` what their metadata costs. */
  datatype Tree = Tree(files: map<Path, nat>, folders: set<Path>, seen: set<Path>, count: nat, charge: nat)

  /** What a folder and a file are charged for their metadata, and how much there may be. */
  datatype Budget = Budget(folderCost: Path -> nat, fileCost: Path -> nat, maxEntries: int, maxMetadata: int)

  // ---------- the builder ----------

  function AddFolder(t: Tree, p: Path, b: Budget): Result<Tree> {
    if p in t.files then Failed(ConflictingPath)
    else if p in t.folders then Ok(t)
    else if t.count >= b.maxEntries then Failed(EntryLimit)
    else if t.charge + b.folderCost(p) > b.maxMetadata then Failed(MetadataLimit)
    else Ok(t.(folders := t.folders + {p}, count := t.count + 1, charge := t.charge + b.folderCost(p)))
  }

  function ThenFolder(r: Result<Tree>, p: Path, b: Budget): Result<Tree> {
    match r
    case Failed(_) => r
    case Ok(t) => AddFolder(t, p, b)
  }

  /** Adds the first `n` folders on the way down `path`. */
  function AddFolders(t: Tree, path: Path, n: nat, b: Budget): Result<Tree>
    requires n <= |path|
    decreases n
  {
    if n == 0 then Ok(t) else ThenFolder(AddFolders(t, path, n - 1, b), path[..n], b)
  }

  function AddFile(t: Tree, e: Entry, b: Budget): Result<Tree> {
    if e.path in t.folders then Failed(ConflictingPath)
    else if t.count >= b.maxEntries then Failed(EntryLimit)
    else if t.charge + b.fileCost(e.path) > b.maxMetadata then Failed(MetadataLimit)
    else Ok(t.(files := t.files[e.path := e.size], count := t.count + 1, charge := t.charge + b.fileCost(e.path)))
  }

  /** How many folders a member brings: those above it, and itself if it is one. */
  function Depth(e: Entry): nat
    ensures Depth(e) <= |e.path|
  {
    if e.directory then |e.path| else if e.path == [] then 0 else |e.path| - 1
  }

  function Add(t: Tree, e: Entry, b: Budget): Result<Tree> {
    if e.path in t.seen then Failed(DuplicatePath)
    else match AddFolders(t.(seen := t.seen + {e.path}), e.path, Depth(e), b)
      case Failed(c) => Failed(c)
      case Ok(u) => if e.directory then Ok(u) else AddFile(u, e, b)
  }

  const EMPTY := Tree(map[], {}, {}, 0, 0)

  function Build(entries: seq<Entry>, b: Budget): Result<Tree>
    decreases |entries|
  {
    if entries == [] then Ok(EMPTY)
    else match Build(entries[..|entries| - 1], b)
      case Failed(c) => Failed(c)
      case Ok(t) => Add(t, entries[|entries| - 1], b)
  }

  method AddMember(t: Tree, e: Entry, b: Budget) returns (r: Result<Tree>)
    requires e.path != []
    ensures r == Add(t, e, b)
  {
    if e.path in t.seen { return Failed(DuplicatePath); }
    var u := t.(seen := t.seen + {e.path});
    for index := 1 to |e.path|
      invariant AddFolders(t.(seen := t.seen + {e.path}), e.path, index - 1, b) == Ok(u)
    {
      var added := AddFolder(u, e.path[..index], b);
      if added.Failed? {
        FailureStays(t.(seen := t.seen + {e.path}), e.path, index, Depth(e), b);
        return added;
      }
      u := added.value;
    }
    assert e.path[..|e.path|] == e.path;
    if e.directory { return AddFolder(u, e.path, b); }
    r := AddFile(u, e, b);
  }

  lemma {:induction false} FailureStays(t: Tree, path: Path, n: nat, m: nat, b: Budget)
    requires n <= m <= |path| && AddFolders(t, path, n, b).Failed?
    ensures AddFolders(t, path, m, b) == AddFolders(t, path, n, b)
    decreases m
  {
    if n < m { FailureStays(t, path, n, m - 1, b); }
  }

  // ---------- what the members mean, in any order ----------

  /** The first `n` folders on the way down `path`. */
  function Prefixes(path: Path, n: nat): set<Path>
    requires n <= |path|
    decreases n
  {
    if n == 0 then {} else Prefixes(path, n - 1) + {path[..n]}
  }

  function Folders(entries: seq<Entry>): set<Path> {
    if entries == [] then {}
    else var e := entries[|entries| - 1];
         Folders(entries[..|entries| - 1]) + Prefixes(e.path, Depth(e))
  }

  function Files(entries: seq<Entry>): map<Path, nat> {
    if entries == [] then map[]
    else var e := entries[|entries| - 1];
         if e.directory then Files(entries[..|entries| - 1]) else Files(entries[..|entries| - 1])[e.path := e.size]
  }

  function Paths(entries: seq<Entry>): set<Path> {
    set e | e in entries :: e.path
  }

  ghost function Sum(cost: Path -> nat, s: set<Path>): nat
    decreases |s|
  {
    if s == {} then 0
    else var p :| p in s; cost(p) + Sum(cost, s - {p})
  }

  /** Every listed item is paid for, and there is room for it. */
  ghost predicate Fits(files: set<Path>, folders: set<Path>, b: Budget) {
    && |folders| + |files| <= b.maxEntries
    && Sum(b.folderCost, folders) + Sum(b.fileCost, files) <= b.maxMetadata
  }

  predicate Distinct(entries: seq<Entry>) {
    forall i, j :: 0 <= i < j < |entries| ==> entries[i].path != entries[j].path
  }

  /** No file is an ancestor of another member. */
  predicate NoFileAbove(entries: seq<Entry>) {
    forall i, j :: 0 <= i < |entries| && 0 <= j < |entries| && entries[i].path < entries[j].path ==> entries[i].directory
  }

  /** The order-free condition under which a set of members makes an inventory. */
  ghost predicate Accepts(entries: seq<Entry>, b: Budget) {
    Distinct(entries) && NoFileAbove(entries) && Fits(Files(entries).Keys, Folders(entries), b)
  }

  ghost function TreeOf(entries: seq<Entry>, b: Budget): Tree {
    Tree(Files(entries), Folders(entries), Paths(entries), |Folders(entries)| + |Files(entries).Keys|,
         Sum(b.folderCost, Folders(entries)) + Sum(b.fileCost, Files(entries).Keys))
  }

  // ---------- sums ----------

  lemma SumPicks(cost: Path -> nat, s: set<Path>) returns (p: Path)
    requires s != {}
    ensures p in s && Sum(cost, s) == cost(p) + Sum(cost, s - {p})
  {
    p :| p in s && Sum(cost, s) == cost(p) + Sum(cost, s - {p});
  }

  lemma Apart(s: set<Path>, p: Path, q: Path)
    requires p !in s && q in s
    ensures s + {p} - {q} == s - {q} + {p} && s - {q} + {q} == s && |s - {q}| < |s|
  {
  }

  lemma {:induction false} SumAdd(cost: Path -> nat, s: set<Path>, p: Path)
    requires p !in s
    ensures Sum(cost, s + {p}) == cost(p) + Sum(cost, s)
    decreases |s|
  {
    var q := SumPicks(cost, s + {p});
    if q == p {
      assert s + {p} - {p} == s;
    } else {
      Apart(s, p, q);
      SumAdd(cost, s - {q}, p);
      SumAdd(cost, s - {q}, q);
    }
  }

  // ---------- membership ----------

  lemma {:induction false} InPrefixes(path: Path, n: nat, p: Path)
    requires n <= |path|
    ensures p in Prefixes(path, n) <==> 1 <= |p| <= n && p == path[..|p|]
  {
    if n > 0 { InPrefixes(path, n - 1, p); }
  }

  lemma {:induction false} InFolders(entries: seq<Entry>, p: Path)
    ensures p in Folders(entries) <==> exists i :: 0 <= i < |entries| && 1 <= |p| <= Depth(entries[i]) && p == entries[i].path[..|p|]
    decreases |entries|
  {
    if entries != [] {
      var init, e := entries[..|entries| - 1], entries[|entries| - 1];
      InFolders(init, p);
      InPrefixes(e.path, Depth(e), p);
      if p in Folders(init) {
        var i :| 0 <= i < |init| && 1 <= |p| <= Depth(init[i]) && p == init[i].path[..|p|];
        assert entries[i] == init[i];
      }
      if exists i :: 0 <= i < |entries| && 1 <= |p| <= Depth(entries[i]) && p == entries[i].path[..|p|] {
        var i :| 0 <= i < |entries| && 1 <= |p| <= Depth(entries[i]) && p == entries[i].path[..|p|];
        if i < |init| { assert entries[i] == init[i]; }
      }
    }
  }

  lemma {:induction false} InFiles(entries: seq<Entry>, p: Path)
    ensures p in Files(entries) <==> exists i :: 0 <= i < |entries| && !entries[i].directory && entries[i].path == p
    ensures p in Files(entries) ==> Entry(p, false, Files(entries)[p]) in entries
    decreases |entries|
  {
    if entries != [] {
      var init, e := entries[..|entries| - 1], entries[|entries| - 1];
      InFiles(init, p);
      assert entries == init + [e];
      assert Entry(p, false, e.size) == e <==> !e.directory && e.path == p;
      if p in Files(init) {
        var i :| 0 <= i < |init| && !init[i].directory && init[i].path == p;
        assert entries[i] == init[i];
      }
      if exists i :: 0 <= i < |entries| && !entries[i].directory && entries[i].path == p {
        var i :| 0 <= i < |entries| && !entries[i].directory && entries[i].path == p;
        if i < |init| { assert entries[i] == init[i]; }
      }
    }
  }

  // ---------- one step ----------

  ghost predicate Consistent(t: Tree, b: Budget) {
    && t.count == |t.folders| + |t.files.Keys|
    && t.charge == Sum(b.folderCost, t.folders) + Sum(b.fileCost, t.files.Keys)
    && Fits(t.files.Keys, t.folders, b)
  }

  /** Adding a folder succeeds exactly if it is no file and the result fits. */
  lemma AddFolderIs(t: Tree, p: Path, b: Budget)
    requires Consistent(t, b)
    ensures var r := AddFolder(t, p, b);
            && (r.Ok? <==> p !in t.files && Fits(t.files.Keys, t.folders + {p}, b))
            && (r.Ok? ==> Consistent(r.value, b) && r.value.folders == t.folders + {p}
                          && r.value.files == t.files && r.value.seen == t.seen)
  {
    if p in t.folders { assert t.folders + {p} == t.folders; } else { SumAdd(b.folderCost, t.folders, p); }
  }

  /** Fewer folders never need more. */
  lemma FitsWithout(files: set<Path>, folders: set<Path>, p: Path, b: Budget)
    requires Fits(files, folders + {p}, b)
    ensures Fits(files, folders, b)
  {
    if p in folders { assert folders + {p} == folders; } else { SumAdd(b.folderCost, folders, p); }
  }

  /** What adding `folders` to `t` comes to. */
  ghost predicate FoldersAdded(r: Result<Tree>, t: Tree, folders: set<Path>, b: Budget) {
    && (r.Ok? <==> folders !! t.files.Keys && Fits(t.files.Keys, t.folders + folders, b))
    && (r.Ok? ==> Consistent(r.value, b) && r.value.folders == t.folders + folders
                  && r.value.files == t.files && r.value.seen == t.seen)
  }

  lemma OneMoreFolder(r: Result<Tree>, t: Tree, folders: set<Path>, p: Path, b: Budget)
    requires FoldersAdded(r, t, folders, b)
    ensures FoldersAdded(ThenFolder(r, p, b), t, folders + {p}, b)
  {
    assert t.folders + (folders + {p}) == t.folders + folders + {p};
    if r.Ok? {
      AddFolderIs(r.value, p, b);
    } else if Fits(t.files.Keys, t.folders + folders + {p}, b) {
      FitsWithout(t.files.Keys, t.folders + folders, p, b);
    }
  }

  lemma NoFolders(t: Tree, path: Path, b: Budget) returns (r: Result<Tree>, folders: set<Path>)
    requires Consistent(t, b)
    ensures r == AddFolders(t, path, 0, b) && folders == Prefixes(path, 0) && FoldersAdded(r, t, folders, b)
  {
    r, folders := Ok(t), {};
    assert t.folders + {} == t.folders;
  }

  lemma OneFolderDown(t: Tree, path: Path, n: nat, b: Budget, r': Result<Tree>, folders': set<Path>)
    returns (r: Result<Tree>, folders: set<Path>)
    requires 0 < n <= |path| && r' == AddFolders(t, path, n - 1, b) && folders' == Prefixes(path, n - 1)
    requires FoldersAdded(r', t, folders', b)
    ensures r == AddFolders(t, path, n, b) && folders == Prefixes(path, n) && FoldersAdded(r, t, folders, b)
  {
    r, folders := ThenFolder(r', path[..n], b), folders' + {path[..n]};
    OneMoreFolder(r', t, folders', path[..n], b);
  }

  /** Adding the folders on a way down, one after the other, comes to adding them as a set. */
  lemma {:induction false} AddFoldersIs(t: Tree, path: Path, n: nat, b: Budget) returns (r: Result<Tree>, folders: set<Path>)
    requires Consistent(t, b) && n <= |path|
    ensures r == AddFolders(t, path, n, b) && folders == Prefixes(path, n) && FoldersAdded(r, t, folders, b)
    decreases n
  {
    if n == 0 {
      r, folders := NoFolders(t, path, b);
    } else {
      r, folders := AddFoldersIs(t, path, n - 1, b);
      r, folders := OneFolderDown(t, path, n, b, r, folders);
    }
  }

  lemma AddFileIs(t: Tree, e: Entry, b: Budget)
    requires Consistent(t, b) && e.path !in t.files
    ensures var r := AddFile(t, e, b);
            var files := t.files[e.path := e.size];
            && (r.Ok? <==> e.path !in t.folders && Fits(files.Keys, t.folders, b))
            && (r.Ok? ==> Consistent(r.value, b) && r.value.files == files && r.value.folders == t.folders && r.value.seen == t.seen)
  {
    var files := t.files[e.path := e.size];
    assert files.Keys == t.files.Keys + {e.path};
    SumAdd(b.fileCost, t.files.Keys, e.path);
  }

  lemma {:induction false} FitsShrinks(files: set<Path>, folders: set<Path>, path: Path, n: nat, b: Budget)
    requires n <= |path| && Fits(files, folders + Prefixes(path, n), b)
    ensures Fits(files, folders, b)
    decreases n
  {
    if n == 0 {
      assert folders + {} == folders;
    } else {
      var before := folders + Prefixes(path, n - 1);
      assert folders + Prefixes(path, n) == before + {path[..n]};
      FitsWithout(files, before, path[..n], b);
      FitsShrinks(files, folders, path, n - 1, b);
    }
  }

  predicate Pathed(entries: seq<Entry>) {
    forall i :: 0 <= i < |entries| ==> entries[i].path != []
  }

  lemma Snoc(entries: seq<Entry>, e: Entry)
    ensures Folders(entries + [e]) == Folders(entries) + Prefixes(e.path, Depth(e))
    ensures Files(entries + [e]) == if e.directory then Files(entries) else Files(entries)[e.path := e.size]
    ensures Paths(entries + [e]) == Paths(entries) + {e.path}
  {
    assert (entries + [e])[..|entries|] == entries;
  }

  /** The new member clashes with none of the others. */
  predicate NoClash(entries: seq<Entry>, e: Entry) {
    forall i :: 0 <= i < |entries| ==>
                  && entries[i].path != e.path
                  && (entries[i].path < e.path ==> entries[i].directory)
                  && (e.path < entries[i].path ==> e.directory)
  }

  lemma ClashFree(entries: seq<Entry>, e: Entry)
    ensures Distinct(entries + [e]) && NoFileAbove(entries + [e]) <==> Distinct(entries) && NoFileAbove(entries) && NoClash(entries, e)
  {
    var all := entries + [e];
    assert forall i :: 0 <= i < |entries| ==> all[i] == entries[i];
    if Distinct(all) && NoFileAbove(all) {
      assert all[|entries|] == e;
    }
  }

  /** A clash shows in the tree: as a path seen before, a file on the way down, or a folder in the place of the file. */
  lemma ClashShows(entries: seq<Entry>, e: Entry)
    requires Pathed(entries) && e.path != []
    ensures NoClash(entries, e) <==>
              && e.path !in Paths(entries) && Prefixes(e.path, Depth(e)) !! Files(entries).Keys
              && (e.directory || e.path !in Folders(entries))
  {
    if !NoClash(entries, e) {
      var i :| 0 <= i < |entries| && !(&& entries[i].path != e.path && (entries[i].path < e.path ==> entries[i].directory)
                                       && (e.path < entries[i].path ==> e.directory));
      var p := entries[i].path;
      InFiles(entries, p);
      InPrefixes(e.path, Depth(e), p);
      InFolders(entries, e.path);
    } else {
      forall p | p in Prefixes(e.path, Depth(e)) ensures p !in Files(entries) {
        InPrefixes(e.path, Depth(e), p);
        InFiles(entries, p);
        assert p < e.path || p == e.path;
      }
      InFolders(entries, e.path);
      if e.path in Folders(entries) {
        var i :| 0 <= i < |entries| && 1 <= |e.path| <= Depth(entries[i]) && e.path == entries[i].path[..|e.path|];
        assert e.path <= entries[i].path;
      }
    }
  }

  // ---------- the whole build ----------

  /** Adding a member to a consistent tree. */
  lemma AddToTree(t: Tree, e: Entry, b: Budget)
    requires Consistent(t, b) && e.path !in t.files && e.path != [] && e.path !in t.seen
    ensures var r := Add(t, e, b);
            var folders := t.folders + Prefixes(e.path, Depth(e));
            var files := if e.directory then t.files else t.files[e.path := e.size];
            && (r.Ok? <==> Prefixes(e.path, Depth(e)) !! t.files.Keys && (e.directory || e.path !in t.folders) && Fits(files.Keys, folders, b))
            && (r.Ok? ==> Consistent(r.value, b) && r.value.folders == folders && r.value.files == files
                          && r.value.seen == t.seen + {e.path})
  {
    var u := t.(seen := t.seen + {e.path});
    var r, added := AddFoldersIs(u, e.path, Depth(e), b);
    if !e.directory {
      NotItsOwnFolder(e);
      var folders := t.folders + added;
      if r.Ok? {
        AddFileIs(r.value, e, b);
      } else if Fits(t.files[e.path := e.size].Keys, folders, b) {
        assert t.files[e.path := e.size].Keys == t.files.Keys + {e.path};
        FitsWithoutFile(t.files.Keys, e.path, folders, b);
      }
    }
  }

  /** Adding one more member to an accepted set: it works exactly if the larger set is accepted, and gives its tree. */
  lemma AddIs(entries: seq<Entry>, e: Entry, b: Budget)
    requires Accepts(entries, b) && Pathed(entries) && e.path != []
    ensures var r := Add(TreeOf(entries, b), e, b);
            (r.Ok? <==> Accepts(entries + [e], b)) && (r.Ok? ==> r.value == TreeOf(entries + [e], b))
  {
    Snoc(entries, e);
    ClashFree(entries, e);
    ClashShows(entries, e);
    if e.path !in Paths(entries) {
      InFiles(entries, e.path);
      AddToTree(TreeOf(entries, b), e, b);
    }
  }

  lemma NotItsOwnFolder(e: Entry)
    requires !e.directory && e.path != []
    ensures e.path !in Prefixes(e.path, Depth(e))
  {
    InPrefixes(e.path, Depth(e), e.path);
  }

  lemma FitsWithoutFile(files: set<Path>, p: Path, folders: set<Path>, b: Budget)
    requires Fits(files + {p}, folders, b)
    ensures Fits(files, folders, b)
  {
    if p in files { assert files + {p} == files; } else { SumAdd(b.fileCost, files, p); }
  }

  /** Leaving out the last member keeps a set acceptable. */
  lemma AcceptsInit(entries: seq<Entry>, e: Entry, b: Budget)
    requires Accepts(entries + [e], b)
    ensures Accepts(entries, b)
  {
    Snoc(entries, e);
    ClashFree(entries, e);
    var files := Files(entries).Keys;
    if !e.directory {
      assert Files(entries)[e.path := e.size].Keys == files + {e.path};
      FitsWithoutFile(files, e.path, Folders(entries + [e]), b);
    }
    FitsShrinks(files, Folders(entries), e.path, Depth(e), b);
  }

  /** The incremental builder accepts exactly the sets of members that the order-free condition allows,
      and builds the tree they mean. */
  lemma {:induction false} BuildIs(entries: seq<Entry>, b: Budget)
    requires Pathed(entries) && b.maxEntries >= 0 && b.maxMetadata >= 0
    ensures Build(entries, b).Ok? <==> Accepts(entries, b)
    ensures Build(entries, b).Ok? ==> Build(entries, b).value == TreeOf(entries, b)
    decreases |entries|
  {
    if entries != [] {
      var init, e := entries[..|entries| - 1], entries[|entries| - 1];
      assert entries == init + [e];
      BuildIs(init, b);
      if Accepts(init, b) { AddIs(init, e, b); }
      if Accepts(entries, b) { AcceptsInit(init, e, b); }
    }
  }

  // ---------- order ----------

  lemma DistinctSnoc(entries: seq<Entry>, e: Entry)
    ensures Distinct(entries + [e]) <==> Distinct(entries) && e.path !in Paths(entries)
  {
    var all := entries + [e];
    assert forall i :: 0 <= i < |entries| ==> all[i] == entries[i] && entries[i].path in Paths(entries);
    if e.path in Paths(entries) {
      var x :| x in entries && x.path == e.path;
      var i :| 0 <= i < |entries| && entries[i] == x;
      assert all[i].path == all[|entries|].path;
    }
  }

  /** Distinctness, without mentioning places. */
  lemma {:induction false} DistinctCounts(entries: seq<Entry>)
    ensures |Paths(entries)| <= |entries|
    ensures Distinct(entries) <==> |Paths(entries)| == |entries|
    decreases |entries|
  {
    if entries != [] {
      var init, e := entries[..|entries| - 1], entries[|entries| - 1];
      assert entries == init + [e];
      DistinctCounts(init);
      DistinctSnoc(init, e);
      Snoc(init, e);
      if e.path in Paths(init) { assert Paths(init) + {e.path} == Paths(init); }
    }
  }

  predicate SameMembers(a: seq<Entry>, c: seq<Entry>) {
    multiset(a) == multiset(c)
  }

  lemma SameElements(a: seq<Entry>, c: seq<Entry>)
    requires SameMembers(a, c)
    ensures |a| == |c| && forall e :: e in a <==> e in c
  {
    assert |multiset(a)| == |a| && |multiset(c)| == |c|;
    forall e ensures e in a <==> e in c { assert (e in multiset(a)) <==> (e in multiset(c)); }
  }

  lemma SameTree(a: seq<Entry>, c: seq<Entry>)
    requires SameMembers(a, c)
    ensures Folders(a) <= Folders(c) && Files(a).Keys <= Files(c).Keys && Paths(a) <= Paths(c)
  {
    SameElements(a, c);
    forall p | p in Folders(a) ensures p in Folders(c) {
      InFolders(a, p);
      InFolders(c, p);
      var i :| 0 <= i < |a| && 1 <= |p| <= Depth(a[i]) && p == a[i].path[..|p|];
      assert a[i] in c;
      var k :| 0 <= k < |c| && c[k] == a[i];
    }
    forall p | p in Files(a) ensures p in Files(c) {
      InFiles(a, p);
      InFiles(c, p);
      var i :| 0 <= i < |a| && !a[i].directory && a[i].path == p;
      assert a[i] in c;
      var k :| 0 <= k < |c| && c[k] == a[i];
    }
  }

  lemma SameNoFileAbove(a: seq<Entry>, c: seq<Entry>)
    requires SameMembers(a, c) && NoFileAbove(a)
    ensures NoFileAbove(c)
  {
    SameElements(a, c);
    forall i, j | 0 <= i < |c| && 0 <= j < |c| && c[i].path < c[j].path ensures c[i].directory {
      assert c[i] in a && c[j] in a;
      var k :| 0 <= k < |a| && a[k] == c[i];
      var l :| 0 <= l < |a| && a[l] == c[j];
    }
  }

  /** With distinct paths, a file's size is the one its member states. */
  lemma SameSizes(a: seq<Entry>, c: seq<Entry>)
    requires SameMembers(a, c) && Distinct(a) && Files(a).Keys == Files(c).Keys
    ensures Files(a) == Files(c)
  {
    SameElements(a, c);
    forall p | p in Files(a) ensures Files(a)[p] == Files(c)[p] {
      InFiles(a, p);
      InFiles(c, p);
      var x, y := Entry(p, false, Files(a)[p]), Entry(p, false, Files(c)[p]);
      assert x in a && y in a;
      var i :| 0 <= i < |a| && a[i] == x;
      var j :| 0 <= j < |a| && a[j] == y;
    }
  }

  lemma SameShape(a: seq<Entry>, c: seq<Entry>)
    requires SameMembers(a, c)
    ensures Folders(a) == Folders(c) && Files(a).Keys == Files(c).Keys && Paths(a) == Paths(c) && |a| == |c|
  {
    SameElements(a, c);
    SameTree(a, c);
    SameTree(c, a);
  }

  lemma SameDistinct(a: seq<Entry>, c: seq<Entry>)
    requires SameMembers(a, c) && Distinct(a)
    ensures Distinct(c)
  {
    SameShape(a, c);
    DistinctCounts(a);
    DistinctCounts(c);
  }

  lemma SameAcceptance(a: seq<Entry>, c: seq<Entry>, b: Budget)
    requires SameMembers(a, c) && Accepts(a, b)
    ensures Accepts(c, b) && TreeOf(a, b) == TreeOf(c, b)
  {
    SameDistinct(a, c);
    SameNoFileAbove(a, c);
    SameShape(a, c);
    SameSizes(a, c);
  }

  /** Whether members are accepted, and what tree they make, does not depend on their order. */
  lemma OrderIsIrrelevant(a: seq<Entry>, c: seq<Entry>, b: Budget)
    requires SameMembers(a, c) && Pathed(a) && Pathed(c) && b.maxEntries >= 0 && b.maxMetadata >= 0
    ensures Build(a, b).Ok? <==> Build(c, b).Ok?
    ensures Build(a, b).Ok? ==> Build(a, b).value == Build(c, b).value
  {
    BuildIs(a, b);
    BuildIs(c, b);
    if Accepts(a, b) { SameAcceptance(a, c, b); }
    if Accepts(c, b) { SameAcceptance(c, a, b); }
  }

  // ---------- the shape of the tree ----------

  /** A member that brings an item brings the folder above it. */
  lemma Brings(entries: seq<Entry>, p: Path) returns (i: nat)
    requires Pathed(entries) && (p in Folders(entries) || p in Files(entries))
    ensures i < |entries| && 1 <= |p| <= |entries[i].path| && p == entries[i].path[..|p|] && |p| - 1 <= Depth(entries[i])
  {
    InFolders(entries, p);
    InFiles(entries, p);
    if p in Folders(entries) {
      i :| 0 <= i < |entries| && 1 <= |p| <= Depth(entries[i]) && p == entries[i].path[..|p|];
    } else {
      i :| 0 <= i < |entries| && !entries[i].directory && entries[i].path == p;
    }
  }

  /** Every item but those at the root has its parent folder, and no path is both a file and a folder. */
  lemma TreeIsClosed(entries: seq<Entry>, b: Budget, p: Path)
    requires Pathed(entries) && Accepts(entries, b) && (p in Folders(entries) || p in Files(entries))
    ensures p != [] && (|p| > 1 ==> p[..|p| - 1] in Folders(entries))
    ensures !(p in Folders(entries) && p in Files(entries))
  {
    var i := Brings(entries, p);
    if |p| > 1 {
      InFolders(entries, p[..|p| - 1]);
      assert p[..|p| - 1] == entries[i].path[..|p| - 1];
    }
    if p in Folders(entries) { FolderIsNoFile(entries, p); }
  }

  lemma FolderIsNoFile(entries: seq<Entry>, p: Path)
    requires Distinct(entries) && NoFileAbove(entries) && p in Folders(entries)
    ensures p !in Files(entries)
  {
    InFolders(entries, p);
    InFiles(entries, p);
    var i :| 0 <= i < |entries| && 1 <= |p| <= Depth(entries[i]) && p == entries[i].path[..|p|];
    assert p <= entries[i].path;
  }
}
