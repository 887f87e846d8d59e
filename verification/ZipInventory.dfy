/** The inventory of an archive, from its bytes to the sorted listing. */
module ZipInventory {
  import opened PathText
  import opened Sorting
  import opened ZipBytes
  import opened ZipDirectory
  import opened ZipPaths
  import opened ZipRecords
  import opened ZipTree

  datatype Item = Item(path: Path, folder: bool, size: nat)

  datatype Report = InvalidLimits | Ready(items: seq<Item>) | Rejected(category: Category)

  function Cost(p: Path, overhead: nat, text: Text): nat {
    text.size(Join(p)) + text.size(if p == [] then "" else p[|p| - 1]) + overhead
  }

  function BudgetOf(text: Text, limits: Limits): Budget {
    Budget((p: Path) => Cost(p, 24, text), (p: Path) => Cost(p, 32, text), limits.maxEntries, limits.maxMetadataBytes)
  }

  // ---------- record after record ----------

  /** Reads `count` records from `at` on and adds each to the tree; the directory has to end there. */
  function InspectFrom(read: Reader, at: nat, count: nat, size: nat, t: Tree, b: Budget): Result<Tree>
    decreases count
  {
    if count == 0 then if at == size then Ok(t) else Failed(MalformedCentralDirectory)
    else match read(at)
      case Failed(c) => Failed(c)
      case Ok((e, next)) =>
        match Add(t, e, b)
        case Failed(c) => Failed(c)
        case Ok(u) => InspectFrom(read, next, count - 1, size, u, b)
  }

  lemma {:induction false} BuildFailsOn(entries: seq<Entry>, rest: seq<Entry>, b: Budget)
    requires Build(entries, b).Failed?
    ensures Build(entries + rest, b).Failed?
    decreases |rest|
  {
    if rest == [] {
      assert entries + rest == entries;
    } else {
      var init := rest[..|rest| - 1];
      BuildFailsOn(entries, init, b);
      assert (entries + rest)[..|entries| + |rest| - 1] == entries + init;
    }
  }

  lemma BuildSnoc(entries: seq<Entry>, e: Entry, b: Budget)
    requires Build(entries, b).Ok?
    ensures Build(entries + [e], b) == Add(Build(entries, b).value, e, b)
  {
    assert (entries + [e])[..|entries|] == entries;
  }

  /** `r` is what the members `done`, followed by those of `all`, come to. */
  predicate Outcome(r: Result<Tree>, all: Result<(seq<Entry>, nat)>, size: nat, done: seq<Entry>, b: Budget) {
    && (r.Ok? <==> all.Ok? && all.value.1 == size && Build(done + all.value.0, b).Ok?)
    && (r.Ok? ==> r == Build(done + all.value.0, b))
  }

  lemma OneMoreRead(r: Result<Tree>, all: Result<(seq<Entry>, nat)>, size: nat, done: seq<Entry>, e: Entry, b: Budget)
    requires Outcome(r, all, size, done + [e], b)
    ensures Outcome(r, if all.Ok? then Ok(([e] + all.value.0, all.value.1)) else all, size, done, b)
  {
    if all.Ok? { assert done + ([e] + all.value.0) == done + [e] + all.value.0; }
  }

  /** A member that cannot be added ends the inspection, whatever follows it. */
  lemma StopsAt(read: Reader, at: nat, count: nat, size: nat, done: seq<Entry>, t: Tree, b: Budget)
    requires Build(done, b) == Ok(t) && count > 0 && read(at).Ok? && Add(t, read(at).value.0, b).Failed?
    ensures Outcome(InspectFrom(read, at, count, size, t, b), ReadAll(read, at, count), size, done, b)
  {
    var (e, next) := read(at).value;
    var all := ReadAll(read, next, count - 1);
    BuildSnoc(done, e, b);
    if all.Ok? {
      BuildFailsOn(done + [e], all.value.0, b);
      assert done + ([e] + all.value.0) == done + [e] + all.value.0;
    }
  }

  lemma GoesOn(read: Reader, at: nat, count: nat, size: nat, done: seq<Entry>, t: Tree, u: Tree, b: Budget)
    requires count > 0 && read(at).Ok? && Add(t, read(at).value.0, b) == Ok(u)
    requires var (e, next) := read(at).value;
             Outcome(InspectFrom(read, next, count - 1, size, u, b), ReadAll(read, next, count - 1), size, done + [e], b)
    ensures Outcome(InspectFrom(read, at, count, size, t, b), ReadAll(read, at, count), size, done, b)
  {
    var (e, next) := read(at).value;
    OneMoreRead(InspectFrom(read, next, count - 1, size, u, b), ReadAll(read, next, count - 1), size, done, e, b);
  }

  lemma Inspected(read: Reader, at: nat, size: nat, done: seq<Entry>, t: Tree, b: Budget)
    requires Build(done, b) == Ok(t)
    ensures Outcome(InspectFrom(read, at, 0, size, t, b), ReadAll(read, at, 0), size, done, b)
  {
    assert done + [] == done;
  }

  /** Reading and adding in turn accepts exactly if all records read, end where they should, and build a tree. */
  lemma {:induction false} InspectIs(read: Reader, at: nat, count: nat, size: nat, done: seq<Entry>, t: Tree, b: Budget)
    requires Build(done, b) == Ok(t)
    ensures Outcome(InspectFrom(read, at, count, size, t, b), ReadAll(read, at, count), size, done, b)
    decreases count
  {
    if count == 0 {
      Inspected(read, at, size, done, t, b);
    } else if read(at).Ok? {
      var (e, next) := read(at).value;
      match Add(t, e, b)
      case Failed(_) => StopsAt(read, at, count, size, done, t, b);
      case Ok(u) =>
        BuildSnoc(done, e, b);
        InspectIs(read, next, count - 1, size, done + [e], u, b);
        GoesOn(read, at, count, size, done, t, u, b);
    }
  }

  lemma ReadsSafePath(d: Bytes, at: nat, text: Text, limits: Limits)
    requires ReadOne(d, at, text, limits).Ok?
    ensures Safe(ReadOne(d, at, text, limits).value.0.path, text.isAlpha, limits.maxDepth)
  {
    var h := ReadHeader(d, at).value.0;
    ReadMemberIs(h, ReadMember(h, text, limits).value, text, limits);
  }

  predicate AllSafe(entries: seq<Entry>, text: Text, limits: Limits) {
    forall i :: 0 <= i < |entries| ==> Safe(entries[i].path, text.isAlpha, limits.maxDepth)
  }

  ghost predicate ReadsSafely(read: Reader, text: Text, limits: Limits) {
    forall at: nat :: read(at).Ok? ==> Safe(read(at).value.0.path, text.isAlpha, limits.maxDepth)
  }

  lemma ReaderIsSafe(d: Bytes, text: Text, limits: Limits)
    ensures ReadsSafely(ReaderOf(d, text, limits), text, limits)
  {
    forall at: nat | ReadOne(d, at, text, limits).Ok?
      ensures Safe(ReadOne(d, at, text, limits).value.0.path, text.isAlpha, limits.maxDepth)
    {
      ReadsSafePath(d, at, text, limits);
    }
  }

  lemma {:induction false} AllReadSafe(read: Reader, at: nat, count: nat, text: Text, limits: Limits)
    requires ReadsSafely(read, text, limits) && ReadAll(read, at, count).Ok?
    ensures AllSafe(ReadAll(read, at, count).value.0, text, limits)
    decreases count
  {
    if count > 0 {
      AllReadSafe(read, read(at).value.1, count - 1, text, limits);
    }
  }

  /** Members have paths. */
  ghost predicate Named(read: Reader) {
    forall at: nat :: read(at).Ok? ==> read(at).value.0.path != []
  }

  method InspectDirectory(read: Reader, count: nat, size: nat, b: Budget) returns (r: Result<Tree>)
    requires Named(read)
    ensures r == InspectFrom(read, 0, count, size, EMPTY, b)
  {
    var consumed: nat := 0;
    var tree := EMPTY;
    for k := 0 to count
      invariant InspectFrom(read, consumed, count - k, size, tree, b) == InspectFrom(read, 0, count, size, EMPTY, b)
    {
      var member := read(consumed);
      if member.Failed? { return Failed(member.category); }
      var added := AddMember(tree, member.value.0, b);
      if added.Failed? { return added; }
      tree, consumed := added.value, member.value.1;
    }
    r := if consumed == size then Ok(tree) else Failed(MalformedCentralDirectory);
  }

  // ---------- the listing ----------

  function KeyOf(x: Item): Key {
    Codes(Join(x.path))
  }

  function FolderRows(t: Tree): set<Item> {
    set p | p in t.folders :: Item(p, true, 0)
  }

  function FileRows(t: Tree): set<Item> {
    set p | p in t.files :: Item(p, false, t.files[p])
  }

  /** A file is listed with the size of the member that has its path. */
  predicate HoldsFile(entries: seq<Entry>, p: Path, size: nat) {
    exists i :: 0 <= i < |entries| && !entries[i].directory && entries[i].path == p && entries[i].size == size
  }

  /** A folder is listed if it is a member itself or stands above one. */
  predicate HoldsFolder(entries: seq<Entry>, p: Path) {
    p != [] && exists i :: 0 <= i < |entries| && p <= entries[i].path && (|p| < |entries[i].path| || entries[i].directory)
  }

  /** `items` lists what the members hold, in the order of the written paths and nothing twice. */
  ghost predicate IsListing(items: seq<Item>, entries: seq<Entry>) {
    && Sorted(items, KeyOf)
    && forall p, folder, size :: Item(p, folder, size) in items
         <==> if folder then size == 0 && HoldsFolder(entries, p) else HoldsFile(entries, p, size)
  }

  lemma ListingIsUnique(a: seq<Item>, c: seq<Item>, entries: seq<Entry>)
    requires IsListing(a, entries) && IsListing(c, entries)
    ensures a == c
  {
    forall x: Item ensures x in Elements(a) <==> x in Elements(c) {
      assert x == Item(x.path, x.folder, x.size);
    }
    SortedIsUnique(a, c, KeyOf);
  }

  lemma FolderRow(entries: seq<Entry>, p: Path)
    ensures p in Folders(entries) <==> HoldsFolder(entries, p)
  {
    InFolders(entries, p);
    if p in Folders(entries) {
      var i :| 0 <= i < |entries| && 1 <= |p| <= Depth(entries[i]) && p == entries[i].path[..|p|];
      assert p <= entries[i].path;
    }
    if HoldsFolder(entries, p) {
      var i :| 0 <= i < |entries| && p <= entries[i].path && (|p| < |entries[i].path| || entries[i].directory);
      assert 1 <= |p| <= Depth(entries[i]) && p == entries[i].path[..|p|];
    }
  }

  lemma FileRow(entries: seq<Entry>, p: Path, size: nat)
    requires Distinct(entries)
    ensures p in Files(entries) && Files(entries)[p] == size <==> HoldsFile(entries, p, size)
  {
    InFiles(entries, p);
    if p in Files(entries) {
      var i :| 0 <= i < |entries| && entries[i] == Entry(p, false, Files(entries)[p]);
      assert HoldsFile(entries, p, Files(entries)[p]);
    }
  }

  /** The rows of the tree, in order, are the listing of its members. */
  lemma RowsAreListing(items: seq<Item>, entries: seq<Entry>, b: Budget)
    requires Distinct(entries) && Sorted(items, KeyOf)
    requires Elements(items) == FolderRows(TreeOf(entries, b)) + FileRows(TreeOf(entries, b))
    ensures IsListing(items, entries)
  {
    forall p, folder, size
      ensures Item(p, folder, size) in items <==> if folder then size == 0 && HoldsFolder(entries, p) else HoldsFile(entries, p, size)
    {
      assert Item(p, folder, size) in items <==> Item(p, folder, size) in Elements(items);
      FolderRow(entries, p);
      FileRow(entries, p, size);
    }
  }

  /** What the metadata of a listing is charged: the bytes of each path and of its last piece, and 24 more for a folder, 32
      more for a file. */
  function Total(items: seq<Item>, text: Text): nat {
    if items == [] then 0
    else
      var x := items[|items| - 1];
      Total(items[..|items| - 1], text)
        + (text.size(Join(x.path)) + text.size(if x.path == [] then "" else x.path[|x.path| - 1]) + if x.folder then 24 else 32)
  }

  function PathsOf(items: seq<Item>, folder: bool): set<Path> {
    set x | x in items && x.folder == folder :: x.path
  }

  predicate PathsDiffer(items: seq<Item>) {
    forall i, j :: 0 <= i < j < |items| ==> items[i].path != items[j].path
  }

  lemma PathsOfAdd(items: seq<Item>, x: Item, folder: bool)
    ensures PathsOf(items + [x], folder) == if x.folder == folder then PathsOf(items, folder) + {x.path} else PathsOf(items, folder)
  {
    if x.folder == folder { assert x in items + [x]; }
  }

  lemma {:induction false} TotalIs(items: seq<Item>, text: Text, limits: Limits)
    requires PathsDiffer(items)
    ensures var b := BudgetOf(text, limits);
            && Total(items, text) == Sum(b.folderCost, PathsOf(items, true)) + Sum(b.fileCost, PathsOf(items, false))
            && |items| == |PathsOf(items, true)| + |PathsOf(items, false)|
    decreases |items|
  {
    if items != [] {
      var init, x, b := items[..|items| - 1], items[|items| - 1], BudgetOf(text, limits);
      assert items == init + [x];
      forall i, j | 0 <= i < j < |init| ensures init[i].path != init[j].path { assert items[i].path != items[j].path; }
      TotalIs(init, text, limits);
      NotYetListed(init, x);
      OneMoreListed(init, x, text, b);
    }
  }

  lemma NotYetListed(init: seq<Item>, x: Item)
    requires PathsDiffer(init + [x])
    ensures x.path !in PathsOf(init, x.folder)
  {
    forall y | y in init ensures y.path != x.path {
      var i :| 0 <= i < |init| && init[i] == y;
      assert (init + [x])[i] == y && (init + [x])[|init|] == x;
    }
  }

  /** One more item adds its own charge. */
  lemma OneMoreListed(init: seq<Item>, x: Item, text: Text, b: Budget)
    requires x.path !in PathsOf(init, x.folder) && b.folderCost(x.path) == Cost(x.path, 24, text) && b.fileCost(x.path) == Cost(x.path, 32, text)
    ensures Sum(b.folderCost, PathsOf(init + [x], true)) + Sum(b.fileCost, PathsOf(init + [x], false))
            == Sum(b.folderCost, PathsOf(init, true)) + Sum(b.fileCost, PathsOf(init, false)) + Cost(x.path, if x.folder then 24 else 32, text)
    ensures |PathsOf(init + [x], true)| + |PathsOf(init + [x], false)| == |PathsOf(init, true)| + |PathsOf(init, false)| + 1
  {
    PathsOfAdd(init, x, true);
    PathsOfAdd(init, x, false);
    if x.folder { SumAdd(b.folderCost, PathsOf(init, true), x.path); } else { SumAdd(b.fileCost, PathsOf(init, false), x.path); }
  }

  lemma ListedOnce(items: seq<Item>)
    requires Sorted(items, KeyOf)
    ensures PathsDiffer(items)
  {
    forall i, j | 0 <= i < j < |items| ensures items[i].path != items[j].path { LessTrichotomy(KeyOf(items[i]), KeyOf(items[j])); }
  }

  lemma ListedPaths(items: seq<Item>, entries: seq<Entry>)
    requires IsListing(items, entries) && Distinct(entries)
    ensures PathsOf(items, true) == Folders(entries) && PathsOf(items, false) == Files(entries).Keys
  {
    forall p ensures p in PathsOf(items, true) <==> p in Folders(entries) {
      FolderRow(entries, p);
      if p in Folders(entries) { assert Item(p, true, 0) in items; }
      if p in PathsOf(items, true) {
        var x :| x in items && x.folder && x.path == p;
        assert x == Item(p, true, x.size);
      }
    }
    forall p ensures p in PathsOf(items, false) <==> p in Files(entries) {
      if p in Files(entries) {
        FileRow(entries, p, Files(entries)[p]);
        assert Item(p, false, Files(entries)[p]) in items;
      }
      if p in PathsOf(items, false) {
        var x :| x in items && !x.folder && x.path == p;
        assert x == Item(p, false, x.size);
        FileRow(entries, p, x.size);
      }
    }
  }

  /** The limits in terms of the listing: members are accepted exactly if no two have the same path, no file stands above
      another member, and what they list is not too many and not charged too much. */
  lemma AcceptedIsPaidFor(items: seq<Item>, entries: seq<Entry>, text: Text, limits: Limits)
    requires IsListing(items, entries)
    ensures Accepts(entries, BudgetOf(text, limits)) <==>
              && Distinct(entries) && NoFileAbove(entries)
              && |items| <= limits.maxEntries && Total(items, text) <= limits.maxMetadataBytes
  {
    if Distinct(entries) {
      ListedOnce(items);
      ListedPaths(items, entries);
      TotalIs(items, text, limits);
    }
  }

  /** Different paths are written differently. */
  lemma KeysApart(p: Path, q: Path)
    requires |p| >= 1 && |q| >= 1 && Codes(Join(p)) == Codes(Join(q))
    requires forall i :: 0 <= i < |p| ==> '/' !in p[i]
    requires forall i :: 0 <= i < |q| ==> '/' !in q[i]
    ensures p == q
  {
    CodesApart(Join(p), Join(q));
    SplitJoin(p);
    SplitJoin(q);
  }

  lemma ListedPath(entries: seq<Entry>, p: Path, text: Text, limits: Limits)
    requires AllSafe(entries, text, limits) && (p in Folders(entries) || p in Files(entries))
    ensures |p| >= 1 && forall i :: 0 <= i < |p| ==> '/' !in p[i]
  {
    InFolders(entries, p);
    InFiles(entries, p);
  }

  lemma RowsSeparate(entries: seq<Entry>, text: Text, limits: Limits, b: Budget)
    requires AllSafe(entries, text, limits) && Distinct(entries) && NoFileAbove(entries)
    ensures Separates(FolderRows(TreeOf(entries, b)) + FileRows(TreeOf(entries, b)), KeyOf)
  {
    var t := TreeOf(entries, b);
    forall x, y | x in FolderRows(t) + FileRows(t) && y in FolderRows(t) + FileRows(t) && x != y
      ensures KeyOf(x) != KeyOf(y)
    {
      ListedPath(entries, x.path, text, limits);
      ListedPath(entries, y.path, text, limits);
      if KeyOf(x) == KeyOf(y) { KeysApart(x.path, y.path); }
      if x.path in t.folders { FolderIsNoFile(entries, x.path); }
    }
  }

  // ---------- the archive ----------

  predicate Positive(limits: Limits) {
    limits.maxEntries >= 1 && limits.maxCentralDirectoryBytes >= 1 && limits.maxMetadataBytes >= 1 && limits.maxDepth >= 1
  }

  /** `d` is the central directory that the end record at `p` describes, with `count` records. */
  ghost predicate DirectoryOf(s: Bytes, p: nat, d: Bytes, count: nat, limits: Limits) {
    && LastEndRecord(s, p) && p + END_SIZE <= |s| && Locate(s, p, limits).Ok?
    && var l := Locate(s, p, limits).value; l.offset + l.size <= |s| && d == s[l.offset..l.offset + l.size] && count == l.entries
  }

  /** `d` holds exactly these acceptable members, and `items` is their listing, small enough to be returned. */
  ghost predicate Lists(d: Bytes, entries: seq<Entry>, items: seq<Item>, text: Text, limits: Limits, listingSize: seq<Item> -> nat) {
    var b := BudgetOf(text, limits);
    && EntriesAre(ReadAll(ReaderOf(d, text, limits), 0, |entries|), entries, |d|)
    && Accepts(entries, b) && IsListing(items, entries) && listingSize(items) <= limits.maxMetadataBytes
  }

  ghost predicate Described(s: Bytes, d: Bytes, count: nat, limits: Limits) {
    exists p: nat :: DirectoryOf(s, p, d, count, limits)
  }

  /** The specification: so does the directory that the last end record describes. */
  ghost predicate Conforms(s: Bytes, entries: seq<Entry>, items: seq<Item>, text: Text, limits: Limits, listingSize: seq<Item> -> nat) {
    exists d :: Described(s, d, |entries|, limits) && Lists(d, entries, items, text, limits, listingSize)
  }

  /** What inspecting a directory comes to, in terms of its members. */
  lemma DirectoryIs(d: Bytes, count: nat, text: Text, limits: Limits)
    requires Positive(limits)
    ensures var r := InspectFrom(ReaderOf(d, text, limits), 0, count, |d|, EMPTY, BudgetOf(text, limits));
            var all := ReadAll(ReaderOf(d, text, limits), 0, count);
            && (r.Ok? <==> all.Ok? && all.value.1 == |d| && Accepts(all.value.0, BudgetOf(text, limits)))
            && (r.Ok? ==> AllSafe(all.value.0, text, limits) && r.value == TreeOf(all.value.0, BudgetOf(text, limits)))
  {
    var read, b := ReaderOf(d, text, limits), BudgetOf(text, limits);
    InspectIs(read, 0, count, |d|, [], EMPTY, b);
    if ReadAll(read, 0, count).Ok? {
      ReaderIsSafe(d, text, limits);
      AllReadSafe(read, 0, count, text, limits);
      var entries := ReadAll(read, 0, count).value.0;
      assert [] + entries == entries;
      BuildIs(entries, b);
    }
  }

  lemma {:induction false} ReadsCount(read: Reader, at: nat, count: nat)
    requires ReadAll(read, at, count).Ok?
    ensures |ReadAll(read, at, count).value.0| == count
    decreases count
  {
    if count > 0 { ReadsCount(read, read(at).value.1, count - 1); }
  }

  /** A member cannot be added to those before it, or what the directory lists is too much to return. */
  predicate BlamedFor(d: Bytes, count: nat, category: Category, text: Text, limits: Limits) {
    var inspected := InspectFrom(ReaderOf(d, text, limits), 0, count, |d|, EMPTY, BudgetOf(text, limits));
    category == if inspected.Failed? then inspected.category else MetadataLimit
  }

  /** Turns a directory into a report. */
  method ReportOn(d: Bytes, count: nat, limits: Limits, text: Text, listingSize: seq<Item> -> nat) returns (r: Report)
    requires Positive(limits)
    ensures r != InvalidLimits
    ensures FaithfulTo(d, count, r, text, limits, listingSize)
    ensures r.Rejected? ==> BlamedFor(d, count, r.category, text, limits)
  {
    var read, b := ReaderOf(d, text, limits), BudgetOf(text, limits);
    forall at: nat | read(at).Ok? ensures read(at).value.0.path != [] { ReadsSafePath(d, at, text, limits); }
    var inspected := InspectDirectory(read, count, |d|, b);
    DirectoryIs(d, count, text, limits);
    if inspected.Failed? { return Rejected(inspected.category); }
    var tree := inspected.value;
    ghost var entries := ReadAll(read, 0, count).value.0;
    ReadsCount(read, 0, count);
    RowsSeparate(entries, text, limits, b);
    var items := SortSet(FolderRows(tree) + FileRows(tree), KeyOf);
    RowsAreListing(items, entries, b);
    forall other | IsListing(other, entries) ensures other == items { ListingIsUnique(other, items, entries); }
    if listingSize(items) > limits.maxMetadataBytes { return Rejected(MetadataLimit); }
    assert Lists(d, entries, items, text, limits, listingSize);
    r := Ready(items);
  }

  /** A listing is reported only if the specification allows it, and if it allows one, that one is. */
  ghost predicate Faithful(s: Bytes, r: Report, text: Text, limits: Limits, listingSize: seq<Item> -> nat) {
    && (r.Ready? ==> exists entries :: Conforms(s, entries, r.items, text, limits, listingSize))
    && (forall entries, items :: Conforms(s, entries, items, text, limits, listingSize) ==> r == Ready(items))
  }

  ghost predicate FaithfulTo(d: Bytes, count: nat, r: Report, text: Text, limits: Limits, listingSize: seq<Item> -> nat) {
    && (r.Ready? ==> exists entries :: |entries| == count && Lists(d, entries, r.items, text, limits, listingSize))
    && (forall entries, items :: |entries| == count && Lists(d, entries, items, text, limits, listingSize) ==> r == Ready(items))
  }

  /** Why an archive is rejected: it has no end record, the last one describes no directory that can be read, a member of
      that directory cannot be added to those before it, or what it lists is too much to return. */
  ghost predicate Blamed(s: Bytes, category: Category, text: Text, limits: Limits) {
    || (category == NotZip && forall p: nat :: TailOffset(s) <= p ==> !EndRecordAt(s, p))
    || (exists p: nat :: LastEndRecord(s, p) && p + END_SIZE <= |s| && Locate(s, p, limits) == Failed(category))
    || (exists d, count :: Described(s, d, count, limits) && BlamedFor(d, count, category, text, limits))
  }

  /** inspect_archive: it reports a listing exactly when the specification allows one, and then that listing. */
  method InspectArchive(s: Bytes, limits: Limits, text: Text, listingSize: seq<Item> -> nat) returns (r: Report)
    ensures r == InvalidLimits <==> !Positive(limits)
    ensures Positive(limits) ==> Faithful(s, r, text, limits, listingSize)
    ensures r.Rejected? ==> Blamed(s, r.category, text, limits)
  {
    if !Positive(limits) { return InvalidLimits; }
    var location := DirectoryLocation(s, limits);
    OneDirectory(s, limits, location);
    if location.Failed? {
      NothingFound(s, text, limits, listingSize, location);
      r := Rejected(location.category);
    } else {
      r := InspectLocated(s, location.value, limits, text, listingSize);
    }
  }

  /** Where the directory is known, its members decide. */
  method InspectLocated(s: Bytes, l: Location, limits: Limits, text: Text, listingSize: seq<Item> -> nat) returns (r: Report)
    requires Positive(limits) && l.offset + l.size <= |s|
    requires Described(s, s[l.offset..l.offset + l.size], l.entries, limits)
    requires forall d, count :: Described(s, d, count, limits) ==> d == s[l.offset..l.offset + l.size] && count == l.entries
    ensures r != InvalidLimits && Faithful(s, r, text, limits, listingSize)
    ensures r.Rejected? ==> Blamed(s, r.category, text, limits)
  {
    var d := s[l.offset..l.offset + l.size];
    r := ReportOn(d, l.entries, limits, text, listingSize);
    Concludes(s, d, l.entries, r, text, limits, listingSize);
    if r.Rejected? { ReportBlamed(s, d, l.entries, r.category, text, limits); }
  }

  lemma NothingFound(s: Bytes, text: Text, limits: Limits, listingSize: seq<Item> -> nat, location: Result<Location>)
    requires location.Failed? && forall d, count :: !Described(s, d, count, limits)
    requires location == Failed(NotZip) <==> forall p: nat :: TailOffset(s) <= p ==> !EndRecordAt(s, p)
    requires forall p: nat :: LastEndRecord(s, p) ==> p + END_SIZE <= |s| && location == Locate(s, p, limits)
    ensures Faithful(s, Rejected(location.category), text, limits, listingSize)
    ensures Blamed(s, location.category, text, limits)
  {
    NothingConforms(s, Rejected(location.category), text, limits, listingSize);
    LocationBlamed(s, text, limits, location);
  }

  lemma LocationBlamed(s: Bytes, text: Text, limits: Limits, location: Result<Location>)
    requires location.Failed?
    requires location == Failed(NotZip) <==> forall p: nat :: TailOffset(s) <= p ==> !EndRecordAt(s, p)
    requires forall p: nat :: LastEndRecord(s, p) ==> p + END_SIZE <= |s| && location == Locate(s, p, limits)
    ensures Blamed(s, location.category, text, limits)
  {
    if location != Failed(NotZip) {
      var p: nat :| TailOffset(s) <= p && EndRecordAt(s, p);
      p := LastFrom(s, p);
    }
  }

  lemma ReportBlamed(s: Bytes, d: Bytes, count: nat, category: Category, text: Text, limits: Limits)
    requires Described(s, d, count, limits) && BlamedFor(d, count, category, text, limits)
    ensures Blamed(s, category, text, limits)
  {
  }

  lemma NothingConforms(s: Bytes, r: Report, text: Text, limits: Limits, listingSize: seq<Item> -> nat)
    requires r.Rejected? && forall d, count :: !Described(s, d, count, limits)
    ensures Faithful(s, r, text, limits, listingSize)
  {
  }

  lemma Concludes(s: Bytes, d: Bytes, n: nat, r: Report, text: Text, limits: Limits, listingSize: seq<Item> -> nat)
    requires Described(s, d, n, limits) && forall e, count :: Described(s, e, count, limits) ==> e == d && count == n
    requires FaithfulTo(d, n, r, text, limits, listingSize)
    ensures Faithful(s, r, text, limits, listingSize)
  {
    if r.Ready? {
      var entries :| |entries| == n && Lists(d, entries, r.items, text, limits, listingSize);
      assert Conforms(s, entries, r.items, text, limits, listingSize);
    }
    forall entries, items | Conforms(s, entries, items, text, limits, listingSize) ensures r == Ready(items) {
      var e :| Described(s, e, |entries|, limits) && Lists(e, entries, items, text, limits, listingSize);
      assert Lists(d, entries, items, text, limits, listingSize);
    }
  }

  /** There is a directory to report on exactly if one is found, and it is that one. */
  lemma OneDirectory(s: Bytes, limits: Limits, location: Result<Location>)
    requires location == Failed(NotZip) <==> forall p: nat :: TailOffset(s) <= p ==> !EndRecordAt(s, p)
    requires forall p: nat :: LastEndRecord(s, p) ==> p + END_SIZE <= |s| && location == Locate(s, p, limits)
    ensures location.Failed? ==> forall d, count :: !Described(s, d, count, limits)
    ensures location.Ok? ==>
              var l := location.value;
              && l.offset + l.size <= |s| && Described(s, s[l.offset..l.offset + l.size], l.entries, limits)
              && forall d, count :: Described(s, d, count, limits) ==> d == s[l.offset..l.offset + l.size] && count == l.entries
  {
    if location.Ok? {
      var l := location.value;
      var p := LocatedAt(s, limits, location);
      assert DirectoryOf(s, p, s[l.offset..l.offset + l.size], l.entries, limits);
    }
  }

  lemma LocatedAt(s: Bytes, limits: Limits, location: Result<Location>) returns (p: nat)
    requires location.Ok?
    requires location == Failed(NotZip) <==> forall p: nat :: TailOffset(s) <= p ==> !EndRecordAt(s, p)
    requires forall p: nat :: LastEndRecord(s, p) ==> p + END_SIZE <= |s| && location == Locate(s, p, limits)
    ensures LastEndRecord(s, p) && p + END_SIZE <= |s| && location == Locate(s, p, limits)
    ensures location.value.offset + location.value.size <= |s|
  {
    p :| TailOffset(s) <= p && EndRecordAt(s, p);
    p := LastFrom(s, p);
  }

  lemma LastFrom(s: Bytes, p: nat) returns (last: nat)
    requires TailOffset(s) <= p && EndRecordAt(s, p)
    ensures LastEndRecord(s, last)
    decreases |s| - p
  {
    last := p;
    if exists q: nat :: p < q && EndRecordAt(s, q) {
      var q: nat :| p < q && EndRecordAt(s, q);
      last := LastFrom(s, q);
    }
  }

  // ---------- a written archive ----------

  /** Members that a writer can write and the inventory accepts, each as its entry, with their listing. */
  ghost predicate Presentable(headers: seq<(Header, Ignored)>, entries: seq<Entry>, items: seq<Item>,
                              text: Text, limits: Limits, listingSize: seq<Item> -> nat) {
    && Members(headers, entries, text, limits)
    && Accepts(entries, BudgetOf(text, limits)) && IsListing(items, entries)
    && listingSize(items) <= limits.maxMetadataBytes
  }

  /** An archive within the limits, in which no later offset looks like an end record. */
  ghost predicate Readable(s: Bytes, d: Bytes, l: Location, force: bool, extension: Bytes, end: Bytes, limits: Limits) {
    && IsArchive(s, d, l, force, extension, end) && Writable(l, extension)
    && (forall q: nat :: EndOf(l, force, extension) < q ==> !EndRecordAt(s, q))
    && l.entries <= limits.maxEntries && l.size <= limits.maxCentralDirectoryBytes
  }

  lemma WrittenLists(headers: seq<(Header, Ignored)>, entries: seq<Entry>, items: seq<Item>,
                     text: Text, limits: Limits, listingSize: seq<Item> -> nat)
    requires Presentable(headers, entries, items, text, limits, listingSize)
    ensures Lists(Directory(headers), entries, items, text, limits, listingSize)
  {
    WrittenDirectory(headers, entries, text, limits);
  }

  /** Exactness: a directory lists these members exactly if it can be written for them and they are presentable. */
  lemma ListsExactly(d: Bytes, entries: seq<Entry>, items: seq<Item>, text: Text, limits: Limits, listingSize: seq<Item> -> nat)
    ensures Lists(d, entries, items, text, limits, listingSize)
       <==> exists headers :: d == Directory(headers) && Presentable(headers, entries, items, text, limits, listingSize)
  {
    DirectoryExact(d, entries, text, limits);
    if Lists(d, entries, items, text, limits, listingSize) {
      var headers :| d == Directory(headers) && Members(headers, entries, text, limits);
      assert Presentable(headers, entries, items, text, limits, listingSize);
    }
    forall headers | d == Directory(headers) && Presentable(headers, entries, items, text, limits, listingSize)
      ensures Lists(d, entries, items, text, limits, listingSize)
    {
      WrittenLists(headers, entries, items, text, limits, listingSize);
    }
  }

  lemma WrittenPlace(s: Bytes, d: Bytes, l: Location, force: bool, extension: Bytes, end: Bytes, limits: Limits)
    requires Readable(s, d, l, force, extension, end, limits)
    ensures Described(s, d, l.entries, limits)
  {
    WrittenLocation(s, d, l, force, extension, end, limits);
    assert DirectoryOf(s, EndOf(l, force, extension), d, l.entries, limits);
  }

  lemma Together(s: Bytes, d: Bytes, entries: seq<Entry>, items: seq<Item>, text: Text, limits: Limits, listingSize: seq<Item> -> nat)
    requires Described(s, d, |entries|, limits) && Lists(d, entries, items, text, limits, listingSize)
    ensures Conforms(s, entries, items, text, limits, listingSize)
  {
  }

  /** Round trip: an archive of acceptable members, whatever stands in front of its directory and whether or not its
      records are ZIP64, has exactly the listing of those members. */
  lemma WrittenArchive(s: Bytes, headers: seq<(Header, Ignored)>, entries: seq<Entry>, items: seq<Item>,
                       l: Location, force: bool, extension: Bytes, end: Bytes,
                       text: Text, limits: Limits, listingSize: seq<Item> -> nat)
    requires Presentable(headers, entries, items, text, limits, listingSize) && l.entries == |headers|
    requires Readable(s, Directory(headers), l, force, extension, end, limits)
    ensures Conforms(s, entries, items, text, limits, listingSize)
  {
    WrittenLists(headers, entries, items, text, limits, listingSize);
    WrittenPlace(s, Directory(headers), l, force, extension, end, limits);
    Together(s, Directory(headers), entries, items, text, limits, listingSize);
  }

  /** The end record for a directory, with its comment. */
  function EndRecord(l: Location, force: bool, comment: Bytes): Bytes {
    Written(EndPieces(Shown(l, force), |comment|), comment)
  }

  lemma EndRecordFits(l: Location, force: bool, comment: Bytes)
    requires |comment| <= MAX_COMMENT
    ensures IsEnd(EndRecord(l, force, comment), Shown(l, force)) && |EndRecord(l, force, comment)| == END_SIZE + |comment|
  {
    EndRecordIsEnd(Shown(l, force), comment);
  }

  lemma NothingHidden(s: Bytes, e: nat)
    requires |s| <= e + END_SIZE
    ensures forall q: nat :: e < q ==> !EndRecordAt(s, q)
  {
  }

  /** Written and read back: whatever the local records in front, a directory of acceptable members followed by its end
      records, ZIP64 ones where they are needed or forced, is an archive with the listing of those members. A comment has
      to leave the end record the last one; without one there is nothing to check. */
  lemma WriteThenInspect(members: Bytes, headers: seq<(Header, Ignored)>, entries: seq<Entry>, items: seq<Item>, force: bool,
                         extension: Bytes, comment: Bytes, text: Text, limits: Limits, listingSize: seq<Item> -> nat)
    requires Presentable(headers, entries, items, text, limits, listingSize) && |headers| <= limits.maxEntries
    requires |Directory(headers)| <= limits.maxCentralDirectoryBytes && |comment| <= MAX_COMMENT
    requires Writable(Location(|members|, |Directory(headers)|, |headers|), extension)
    requires var l := Location(|members|, |Directory(headers)|, |headers|);
             var s := Archive(members, Directory(headers), |headers|, force, extension, EndRecord(l, force, comment));
             comment == [] || forall q: nat :: EndOf(l, force, extension) < q ==> !EndRecordAt(s, q)
    ensures var l := Location(|members|, |Directory(headers)|, |headers|);
            var s := Archive(members, Directory(headers), |headers|, force, extension, EndRecord(l, force, comment));
            Conforms(s, entries, items, text, limits, listingSize)
    ensures forall k :: 0 <= k < |headers| && !NamesDirectory(headers[k].0) && headers[k].0.uncompressed != MAX32 ==>
              Item(entries[k].path, false, headers[k].0.uncompressed) in items
  {
    var d := Directory(headers);
    var l := Location(|members|, |d|, |headers|);
    var end := EndRecord(l, force, comment);
    var s := Archive(members, d, |headers|, force, extension, end);
    EndRecordFits(l, force, comment);
    ArchiveIsArchive(members, d, |headers|, force, extension, end);
    ArchiveEnds(s, d, l, force, extension, end);
    if comment == [] { NothingHidden(s, EndOf(l, force, extension)); }
    WrittenArchive(s, headers, entries, items, l, force, extension, end, text, limits, listingSize);
    forall k | 0 <= k < |headers| && !NamesDirectory(headers[k].0) && headers[k].0.uncompressed != MAX32
      ensures Item(entries[k].path, false, headers[k].0.uncompressed) in items
    {
      ListsShownSize(headers, entries, items, k, text, limits, listingSize);
    }
  }

  /** A file is listed with the size that its record shows. */
  lemma ListsShownSize(headers: seq<(Header, Ignored)>, entries: seq<Entry>, items: seq<Item>, k: nat,
                       text: Text, limits: Limits, listingSize: seq<Item> -> nat)
    requires Presentable(headers, entries, items, text, limits, listingSize)
    requires k < |headers| && !NamesDirectory(headers[k].0) && headers[k].0.uncompressed != MAX32
    ensures Item(entries[k].path, false, headers[k].0.uncompressed) in items
  {
    var h := headers[k].0;
    assert Acceptable(h, entries[k], text, limits);
    ShownSize(h.extra, h.compressed, h.uncompressed, h.offset, h.disk);
    assert HoldsFile(entries, entries[k].path, h.uncompressed);
  }

  /** The record of a member with these sizes, whichever of them were moved to its ZIP64 block. */
  predicate MovedTo(h: Header, actual: map<Need, nat>, blocks: seq<Block>, more: Bytes, rest: Bytes) {
    && Fits64(actual) && OtherKinds(blocks)
    && Shows(h.uncompressed, actual[Uncompressed], MAX32) && Shows(h.compressed, actual[Compressed], MAX32)
    && Shows(h.offset, actual[Offset], MAX32) && Shows(h.disk, actual[Disk], MAX16)
    && var needs := Required(h.compressed, h.uncompressed, h.offset, h.disk);
       |Values(needs, actual, more)| < 0x1_0000 && h.extra == Blocks(blocks, BlockThen(Block(1, Values(needs, actual, more)), rest))
  }

  /** And a file whose size was moved to the extra field with the size that was written there. */
  lemma ListsMovedSize(headers: seq<(Header, Ignored)>, entries: seq<Entry>, items: seq<Item>, k: nat, actual: map<Need, nat>,
                       blocks: seq<Block>, more: Bytes, rest: Bytes, text: Text, limits: Limits, listingSize: seq<Item> -> nat)
    requires Presentable(headers, entries, items, text, limits, listingSize)
    requires k < |headers| && !NamesDirectory(headers[k].0) && MovedTo(headers[k].0, actual, blocks, more, rest)
    ensures Item(entries[k].path, false, actual[Uncompressed]) in items
  {
    var h := headers[k].0;
    assert Acceptable(h, entries[k], text, limits);
    WrittenSizes(actual, h.compressed, h.uncompressed, h.offset, h.disk, blocks, more, rest);
    assert HoldsFile(entries, entries[k].path, actual[Uncompressed]);
  }

  /** An archive is as long as its end record says. */
  lemma ArchiveEnds(s: Bytes, d: Bytes, l: Location, force: bool, extension: Bytes, end: Bytes)
    requires IsArchive(s, d, l, force, extension, end) && Writable(l, extension) && |end| >= END_SIZE
    ensures |s| == EndOf(l, force, extension) + |end|
  {
    if NeedsZip64(Shown(l, force)) { WrittenZip64(s, l.offset + l.size, l, extension, end, EndOf(l, force, extension)); }
  }
}
