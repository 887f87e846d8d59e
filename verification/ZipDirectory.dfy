/**
 * Finding the central directory of a ZIP archive from its end records
 * (APPNOTE.TXT sections 4.3.14 to 4.3.16), and the writer it has to agree with.
 */
module ZipDirectory {
  import opened ZipBytes

  datatype Category =
    | NotZip | MultiDisk | Zip64Invalid | EntryLimit | CentralDirectoryTooLarge | MalformedCentralDirectory
    | InvalidPath | EncryptedEntries | UnsafeSymlink | UnsafeSpecialFile | DuplicatePath | ConflictingPath | MetadataLimit

  datatype Result<+T> = Ok(value: T) | Failed(category: Category)

  datatype Limits = Limits(maxEntries: int, maxCentralDirectoryBytes: int, maxMetadataBytes: int, maxDepth: int)

  datatype Location = Location(offset: nat, size: nat, entries: nat)

  const END_SIZE := 22
  const MAX_COMMENT := 0xFFFF
  const END_SIGNATURE: Bytes := [0x50, 0x4B, 5, 6]
  const LOCATOR_SIGNATURE: Bytes := [0x50, 0x4B, 6, 7]
  const ZIP64_SIGNATURE: Bytes := [0x50, 0x4B, 6, 6]

  // ---------- the backward scan ----------

  predicate SignatureAt(s: Bytes, p: nat) {
    p + 4 <= |s| && s[p..p + 4] == END_SIGNATURE
  }

  /** The record at `at` begins with its signature. */
  predicate SignedAt(s: Bytes, at: nat, signature: Bytes) {
    at + |signature| <= |s| && s[at..at + |signature|] == signature
  }

  /** An end record at `p` whose comment reaches exactly to the end of the archive. */
  predicate EndRecordAt(s: Bytes, p: nat) {
    SignatureAt(s, p) && p + END_SIZE <= |s| && p + END_SIZE + Field(s, p + 20, 2) == |s|
  }

  /** bytes.rfind: the last signature that lies wholly before `end`, or -1. */
  function RFind(s: Bytes, end: nat): (p: int)
    requires end <= |s|
    ensures -1 <= p && (p >= 0 ==> p + 4 <= end && SignatureAt(s, p))
    ensures forall q: nat :: p < q && q + 4 <= end ==> !SignatureAt(s, q)
  {
    if end < 4 then -1 else if SignatureAt(s, end - 4) then end - 4 else RFind(s, end - 1)
  }

  /** Two signatures cannot overlap, so a search that ends where one begins misses none. */
  lemma SignaturesDoNotOverlap(s: Bytes, p: nat, q: nat)
    requires SignatureAt(s, p) && p - 4 < q < p
    ensures !SignatureAt(s, q)
  {
    assert s[p] == s[p..p + 4][0];
    if q + 4 <= |s| { assert s[q..q + 4][p - q] == s[p]; }
  }

  method FindEndRecord(tail: Bytes) returns (position: int)
    ensures -1 <= position
    ensures position >= 0 ==> EndRecordAt(tail, position)
    ensures forall q: nat :: position < q ==> !EndRecordAt(tail, q)
  {
    position := RFind(tail, |tail|);
    while position >= 0
      invariant -1 <= position && (position >= 0 ==> SignatureAt(tail, position))
      invariant forall q: nat :: position < q ==> !EndRecordAt(tail, q)
      decreases position
    {
      if position + END_SIZE <= |tail| {
        if position + END_SIZE + Field(tail, position + 20, 2) == |tail| { break; }
      }
      var next := RFind(tail, position);
      forall q: nat | next < q < position ensures !SignatureAt(tail, q) {
        if position - 4 < q { SignaturesDoNotOverlap(tail, position, q); }
      }
      position := next;
    }
  }

  // ---------- reading the records ----------

  /** The ZIP64 end record that the locator just ahead of the end record points to. */
  function Zip64Location(s: Bytes, end: nat): Result<(Location, nat)>
    requires end <= |s|
  {
    if end < 20 then Failed(Zip64Invalid)
    else
      var locator := end - 20;
      var record := Field(s, locator + 8, 8);
      if s[locator..locator + 4] != LOCATOR_SIGNATURE || Field(s, locator + 4, 4) != 0 || Field(s, locator + 16, 4) != 1
      then Failed(Zip64Invalid)
      else if record + 56 > |s| then Failed(MalformedCentralDirectory)
      else
        var entries := Field(s, record + 32, 8);
        if s[record..record + 4] != ZIP64_SIGNATURE || Field(s, record + 4, 8) < 44
           || Field(s, record + 16, 4) != 0 || Field(s, record + 20, 4) != 0 || Field(s, record + 24, 8) != entries
           || record + 12 + Field(s, record + 4, 8) != locator
        then Failed(Zip64Invalid)
        else Ok((Location(Field(s, record + 48, 8), Field(s, record + 40, 8), entries), record))
  }

  function EndFields(s: Bytes, end: nat): Location
    requires end + END_SIZE <= |s|
  {
    Location(Field(s, end + 16, 4), Field(s, end + 12, 4), Field(s, end + 10, 2))
  }

  predicate NeedsZip64(l: Location) {
    l.entries == 0xFFFF || l.size == 0xFFFF_FFFF || l.offset == 0xFFFF_FFFF
  }

  /** The directory and the offset it must end before. */
  function Described(s: Bytes, end: nat): Result<(Location, nat)>
    requires end + END_SIZE <= |s|
  {
    var l := EndFields(s, end);
    if Field(s, end + 4, 2) != 0 || Field(s, end + 6, 2) != 0 || Field(s, end + 8, 2) != l.entries then Failed(MultiDisk)
    else if NeedsZip64(l) then Zip64Location(s, end)
    else Ok((l, end))
  }

  function Locate(s: Bytes, end: nat, limits: Limits): (r: Result<Location>)
    requires end + END_SIZE <= |s|
    ensures r.Ok? ==>
              && r.value.entries <= limits.maxEntries && r.value.size <= limits.maxCentralDirectoryBytes
              && r.value.offset + r.value.size <= end
  {
    match Described(s, end)
    case Failed(c) => Failed(c)
    case Ok((l, bound)) =>
      if l.entries > limits.maxEntries then Failed(EntryLimit)
      else if l.size > limits.maxCentralDirectoryBytes then Failed(CentralDirectoryTooLarge)
      else if l.offset + l.size > bound then Failed(MalformedCentralDirectory)
      else Ok(l)
  }

  /** The part of the archive that the scan looks at. */
  function TailOffset(s: Bytes): nat {
    if |s| <= END_SIZE + MAX_COMMENT then 0 else |s| - (END_SIZE + MAX_COMMENT)
  }

  lemma TailSees(s: Bytes, p: nat)
    requires TailOffset(s) <= p
    ensures EndRecordAt(s, p) <==> EndRecordAt(s[TailOffset(s)..], p - TailOffset(s))
  {
    var t := TailOffset(s);
    if p + END_SIZE <= |s| {
      assert s[t..][p - t..p - t + 4] == s[p..p + 4];
      SameField(s, p + 20, s[t..], p - t + 20, 2);
    }
  }

  /** `p` is the end record that decides: no later offset of the tail passes the same test. */
  ghost predicate LastEndRecord(s: Bytes, p: nat) {
    TailOffset(s) <= p && EndRecordAt(s, p) && forall q: nat :: p < q ==> !EndRecordAt(s, q)
  }

  /** What a scan of the tail tells about the whole archive. */
  lemma ScanOfTail(s: Bytes, position: int)
    requires -1 <= position && (position >= 0 ==> EndRecordAt(s[TailOffset(s)..], position))
    requires forall q: nat :: position < q ==> !EndRecordAt(s[TailOffset(s)..], q)
    ensures position < 0 ==> forall p: nat :: TailOffset(s) <= p ==> !EndRecordAt(s, p)
    ensures position >= 0 ==> LastEndRecord(s, TailOffset(s) + position)
  {
    var offset := TailOffset(s);
    forall p: nat | offset + position < p && offset <= p ensures !EndRecordAt(s, p) {
      TailSees(s, p);
      assert !EndRecordAt(s[offset..], p - offset);
    }
    if position >= 0 { TailSees(s, offset + position); }
  }

  /** _directory_location, together with the size test that precedes it. */
  method DirectoryLocation(s: Bytes, limits: Limits) returns (r: Result<Location>)
    ensures r == Failed(NotZip) <==> forall p: nat :: TailOffset(s) <= p ==> !EndRecordAt(s, p)
    ensures forall p: nat :: LastEndRecord(s, p) ==> p + END_SIZE <= |s| && r == Locate(s, p, limits)
  {
    if |s| < END_SIZE { return Failed(NotZip); }
    var offset := TailOffset(s);
    var position := FindEndRecord(s[offset..]);
    ScanOfTail(s, position);
    if position < 0 { return Failed(NotZip); }
    r := Locate(s, offset + position, limits);
  }

  // ---------- a writer ----------

  const MAX64 := 0x1_0000_0000_0000_0000

  /** Fields that do not fit, or all of them when ZIP64 is forced, hold the sentinel. */
  function Capped(value: nat, sentinel: nat, force: bool): nat {
    if force || value >= sentinel then sentinel else value
  }

  /** The pieces of the end record up to its comment. */
  function EndPieces(shown: Location, comment: nat): seq<Bytes> {
    [END_SIGNATURE, Encode(0, 2), Encode(0, 2), Encode(shown.entries, 2), Encode(shown.entries, 2),
     Encode(shown.size, 4), Encode(shown.offset, 4), Encode(comment, 2)]
  }

  /** The pieces of the ZIP64 end record, `extension` being its extensible data. */
  function Zip64Pieces(l: Location, extension: Bytes): seq<Bytes> {
    [ZIP64_SIGNATURE, Encode(44 + |extension|, 8), Encode(45, 2), Encode(45, 2), Encode(0, 4), Encode(0, 4),
     Encode(l.entries, 8), Encode(l.entries, 8), Encode(l.size, 8), Encode(l.offset, 8), extension]
  }

  function LocatorPieces(record: nat): seq<Bytes> {
    [LOCATOR_SIGNATURE, Encode(0, 4), Encode(record, 8), Encode(1, 4)]
  }

  /** The fields as the end record shows them. */
  function Shown(l: Location, force: bool): Location {
    Location(Capped(l.offset, 0xFFFF_FFFF, force), Capped(l.size, 0xFFFF_FFFF, force), Capped(l.entries, 0xFFFF, force))
  }

  /** `end` is an end record, with its comment, that shows the fields `shown`. */
  predicate IsEnd(end: Bytes, shown: Location) {
    EndRecordAt(end, 0) && Field(end, 4, 2) == 0 && Field(end, 6, 2) == 0 && Field(end, 8, 2) == shown.entries
    && EndFields(end, 0) == shown
  }

  predicate Writable(l: Location, extension: Bytes) {
    l.offset + l.size < MAX64 && l.entries < MAX64 && 44 + |extension| < MAX64
  }

  /** Where the end record of an archive stands. */
  function EndOf(l: Location, force: bool, extension: Bytes): nat {
    l.offset + l.size + if NeedsZip64(Shown(l, force)) then 76 + |extension| else 0
  }

  /** The records after the central directory. */
  function Records(l: Location, force: bool, extension: Bytes, end: Bytes): Bytes {
    if NeedsZip64(Shown(l, force)) then Written(Zip64Pieces(l, extension), Written(LocatorPieces(l.offset + l.size), end)) else end
  }

  /** `s` is an archive: members, then the central directory that lists `l.entries` of them, then the
      ZIP64 records if the end record shows a sentinel, then that end record. */
  predicate IsArchive(s: Bytes, directory: Bytes, l: Location, force: bool, extension: Bytes, end: Bytes) {
    var at := l.offset + l.size;
    && l.size == |directory| && at <= |s| && s[l.offset..at] == directory
    && IsEnd(end, Shown(l, force)) && From(s, at, Records(l, force, extension, end))
  }

  /** The reference writer. */
  function Archive(members: Bytes, directory: Bytes, entries: nat, force: bool, extension: Bytes, end: Bytes): Bytes {
    members + directory + Records(Location(|members|, |directory|, entries), force, extension, end)
  }

  lemma ArchiveIsArchive(members: Bytes, directory: Bytes, entries: nat, force: bool, extension: Bytes, end: Bytes)
    requires IsEnd(end, Shown(Location(|members|, |directory|, entries), force))
    ensures IsArchive(Archive(members, directory, entries, force, extension, end), directory,
                      Location(|members|, |directory|, entries), force, extension, end)
  {
    Appended(members, directory, Records(Location(|members|, |directory|, entries), force, extension, end));
  }

  lemma Appended(a: Bytes, b: Bytes, c: Bytes)
    ensures (a + b + c)[|a|..|a| + |b|] == b && From(a + b + c, |a| + |b|, c)
  {
  }

  /** A ZIP64 end record of `size` + 12 bytes that shows the fields `l`. */
  predicate RecordAt(s: Bytes, at: nat, l: Location, size: nat) {
    && size >= 44 && at + 12 + size <= |s| && SignedAt(s, at, ZIP64_SIGNATURE) && Holds(s, at + 4, size, 8)
    && Holds(s, at + 16, 0, 4) && Holds(s, at + 20, 0, 4)
    && Holds(s, at + 24, l.entries, 8) && Holds(s, at + 32, l.entries, 8)
    && Holds(s, at + 40, l.size, 8) && Holds(s, at + 48, l.offset, 8)
  }

  predicate LocatorAt(s: Bytes, at: nat, record: nat) {
    SignedAt(s, at, LOCATOR_SIGNATURE) && Holds(s, at + 4, 0, 4) && Holds(s, at + 8, record, 8) && Holds(s, at + 16, 1, 4)
  }

  lemma Zip64Starts(l: Location, extension: Bytes)
    ensures var p := Zip64Pieces(l, extension);
            && Start(p, 1) == 4 && Start(p, 4) == 16 && Start(p, 5) == 20 && Start(p, 6) == 24 && Start(p, 7) == 32
            && Start(p, 8) == 40 && Start(p, 9) == 48 && Start(p, 11) == 56 + |extension|
  {
    var p := Zip64Pieces(l, extension);
    assert Start(p, 1) == 4;
    assert Start(p, 2) == 12;
    assert Start(p, 3) == 14;
    assert Start(p, 4) == 16;
    assert Start(p, 5) == 20;
    assert Start(p, 6) == 24;
    assert Start(p, 7) == 32;
    assert Start(p, 8) == 40;
    assert Start(p, 9) == 48;
    assert Start(p, 10) == 56;
  }

  lemma WrittenRecord(s: Bytes, at: nat, l: Location, extension: Bytes, rest: Bytes)
    requires Writable(l, extension) && From(s, at, Written(Zip64Pieces(l, extension), rest))
    ensures RecordAt(s, at, l, 44 + |extension|) && From(s, at + 56 + |extension|, rest)
  {
    Widths();
    Zip64Starts(l, extension);
    var p := Zip64Pieces(l, extension);
    Piece(s, at, p, rest, 0);
    Number(s, at, p, rest, 1, 44 + |extension|, 8);
    Number(s, at, p, rest, 4, 0, 4);
    Number(s, at, p, rest, 5, 0, 4);
    Number(s, at, p, rest, 6, l.entries, 8);
    Number(s, at, p, rest, 7, l.entries, 8);
    Number(s, at, p, rest, 8, l.size, 8);
    Number(s, at, p, rest, 9, l.offset, 8);
    After(s, at, p, rest);
  }

  lemma LocatorStarts(record: nat)
    ensures var p := LocatorPieces(record);
            Start(p, 1) == 4 && Start(p, 2) == 8 && Start(p, 3) == 16 && Start(p, 4) == 20
  {
  }

  lemma WrittenLocator(s: Bytes, at: nat, record: nat, rest: Bytes)
    requires From(s, at, Written(LocatorPieces(record), rest)) && record < MAX64
    ensures LocatorAt(s, at, record) && From(s, at + 20, rest)
  {
    Widths();
    LocatorStarts(record);
    var p := LocatorPieces(record);
    Piece(s, at, p, rest, 0);
    Number(s, at, p, rest, 1, 0, 4);
    Number(s, at, p, rest, 2, record, 8);
    Number(s, at, p, rest, 3, 1, 4);
    After(s, at, p, rest);
  }

  lemma EndStarts(shown: Location, comment: nat)
    ensures var p := EndPieces(shown, comment);
            && Start(p, 1) == 4 && Start(p, 2) == 6 && Start(p, 3) == 8 && Start(p, 4) == 10 && Start(p, 5) == 12
            && Start(p, 6) == 16 && Start(p, 7) == 20 && Start(p, 8) == 22
  {
  }

  /** The end record that is written reads back as what it was made from, its comment included. */
  lemma EndRecordIsEnd(shown: Location, comment: Bytes)
    requires shown.entries < 0x1_0000 && shown.size < 0x1_0000_0000 && shown.offset < 0x1_0000_0000 && |comment| <= MAX_COMMENT
    ensures var end := Written(EndPieces(shown, |comment|), comment);
            IsEnd(end, shown) && |end| == END_SIZE + |comment| && end[END_SIZE..] == comment
  {
    Widths();
    EndStarts(shown, |comment|);
    var p := EndPieces(shown, |comment|);
    var s := Written(p, comment);
    assert s[0..] == s;
    Piece(s, 0, p, comment, 0);
    Number(s, 0, p, comment, 1, 0, 2);
    Number(s, 0, p, comment, 2, 0, 2);
    Number(s, 0, p, comment, 3, shown.entries, 2);
    Number(s, 0, p, comment, 4, shown.entries, 2);
    Number(s, 0, p, comment, 5, shown.size, 4);
    Number(s, 0, p, comment, 6, shown.offset, 4);
    Number(s, 0, p, comment, 7, |comment|, 2);
    After(s, 0, p, comment);
  }

  lemma FieldFrom(s: Bytes, at: nat, rest: Bytes, k: nat, width: nat)
    requires From(s, at, rest) && k + width <= |rest|
    ensures at + k + width <= |s| && Field(s, at + k, width) == Field(rest, k, width)
    ensures s[at + k..at + k + width] == rest[k..k + width]
  {
    assert |rest| == |s| - at;
    assert forall j :: k <= j < k + width ==> s[at + j] == s[at..][j];
    assert s[at + k..at + k + width] == rest[k..k + width];
    SameField(s, at + k, rest, k, width);
  }

  /** An end record reads the same at the end of a longer sequence. */
  lemma EndInside(s: Bytes, e: nat, end: Bytes, shown: Location)
    requires From(s, e, end) && IsEnd(end, shown)
    ensures EndRecordAt(s, e) && EndFields(s, e) == shown
    ensures Field(s, e + 4, 2) == 0 && Field(s, e + 6, 2) == 0 && Field(s, e + 8, 2) == shown.entries
  {
    FieldFrom(s, e, end, 0, 4);
    FieldFrom(s, e, end, 4, 2);
    FieldFrom(s, e, end, 6, 2);
    FieldFrom(s, e, end, 8, 2);
    FieldFrom(s, e, end, 10, 2);
    FieldFrom(s, e, end, 12, 4);
    FieldFrom(s, e, end, 16, 4);
    FieldFrom(s, e, end, 20, 2);
  }

  /** Exactness: the ZIP64 location is read exactly if such a record, of whatever size, and its locator stand
      one behind the other just ahead of the end record. */
  lemma Zip64Exact(s: Bytes, end: nat, l: Location, record: nat)
    requires end <= |s|
    ensures Zip64Location(s, end) == Ok((l, record))
       <==> exists size :: RecordAt(s, record, l, size) && record + 32 + size == end && LocatorAt(s, end - 20, record)
  {
    if Zip64Location(s, end) == Ok((l, record)) {
      assert RecordAt(s, record, l, Field(s, record + 4, 8));
    }
    forall size | RecordAt(s, record, l, size) && record + 32 + size == end && LocatorAt(s, end - 20, record)
      ensures Zip64Location(s, end) == Ok((l, record))
    {
      Zip64Here(s, record, l, size, end);
    }
  }

  lemma Zip64Here(s: Bytes, at: nat, l: Location, size: nat, end: nat)
    requires RecordAt(s, at, l, size) && end == at + 32 + size <= |s| && LocatorAt(s, end - 20, at)
    ensures Zip64Location(s, end) == Ok((l, at))
  {
  }

  /** The end record at `end` says, on its own or by way of the ZIP64 records, that the directory is `l` and ends before `bound`. */
  ghost predicate Describes(s: Bytes, end: nat, l: Location, bound: nat)
    requires end + END_SIZE <= |s|
  {
    && Field(s, end + 4, 2) == 0 && Field(s, end + 6, 2) == 0 && Field(s, end + 8, 2) == Field(s, end + 10, 2)
    && if NeedsZip64(EndFields(s, end))
       then exists size :: RecordAt(s, bound, l, size) && bound + 32 + size == end && LocatorAt(s, end - 20, bound)
       else l == EndFields(s, end) && bound == end
  }

  lemma LocateExact(s: Bytes, end: nat, limits: Limits, l: Location)
    requires end + END_SIZE <= |s|
    ensures Locate(s, end, limits) == Ok(l)
       <==> exists bound: nat :: Describes(s, end, l, bound) && l.entries <= limits.maxEntries
                                 && l.size <= limits.maxCentralDirectoryBytes && l.offset + l.size <= bound
  {
    forall bound: nat ensures Described(s, end) == Ok((l, bound)) <==> Describes(s, end, l, bound) {
      Zip64Exact(s, end, l, bound);
    }
  }

  lemma Zip64Tail(s: Bytes, at: nat, l: Location, extension: Bytes, end: Bytes)
    requires From(s, at, Written(Zip64Pieces(l, extension), Written(LocatorPieces(at), end)))
    requires Writable(l, extension) && at < MAX64
    ensures RecordAt(s, at, l, 44 + |extension|) && LocatorAt(s, at + 56 + |extension|, at)
    ensures From(s, at + 76 + |extension|, end)
  {
    WrittenRecord(s, at, l, extension, Written(LocatorPieces(at), end));
    WrittenLocator(s, at + 56 + |extension|, at, end);
  }

  lemma WrittenZip64(s: Bytes, at: nat, l: Location, extension: Bytes, end: Bytes, e: nat)
    requires From(s, at, Written(Zip64Pieces(l, extension), Written(LocatorPieces(at), end)))
    requires Writable(l, extension) && at < MAX64 && e == at + 76 + |extension|
    ensures From(s, e, end) && Zip64Location(s, e) == Ok((l, at))
  {
    Zip64Tail(s, at, l, extension, end);
    Zip64Stands(s, at, l, |extension|, e, end);
  }

  lemma Zip64Stands(s: Bytes, at: nat, l: Location, extra: nat, e: nat, end: Bytes)
    requires e == at + 76 + extra && RecordAt(s, at, l, 44 + extra) && LocatorAt(s, at + 56 + extra, at) && From(s, e, end)
    ensures Zip64Location(s, e) == Ok((l, at))
  {
    Zip64Here(s, at, l, 44 + extra, e);
  }

  lemma DescribedEither(s: Bytes, end: nat, l: Location, bound: nat)
    requires end + END_SIZE <= |s|
    requires Field(s, end + 4, 2) == 0 && Field(s, end + 6, 2) == 0 && Field(s, end + 8, 2) == EndFields(s, end).entries
    requires if NeedsZip64(EndFields(s, end)) then Zip64Location(s, end) == Ok((l, bound)) else EndFields(s, end) == l && bound == end
    ensures Described(s, end) == Ok((l, bound))
  {
  }

  /** What the reader makes of the records of a written archive, with or without ZIP64. */
  lemma WrittenDescription(s: Bytes, directory: Bytes, l: Location, force: bool, extension: Bytes, end: Bytes)
    requires IsArchive(s, directory, l, force, extension, end) && Writable(l, extension)
    ensures var e := EndOf(l, force, extension);
            EndRecordAt(s, e) && TailOffset(s) <= e && Described(s, e) == Ok((l, l.offset + l.size))
  {
    var at := l.offset + l.size;
    var e := EndOf(l, force, extension);
    if NeedsZip64(Shown(l, force)) { WrittenZip64(s, at, l, extension, end, e); }
    EndInside(s, e, end, Shown(l, force));
    DescribedEither(s, e, l, at);
    CommentFits(s, e);
  }

  lemma CommentFits(s: Bytes, e: nat)
    requires EndRecordAt(s, e)
    ensures TailOffset(s) <= e
  {
    Widths();
    FieldBound(s, e + 20, 2);
  }

  /** Round trip: unless the comment hides a later end record, the reader finds what the writer wrote. */
  lemma WrittenLocation(s: Bytes, directory: Bytes, l: Location, force: bool, extension: Bytes, end: Bytes, limits: Limits)
    requires IsArchive(s, directory, l, force, extension, end) && Writable(l, extension)
    requires l.entries <= limits.maxEntries && l.size <= limits.maxCentralDirectoryBytes
    requires forall q: nat :: EndOf(l, force, extension) < q ==> !EndRecordAt(s, q)
    ensures var e := EndOf(l, force, extension);
            LastEndRecord(s, e) && e + END_SIZE <= |s| && Locate(s, e, limits) == Ok(l)
  {
    WrittenDescription(s, directory, l, force, extension, end);
  }
}
