/**
 * Central directory records (APPNOTE.TXT section 4.3.12) and their ZIP64 extra
 * field (section 4.5.3).
 */
module ZipRecords {
  import opened PathText
  import opened ZipBytes
  import opened ZipDirectory
  import opened ZipPaths
  import opened Wrappers

  const MAX32 := 0xFFFF_FFFF
  const MAX16 := 0xFFFF

  // ---------- the extra field ----------

  /** The contents of the first block of kind 1 at or after `cursor`. */
  function FindValues(extra: Bytes, cursor: nat): Result<Bytes>
    requires cursor <= |extra|
    decreases |extra| - cursor
  {
    if cursor + 4 > |extra| then Failed(Zip64Invalid)
    else
      var start := cursor + 4;
      var length := Field(extra, cursor + 2, 2);
      if start + length > |extra| then Failed(MalformedCentralDirectory)
      else if Field(extra, cursor, 2) == 1 then Ok(extra[start..start + length])
      else FindValues(extra, start + length)
  }

  datatype Need = Uncompressed | Compressed | Offset | Disk {
    function Width(): nat { if this == Disk then 4 else 8 }
  }

  function Required(compressed: nat, uncompressed: nat, offset: nat, disk: nat): seq<Need> {
    (if uncompressed == MAX32 then [Uncompressed] else []) +
    ((if compressed == MAX32 then [Compressed] else []) +
    ((if offset == MAX32 then [Offset] else []) +
    (if disk == MAX16 then [Disk] else [])))
  }

  /** Reads the values that `needs` calls for, one after the other. */
  function ReadNeeds(needs: seq<Need>, values: Bytes, cursor: nat, resolved: map<Need, nat>): Result<map<Need, nat>>
    decreases |needs|
  {
    if needs == [] then Ok(resolved)
    else
      var width := needs[0].Width();
      if cursor + width > |values| then Failed(Zip64Invalid)
      else ReadNeeds(needs[1..], values, cursor + width, resolved[needs[0] := Field(values, cursor, width)])
  }

  function Get(m: map<Need, nat>, n: Need, otherwise: nat): nat {
    if n in m then m[n] else otherwise
  }

  /** The sizes (compressed, uncompressed) once the sentinels are looked up. */
  function Resolved(extra: Bytes, compressed: nat, uncompressed: nat, offset: nat, disk: nat): Result<(nat, nat)> {
    var needs := Required(compressed, uncompressed, offset, disk);
    if needs == [] then Ok((compressed, uncompressed))
    else match FindValues(extra, 0)
      case Failed(c) => Failed(c)
      case Ok(values) =>
        match ReadNeeds(needs, values, 0, map[])
        case Failed(c) => Failed(c)
        case Ok(m) =>
          if Get(m, Disk, disk) != 0 then Failed(MultiDisk)
          else Ok((Get(m, Compressed, compressed), Get(m, Uncompressed, uncompressed)))
  }

  method ScanExtra(extra: Bytes) returns (r: Result<Bytes>)
    ensures r == FindValues(extra, 0)
  {
    var cursor := 0;
    while cursor + 4 <= |extra|
      invariant 0 <= cursor <= |extra| && FindValues(extra, 0) == FindValues(extra, cursor)
    {
      var kind, length := Field(extra, cursor, 2), Field(extra, cursor + 2, 2);
      cursor := cursor + 4;
      if cursor + length > |extra| { return Failed(MalformedCentralDirectory); }
      if kind == 1 { return Ok(extra[cursor..cursor + length]); }
      cursor := cursor + length;
    }
    r := Failed(Zip64Invalid);
  }

  method ReadRequired(needs: seq<Need>, values: Bytes) returns (r: Result<map<Need, nat>>)
    ensures r == ReadNeeds(needs, values, 0, map[])
  {
    var cursor := 0;
    var resolved: map<Need, nat> := map[];
    for i := 0 to |needs|
      invariant 0 <= cursor
      invariant ReadNeeds(needs[i..], values, cursor, resolved) == ReadNeeds(needs, values, 0, map[])
    {
      var width := needs[i].Width();
      assert needs[i..][1..] == needs[i + 1..];
      if cursor + width > |values| { return Failed(Zip64Invalid); }
      resolved := resolved[needs[i] := Field(values, cursor, width)];
      cursor := cursor + width;
    }
    r := Ok(resolved);
  }

  method Zip64Values(extra: Bytes, compressed: nat, uncompressed: nat, offset: nat, disk: nat) returns (r: Result<(nat, nat)>)
    ensures r == Resolved(extra, compressed, uncompressed, offset, disk)
  {
    var needs := Required(compressed, uncompressed, offset, disk);
    if needs == [] { return Ok((compressed, uncompressed)); }
    var values := ScanExtra(extra);
    if values.Failed? { return Failed(values.category); }
    var resolved := ReadRequired(needs, values.value);
    if resolved.Failed? { return Failed(resolved.category); }
    var m := resolved.value;
    if Get(m, Disk, disk) != 0 { return Failed(MultiDisk); }
    r := Ok((Get(m, Compressed, compressed), Get(m, Uncompressed, uncompressed)));
  }

  // ---------- what a writer puts there ----------

  datatype Block = Block(kind: nat, data: Bytes)

  predicate BlockFits(b: Block) {
    b.kind < 0x1_0000 && |b.data| < 0x1_0000
  }

  /** The blocks in order, followed by `rest`. */
  function Blocks(blocks: seq<Block>, rest: Bytes): Bytes {
    if blocks == [] then rest else BlockThen(blocks[0], Blocks(blocks[1..], rest))
  }

  function BlockThen(b: Block, rest: Bytes): Bytes {
    Written([Encode(b.kind, 2), Encode(|b.data|, 2), b.data], rest)
  }

  predicate OtherKinds(blocks: seq<Block>) {
    forall i :: 0 <= i < |blocks| ==> blocks[i].kind != 1 && BlockFits(blocks[i])
  }

  lemma BlockHeader(extra: Bytes, at: nat, b: Block, rest: Bytes)
    requires From(extra, at, BlockThen(b, rest)) && BlockFits(b)
    ensures Holds(extra, at, b.kind, 2) && Holds(extra, at + 2, |b.data|, 2)
    ensures var next := at + 4 + |b.data|; next <= |extra| && extra[at + 4..next] == b.data && From(extra, next, rest)
  {
    Widths();
    var p := [Encode(b.kind, 2), Encode(|b.data|, 2), b.data];
    assert Start(p, 1) == 2 && Start(p, 2) == 4 && Start(p, 3) == 4 + |b.data|;
    Number(extra, at, p, rest, 0, b.kind, 2);
    Number(extra, at, p, rest, 1, |b.data|, 2);
    Piece(extra, at, p, rest, 2);
    After(extra, at, p, rest);
  }

  lemma SkipBlock(extra: Bytes, at: nat, block: Block, rest: Bytes)
    requires From(extra, at, BlockThen(block, rest)) && block.kind != 1 && BlockFits(block)
    ensures var next := at + 4 + |block.data|; From(extra, next, rest) && FindValues(extra, at) == FindValues(extra, next)
  {
    BlockHeader(extra, at, block, rest);
  }

  lemma SkipFirst(extra: Bytes, at: nat, blocks: seq<Block>, rest: Bytes) returns (after: nat)
    requires blocks != [] && From(extra, at, Blocks(blocks, rest)) && OtherKinds(blocks)
    ensures at <= after <= |extra| && From(extra, after, Blocks(blocks[1..], rest))
    ensures FindValues(extra, at) == FindValues(extra, after) && OtherKinds(blocks[1..])
  {
    assert blocks[0].kind != 1 && BlockFits(blocks[0]);
    SkipBlock(extra, at, blocks[0], Blocks(blocks[1..], rest));
    after := at + 4 + |blocks[0].data|;
  }

  /** Blocks of other kinds are skipped. */
  lemma {:induction false} SkipBlocks(extra: Bytes, at: nat, blocks: seq<Block>, rest: Bytes) returns (next: nat)
    requires From(extra, at, Blocks(blocks, rest)) && OtherKinds(blocks)
    ensures at <= next <= |extra| && From(extra, next, rest) && FindValues(extra, at) == FindValues(extra, next)
    decreases |blocks|
  {
    if blocks == [] {
      next := at;
    } else {
      var after := SkipFirst(extra, at, blocks, rest);
      next := SkipBlocks(extra, after, blocks[1..], rest);
    }
  }

  lemma FoundHere(extra: Bytes, at: nat, block: Block, rest: Bytes)
    requires From(extra, at, BlockThen(block, rest)) && block.kind == 1 && BlockFits(block)
    ensures FindValues(extra, at) == Ok(block.data)
  {
    BlockHeader(extra, at, block, rest);
  }

  /** The three shapes an extra field can have, and what the scan makes of each: the first ZIP64 block is
      found whatever follows it; without one the field is useless; a block that runs over the end is malformed. */
  lemma ScanFinds(blocks: seq<Block>, block: Block, rest: Bytes)
    requires OtherKinds(blocks) && block.kind == 1 && BlockFits(block)
    ensures FindValues(Blocks(blocks, BlockThen(block, rest)), 0) == Ok(block.data)
  {
    var tail := BlockThen(block, rest);
    var extra := Blocks(blocks, tail);
    assert extra[0..] == extra;
    var at := SkipBlocks(extra, 0, blocks, tail);
    FoundHere(extra, at, block, rest);
  }

  lemma ScanMisses(blocks: seq<Block>, rest: Bytes)
    requires OtherKinds(blocks) && |rest| < 4
    ensures FindValues(Blocks(blocks, rest), 0) == Failed(Zip64Invalid)
  {
    var extra := Blocks(blocks, rest);
    assert extra[0..] == extra;
    var at := SkipBlocks(extra, 0, blocks, rest);
    assert |extra[at..]| == |rest|;
  }

  /** The header of a block that claims `length` bytes, followed by `rest`. */
  function OpenBlock(kind: nat, length: nat, rest: Bytes): Bytes {
    Written([Encode(kind, 2), Encode(length, 2)], rest)
  }

  lemma ScanOverruns(blocks: seq<Block>, kind: nat, length: nat, rest: Bytes)
    requires OtherKinds(blocks) && kind < 0x1_0000 && |rest| < length < 0x1_0000
    ensures FindValues(Blocks(blocks, OpenBlock(kind, length, rest)), 0) == Failed(MalformedCentralDirectory)
  {
    var tail := OpenBlock(kind, length, rest);
    var extra := Blocks(blocks, tail);
    assert extra[0..] == extra;
    var at := SkipBlocks(extra, 0, blocks, tail);
    OverrunHere(extra, at, kind, length, rest);
  }

  lemma OverrunHere(extra: Bytes, at: nat, kind: nat, length: nat, rest: Bytes)
    requires From(extra, at, OpenBlock(kind, length, rest)) && kind < 0x1_0000 && |rest| < length < 0x1_0000
    ensures FindValues(extra, at) == Failed(MalformedCentralDirectory)
  {
    Widths();
    var p := [Encode(kind, 2), Encode(length, 2)];
    assert Start(p, 1) == 2 && Start(p, 2) == 4;
    Number(extra, at, p, rest, 0, kind, 2);
    Number(extra, at, p, rest, 1, length, 2);
    After(extra, at, p, rest);
    assert |extra[at + 4..]| == |rest|;
  }

  /** The three shapes: blocks of other kinds, and then a ZIP64 block, a block that is not all there, or the end. */
  datatype Shape =
    | Found(blocks: seq<Block>, block: Block, rest: Bytes)
    | Missed(blocks: seq<Block>, rest: Bytes)
    | Overrun(blocks: seq<Block>, kind: nat, length: nat, rest: Bytes)

  function Shaped(shape: Shape): Bytes {
    match shape
    case Found(blocks, block, rest) => Blocks(blocks, BlockThen(block, rest))
    case Missed(blocks, rest) => Blocks(blocks, rest)
    case Overrun(blocks, kind, length, rest) => Blocks(blocks, OpenBlock(kind, length, rest))
  }

  predicate WellShaped(shape: Shape) {
    && OtherKinds(shape.blocks)
    && match shape
       case Found(_, block, _) => block.kind == 1 && BlockFits(block)
       case Missed(_, rest) => |rest| < 4
       case Overrun(_, kind, length, rest) => kind < 0x1_0000 && |rest| < length < 0x1_0000
  }

  function ValuesOf(shape: Shape): Result<Bytes> {
    match shape
    case Found(_, block, _) => Ok(block.data)
    case Missed(_, _) => Failed(Zip64Invalid)
    case Overrun(_, _, _, _) => Failed(MalformedCentralDirectory)
  }

  /** A block header that is read was written there. */
  lemma HeaderOf(extra: Bytes, at: nat)
    requires at + 4 <= |extra|
    ensures var kind, length := Field(extra, at, 2), Field(extra, at + 2, 2);
            && kind < 0x1_0000 && length < 0x1_0000
            && From(extra, at, OpenBlock(kind, length, extra[at + 4..]))
            && (at + 4 + length <= |extra| ==>
                  From(extra, at, BlockThen(Block(kind, extra[at + 4..at + 4 + length]), extra[at + 4 + length..])))
  {
    Widths();
    FieldBound(extra, at, 2);
    FieldBound(extra, at + 2, 2);
    var kind, length := Field(extra, at, 2), Field(extra, at + 2, 2);
    OpenHere(extra, at, kind, length);
    if at + 4 + length <= |extra| { BlockHere(extra, at, kind, length); }
  }

  lemma OpenHere(extra: Bytes, at: nat, kind: nat, length: nat)
    requires at + 4 <= |extra| && Holds(extra, at, kind, 2) && Holds(extra, at + 2, length, 2)
    ensures From(extra, at, OpenBlock(kind, length, extra[at + 4..]))
  {
    var p := [Encode(kind, 2), Encode(length, 2)];
    assert Start(p, 1) == 2 && Start(p, 2) == 4;
    NumberPiece(extra, at, p, 0, kind, 2);
    NumberPiece(extra, at, p, 1, length, 2);
    Composed(extra, at, p, extra[at + 4..], 0);
    assert p[0..] == p;
  }

  lemma BlockHere(extra: Bytes, at: nat, kind: nat, length: nat)
    requires at + 4 + length <= |extra| && Holds(extra, at, kind, 2) && Holds(extra, at + 2, length, 2)
    ensures From(extra, at, BlockThen(Block(kind, extra[at + 4..at + 4 + length]), extra[at + 4 + length..]))
  {
    var data := extra[at + 4..at + 4 + length];
    var p := [Encode(kind, 2), Encode(length, 2), data];
    assert Start(p, 1) == 2 && Start(p, 2) == 4 && Start(p, 3) == 4 + length;
    NumberPiece(extra, at, p, 0, kind, 2);
    NumberPiece(extra, at, p, 1, length, 2);
    Composed(extra, at, p, extra[at + 4 + length..], 0);
    assert p[0..] == p;
  }

  lemma {:induction false} ShapeFrom(extra: Bytes, at: nat) returns (shape: Shape)
    requires at <= |extra|
    ensures WellShaped(shape) && From(extra, at, Shaped(shape)) && FindValues(extra, at) == ValuesOf(shape)
    decreases |extra| - at
  {
    if at + 4 > |extra| {
      shape := Missed([], extra[at..]);
    } else {
      HeaderOf(extra, at);
      var kind, length, start := Field(extra, at, 2), Field(extra, at + 2, 2), at + 4;
      if start + length > |extra| {
        shape := Overrun([], kind, length, extra[start..]);
      } else if kind == 1 {
        shape := Found([], Block(1, extra[start..start + length]), extra[start + length..]);
      } else {
        var after := ShapeFrom(extra, start + length);
        shape := OneMoreBlock(Block(kind, extra[start..start + length]), after);
      }
    }
  }

  lemma OneMoreBlock(block: Block, after: Shape) returns (shape: Shape)
    requires WellShaped(after) && block.kind != 1 && BlockFits(block)
    ensures WellShaped(shape) && Shaped(shape) == BlockThen(block, Shaped(after)) && ValuesOf(shape) == ValuesOf(after)
  {
    shape := after.(blocks := [block] + after.blocks);
    assert shape.blocks[1..] == after.blocks;
  }

  /** Every extra field has one of the three shapes, and it is its shape that decides what is found. */
  lemma EveryShape(extra: Bytes) returns (shape: Shape)
    ensures WellShaped(shape) && extra == Shaped(shape) && FindValues(extra, 0) == ValuesOf(shape)
  {
    shape := ShapeFrom(extra, 0);
    assert extra[0..] == extra;
  }

  /** A field as shown in the record: itself, or the sentinel that sends the reader to the extra field. */
  predicate Shows(shown: nat, actual: nat, sentinel: nat) {
    shown == sentinel || shown == actual
  }

  /** The values the writer puts into the ZIP64 block, followed by `rest`. */
  function Values(needs: seq<Need>, actual: map<Need, nat>, rest: Bytes): Bytes
    requires forall i :: 0 <= i < |needs| ==> needs[i] in actual
  {
    if needs == [] then rest else Encode(actual[needs[0]], needs[0].Width()) + Values(needs[1..], actual, rest)
  }

  /** What the reader resolves is what the writer wrote. */
  lemma {:induction false} ReadWritten(needs: seq<Need>, actual: map<Need, nat>, rest: Bytes, values: Bytes, at: nat, got: map<Need, nat>)
    requires forall i :: 0 <= i < |needs| ==> needs[i] in actual && actual[needs[i]] < Power256(needs[i].Width())
    requires From(values, at, Values(needs, actual, rest))
    ensures var r := ReadNeeds(needs, values, at, got);
            && r.Ok? && (forall n :: n in r.value <==> n in got || n in needs)
            && (forall n :: n in needs ==> r.value[n] == actual[n])
            && (forall n :: n in got && n !in needs ==> r.value[n] == got[n])
    decreases |needs|
  {
    if needs != [] {
      var n := needs[0];
      ReadNumber(values, at, actual[n], n.Width(), Values(needs[1..], actual, rest));
      ReadWritten(needs[1..], actual, rest, values, at + n.Width(), got[n := actual[n]]);
    }
  }

  function TotalWidth(needs: seq<Need>): nat {
    if needs == [] then 0 else needs[0].Width() + TotalWidth(needs[1..])
  }

  /** Values are missing exactly if the block is shorter than the fields that need one. */
  lemma {:induction false} NeedsFit(needs: seq<Need>, values: Bytes, at: nat, got: map<Need, nat>)
    ensures var r := ReadNeeds(needs, values, at, got);
            (r.Ok? <==> needs == [] || at + TotalWidth(needs) <= |values|) && (r.Failed? ==> r.category == Zip64Invalid)
    decreases |needs|
  {
    if needs != [] && at + needs[0].Width() <= |values| {
      NeedsFit(needs[1..], values, at + needs[0].Width(), got[needs[0] := Field(values, at, needs[0].Width())]);
    }
  }

  predicate Fits64(actual: map<Need, nat>) {
    actual.Keys == {Uncompressed, Compressed, Offset, Disk}
    && actual[Uncompressed] < MAX64 && actual[Compressed] < MAX64 && actual[Offset] < MAX64 && actual[Disk] < 0x1_0000_0000
  }

  /** Round trip: whichever fields the writer moved to the extra field, and whatever other blocks stand there,
      the reader gets the actual sizes, or an error if the member is not on the first disk. */
  lemma WrittenSizes(actual: map<Need, nat>, compressed: nat, uncompressed: nat, offset: nat, disk: nat,
                     blocks: seq<Block>, more: Bytes, rest: Bytes)
    requires Fits64(actual) && OtherKinds(blocks)
    requires Shows(uncompressed, actual[Uncompressed], MAX32) && Shows(compressed, actual[Compressed], MAX32)
    requires Shows(offset, actual[Offset], MAX32) && Shows(disk, actual[Disk], MAX16) && (disk == 0 || disk == MAX16)
    requires var needs := Required(compressed, uncompressed, offset, disk); |Values(needs, actual, more)| < 0x1_0000
    ensures var needs := Required(compressed, uncompressed, offset, disk);
            var extra := Blocks(blocks, BlockThen(Block(1, Values(needs, actual, more)), rest));
            Resolved(extra, compressed, uncompressed, offset, disk)
            == if actual[Disk] == 0 then Ok((actual[Compressed], actual[Uncompressed])) else Failed(MultiDisk)
  {
    var needs := Required(compressed, uncompressed, offset, disk);
    var values := Values(needs, actual, more);
    RequiredIs(compressed, uncompressed, offset, disk);
    ScanFinds(blocks, Block(1, values), rest);
    ValuesRead(needs, actual, more);
  }

  lemma ValuesRead(needs: seq<Need>, actual: map<Need, nat>, rest: Bytes)
    requires Fits64(actual) && forall i :: 0 <= i < |needs| ==> needs[i] in actual
    ensures var r := ReadNeeds(needs, Values(needs, actual, rest), 0, map[]);
            && r.Ok? && (forall n :: n in r.value <==> n in needs)
            && (forall n :: n in needs ==> r.value[n] == actual[n])
  {
    Widths();
    var values := Values(needs, actual, rest);
    assert values[0..] == values;
    ReadWritten(needs, actual, rest, values, 0, map[]);
  }

  lemma {:induction false} ReadsNoMore(needs: seq<Need>, values: Bytes, cursor: nat, resolved: map<Need, nat>, n: Need)
    requires n !in needs && n !in resolved
    ensures var r := ReadNeeds(needs, values, cursor, resolved); r.Ok? ==> n !in r.value
    decreases |needs|
  {
    if needs != [] && cursor + needs[0].Width() <= |values| {
      ReadsNoMore(needs[1..], values, cursor + needs[0].Width(),
                  resolved[needs[0] := Field(values, cursor, needs[0].Width())], n);
    }
  }

  /** An uncompressed size that the record itself shows is the one resolved. */
  lemma ShownSize(extra: Bytes, compressed: nat, uncompressed: nat, offset: nat, disk: nat)
    requires uncompressed != MAX32
    ensures var r := Resolved(extra, compressed, uncompressed, offset, disk); r.Ok? ==> r.value.1 == uncompressed
  {
    var needs := Required(compressed, uncompressed, offset, disk);
    RequiredIs(compressed, uncompressed, offset, disk);
    var found := FindValues(extra, 0);
    if found.Ok? { ReadsNoMore(needs, found.value, 0, map[], Uncompressed); }
  }

  lemma RequiredIs(compressed: nat, uncompressed: nat, offset: nat, disk: nat)
    ensures var needs := Required(compressed, uncompressed, offset, disk);
            && (Uncompressed in needs <==> uncompressed == MAX32) && (Compressed in needs <==> compressed == MAX32)
            && (Offset in needs <==> offset == MAX32) && (Disk in needs <==> disk == MAX16)
            && (needs == [] <==> uncompressed != MAX32 && compressed != MAX32 && offset != MAX32 && disk != MAX16)
  {
  }

  // ---------- a central directory record ----------

  const CENTRAL_SIGNATURE: Bytes := [0x50, 0x4B, 1, 2]
  const RECORD_SIZE := 46
  const SLASH: Byte := 0x2F

  datatype Header = Header(madeBy: nat, flags: nat, compressed: nat, uncompressed: nat, disk: nat, external: nat,
                           offset: nat, name: Bytes, extra: Bytes)

  /** The record at `at` of the directory `d`, and where the next one starts. */
  function ReadHeader(d: Bytes, at: nat): (r: Result<(Header, nat)>)
    ensures r.Ok? ==> at + RECORD_SIZE <= r.value.1 <= |d|
  {
    if at + RECORD_SIZE > |d| || d[at..at + 4] != CENTRAL_SIGNATURE then Failed(MalformedCentralDirectory)
    else
      var name := at + RECORD_SIZE;
      var extra := name + Field(d, at + 28, 2);
      var comment := extra + Field(d, at + 30, 2);
      var next := comment + Field(d, at + 32, 2);
      if next > |d| then Failed(MalformedCentralDirectory)
      else Ok((Header(Field(d, at + 4, 2), Field(d, at + 8, 2), Field(d, at + 20, 4), Field(d, at + 24, 4), Field(d, at + 34, 2),
                      Field(d, at + 38, 4), Field(d, at + 42, 4), d[name..extra], d[extra..comment]), next))
  }

  /** Fields the inventory does not look at. */
  datatype Ignored = Ignored(needed: nat, compression: nat, time: nat, date: nat, crc: nat, internal: nat, comment: Bytes)

  function RecordPieces(h: Header, i: Ignored): seq<Bytes> {
    [CENTRAL_SIGNATURE, Encode(h.madeBy, 2), Encode(i.needed, 2), Encode(h.flags, 2), Encode(i.compression, 2),
     Encode(i.time, 2), Encode(i.date, 2), Encode(i.crc, 4), Encode(h.compressed, 4), Encode(h.uncompressed, 4),
     Encode(|h.name|, 2), Encode(|h.extra|, 2), Encode(|i.comment|, 2), Encode(h.disk, 2), Encode(i.internal, 2),
     Encode(h.external, 4), Encode(h.offset, 4), h.name, h.extra, i.comment]
  }

  lemma RecordStarts(h: Header, i: Ignored)
    ensures var p := RecordPieces(h, i);
            && Start(p, 0) == 0 && Start(p, 1) == 4 && Start(p, 2) == 6 && Start(p, 3) == 8 && Start(p, 4) == 10
            && Start(p, 5) == 12 && Start(p, 6) == 14 && Start(p, 7) == 16 && Start(p, 8) == 20 && Start(p, 9) == 24
            && Start(p, 10) == 28 && Start(p, 11) == 30 && Start(p, 12) == 32 && Start(p, 13) == 34 && Start(p, 14) == 36
            && Start(p, 15) == 38 && Start(p, 16) == 42 && Start(p, 17) == 46 && Start(p, 18) == 46 + |h.name|
            && Start(p, 19) == 46 + |h.name| + |h.extra| && Start(p, 20) == 46 + |h.name| + |h.extra| + |i.comment|
  {
    var p := RecordPieces(h, i);
    assert Start(p, 1) == 4;
    assert Start(p, 2) == 6;
    assert Start(p, 3) == 8;
    assert Start(p, 4) == 10;
    assert Start(p, 5) == 12;
    assert Start(p, 6) == 14;
    assert Start(p, 7) == 16;
    assert Start(p, 8) == 20;
    assert Start(p, 9) == 24;
    assert Start(p, 10) == 28;
    assert Start(p, 11) == 30;
    assert Start(p, 12) == 32;
    assert Start(p, 13) == 34;
    assert Start(p, 14) == 36;
    assert Start(p, 15) == 38;
    assert Start(p, 16) == 42;
    assert Start(p, 17) == 46;
    assert Start(p, 18) == 46 + |h.name|;
    assert Start(p, 19) == 46 + |h.name| + |h.extra|;
  }

  predicate HeaderFits(h: Header, i: Ignored) {
    && h.madeBy < 0x1_0000 && h.flags < 0x1_0000 && h.disk < 0x1_0000
    && h.compressed < 0x1_0000_0000 && h.uncompressed < 0x1_0000_0000 && h.external < 0x1_0000_0000 && h.offset < 0x1_0000_0000
    && |h.name| < 0x1_0000 && |h.extra| < 0x1_0000 && |i.comment| < 0x1_0000
  }

  /** The numbers of the record of `h` stand where the reader looks for them. */
  predicate NumbersAt(d: Bytes, at: nat, h: Header) {
    && Holds(d, at + 4, h.madeBy, 2) && Holds(d, at + 8, h.flags, 2)
    && Holds(d, at + 20, h.compressed, 4) && Holds(d, at + 24, h.uncompressed, 4)
    && Holds(d, at + 34, h.disk, 2) && Holds(d, at + 38, h.external, 4) && Holds(d, at + 42, h.offset, 4)
  }

  /** So do its signature, its strings and their lengths. */
  predicate StringsAt(d: Bytes, at: nat, h: Header, comment: nat) {
    && SignedAt(d, at, CENTRAL_SIGNATURE)
    && Holds(d, at + 28, |h.name|, 2) && Holds(d, at + 30, |h.extra|, 2) && Holds(d, at + 32, comment, 2)
    && var n := at + 46; var e := n + |h.name|; var c := e + |h.extra|;
       c + comment <= |d| && d[n..e] == h.name && d[e..c] == h.extra
  }

  lemma RecordNumbers(d: Bytes, at: nat, h: Header, i: Ignored, rest: Bytes)
    requires HeaderFits(h, i) && From(d, at, Written(RecordPieces(h, i), rest))
    ensures NumbersAt(d, at, h)
  {
    Widths();
    RecordStarts(h, i);
    var p := RecordPieces(h, i);
    Number(d, at, p, rest, 1, h.madeBy, 2);
    Number(d, at, p, rest, 3, h.flags, 2);
    Number(d, at, p, rest, 8, h.compressed, 4);
    Number(d, at, p, rest, 9, h.uncompressed, 4);
    Number(d, at, p, rest, 13, h.disk, 2);
    Number(d, at, p, rest, 15, h.external, 4);
    Number(d, at, p, rest, 16, h.offset, 4);
  }

  lemma RecordStrings(d: Bytes, at: nat, h: Header, i: Ignored, rest: Bytes)
    requires HeaderFits(h, i) && From(d, at, Written(RecordPieces(h, i), rest))
    ensures StringsAt(d, at, h, |i.comment|) && From(d, at + Length((h, i)), rest)
  {
    Widths();
    RecordStarts(h, i);
    var p := RecordPieces(h, i);
    Piece(d, at, p, rest, 0);
    Number(d, at, p, rest, 10, |h.name|, 2);
    Number(d, at, p, rest, 11, |h.extra|, 2);
    Number(d, at, p, rest, 12, |i.comment|, 2);
    Piece(d, at, p, rest, 17);
    Piece(d, at, p, rest, 18);
    After(d, at, p, rest);
  }

  function Length(m: (Header, Ignored)): nat {
    RECORD_SIZE + |m.0.name| + |m.0.extra| + |m.1.comment|
  }

  predicate HeaderIs(r: Result<(Header, nat)>, h: Header, next: nat) {
    r.Ok? && r.value.0 == h && r.value.1 == next
  }

  lemma HeaderRead(d: Bytes, at: nat, h: Header, comment: nat)
    requires NumbersAt(d, at, h) && StringsAt(d, at, h, comment)
    ensures HeaderIs(ReadHeader(d, at), h, at + RECORD_SIZE + |h.name| + |h.extra| + comment)
  {
  }

  /** A written record reads back, and the next record follows it. */
  lemma WrittenHeader(d: Bytes, at: nat, h: Header, i: Ignored, rest: Bytes)
    requires HeaderFits(h, i) && From(d, at, Written(RecordPieces(h, i), rest))
    ensures HeaderIs(ReadHeader(d, at), h, at + Length((h, i))) && From(d, at + Length((h, i)), rest)
  {
    RecordNumbers(d, at, h, i, rest);
    RecordStrings(d, at, h, i, rest);
    HeaderRead(d, at, h, |i.comment|);
  }

  /** The fields of a record that the inventory passes over. */
  function IgnoredAt(d: Bytes, at: nat, h: Header, next: nat): Ignored
    requires at + RECORD_SIZE + |h.name| + |h.extra| <= next <= |d|
  {
    Ignored(Field(d, at + 6, 2), Field(d, at + 10, 2), Field(d, at + 12, 2), Field(d, at + 14, 2), Field(d, at + 16, 4),
            Field(d, at + 36, 2), d[at + RECORD_SIZE + |h.name| + |h.extra|..next])
  }

  /** A record that is read stands there with all its pieces. */
  lemma HeaderStands(d: Bytes, at: nat)
    requires ReadHeader(d, at).Ok?
    ensures var (h, next) := ReadHeader(d, at).value;
            && NumbersAt(d, at, h) && at + RECORD_SIZE + |h.name| + |h.extra| <= next <= |d|
            && StringsAt(d, at, h, next - (at + RECORD_SIZE + |h.name| + |h.extra|))
            && HeaderFits(h, IgnoredAt(d, at, h, next))
  {
    Widths();
    FieldBound(d, at + 4, 2);
    FieldBound(d, at + 8, 2);
    FieldBound(d, at + 34, 2);
    FieldBound(d, at + 20, 4);
    FieldBound(d, at + 24, 4);
    FieldBound(d, at + 38, 4);
    FieldBound(d, at + 42, 4);
    FieldBound(d, at + 28, 2);
    FieldBound(d, at + 30, 2);
    FieldBound(d, at + 32, 2);
  }

  lemma NumberPieces(d: Bytes, at: nat, h: Header, i: Ignored)
    requires NumbersAt(d, at, h) && StringsAt(d, at, h, |i.comment|)
    requires Holds(d, at + 6, i.needed, 2) && Holds(d, at + 10, i.compression, 2) && Holds(d, at + 12, i.time, 2)
    requires Holds(d, at + 14, i.date, 2) && Holds(d, at + 16, i.crc, 4) && Holds(d, at + 36, i.internal, 2)
    ensures forall k :: 1 <= k < 17 ==> PieceAt(d, at, RecordPieces(h, i), k)
  {
    RecordStarts(h, i);
    var p := RecordPieces(h, i);
    NumberPiece(d, at, p, 1, h.madeBy, 2);
    NumberPiece(d, at, p, 2, i.needed, 2);
    NumberPiece(d, at, p, 3, h.flags, 2);
    NumberPiece(d, at, p, 4, i.compression, 2);
    NumberPiece(d, at, p, 5, i.time, 2);
    NumberPiece(d, at, p, 6, i.date, 2);
    NumberPiece(d, at, p, 7, i.crc, 4);
    NumberPiece(d, at, p, 8, h.compressed, 4);
    NumberPiece(d, at, p, 9, h.uncompressed, 4);
    NumberPiece(d, at, p, 10, |h.name|, 2);
    NumberPiece(d, at, p, 11, |h.extra|, 2);
    NumberPiece(d, at, p, 12, |i.comment|, 2);
    NumberPiece(d, at, p, 13, h.disk, 2);
    NumberPiece(d, at, p, 14, i.internal, 2);
    NumberPiece(d, at, p, 15, h.external, 4);
    NumberPiece(d, at, p, 16, h.offset, 4);
  }

  lemma StringPieces(d: Bytes, at: nat, h: Header, i: Ignored)
    requires StringsAt(d, at, h, |i.comment|)
    requires var c := at + RECORD_SIZE + |h.name| + |h.extra|; d[c..c + |i.comment|] == i.comment
    ensures var p := RecordPieces(h, i); PieceAt(d, at, p, 0) && PieceAt(d, at, p, 17) && PieceAt(d, at, p, 18) && PieceAt(d, at, p, 19)
  {
    RecordStarts(h, i);
  }

  /** Whatever is read as a record is one that a writer could have written there. */
  lemma ReadIsWritten(d: Bytes, at: nat) returns (i: Ignored)
    requires ReadHeader(d, at).Ok?
    ensures var (h, next) := ReadHeader(d, at).value;
            HeaderFits(h, i) && next == at + Length((h, i)) && From(d, at, Written(RecordPieces(h, i), d[next..]))
  {
    HeaderStands(d, at);
    var (h, next) := ReadHeader(d, at).value;
    i := IgnoredAt(d, at, h, next);
    NumberPieces(d, at, h, i);
    StringPieces(d, at, h, i);
    AllPieces(d, at, h, i, d[next..]);
  }

  lemma AllPieces(d: Bytes, at: nat, h: Header, i: Ignored, rest: Bytes)
    requires var p := RecordPieces(h, i);
             && (forall k :: 1 <= k < 17 ==> PieceAt(d, at, p, k))
             && PieceAt(d, at, p, 0) && PieceAt(d, at, p, 17) && PieceAt(d, at, p, 18) && PieceAt(d, at, p, 19)
    requires From(d, at + Length((h, i)), rest)
    ensures From(d, at, Written(RecordPieces(h, i), rest))
  {
    RecordStarts(h, i);
    var p := RecordPieces(h, i);
    forall k | 0 <= k < |p| ensures PieceAt(d, at, p, k) {
      if k == 0 || k == 17 || k == 18 || k == 19 { } else { assert 1 <= k < 17; }
    }
    Composed(d, at, p, rest, 0);
    assert p[0..] == p;
  }

  // ---------- a member's own checks ----------

  datatype Entry = Entry(path: Path, directory: bool, size: nat)

  predicate NamesDirectory(h: Header) {
    h.name != [] && h.name[|h.name| - 1] == SLASH
  }

  predicate MadeByUnix(h: Header) { h.madeBy / 256 == 3 }

  /** The file type bits of the Unix mode, as a digit. */
  function FileType(h: Header): nat { h.external / 0x1000_0000 % 16 }

  function ReadMember(h: Header, text: Text, limits: Limits): Result<Entry> {
    if h.flags % 2 == 1 then Failed(EncryptedEntries)
    else if MadeByUnix(h) && FileType(h) == 10 then Failed(UnsafeSymlink)
    else if MadeByUnix(h) && FileType(h) !in {0, 4, 8} then Failed(UnsafeSpecialFile)
    else if h.disk != 0 && h.disk != MAX16 then Failed(MultiDisk)
    else match NormalPath(h.name, h.flags / 0x800 % 2 == 1, NamesDirectory(h), text, limits.maxDepth)
      case Failed(c) => Failed(c)
      case Ok(path) =>
        match Resolved(h.extra, h.compressed, h.uncompressed, h.offset, h.disk)
        case Failed(c) => Failed(c)
        case Ok((_, size)) => Ok(Entry(path, NamesDirectory(h), size))
  }

  /** A member that is plain, readable, on the first disk, and spells a safe path. */
  ghost predicate Acceptable(h: Header, e: Entry, text: Text, limits: Limits) {
    && h.flags % 2 == 0 && (MadeByUnix(h) ==> FileType(h) in {0, 4, 8}) && (h.disk == 0 || h.disk == MAX16)
    && e.directory == NamesDirectory(h) && Safe(e.path, text.isAlpha, limits.maxDepth)
    && text.decode(h.name, h.flags / 0x800 % 2 == 1) == Some(NameOf(e.path, e.directory))
    && exists compressed :: Resolved(h.extra, h.compressed, h.uncompressed, h.offset, h.disk) == Ok((compressed, e.size))
  }

  lemma ReadMemberIs(h: Header, e: Entry, text: Text, limits: Limits)
    ensures ReadMember(h, text, limits) == Ok(e) <==> Acceptable(h, e, text, limits)
  {
    NormalPathIsSafe(h.name, h.flags / 0x800 % 2 == 1, NamesDirectory(h), text, limits.maxDepth, e.path);
    if ReadMember(h, text, limits) == Ok(e) {
      assert Resolved(h.extra, h.compressed, h.uncompressed, h.offset, h.disk)
             == Ok((Resolved(h.extra, h.compressed, h.uncompressed, h.offset, h.disk).value.0, e.size));
    }
  }

  // ---------- the whole directory ----------

  /** The member whose record stands at `at`, and where the next record starts. */
  function ReadOne(d: Bytes, at: nat, text: Text, limits: Limits): Result<(Entry, nat)> {
    match ReadHeader(d, at)
    case Failed(c) => Failed(c)
    case Ok((h, next)) =>
      match ReadMember(h, text, limits)
      case Failed(c) => Failed(c)
      case Ok(e) => Ok((e, next))
  }

  type Reader = nat -> Result<(Entry, nat)>

  function ReaderOf(d: Bytes, text: Text, limits: Limits): Reader {
    (at: nat) => ReadOne(d, at, text, limits)
  }

  /** `count` members from `at` on, and where their records end. */
  function ReadAll(read: Reader, at: nat, count: nat): Result<(seq<Entry>, nat)>
    decreases count
  {
    if count == 0 then Ok(([], at))
    else match read(at)
      case Failed(c) => Failed(c)
      case Ok((e, next)) =>
        match ReadAll(read, next, count - 1)
        case Failed(c) => Failed(c)
        case Ok((rest, end)) => Ok(([e] + rest, end))
  }

  /** The central directory of the given members. */
  function Directory(headers: seq<(Header, Ignored)>): Bytes
    decreases |headers|
  {
    if headers == [] then [] else Written(RecordPieces(headers[0].0, headers[0].1), Directory(headers[1..]))
  }

  /** Where the i-th record stands. */
  function Boundary(headers: seq<(Header, Ignored)>, i: nat): nat
    requires i <= |headers|
  {
    if i == 0 then 0 else Boundary(headers, i - 1) + Length(headers[i - 1])
  }

  predicate AllFit(headers: seq<(Header, Ignored)>) {
    forall i :: 0 <= i < |headers| ==> HeaderFits(headers[i].0, headers[i].1)
  }

  lemma {:induction false} FromBoundary(headers: seq<(Header, Ignored)>, i: nat)
    requires i <= |headers| && AllFit(headers)
    ensures From(Directory(headers), Boundary(headers, i), Directory(headers[i..]))
  {
    if i == 0 {
      assert headers[0..] == headers;
    } else {
      FromBoundary(headers, i - 1);
      var (h, ignored) := headers[i - 1];
      assert headers[i - 1..][1..] == headers[i..];
      WrittenHeader(Directory(headers), Boundary(headers, i - 1), h, ignored, Directory(headers[i..]));
    }
  }

  /** Round trip: each header of a written directory reads back, and the next one follows it. */
  lemma HeaderReads(headers: seq<(Header, Ignored)>, i: nat)
    requires i < |headers| && AllFit(headers)
    ensures HeaderIs(ReadHeader(Directory(headers), Boundary(headers, i)), headers[i].0, Boundary(headers, i + 1))
  {
    FromBoundary(headers, i);
    var (h, ignored) := headers[i];
    assert headers[i..][1..] == headers[i + 1..];
    WrittenHeader(Directory(headers), Boundary(headers, i), h, ignored, Directory(headers[i + 1..]));
  }

  lemma AtEnd(headers: seq<(Header, Ignored)>)
    requires AllFit(headers)
    ensures Boundary(headers, |headers|) == |Directory(headers)|
  {
    FromBoundary(headers, |headers|);
    assert |Directory(headers)[Boundary(headers, |headers|)..]| == 0;
  }

  predicate EntriesAre(r: Result<(seq<Entry>, nat)>, entries: seq<Entry>, end: nat) {
    r.Ok? && r.value.0 == entries && r.value.1 == end
  }

  /** Reading on from the i-th boundary. */
  lemma {:induction false} ReadsFrom(read: Reader, bounds: seq<nat>, entries: seq<Entry>, i: nat)
    requires |bounds| == |entries| + 1 && i <= |entries|
    requires forall k :: 0 <= k < |entries| ==> read(bounds[k]) == Ok((entries[k], bounds[k + 1]))
    ensures EntriesAre(ReadAll(read, bounds[i], |entries| - i), entries[i..], bounds[|entries|])
    decreases |entries| - i
  {
    if i < |entries| {
      ReadsFrom(read, bounds, entries, i + 1);
      assert entries[i..] == [entries[i]] + entries[i + 1..];
    }
  }

  lemma MemberReads(headers: seq<(Header, Ignored)>, k: nat, e: Entry, text: Text, limits: Limits)
    requires k < |headers| && AllFit(headers) && Acceptable(headers[k].0, e, text, limits)
    ensures ReaderOf(Directory(headers), text, limits)(Boundary(headers, k)) == Ok((e, Boundary(headers, k + 1)))
  {
    HeaderReads(headers, k);
    ReadMemberIs(headers[k].0, e, text, limits);
  }

  /** Where the records stand, the end included. */
  function Boundaries(headers: seq<(Header, Ignored)>): (bounds: seq<nat>)
    ensures |bounds| == |headers| + 1 && forall k :: 0 <= k <= |headers| ==> bounds[k] == Boundary(headers, k)
  {
    seq(|headers| + 1, k requires 0 <= k <= |headers| => Boundary(headers, k))
  }

  /** Headers that fit their fields, each of an acceptable member. */
  ghost predicate Members(headers: seq<(Header, Ignored)>, entries: seq<Entry>, text: Text, limits: Limits) {
    && AllFit(headers) && |entries| == |headers|
    && forall k :: 0 <= k < |headers| ==> Acceptable(headers[k].0, entries[k], text, limits)
  }

  /** Round trip: the records of a written directory read back as the members they were written for. */
  lemma WrittenDirectory(headers: seq<(Header, Ignored)>, entries: seq<Entry>, text: Text, limits: Limits)
    requires Members(headers, entries, text, limits)
    ensures EntriesAre(ReadAll(ReaderOf(Directory(headers), text, limits), 0, |headers|), entries, |Directory(headers)|)
  {
    var read, bounds := ReaderOf(Directory(headers), text, limits), Boundaries(headers);
    forall k | 0 <= k < |headers| ensures read(bounds[k]) == Ok((entries[k], bounds[k + 1])) {
      MemberReads(headers, k, entries[k], text, limits);
    }
    ReadsFrom(read, bounds, entries, 0);
    AtEnd(headers);
    assert entries[0..] == entries;
  }

  /** What is read to the very end was written as a directory of acceptable members. */
  lemma {:induction false} ReadsWritten(d: Bytes, at: nat, count: nat, entries: seq<Entry>, text: Text, limits: Limits)
    returns (headers: seq<(Header, Ignored)>)
    requires EntriesAre(ReadAll(ReaderOf(d, text, limits), at, count), entries, |d|)
    ensures |headers| == count && Members(headers, entries, text, limits) && From(d, at, Directory(headers))
    decreases count
  {
    headers := [];
    if count > 0 {
      var (e, next) := ReadOne(d, at, text, limits).value;
      var rest := ReadsWritten(d, next, count - 1, entries[1..], text, limits);
      var i := ReadIsWritten(d, at);
      var h := ReadHeader(d, at).value.0;
      ReadMemberIs(h, e, text, limits);
      headers := FirstMember(h, i, e, rest, entries, text, limits);
    }
  }

  lemma FirstMember(h: Header, i: Ignored, e: Entry, rest: seq<(Header, Ignored)>, entries: seq<Entry>, text: Text, limits: Limits)
    returns (headers: seq<(Header, Ignored)>)
    requires HeaderFits(h, i) && Acceptable(h, e, text, limits) && entries != [] && entries[0] == e
    requires Members(rest, entries[1..], text, limits)
    ensures |headers| == |rest| + 1 && Members(headers, entries, text, limits)
    ensures Directory(headers) == Written(RecordPieces(h, i), Directory(rest))
  {
    headers := [(h, i)] + rest;
    assert headers[1..] == rest;
    forall k | 0 <= k < |headers| ensures Acceptable(headers[k].0, entries[k], text, limits) {
      if k > 0 { assert entries[k] == entries[1..][k - 1]; }
    }
  }

  /** Exactness: the bytes that read as a directory of these members are those that can be written for them. */
  lemma DirectoryExact(d: Bytes, entries: seq<Entry>, text: Text, limits: Limits)
    ensures EntriesAre(ReadAll(ReaderOf(d, text, limits), 0, |entries|), entries, |d|)
       <==> exists headers :: d == Directory(headers) && Members(headers, entries, text, limits)
  {
    if EntriesAre(ReadAll(ReaderOf(d, text, limits), 0, |entries|), entries, |d|) {
      var headers := ReadsWritten(d, 0, |entries|, entries, text, limits);
      assert d[0..] == d;
    }
    forall headers | d == Directory(headers) && Members(headers, entries, text, limits)
      ensures EntriesAre(ReadAll(ReaderOf(d, text, limits), 0, |entries|), entries, |d|)
    {
      WrittenDirectory(headers, entries, text, limits);
    }
  }
}
