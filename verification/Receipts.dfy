/** Greedy paging of an inventory into bounded callbacks. */
module Receipts {
  import opened Wrappers

  const PAGE_BYTES := 48 * 1024
  const PAGE_ENTRIES := 250
  const MAX_ENTRIES := 10000

  // ---------- the size of a page ----------

  /** An entry as its JSON text, which is ASCII: one byte for each character. */
  type Entry = string

  function Digits(n: nat): nat {
    if n < 10 then 1 else 1 + Digits(n / 10)
  }

  /** The entries as they stand in the page, with the commas between them. */
  function Bytes(batch: seq<Entry>): nat {
    if batch == [] then 0
    else Bytes(batch[..|batch| - 1]) + |batch[|batch| - 1]| + if |batch| == 1 then 0 else 1
  }

  /** `base` is what a page costs besides its number, its flag and its entries. */
  function PageSize(number: nat, complete: bool, batch: seq<Entry>, base: nat): nat {
    base + Digits(number) + (if complete then 4 else 5) + Bytes(batch)
  }

  const DIGITS := "0123456789"

  function Decimal(n: nat): string {
    if n < 10 then [DIGITS[n]] else Decimal(n / 10) + [DIGITS[n % 10]]
  }

  function Joined(batch: seq<Entry>): string {
    if batch == [] then ""
    else if |batch| == 1 then batch[0]
    else Joined(batch[..|batch| - 1]) + "," + batch[|batch| - 1]
  }

  const NUMBER_KEY := ",\"page\":"
  const COMPLETE_KEY := ",\"complete\":"
  const ENTRIES_KEY := ",\"entries\":["

  /** A page as it is sent; `fields` is its text up to its number, the opening brace included. */
  function PageText(fields: string, number: nat, complete: bool, batch: seq<Entry>): string {
    fields + NUMBER_KEY + Decimal(number) + COMPLETE_KEY + (if complete then "true" else "false") + ENTRIES_KEY + Joined(batch) + "]}"
  }

  function Base(fields: string): nat {
    |fields| + |NUMBER_KEY| + |COMPLETE_KEY| + |ENTRIES_KEY| + 2
  }

  lemma {:induction false} DecimalLength(n: nat)
    ensures |Decimal(n)| == Digits(n)
  {
    if n >= 10 { DecimalLength(n / 10); }
  }

  lemma {:induction false} JoinedLength(batch: seq<Entry>)
    ensures |Joined(batch)| == Bytes(batch)
    decreases |batch|
  {
    if |batch| > 1 {
      JoinedLength(batch[..|batch| - 1]);
    } else if |batch| == 1 {
      assert batch[..0] == [];
    }
  }

  /** The size that is tested is the length of the text that is sent. */
  lemma PageTextSize(fields: string, number: nat, complete: bool, batch: seq<Entry>)
    ensures |PageText(fields, number, complete, batch)| == PageSize(number, complete, batch, Base(fields))
  {
    DecimalLength(number);
    JoinedLength(batch);
  }

  /** The test every page has to pass while it may still grow. */
  predicate FitsPage(number: nat, batch: seq<Entry>, base: nat) {
    |batch| <= PAGE_ENTRIES && PageSize(number, false, batch, base) <= PAGE_BYTES
  }

  // ---------- pagings ----------

  function Flatten(pages: seq<seq<Entry>>): seq<Entry> {
    if pages == [] then [] else Flatten(pages[..|pages| - 1]) + pages[|pages| - 1]
  }

  function Start(pages: seq<seq<Entry>>, k: nat): nat
    requires k <= |pages|
  {
    if k == 0 then 0 else Start(pages, k - 1) + |pages[k - 1]|
  }

  /** Some way to cut the entries, in order, into pages that all fit. */
  predicate Paging(pages: seq<seq<Entry>>, entries: seq<Entry>, base: nat) {
    Flatten(pages) == entries && forall k :: 0 <= k < |pages| ==> FitsPage(k, pages[k], base)
  }

  /** The k-th page is the piece of the entries that follows the pages before it. */
  predicate SliceAt(pages: seq<seq<Entry>>, entries: seq<Entry>, k: nat)
    requires k < |pages|
  {
    var i := Start(pages, k);
    i + |pages[k]| <= |entries| && pages[k] == entries[i..i + |pages[k]|]
  }

  /** It is not empty, it fits, and it had no room for the entry after it. */
  predicate FilledAt(pages: seq<seq<Entry>>, entries: seq<Entry>, base: nat, k: nat)
    requires k < |pages| && SliceAt(pages, entries, k)
  {
    var i := Start(pages, k);
    var j := i + |pages[k]|;
    pages[k] != [] && FitsPage(k, pages[k], base) && (j < |entries| ==> !FitsPage(k, entries[i..j + 1], base))
  }

  predicate Slices(pages: seq<seq<Entry>>, entries: seq<Entry>) {
    forall k :: 0 <= k < |pages| ==> SliceAt(pages, entries, k)
  }

  /** Pages as greedy filling makes them. */
  predicate Filled(pages: seq<seq<Entry>>, entries: seq<Entry>, base: nat) {
    forall k :: 0 <= k < |pages| ==> SliceAt(pages, entries, k) && FilledAt(pages, entries, base, k)
  }

  // ---------- facts about sizes ----------

  lemma {:induction false} DigitsGrow(m: nat, n: nat)
    requires m <= n
    ensures Digits(m) <= Digits(n)
    decreases n
  {
    if n >= 10 { DigitsGrow(m / 10, n / 10); }
  }

  lemma {:induction false} BytesOfTail(batch: seq<Entry>)
    requires batch != []
    ensures Bytes(batch[1..]) <= Bytes(batch)
    decreases |batch|
  {
    if |batch| > 1 {
      BytesOfTail(batch[..|batch| - 1]);
      assert batch[1..][..|batch| - 2] == batch[..|batch| - 1][1..];
    }
  }

  lemma {:induction false} BytesOfPart(entries: seq<Entry>, a: nat, i: nat, j: nat, b: nat)
    requires a <= i <= j <= b <= |entries|
    ensures Bytes(entries[i..j]) <= Bytes(entries[a..b])
    decreases i - a, b - j
  {
    if a < i {
      assert entries[a..b][1..] == entries[a + 1..b];
      BytesOfTail(entries[a..b]);
      BytesOfPart(entries, a + 1, i, j, b);
    } else if j < b {
      assert entries[a..b][..b - a - 1] == entries[a..b - 1];
      BytesOfPart(entries, a, i, j, b - 1);
    }
  }

  /** A part of what fits on a page fits on that page and on any earlier one. */
  lemma PartFits(entries: seq<Entry>, a: nat, i: nat, j: nat, b: nat, earlier: nat, number: nat, base: nat)
    requires a <= i <= j <= b <= |entries| && earlier <= number && FitsPage(number, entries[a..b], base)
    ensures FitsPage(earlier, entries[i..j], base)
  {
    BytesOfPart(entries, a, i, j, b);
    DigitsGrow(earlier, number);
  }

  // ---------- facts about cuts ----------

  lemma {:induction false} StartInit(pages: seq<seq<Entry>>, page: seq<Entry>, k: nat)
    requires k <= |pages|
    ensures Start(pages + [page], k) == Start(pages, k)
  {
    if k > 0 { StartInit(pages, page, k - 1); }
  }

  lemma {:induction false} StartGrows(pages: seq<seq<Entry>>, j: nat, k: nat)
    requires j <= k <= |pages|
    ensures Start(pages, j) <= Start(pages, k)
  {
    if j < k { StartGrows(pages, j, k - 1); }
  }

  lemma {:induction false} FlattenSlices(pages: seq<seq<Entry>>, rest: seq<Entry>)
    ensures Start(pages, |pages|) == |Flatten(pages)| && Slices(pages, Flatten(pages) + rest)
    decreases |pages|
  {
    if pages != [] {
      var init, last := pages[..|pages| - 1], pages[|pages| - 1];
      assert pages == init + [last];
      FlattenSlices(init, last + rest);
      assert Flatten(init) + (last + rest) == Flatten(pages) + rest;
      StartInit(init, last, |init|);
      forall k | 0 <= k < |pages| ensures SliceAt(pages, Flatten(pages) + rest, k) {
        if k < |init| { SliceKept(init, last, Flatten(pages) + rest, k); }
      }
    }
  }

  lemma SliceKept(pages: seq<seq<Entry>>, page: seq<Entry>, entries: seq<Entry>, k: nat)
    requires k < |pages| && SliceAt(pages, entries, k)
    ensures SliceAt(pages + [page], entries, k)
  {
    StartInit(pages, page, k);
  }

  lemma PagingSlices(pages: seq<seq<Entry>>, entries: seq<Entry>)
    requires Flatten(pages) == entries
    ensures Start(pages, |pages|) == |entries| && Slices(pages, entries)
  {
    FlattenSlices(pages, []);
    assert Flatten(pages) + [] == entries;
  }

  // ---------- greedy stays ahead ----------

  lemma AheadStep(entries: seq<Entry>, a: nat, b: nat, g: nat, h: nat, k: nat, base: nat)
    requires a <= g <= h <= |entries| && a <= b <= |entries|
    requires FitsPage(k, entries[a..b], base) && (h < |entries| ==> !FitsPage(k, entries[g..h + 1], base))
    ensures b <= h
  {
    if h < b { PartFits(entries, a, g, h + 1, b, k, k, base); }
  }

  /** After as many pages, filled pages have covered at least as many entries as any other paging. */
  lemma {:induction false} StaysAhead(filled: seq<seq<Entry>>, other: seq<seq<Entry>>, entries: seq<Entry>, base: nat, k: nat)
    requires Filled(filled, entries, base) && Paging(other, entries, base) && k <= |filled| && k <= |other|
    ensures Start(other, k) <= Start(filled, k)
  {
    if k > 0 {
      StaysAhead(filled, other, entries, base, k - 1);
      PagingSlices(other, entries);
      var a, g := Start(other, k - 1), Start(filled, k - 1);
      assert SliceAt(other, entries, k - 1) && SliceAt(filled, entries, k - 1) && FilledAt(filled, entries, base, k - 1);
      AheadStep(entries, a, a + |other[k - 1]|, g, g + |filled[k - 1]|, k - 1, base);
    }
  }

  /** No paging that passes the same test has fewer pages. */
  lemma GreedyIsOptimal(filled: seq<seq<Entry>>, other: seq<seq<Entry>>, entries: seq<Entry>, base: nat)
    requires Filled(filled, entries, base) && Flatten(filled) == entries && Paging(other, entries, base)
    ensures |filled| <= |other|
  {
    PagingSlices(other, entries);
    PagingSlices(filled, entries);
    if |other| < |filled| {
      MoreToCover(filled, entries, base, |other|);
      StaysAhead(filled, other, entries, base, |other|);
    }
  }

  lemma MoreToCover(filled: seq<seq<Entry>>, entries: seq<Entry>, base: nat, n: nat)
    requires Filled(filled, entries, base) && n < |filled|
    ensures Start(filled, n) < Start(filled, |filled|)
  {
    assert FilledAt(filled, entries, base, n);
    StartGrows(filled, n + 1, |filled|);
  }

  /** The page of a paging that an entry falls on. */
  lemma {:induction false} PageOf(pages: seq<seq<Entry>>, k: nat, at: nat) returns (j: nat)
    requires k <= |pages| && Start(pages, k) <= at < Start(pages, |pages|)
    ensures k <= j < |pages| && Start(pages, j) <= at < Start(pages, j + 1)
    decreases |pages| - k
  {
    if at < Start(pages, k + 1) { j := k; } else { j := PageOf(pages, k + 1, at); }
  }

  /** An entry that does not fit on the page greedy filling has come to fits nowhere. */
  lemma NoPaging(filled: seq<seq<Entry>>, other: seq<seq<Entry>>, entries: seq<Entry>, base: nat)
    requires Filled(filled, entries, base) && Start(filled, |filled|) < |entries|
    requires var g := Start(filled, |filled|); !FitsPage(|filled|, entries[g..g + 1], base)
    ensures !Paging(other, entries, base)
  {
    if Paging(other, entries, base) {
      PagingSlices(other, entries);
      if |other| < |filled| {
        StaysAhead(filled, other, entries, base, |other|);
        StartGrows(filled, |other|, |filled|);
      } else {
        StaysAhead(filled, other, entries, base, |filled|);
        SomePageHolds(other, entries, |filled|, Start(filled, |filled|), base);
      }
    }
  }

  /** In a paging that has not come past entry `g` after `k` pages, that entry fits on a page of its own after them. */
  lemma SomePageHolds(other: seq<seq<Entry>>, entries: seq<Entry>, k: nat, g: nat, base: nat)
    requires Paging(other, entries, base) && Slices(other, entries) && Start(other, |other|) == |entries|
    requires k <= |other| && Start(other, k) <= g < |entries|
    ensures FitsPage(k, entries[g..g + 1], base)
  {
    var j := PageOf(other, k, g);
    assert SliceAt(other, entries, j);
    PartFits(entries, Start(other, j), g, g + 1, Start(other, j + 1), k, j, base);
  }

  // ---------- the receipts ----------

  datatype Document = Document(ready: bool, category: Option<string>, entries: Option<seq<Entry>>)

  datatype Receipt =
    | Page(number: nat, complete: bool, entries: seq<Entry>)
    | Unavailable(reason: string)

  datatype Outcome = Receipts(receipts: seq<Receipt>) | InvalidInventory | OversizedEntry

  const DEFAULT_REASON := "inventory_unavailable"

  function WithoutUnderscores(s: string): string {
    if s == "" then "" else (if s[0] == '_' then "" else [s[0]]) + WithoutUnderscores(s[1..])
  }

  /** A category is passed on only if it is a short plain word. */
  predicate PlainWord(s: string, isAlnum: char -> bool) {
    |s| <= 64 && WithoutUnderscores(s) != "" && forall i :: 0 <= i < |s| ==> s[i] == '_' || isAlnum(s[i])
  }

  /** The receipts for a given cut: numbered from 0, the last one complete. */
  function Numbered(pages: seq<seq<Entry>>): seq<Receipt> {
    seq(|pages|, k requires 0 <= k < |pages| => Page(k, k == |pages| - 1, pages[k]))
  }

  lemma LastSlice(pages: seq<seq<Entry>>, batch: seq<Entry>, entries: seq<Entry>, i: nat)
    requires i <= |entries| && Flatten(pages) + batch == entries[..i]
    ensures var all := pages + [batch];
            && SliceAt(all, entries, |pages|) && Start(all, |pages|) + |batch| == i == Start(all, |pages| + 1)
            && Flatten(all) == entries[..i]
  {
    LastStart(pages, batch);
    LastFlat(pages, batch);
    LastPiece(pages + [batch], |pages|, Flatten(pages), entries, i);
  }

  lemma LastPiece(all: seq<seq<Entry>>, n: nat, before: seq<Entry>, entries: seq<Entry>, i: nat)
    requires n < |all| && Start(all, n) == |before| && i <= |entries| && before + all[n] == entries[..i]
    ensures SliceAt(all, entries, n) && |before| + |all[n]| == i
  {
    var piece := all[n];
    assert entries[..i][|before|..] == piece;
    assert entries[|before|..i] == entries[..i][|before|..];
  }

  lemma LastStart(pages: seq<seq<Entry>>, batch: seq<Entry>)
    ensures Start(pages + [batch], |pages|) == |Flatten(pages)|
    ensures Start(pages + [batch], |pages| + 1) == |Flatten(pages)| + |batch|
  {
    FlattenSlices(pages, []);
    StartInit(pages, batch, |pages|);
    assert (pages + [batch])[|pages|] == batch;
  }

  lemma LastFlat(pages: seq<seq<Entry>>, batch: seq<Entry>)
    ensures Flatten(pages + [batch]) == Flatten(pages) + batch
  {
    assert (pages + [batch])[..|pages|] == pages;
  }

  lemma LastFilled(all: seq<seq<Entry>>, entries: seq<Entry>, i: nat, base: nat)
    requires all != [] && SliceAt(all, entries, |all| - 1)
    requires var n := |all| - 1;
             && all[n] != [] && FitsPage(n, all[n], base) && Start(all, n) + |all[n]| == i
             && (i < |entries| ==> !FitsPage(n, all[n] + [entries[i]], base))
    ensures FilledAt(all, entries, base, |all| - 1)
  {
    var n := |all| - 1;
    if i < |entries| { assert entries[Start(all, n)..i + 1] == all[n] + [entries[i]]; }
  }

  /** A batch that can take no more of the entries is one more filled page. */
  lemma ClosePage(pages: seq<seq<Entry>>, batch: seq<Entry>, entries: seq<Entry>, i: nat, base: nat)
    requires Filled(pages, entries, base) && i <= |entries| && batch != [] && Flatten(pages) + batch == entries[..i]
    requires FitsPage(|pages|, batch, base) && (i < |entries| ==> !FitsPage(|pages|, batch + [entries[i]], base))
    ensures Filled(pages + [batch], entries, base) && Start(pages + [batch], |pages| + 1) == i
    ensures Flatten(pages + [batch]) == entries[..i]
  {
    var all, n := pages + [batch], |pages|;
    LastSlice(pages, batch, entries, i);
    LastFilled(all, entries, i, base);
    forall k | 0 <= k < |all| ensures SliceAt(all, entries, k) && FilledAt(all, entries, base, k) {
      if k < n { FilledKept(pages, batch, entries, base, k); }
    }
  }

  lemma FilledKept(pages: seq<seq<Entry>>, page: seq<Entry>, entries: seq<Entry>, base: nat, k: nat)
    requires k < |pages| && SliceAt(pages, entries, k) && FilledAt(pages, entries, base, k)
    ensures SliceAt(pages + [page], entries, k) && FilledAt(pages + [page], entries, base, k)
  {
    StartInit(pages, page, k);
  }

  /** What the receipts for a ready inventory are. */
  ghost predicate Paged(r: Outcome, entries: seq<Entry>, base: nat) {
    match r
    case InvalidInventory => |entries| > MAX_ENTRIES
    case OversizedEntry => |entries| <= MAX_ENTRIES && forall pages :: !Paging(pages, entries, base)
    case Receipts(receipts) =>
      && |entries| <= MAX_ENTRIES
      && if entries == [] then receipts == [Page(0, true, [])]
         else exists pages :: receipts == Numbered(pages) && Flatten(pages) == entries && Filled(pages, entries, base)
  }

  /** After `i` entries: the filled pages, and a batch that may still grow. */
  predicate Underway(pages: seq<seq<Entry>>, batch: seq<Entry>, entries: seq<Entry>, i: nat, base: nat) {
    && i <= |entries| && Filled(pages, entries, base) && Flatten(pages) + batch == entries[..i]
    && (if batch == [] then i == 0 && pages == [] else FitsPage(|pages|, batch, base))
  }

  lemma OneMore(entries: seq<Entry>, i: nat)
    requires i < |entries|
    ensures entries[i..i + 1] == [entries[i]] && entries[..i + 1] == entries[..i] + [entries[i]]
  {
  }

  lemma JoinBatch(pages: seq<seq<Entry>>, batch: seq<Entry>, entries: seq<Entry>, i: nat, base: nat)
    requires i < |entries| && Filled(pages, entries, base) && Flatten(pages) + batch == entries[..i]
    requires FitsPage(|pages|, batch + [entries[i]], base)
    ensures Underway(pages, batch + [entries[i]], entries, i + 1, base)
  {
    OneMore(entries, i);
    assert Flatten(pages) + (batch + [entries[i]]) == (Flatten(pages) + batch) + [entries[i]];
  }

  /** An entry that does not fit on a page of its own, where the pages have come to, fits in no paging. */
  lemma TooLarge(pages: seq<seq<Entry>>, entries: seq<Entry>, i: nat, base: nat)
    requires i < |entries| && Filled(pages, entries, base) && Start(pages, |pages|) == i
    requires !FitsPage(|pages|, entries[i..i + 1], base)
    ensures forall other :: !Paging(other, entries, base)
  {
    forall other ensures !Paging(other, entries, base) { NoPaging(pages, other, entries, base); }
  }

  /** The body of the loop: the entry joins the batch, or the batch is closed and the entry begins the next one, or it is too
      large for any page. */
  method AddEntry(pages: seq<seq<Entry>>, batch: seq<Entry>, ghost entries: seq<Entry>, ghost i: nat, entry: Entry, base: nat)
    returns (fits: bool, result: seq<seq<Entry>>, next: seq<Entry>)
    requires Underway(pages, batch, entries, i, base) && i < |entries| && entries[i] == entry
    ensures if fits then Underway(result, next, entries, i + 1, base) else forall other :: !Paging(other, entries, base)
  {
    OneMore(entries, i);
    fits, result, next := true, pages, batch + [entry];
    if |batch| >= PAGE_ENTRIES || PageSize(|pages|, false, batch + [entry], base) > PAGE_BYTES {
      if batch == [] {
        assert [] + [entry] == [entry];
        TooLarge(pages, entries, i, base);
        return false, pages, batch;
      }
      ClosePage(pages, batch, entries, i, base);
      result, next := pages + [batch], [entry];
      if PageSize(|result|, false, [entry], base) > PAGE_BYTES {
        TooLarge(result, entries, i, base);
        return false, pages, batch;
      }
      assert Flatten(result) + [] == entries[..i] && [] + [entry] == [entry];
      JoinBatch(result, [], entries, i, base);
    } else {
      JoinBatch(pages, batch, entries, i, base);
    }
  }

  method Pages(document: Document, base: nat, isAlnum: char -> bool) returns (r: Outcome)
    ensures !document.ready ==>
              r == Receipts([Unavailable(match document.category { case Some(c) => if PlainWord(c, isAlnum) then c else DEFAULT_REASON
                                                                   case None => DEFAULT_REASON })])
    ensures document.ready && document.entries.None? ==> r == InvalidInventory
    ensures document.ready && document.entries.Some? ==> Paged(r, document.entries.value, base)
  {
    if !document.ready {
      var reason := DEFAULT_REASON;
      if document.category.Some? && PlainWord(document.category.value, isAlnum) { reason := document.category.value; }
      return Receipts([Unavailable(reason)]);
    }
    if document.entries.None? || |document.entries.value| > MAX_ENTRIES { return InvalidInventory; }
    var entries := document.entries.value;
    var result: seq<seq<Entry>> := [];
    var batch: seq<Entry> := [];
    for i := 0 to |entries|
      invariant Underway(result, batch, entries, i, base)
    {
      var fits;
      fits, result, batch := AddEntry(result, batch, entries, i, entries[i], base);
      if !fits { return OversizedEntry; }
    }
    assert entries[..|entries|] == entries;
    if entries != [] { ClosePage(result, batch, entries, |entries|, base); }
    r := Receipts(Numbered(result + [batch]));
  }

  // ---------- what that means ----------

  /** Each receipt as it is sent, the last one with complete:true, is within the page limits. */
  lemma SentPagesFit(pages: seq<seq<Entry>>, entries: seq<Entry>, base: nat, k: nat)
    requires Filled(pages, entries, base) && k < |pages|
    ensures var sent := Numbered(pages)[k];
            && sent.number == k && (sent.complete <==> k == |pages| - 1) && sent.entries != [] && |sent.entries| <= PAGE_ENTRIES
            && PageSize(sent.number, sent.complete, sent.entries, base) <= PAGE_BYTES
  {
    assert FilledAt(pages, entries, base, k);
  }

  /** The text of every receipt that is sent for an inventory with entries is at most 48 KiB long. */
  lemma SentTextsFit(r: Outcome, entries: seq<Entry>, fields: string, k: nat)
    requires Paged(r, entries, Base(fields)) && entries != [] && r.Receipts? && k < |r.receipts|
    ensures var sent := r.receipts[k];
            && sent.Page? && sent.number == k && sent.entries != [] && |sent.entries| <= 250
            && |PageText(fields, k, sent.complete, sent.entries)| <= 48 * 1024
  {
    var pages :| r.receipts == Numbered(pages) && Flatten(pages) == entries && Filled(pages, entries, Base(fields));
    SentPagesFit(pages, entries, Base(fields), k);
    PageTextSize(fields, k, r.receipts[k].complete, r.receipts[k].entries);
  }

  /** Paging fails only if it has to: with at least one entry, receipts are made exactly if some paging exists,
      and then with the fewest pages. */
  lemma PagedMeans(r: Outcome, entries: seq<Entry>, other: seq<seq<Entry>>, base: nat)
    requires Paged(r, entries, base) && entries != [] && |entries| <= MAX_ENTRIES
    ensures Paging(other, entries, base) ==> r.Receipts? && |r.receipts| <= |other|
    ensures r.Receipts? ==> exists pages :: Paging(pages, entries, base) && r.receipts == Numbered(pages)
  {
    if r.Receipts? {
      var pages :| r.receipts == Numbered(pages) && Flatten(pages) == entries && Filled(pages, entries, base);
      forall k | 0 <= k < |pages| ensures FitsPage(k, pages[k], base) { assert FilledAt(pages, entries, base, k); }
      assert Paging(pages, entries, base);
      if Paging(other, entries, base) { GreedyIsOptimal(pages, other, entries, base); }
    }
  }

  /** A receipt as it is sent is within the limits of a page. */
  predicate WithinLimits(r: Receipt, base: nat) {
    r.Page? && |r.entries| <= PAGE_ENTRIES && PageSize(r.number, r.complete, r.entries, base) <= PAGE_BYTES
  }

  /** All receipts that are sent for an inventory are within the limits, unless the inventory is empty: its page is sent
      without a size test, and is within them exactly if the proof leaves room for it. */
  lemma SentWithinLimits(r: Outcome, entries: seq<Entry>, base: nat)
    requires Paged(r, entries, base) && r.Receipts?
    ensures (forall k :: 0 <= k < |r.receipts| ==> WithinLimits(r.receipts[k], base)) <==> (entries != [] || base <= PAGE_BYTES - 5)
  {
    if entries == [] {
      assert r.receipts[0] == Page(0, true, []);
    } else {
      var pages :| r.receipts == Numbered(pages) && Flatten(pages) == entries && Filled(pages, entries, base);
      forall k | 0 <= k < |r.receipts| ensures WithinLimits(r.receipts[k], base) { SentPagesFit(pages, entries, base, k); }
    }
  }
}
