/** The writer of index files (index/index.go). */
module IndexWriter {
  import opened Words
  import opened Varints
  import opened ByteBuffers
  import opened Labelling
  import opened IndexFormat
  import opened IndexTables
  import opened IndexSorting
  import opened IndexContents
  import opened IndexEncoding
  import Seqs

  /** 16 times the largest 32-bit number. */
  const MAX_FILE: nat := 16 * 0xFFFF_FFFF

  type Stage = s: nat | s <= 5

  const NONE: Stage := 0
  const SYMBOLS: Stage := 1
  const SERIES: Stage := 2
  const LABEL_INDEX: Stage := 3
  const POSTINGS: Stage := 4
  const DONE: Stage := 5

  function Padding(pos: nat, size: nat): nat
    requires size > 0
  {
    if pos % size == 0 then 0 else size - pos % size
  }

  lemma Aligned(pos: nat)
    ensures (pos + Padding(pos, 16)) % 16 == 0
  {
  }

  /** As many bytes as are missing to the next multiple, and no more. */
  lemma PaddingExactly(pos: nat, size: nat)
    requires size > 0
    ensures Padding(pos, size) < size && (pos + Padding(pos, size)) % size == 0
  {
    var q, r := pos / size, pos % size;
    assert pos == size * q + r;
    if r != 0 {
      assert size * (q + 1) == size * q + size;
      DivUnique(size * (q + 1), size, q + 1, 0);
    }
  }

  /** The table of contents when a stage is entered at a position. */
  function Marked(toc: TOC, s: Stage, pos: Word): TOC {
    if s == SYMBOLS then toc.(symbols := pos)
    else if s == SERIES then toc.(series := pos)
    else if s == LABEL_INDEX then toc.(labelIndices := pos)
    else if s == POSTINGS then toc.(postings := pos)
    else toc
  }

  /** No label set written so far comes after the last one. */
  ghost predicate UpTo(rows: map<nat, Row>, last: Labels) {
    forall r :: r in rows ==> Compare(rows[r].labels, last) <= 0
  }

  /* What the sections add to the contents */

  lemma SymbolsAdded(crc: Checksum, b: Bytes, k: Contents, ss: seq<string>, first: bool)
    requires Laid(crc, b, k) && Strings(ss) && k.rows == map[] && k.indexes == [] && k.postings == [] && |b| > 0
    ensures var f := Frame(crc, SymbolsContent(ss));
            Laid(crc, b + f, if first then k.(symbolsAt := |b|, table := ss, symbols := NumbersOf(ss))
                             else k.(symbols := NumbersOf(ss)))
  {
    hide Placed, Frame, SymbolsContent, NumbersOf, RowsOrdered, Header, Strings, Numbers;
    var f := Frame(crc, SymbolsContent(ss));
    LaidMore(crc, b, k, f);
    PlacedLast(b, f);
    var k1 := k.(symbolsAt := |b|, table := ss, symbols := NumbersOf(ss));
    var k2 := k.(symbols := NumbersOf(ss));
    SameOrder(k, k1);
    SameOrder(k, k2);
  }

  lemma SameOrder(k: Contents, l: Contents)
    requires RowsOrdered(k) && l.at == k.at && l.rows == k.rows
    ensures RowsOrdered(l)
  {
    hide Compare;
  }

  lemma SeriesAdded(crc: Checksum, b: Bytes, k: Contents, z: Bytes, ref: nat, row: Row, last: Labels)
    requires Laid(crc, b, k) && ref !in k.rows && Writable(k.symbols, row) && |b| > 0 && (|b| + |z|) % 16 == 0
    requires UpTo(k.rows, last) && Compare(row.labels, last) > 0
    ensures Laid(crc, b + z + VarFrame(crc, RowContent(k.symbols, row)),
              k.(at := k.at[ref := (|b| + |z|) / 16], rows := k.rows[ref := row]))
    ensures UpTo(k.rows[ref := row], row.labels)
  {
    hide Placed, Frame, VarFrame, RowContent, SymbolsContent, ValuesContent, PostingsContent, Header, Strings, Numbers,
         Writable, Compare, Small, Listed, Storing, RowsOrdered;
    var f := VarFrame(crc, RowContent(k.symbols, row));
    LaidMore(crc, b, k, z);
    LaidMore(crc, b + z, k, f);
    PlacedLast(b + z, f);
    var p := (|b| + |z|) / 16;
    forall r | r in k.rows ensures k.at[r] < p && Compare(k.rows[r].labels, row.labels) < 0 {
      PlacedWithin(crc, b, 16 * k.at[r], RowContent(k.symbols, k.rows[r]));
      Later(k.rows[r].labels, last, row.labels);
    }
    var l := k.(at := k.at[ref := p], rows := k.rows[ref := row]);
    OrderKept(k, l, ref, row, p);
    LabelsOrder(row.labels, row.labels, []);
  }

  lemma OrderKept(k: Contents, l: Contents, ref: nat, row: Row, p: nat)
    requires RowsOrdered(k) && ref !in k.rows && l == k.(at := k.at[ref := p], rows := k.rows[ref := row])
    requires forall r :: r in k.rows ==> k.at[r] < p && Compare(k.rows[r].labels, row.labels) < 0
    ensures RowsOrdered(l)
  {
    hide Compare;
  }

  lemma PlacedWithin(crc: Checksum, b: Bytes, off: nat, c: Bytes)
    requires Placed(b, off, VarFrame(crc, c))
    ensures off < |b|
  {
    FrameFits(crc, b, off, c);
  }

  lemma Later(a: Labels, b: Labels, c: Labels)
    requires Compare(a, b) <= 0 && Compare(c, b) > 0
    ensures Compare(a, c) < 0
  {
    hide Compare;
    LabelsOrder(a, b, c);
    LabelsOrder(b, c, []);
  }

  lemma ValuesAdded(crc: Checksum, b: Bytes, k: Contents, e: Entry, vs: seq<string>)
    requires Laid(crc, b, k) && Listed(k.symbols, vs) && Storing(e) && |e.keys| == 1 && e.offset == |b|
    ensures Laid(crc, b + Frame(crc, ValuesContent(k.symbols, vs)),
              k.(indexes := k.indexes + [e], values := k.values + [vs]))
  {
    hide Placed, Frame, VarFrame, RowContent, SymbolsContent, ValuesContent, PostingsContent, Header, Strings, Numbers,
         Writable, Small, Listed, Storing, RowsOrdered;
    var f := Frame(crc, ValuesContent(k.symbols, vs));
    LaidMore(crc, b, k, f);
    PlacedLast(b, f);
    SameOrder(k, k.(indexes := k.indexes + [e], values := k.values + [vs]));
  }

  lemma ListAdded(crc: Checksum, b: Bytes, k: Contents, e: Entry, ns: seq<nat>)
    requires Laid(crc, b, k) && Small(ns) && Storing(e) && |e.keys| == 2 && e.offset == |b|
    ensures Laid(crc, b + Frame(crc, PostingsContent(ns)), k.(postings := k.postings + [e], lists := k.lists + [ns]))
  {
    hide Placed, Frame, VarFrame, RowContent, SymbolsContent, ValuesContent, PostingsContent, Header, Strings, Numbers,
         Writable, Small, Listed, Storing, RowsOrdered;
    var f := Frame(crc, PostingsContent(ns));
    LaidMore(crc, b, k, f);
    PlacedLast(b, f);
    SameOrder(k, k.(postings := k.postings + [e], lists := k.lists + [ns]));
  }

  function Of(m: map<nat, nat>, keys: set<nat>): map<nat, nat> {
    map k | k in m && k in keys :: m[k]
  }

  lemma OfMore(m: map<nat, nat>, keys: set<nat>, k: nat, v: nat)
    requires k !in m && keys <= m.Keys
    ensures Of(m[k := v], keys) == Of(m, keys) && Of(m[k := v], keys + {k}) == Of(m, keys)[k := v]
  {
  }

  /** Lists the keys of a map, in no particular order. */
  method Keys(sym: set<string>) returns (ss: seq<string>)
    ensures Distinct(ss) && forall s :: s in ss <==> s in sym
  {
    ss := [];
    var rest := sym;
    while rest != {}
      invariant rest <= sym && Distinct(ss) && forall s :: s in ss <==> s in sym && s !in rest
      decreases rest
    {
      var s :| s in rest;
      ss := ss + [s];
      rest := rest - {s};
    }
  }

  class Writer {
    const crc: Checksum
    /** The file; its length is the position of the next byte. */
    var b: Bytes
    var toc: TOC
    var stage: Stage
    var symbols: map<string, nat>
    var seriesOffsets: map<nat, nat>
    var labelIndexes: seq<Entry>
    var postings: seq<Entry>
    var lastSeries: Labels
    ghost var table: seq<string>
    ghost var rows: map<nat, Row>
    ghost var values: seq<seq<string>>
    ghost var lists: seq<seq<nat>>

    ghost function Written(): Contents
      reads this
    {
      Contents(toc.symbols, table, symbols, Of(seriesOffsets, rows.Keys), rows, labelIndexes, values, postings, lists)
    }

    /** Every series has an offset; an offset without a series is left over from one that
        could not be written. */
    ghost predicate Offsets()
      reads this
    {
      && rows.Keys <= seriesOffsets.Keys
      && (forall ref :: ref in seriesOffsets ==> seriesOffsets[ref] < LIMIT32)
    }

    ghost predicate Valid()
      reads this
    {
      && 5 <= |b| <= MAX_FILE
      && Laid(crc, b, Written())
      && Offsets()
      && UpTo(rows, lastSeries)
      && (stage < SYMBOLS ==> symbols == map[])
      && (stage < SERIES ==> rows == map[])
      && (stage < LABEL_INDEX ==> labelIndexes == [])
      && (stage < POSTINGS ==> postings == [])
      && (stage == DONE ==> Complete(crc, b, Written(), toc))
    }

    constructor (crc: Checksum)
      ensures Valid() && stage == NONE && b == Header()
      ensures Written() == Contents(0, [], map[], map[], map[], [], [], [], [])
    {
      this.crc, toc, stage := crc, TOC(0, 0, 0, 0, 0, 0), NONE;
      symbols, seriesOffsets, labelIndexes, postings, lastSeries := map[], map[], [], [], [];
      table, rows, values, lists := [], map[], [], [];
      b := BigEndian(MAGIC, 4) + [2];
    }

    method Write(x: Bytes) returns (ok: bool)
      modifies this`b
      ensures b == old(b) + x && (ok <==> |b| <= MAX_FILE)
    {
      b := b + x;
      ok := |b| <= MAX_FILE;
    }

    /** Length, contents and checksum. */
    method WriteFrame(c: Bytes) returns (ok: bool)
      modifies this`b
      ensures ok <==> |old(b)| + |Frame(crc, c)| <= MAX_FILE
      ensures ok ==> b == old(b) + Frame(crc, c)
    {
      hide BigEndian;
      ok := Write(BigEndian(|c|, 4));
      if ok {
        ok := Write(c + BigEndian(crc(c), 4));
      }
      Seqs.FourParts(old(b), BigEndian(|c|, 4), c, BigEndian(crc(c), 4));
      Seqs.Associate(BigEndian(|c|, 4), c, BigEndian(crc(c), 4));
    }

    method WriteVarFrame(c: Bytes) returns (ok: bool)
      modifies this`b
      ensures ok <==> |old(b)| + |VarFrame(crc, c)| <= MAX_FILE
      ensures ok ==> b == old(b) + VarFrame(crc, c)
    {
      hide BigEndian, Uvarint;
      ok := Write(Uvarint(|c|));
      if ok {
        ok := Write(c + BigEndian(crc(c), 4));
      }
      Seqs.FourParts(old(b), Uvarint(|c|), c, BigEndian(crc(c), 4));
      Seqs.Associate(Uvarint(|c|), c, BigEndian(crc(c), 4));
    }

    method AddPadding(size: nat) returns (ok: bool)
      requires size > 0 && |b| <= MAX_FILE
      modifies this`b
      ensures b == old(b) + Zeros(Padding(|old(b)|, size)) && (ok <==> |b| <= MAX_FILE)
    {
      var p := |b| % size;
      if p == 0 {
        Seqs.Nothing(b);
        return true;
      }
      ok := Write(Zeros(size - p));
    }

    /** ensureStage, for every stage but the last. */
    method EnsureStage(s: Stage) returns (ok: bool)
      requires 0 < s < DONE && |b| <= MAX_FILE
      modifies this`toc, this`stage
      ensures ok <==> old(stage) <= s
      ensures !ok ==> stage == old(stage) && toc == old(toc)
      ensures ok ==> stage == s && toc == if old(stage) == s then old(toc) else Marked(old(toc), s, |b|)
      ensures ok && old(stage) != s ==>
                && toc.symbols == (if s == SYMBOLS then |b| else old(toc).symbols)
                && toc.series == (if s == SERIES then |b| else old(toc).series)
                && toc.labelIndices == (if s == LABEL_INDEX then |b| else old(toc).labelIndices)
                && toc.postings == (if s == POSTINGS then |b| else old(toc).postings)
                && toc.labelIndicesTable == old(toc).labelIndicesTable && toc.postingsTable == old(toc).postingsTable
    {
      if stage == s {
        return true;
      }
      if stage > s {
        return false;
      }
      toc := Marked(toc, s, |b|);
      stage := s;
      return true;
    }

    /** The first table of symbols is the one that readers will find; numbers are
        always taken from the last one. */
    method AddSymbols(sym: set<string>) returns (ok: bool, ghost ss: seq<string>)
      requires Valid() && forall s :: s in sym ==> IsBytes(s) && |s| < MODULUS
      modifies this
      ensures Distinct(ss) && InOrder(ss) && (forall s :: s in ss <==> s in sym) && Strings(ss)
      ensures ok <==> old(stage) <= SYMBOLS && |old(b)| + |Frame(crc, SymbolsContent(ss))| <= MAX_FILE
      ensures old(stage) > SYMBOLS ==> Valid() && Written() == old(Written()) && stage == old(stage)
      ensures ok ==> Valid() && stage == SYMBOLS && b == old(b) + Frame(crc, SymbolsContent(ss))
      ensures ok ==> Written() == if old(stage) < SYMBOLS
                                  then old(Written()).(symbolsAt := |old(b)|, table := ss, symbols := NumbersOf(ss))
                                  else old(Written()).(symbols := NumbersOf(ss))
    {
      hide Laid, Complete, Frame, SymbolsContent, SortStrings, NumbersOf, UpTo;
      var list := Keys(sym);
      SortedKeys(list);
      list := SortStrings(list);
      ss := list;
      ghost var k := Written();
      ghost var first := stage < SYMBOLS;
      ok := EnsureStage(SYMBOLS);
      if !ok {
        return;
      }
      var c, m := EncodeSymbols(list);
      symbols := m;
      SymbolsAdded(crc, b, k, list, first);
      if first {
        table := list;
      }
      ok := WriteFrame(c);
    }

    /** Where the next series begins, and how long the file is behind it. */
    ghost function SeriesAt(): nat
      reads this
    {
      |b| + Padding(|b|, 16)
    }

    /** No series has been written; but its reference now has an offset, where the next
        series will begin. */
    ghost predicate LeftOver(offsets: map<nat, nat>, at: nat, ref: nat)
      reads this
    {
      seriesOffsets == offsets[ref := at / 16] && |b| == at && SeriesAt() == at
    }

    /** Fails for label sets that do not come after all others, references already
        used, unknown symbols, and a file that becomes too long. */
    method AddSeries(ref: nat, lset: Labels, chunks: seq<ChunkMeta>) returns (ok: bool)
      requires Valid() && Refs(chunks) && |lset| < SIGN
      modifies this
      ensures ok <==>
                && old(stage) <= SERIES
                && Compare(lset, old(lastSeries)) > 0
                && ref !in old(seriesOffsets)
                && Known(old(symbols), lset)
                && old(SeriesAt()) + |VarFrame(crc, SeriesContent(old(symbols), lset, chunks))| <= MAX_FILE
      ensures ok ==>
                && Valid()
                && stage == SERIES
                && lastSeries == lset
                && Written() == old(Written()).(at := old(Written().at)[ref := old(SeriesAt()) / 16],
                                                rows := old(rows)[ref := Row(lset, chunks)])
      ensures (old(stage) > SERIES || Compare(lset, old(lastSeries)) <= 0 || ref in old(seriesOffsets))
              ==> Valid() && Written() == old(Written()) && seriesOffsets == old(seriesOffsets)
      ensures (&& old(stage) <= SERIES && Compare(lset, old(lastSeries)) > 0 && ref !in old(seriesOffsets)
               && !Known(old(symbols), lset) && old(SeriesAt()) <= MAX_FILE)
              ==> Valid() && Written() == old(Written()) && LeftOver(old(seriesOffsets), old(SeriesAt()), ref)
    {
      hide Laid, Complete, VarFrame, SeriesContent, Known, Compare, UpTo;
      ghost var k := Written();
      ok := EnsureStage(SERIES);
      if !ok {
        return;
      }
      assert Valid();
      if Compare(lset, lastSeries) <= 0 {
        return false;
      }
      if ref in seriesOffsets {
        return false;
      }
      ok := PutSeries(ref, lset, chunks, k);
      if ok {
        lastSeries := lset;
      }
    }

    /** Fills up to the next multiple of 16 and notes it as the place of the series. */
    method StartSeries(ref: nat, ghost k: Contents) returns (ok: bool)
      requires k == Written() && Laid(crc, b, k) && Offsets() && 5 <= |b| <= MAX_FILE && ref !in seriesOffsets
      modifies this`b, this`seriesOffsets
      ensures b == old(b) + Zeros(Padding(|old(b)|, 16)) && (ok <==> |b| <= MAX_FILE)
      ensures ok ==>
                && Laid(crc, b, k) && Offsets() && Written() == k && |b| % 16 == 0
                && LeftOver(old(seriesOffsets), old(SeriesAt()), ref)
    {
      hide Laid, Of;
      Aligned(|b|);
      LaidMore(crc, b, k, Zeros(Padding(|b|, 16)));
      OfMore(seriesOffsets, rows.Keys, ref, SeriesAt() / 16);
      ok := AddPadding(16);
      if !ok {
        return;
      }
      if |b| % 16 != 0 {
        return false;
      }
      seriesOffsets := seriesOffsets[ref := |b| / 16];
    }

    method PutSeries(ref: nat, lset: Labels, chunks: seq<ChunkMeta>, ghost k: Contents) returns (ok: bool)
      requires k == Written() && Laid(crc, b, k) && Offsets() && UpTo(rows, lastSeries) && 5 <= |b| <= MAX_FILE
      requires Refs(chunks) && |lset| < SIGN && ref !in seriesOffsets && Compare(lset, lastSeries) > 0
      modifies this`b, this`seriesOffsets, this`rows
      ensures ok <==> Known(symbols, lset)
                      && old(SeriesAt()) + |VarFrame(crc, SeriesContent(symbols, lset, chunks))| <= MAX_FILE
      ensures ok ==> 5 <= |b| <= MAX_FILE && Laid(crc, b, Written()) && Offsets() && UpTo(rows, lset)
      ensures !Known(symbols, lset) && old(SeriesAt()) <= MAX_FILE ==>
                && 5 <= |b| <= MAX_FILE && Laid(crc, b, Written()) && Offsets() && rows == old(rows) && Written() == k
                && LeftOver(old(seriesOffsets), old(SeriesAt()), ref)
      ensures ok ==> Written() == k.(at := k.at[ref := old(SeriesAt()) / 16], rows := k.rows[ref := Row(lset, chunks)])
    {
      hide Laid, VarFrame, SeriesContent, Known, Compare, UpTo, Refs, Of;
      OfMore(seriesOffsets, rows.Keys, ref, SeriesAt() / 16);
      ok := StartSeries(ref, k);
      if !ok {
        return;
      }
      var c;
      ok, c := EncodeSeries(symbols, lset, chunks);
      if !ok {
        return;
      }
      rows := rows[ref := Row(lset, chunks)];
      assert rows.Keys == old(rows).Keys + {ref};
      SeriesAdded(crc, old(b), k, Zeros(Padding(|old(b)|, 16)), ref, Row(lset, chunks), lastSeries);
      ok := WriteVarFrame(c);
    }

    /** The index of a label's values, sorted. After an unknown value the original keeps
        the entry for the index that it has not written. */
    method WriteLabelIndex(name: string, vs: seq<string>) returns (ok: bool)
      requires Valid() && IsBytes(name) && |name| < MODULUS
      modifies this
      ensures ok <==>
                && old(stage) <= LABEL_INDEX
                && Listed(old(symbols), SortStrings(vs))
                && |old(b)| + Padding(|old(b)|, 4)
                   + |Frame(crc, ValuesContent(old(symbols), SortStrings(vs)))| <= MAX_FILE
      ensures ok ==>
                && Valid()
                && stage == LABEL_INDEX
                && Written() == old(Written()).(
                     indexes := old(labelIndexes) + [Entry([name], |old(b)| + Padding(|old(b)|, 4))],
                     values := old(values) + [SortStrings(vs)])
      ensures old(stage) > LABEL_INDEX ==> Valid() && Written() == old(Written())
      ensures (old(stage) <= LABEL_INDEX && !Listed(old(symbols), SortStrings(vs))
               && |old(b)| + Padding(|old(b)|, 4) <= MAX_FILE ==>
                 && b == old(b) + Zeros(Padding(|old(b)|, 4)) && stage == LABEL_INDEX
                 && labelIndexes == old(labelIndexes) + [Entry([name], |b|)] && values == old(values))
    {
      hide Laid, Complete, Frame, ValuesContent, UpTo, Listed, SortStrings, IsBytes;
      ok := EnsureStage(LABEL_INDEX);
      if ok {
        ok := PutValues(name, SortStrings(vs), Written());
      }
    }

    method PutValues(name: string, sorted: seq<string>, ghost k: Contents) returns (ok: bool)
      requires k == Written() && Laid(crc, b, k) && 5 <= |b| <= MAX_FILE && IsBytes(name) && |name| < MODULUS
      modifies this`b, this`labelIndexes, this`values
      ensures ok <==> Listed(symbols, sorted) && |old(b)| + Padding(|old(b)|, 4)
                                                 + |Frame(crc, ValuesContent(symbols, sorted))| <= MAX_FILE
      ensures ok ==> 5 <= |b| <= MAX_FILE && Laid(crc, b, Written())
      ensures ok ==> Written() == k.(indexes := k.indexes + [Entry([name], |old(b)| + Padding(|old(b)|, 4))],
                                     values := k.values + [sorted])
      ensures (!Listed(symbols, sorted) && |old(b)| + Padding(|old(b)|, 4) <= MAX_FILE ==>
                 && b == old(b) + Zeros(Padding(|old(b)|, 4))
                 && labelIndexes == old(labelIndexes) + [Entry([name], |b|)] && values == old(values))
    {
      hide Laid, Frame, ValuesContent, Listed, IsBytes, Padding;
      ok := AddPadding(4);
      if !ok {
        return;
      }
      LaidMore(crc, old(b), k, Zeros(Padding(|old(b)|, 4)));
      var e := Entry([name], |b|);
      labelIndexes := labelIndexes + [e];
      var c;
      ok, c := EncodeValues(symbols, sorted);
      if !ok {
        return;
      }
      values := values + [sorted];
      OneKey(name, |b|);
      ValuesAdded(crc, b, k, e, sorted);
      ok := WriteFrame(c);
    }

    /** The positions of the series on a list, sorted. After an unknown reference the
        original keeps the entry for the list that it has not written. */
    method WritePostings(name: string, value: string, refs: seq<nat>) returns (ok: bool)
      requires Valid() && IsBytes(name) && |name| < MODULUS && IsBytes(value) && |value| < MODULUS
      modifies this
      ensures ok <==>
                && old(stage) <= POSTINGS
                && Having(old(seriesOffsets), refs)
                && |old(b)| + Padding(|old(b)|, 4)
                   + |Frame(crc, PostingsContent(SortNumbers(Positions(old(seriesOffsets), refs))))| <= MAX_FILE
      ensures ok ==>
                && Valid()
                && stage == POSTINGS
                && Written() == old(Written()).(
                     postings := old(postings) + [Entry([name, value], |old(b)| + Padding(|old(b)|, 4))],
                     lists := old(lists) + [SortNumbers(Positions(old(seriesOffsets), refs))])
      ensures old(stage) > POSTINGS ==> Valid() && Written() == old(Written())
      ensures (old(stage) <= POSTINGS && !Having(old(seriesOffsets), refs)
               && |old(b)| + Padding(|old(b)|, 4) <= MAX_FILE ==>
                 && b == old(b) + Zeros(Padding(|old(b)|, 4)) && stage == POSTINGS
                 && postings == old(postings) + [Entry([name, value], |b|)] && lists == old(lists))
    {
      hide Laid, Complete, Frame, PostingsContent, UpTo, Having, SortNumbers, Positions, IsBytes;
      ok := EnsureStage(POSTINGS);
      if ok {
        ok := PutList(name, value, refs, Written());
      }
    }

    method PutList(name: string, value: string, refs: seq<nat>, ghost k: Contents) returns (ok: bool)
      requires k == Written() && Laid(crc, b, k) && Offsets() && 5 <= |b| <= MAX_FILE
      requires IsBytes(name) && |name| < MODULUS && IsBytes(value) && |value| < MODULUS
      modifies this`b, this`postings, this`lists
      ensures ok <==> Having(seriesOffsets, refs) && |old(b)| + Padding(|old(b)|, 4)
                        + |Frame(crc, PostingsContent(SortNumbers(Positions(seriesOffsets, refs))))| <= MAX_FILE
      ensures ok ==> 5 <= |b| <= MAX_FILE && Laid(crc, b, Written())
      ensures ok ==> Written() == k.(postings := k.postings + [Entry([name, value], |old(b)| + Padding(|old(b)|, 4))],
                                     lists := k.lists + [SortNumbers(Positions(seriesOffsets, refs))])
      ensures (!Having(seriesOffsets, refs) && |old(b)| + Padding(|old(b)|, 4) <= MAX_FILE ==>
                 && b == old(b) + Zeros(Padding(|old(b)|, 4))
                 && postings == old(postings) + [Entry([name, value], |b|)] && lists == old(lists))
    {
      hide Laid, Frame, PostingsContent, Having, SortNumbers, Positions, IsBytes, Padding;
      ok := AddPadding(4);
      if !ok {
        return;
      }
      LaidMore(crc, old(b), k, Zeros(Padding(|old(b)|, 4)));
      var e := Entry([name, value], |b|);
      postings := postings + [e];
      var offsets;
      ok, offsets := Collect(refs);
      if !ok {
        return;
      }
      SortedSmall(offsets);
      var c := EncodePostings(SortNumbers(offsets));
      lists := lists + [SortNumbers(offsets)];
      TwoKeys(name, value, |b|);
      ListAdded(crc, b, k, e, SortNumbers(offsets));
      ok := WriteFrame(c);
    }

    method Collect(refs: seq<nat>) returns (ok: bool, offsets: seq<nat>)
      requires Offsets()
      ensures ok <==> Having(seriesOffsets, refs)
      ensures ok ==> offsets == Positions(seriesOffsets, refs) && Small(offsets)
    {
      offsets := [];
      for i := 0 to |refs|
        invariant Having(seriesOffsets, refs[..i]) && offsets == Positions(seriesOffsets, refs[..i]) && Small(offsets)
      {
        if refs[i] !in seriesOffsets {
          return false, [];
        }
        var offset := seriesOffsets[refs[i]];
        if offset > 0xFFFF_FFFF {
          return false, [];
        }
        Seqs.Prefix(refs, i);
        offsets := offsets + [offset];
      }
      Ends(refs);
      return true, offsets;
    }

    /** The tables of offsets and the table of contents. */
    method Close() returns (ok: bool)
      requires Valid()
      modifies this
      ensures stage == DONE || !ok
      ensures old(stage) == DONE ==> ok && b == old(b) && Written() == old(Written())
      ensures old(stage) < DONE ==> (ok <==> |old(b)| + |Frame(crc, TableContent(old(labelIndexes)))|
                                             + |Frame(crc, TableContent(old(postings)))| + TOC_LENGTH <= MAX_FILE)
      ensures ok ==> Valid() && Complete(crc, b, Written(), toc) && Written() == old(Written())
      ensures old(stage) < DONE && ok ==>
                toc == old(toc).(labelIndicesTable := |old(b)|,
                                 postingsTable := |old(b)| + |Frame(crc, TableContent(old(labelIndexes)))|)
    {
      hide Laid, Complete, Frame, TableContent, UpTo, TOCBytes, AllStoring;
      if stage == DONE {
        return true;
      }
      ghost var k := Written();
      AreStoring(crc, b, k);
      toc := toc.(labelIndicesTable := |b|);
      var c := EncodeTable(labelIndexes);
      ok := WriteFrame(c);
      if !ok {
        return;
      }
      ghost var b1 := b;
      toc := toc.(postingsTable := |b|);
      c := EncodeTable(postings);
      ok := WriteFrame(c);
      if !ok {
        return;
      }
      c := EncodeTOC(crc, toc);
      ghost var b2 := b;
      ok := Write(c);
      if ok {
        Finished(crc, old(b), b1, b2, k, toc);
        stage := DONE;
      }
    }
  }

  predicate Having(at: map<nat, nat>, refs: seq<nat>) {
    forall i :: 0 <= i < |refs| ==> refs[i] in at
  }

  function Positions(at: map<nat, nat>, refs: seq<nat>): (ns: seq<nat>)
    requires Having(at, refs)
    ensures |ns| == |refs| && forall i :: 0 <= i < |refs| ==> ns[i] == at[refs[i]]
  {
    seq(|refs|, i requires 0 <= i < |refs| => at[refs[i]])
  }

  lemma OneKey(name: string, off: nat)
    requires IsBytes(name) && |name| < MODULUS && off < MODULUS
    ensures Storing(Entry([name], off))
  {
  }

  lemma TwoKeys(name: string, value: string, off: nat)
    requires IsBytes(name) && |name| < MODULUS && IsBytes(value) && |value| < MODULUS && off < MODULUS
    ensures Storing(Entry([name, value], off))
  {
  }

  lemma AreStoring(crc: Checksum, b: Bytes, k: Contents)
    requires Laid(crc, b, k)
    ensures AllStoring(k.indexes) && AllStoring(k.postings)
  {
    hide Placed, Storing;
  }

  lemma Finished(crc: Checksum, b: Bytes, b1: Bytes, b2: Bytes, k: Contents, toc: TOC)
    requires Laid(crc, b, k) && AllStoring(k.indexes) && AllStoring(k.postings) && |b| >= 5
    requires b1 == b + Frame(crc, TableContent(k.indexes)) && b2 == b1 + Frame(crc, TableContent(k.postings))
    requires toc.symbols == k.symbolsAt && toc.labelIndicesTable == |b| && toc.postingsTable == |b1|
    ensures var f := b2 + TOCBytes(crc, toc); Laid(crc, f, k) && Complete(crc, f, k, toc)
  {
    hide Laid, Frame, TableContent, TOCBytes, AllStoring, Placed;
    var f, g, t := Frame(crc, TableContent(k.indexes)), Frame(crc, TableContent(k.postings)), TOCBytes(crc, toc);
    LaidMore(crc, b, k, f);
    LaidMore(crc, b1, k, g);
    LaidMore(crc, b2, k, t);
    PlacedLast(b, f);
    PlacedMore(b1, |b|, f, g);
    PlacedMore(b2, |b|, f, t);
    PlacedLast(b1, g);
    PlacedMore(b2, |b1|, g, t);
    LastOf(b2, t);
  }

  lemma LastOf(b: Bytes, t: Bytes)
    ensures (b + t)[|b + t| - |t|..] == t
  {
  }
}
