/** What an index file holds, and that a reader finds it there. */
module IndexContents {
  import opened Options
  import opened Words
  import opened ByteBuffers
  import opened Labelling
  import opened IndexFormat
  import opened IndexTables
  import Seqs

  const MAGIC: nat := 0xBAAA_D700

  function Header(): (h: Bytes)
    ensures |h| == 5
  {
    BigEndian(MAGIC, 4) + [2]
  }

  datatype Row = Row(labels: Labels, chunks: seq<ChunkMeta>)

  /** Everything written so far. The table of symbols is what the reader will find at
      symbolsAt, symbols the numbers that the sections behind it use. The position of
      a series is counted in units of 16 bytes. */
  datatype Contents = Contents(
    symbolsAt: nat,
    table: seq<string>,
    symbols: map<string, nat>,
    at: map<nat, nat>,
    rows: map<nat, Row>,
    indexes: seq<Entry>,
    values: seq<seq<string>>,
    postings: seq<Entry>,
    lists: seq<seq<nat>>)

  predicate Writable(symbols: map<string, nat>, r: Row) {
    Known(symbols, r.labels) && Refs(r.chunks) && |r.labels| < SIGN
  }

  function RowContent(symbols: map<string, nat>, r: Row): Bytes
    requires Writable(symbols, r)
  {
    SeriesContent(symbols, r.labels, r.chunks)
  }

  ghost predicate TableLaid(crc: Checksum, b: Bytes, k: Contents) {
    && Strings(k.table)
    && Numbers(k.symbols)
    && if k.symbolsAt == 0 then k.table == [] else Placed(b, k.symbolsAt, Frame(crc, SymbolsContent(k.table)))
  }

  ghost predicate RowsLaid(crc: Checksum, b: Bytes, k: Contents) {
    k.at.Keys == k.rows.Keys && forall ref :: ref in k.rows ==>
      && k.at[ref] > 0
      && Writable(k.symbols, k.rows[ref])
      && Placed(b, 16 * k.at[ref], VarFrame(crc, RowContent(k.symbols, k.rows[ref])))
  }

  /** No two series share a position, and positions follow the order of label sets. */
  ghost predicate RowsOrdered(k: Contents) {
    k.at.Keys == k.rows.Keys && forall r, s :: r in k.rows && s in k.rows && r != s ==>
      && k.at[r] != k.at[s]
      && (k.at[r] < k.at[s] ==> Compare(k.rows[r].labels, k.rows[s].labels) < 0)
  }

  ghost predicate ValuesLaid(crc: Checksum, b: Bytes, k: Contents) {
    |k.indexes| == |k.values| && forall i :: 0 <= i < |k.indexes| ==>
      && |k.indexes[i].keys| == 1
      && Storing(k.indexes[i])
      && Listed(k.symbols, k.values[i])
      && Placed(b, k.indexes[i].offset, Frame(crc, ValuesContent(k.symbols, k.values[i])))
  }

  ghost predicate ListsLaid(crc: Checksum, b: Bytes, k: Contents) {
    |k.postings| == |k.lists| && forall i :: 0 <= i < |k.postings| ==>
      && |k.postings[i].keys| == 2
      && Storing(k.postings[i])
      && Small(k.lists[i])
      && Placed(b, k.postings[i].offset, Frame(crc, PostingsContent(k.lists[i])))
  }

  ghost predicate Laid(crc: Checksum, b: Bytes, k: Contents) {
    && Placed(b, 0, Header())
    && TableLaid(crc, b, k)
    && RowsLaid(crc, b, k)
    && RowsOrdered(k)
    && ValuesLaid(crc, b, k)
    && ListsLaid(crc, b, k)
  }

  /** Writing on does not touch what has been written. */
  lemma LaidMore(crc: Checksum, b: Bytes, k: Contents, more: Bytes)
    requires Laid(crc, b, k)
    ensures Laid(crc, b + more, k)
  {
    hide Placed, Frame, VarFrame, SymbolsContent, RowContent, ValuesContent, PostingsContent;
    forall off: nat, x: Bytes | Placed(b, off, x) ensures Placed(b + more, off, x) {
      PlacedMore(b, off, x, more);
    }
  }

  /** A finished file: tables of offsets and, at the end, the table of contents. */
  ghost predicate Complete(crc: Checksum, b: Bytes, k: Contents, toc: TOC) {
    && Laid(crc, b, k)
    && toc.symbols == k.symbolsAt
    && AllStoring(k.indexes)
    && AllStoring(k.postings)
    && Placed(b, toc.labelIndicesTable, Frame(crc, TableContent(k.indexes)))
    && Placed(b, toc.postingsTable, Frame(crc, TableContent(k.postings)))
    && |b| >= TOC_LENGTH + 5
    && b[|b| - TOC_LENGTH..] == TOCBytes(crc, toc)
  }

  /* Reading */

  /** What newReader gets from the file. */
  datatype Opened = Opened(symbols: seq<string>, indexes: seq<Entry>, postings: seq<Entry>)

  function SymbolsFrom(crc: Checksum, b: Bytes, off: nat): Option<seq<string>> {
    if off == 0 then Some([]) else
    match FrameAt(crc, b, off) case None => None case Some(c) => ReadSymbols(c)
  }

  function TableFrom(crc: Checksum, b: Bytes, off: nat, width: nat): Option<seq<Entry>> {
    match FrameAt(crc, b, off) case None => None case Some(c) => ReadTable(c, width)
  }

  predicate HeaderIsRight(b: Bytes) {
    |b| >= 5 && FromBigEndian(b[0..4]) == MAGIC && b[4] == 2
  }

  /** newReader, for files of version 2. */
  function Open(crc: Checksum, b: Bytes): Option<Opened> {
    if !HeaderIsRight(b) then None else
    match ReadTOC(crc, b)
    case None => None
    case Some(toc) =>
      match SymbolsFrom(crc, b, toc.symbols)
      case None => None
      case Some(ss) =>
        match TableFrom(crc, b, toc.labelIndicesTable, 1)
        case None => None
        case Some(es) => match TableFrom(crc, b, toc.postingsTable, 2)
                         case None => None case Some(ps) => Some(Opened(ss, es, ps))
  }

  function SeriesFrom(crc: Checksum, b: Bytes, o: Opened, id: Word): Option<Row> {
    match VarFrameAt(crc, b, 16 * id % MODULUS)
    case None => None
    case Some(c) => match ReadSeries(o.symbols, c) case None => None case Some(p) => Some(Row(p.0, p.1))
  }

  function PostingsFrom(crc: Checksum, b: Bytes, o: Opened, name: string, value: string): Option<seq<nat>> {
    match OffsetOf(o.postings, [name, value])
    case None => Some([])
    case Some(off) => match FrameAt(crc, b, off) case None => None case Some(c) => ReadPostings(c)
  }

  function ValuesFrom(crc: Checksum, b: Bytes, o: Opened, name: string): Option<seq<string>> {
    match OffsetOf(o.indexes, [name])
    case None => Some([])
    case Some(off) => match FrameAt(crc, b, off) case None => None case Some(c) => ReadValues(o.symbols, c)
  }

  /** Sections whose length is kept in 32 bits are not longer than that. */
  predicate Short(k: Contents)
    requires Strings(k.table) && AllStoring(k.indexes) && AllStoring(k.postings)
  {
    |SymbolsContent(k.table)| < LIMIT32 && |TableContent(k.indexes)| < LIMIT32 && |TableContent(k.postings)| < LIMIT32
  }

  function Kept(k: Contents): Opened { Opened(k.table, k.indexes, k.postings) }

  lemma HeaderBack(b: Bytes)
    requires Placed(b, 0, Header())
    ensures HeaderIsRight(b)
  {
    hide BigEndian, FromBigEndian;
    BE32Back(MAGIC, []);
    assert b[0..4] == b[0..5][0..4] == BigEndian(MAGIC, 4);
    assert b[4] == b[0..5][4];
  }

  lemma TableOpens(crc: Checksum, b: Bytes, off: nat, es: seq<Entry>, width: nat)
    requires AllStoring(es) && |TableContent(es)| < LIMIT32 && Placed(b, off, Frame(crc, TableContent(es)))
    requires forall i :: 0 <= i < |es| ==> |es[i].keys| == width
    ensures TableFrom(crc, b, off, width) == Some(es)
  {
    hide AllStoring, Frame, FrameAt, Placed, ReadTable;
    var c := TableContent(es);
    FrameBack(crc, b, off, c);
    TableBack(es, width);
  }

  lemma SymbolsOpen(crc: Checksum, b: Bytes, k: Contents)
    requires TableLaid(crc, b, k) && |SymbolsContent(k.table)| < LIMIT32
    ensures SymbolsFrom(crc, b, k.symbolsAt) == Some(k.table)
  {
    hide Strings, Numbers, Frame, FrameAt, Placed, ReadSymbols;
    if k.symbolsAt != 0 {
      FrameBack(crc, b, k.symbolsAt, SymbolsContent(k.table));
      SymbolsBack(k.table);
    }
  }

  /** A finished file opens, with its symbols and tables as written. */
  lemma FileOpens(crc: Checksum, b: Bytes, k: Contents, toc: TOC)
    requires Complete(crc, b, k, toc) && Short(k)
    ensures Open(crc, b) == Some(Kept(k))
  {
    hide Placed, Frame, TableContent, SymbolsContent, AllStoring, HeaderIsRight, ReadTOC, TableFrom, SymbolsFrom,
         TOCBytes,
         TableLaid, RowsLaid, RowsOrdered, Storing, Small, Header;
    HeaderBack(b);
    Seqs.Parts(b, |b| - TOC_LENGTH);
    TOCBack(crc, b[..|b| - TOC_LENGTH], toc);
    SymbolsOpen(crc, b, k);
    TableOpens(crc, b, toc.labelIndicesTable, k.indexes, 1);
    TableOpens(crc, b, toc.postingsTable, k.postings, 2);
  }

  /** A series is found at its position, with its labels and chunks, exactly if its
      symbols stand in the table where their numbers say and its entry is not too long. */
  lemma SeriesFound(crc: Checksum, b: Bytes, k: Contents, toc: TOC, ref: nat)
    requires Complete(crc, b, k, toc) && ref in k.rows && |b| <= 16 * LIMIT32
    ensures Writable(k.symbols, k.rows[ref]) && k.at[ref] < MODULUS
    ensures SeriesFrom(crc, b, Kept(k), k.at[ref]) == Some(k.rows[ref])
       <==> |RowContent(k.symbols, k.rows[ref])| < 8 * LIMIT32 && Resolves(k.symbols, k.table, k.rows[ref].labels)
  {
    hide Placed, Frame, VarFrame, VarFrameAt, ReadSeries, SeriesContent, TableContent, AllStoring, Header, TOCBytes,
         RowsOrdered, ValuesLaid, ListsLaid, Known, Refs, Resolves;
    var row, off := k.rows[ref], 16 * k.at[ref];
    var c := RowContent(k.symbols, row);
    FrameFits(crc, b, off, c);
    VarFrameBack(crc, b, off, c);
    SeriesEntryBack(k.symbols, k.table, row.labels, row.chunks);
  }

  lemma FrameFits(crc: Checksum, b: Bytes, off: nat, c: Bytes)
    requires Placed(b, off, VarFrame(crc, c))
    ensures off + 5 <= |b|
  {
    ContinuedLength(|c|);
  }

  /** The list for a label pair is found, as last written for the pair. */
  lemma PostingsFound(crc: Checksum, b: Bytes, k: Contents, toc: TOC, i: nat)
    requires Complete(crc, b, k, toc) && i < |k.postings|
    requires forall j :: i < j < |k.postings| ==> k.postings[j].keys != k.postings[i].keys
    requires |PostingsContent(k.lists[i])| < LIMIT32
    ensures var keys := k.postings[i].keys;
            |keys| == 2 && PostingsFrom(crc, b, Kept(k), keys[0], keys[1]) == Some(k.lists[i])
  {
    hide Placed, Frame, FrameAt, PostingsContent, ReadPostings, TableContent, AllStoring, Header, TOCBytes,
         TableLaid, RowsLaid, RowsOrdered, ValuesLaid, Small, Storing, OffsetOf;
    var e := k.postings[i];
    assert [e.keys[0], e.keys[1]] == e.keys;
    OffsetIsLast(k.postings, i);
    FrameBack(crc, b, e.offset, PostingsContent(k.lists[i]));
    PostingsBack(k.lists[i]);
  }

  /** The values of a label are found, exactly if they stand in the table. */
  lemma ValuesFound(crc: Checksum, b: Bytes, k: Contents, toc: TOC, i: nat)
    requires Complete(crc, b, k, toc) && i < |k.indexes|
    requires forall j :: i < j < |k.indexes| ==> k.indexes[j].keys != k.indexes[i].keys
    requires Listed(k.symbols, k.values[i]) && |ValuesContent(k.symbols, k.values[i])| < LIMIT32
    ensures |k.indexes[i].keys| == 1
    ensures ValuesFrom(crc, b, Kept(k), k.indexes[i].keys[0]) == Some(k.values[i])
       <==> AllStand(k.symbols, k.table, k.values[i])
  {
    hide Placed, Frame, FrameAt, ValuesContent, ReadValues, TableContent, AllStoring, Header, TOCBytes,
         RowsLaid, RowsOrdered, ListsLaid, Storing, OffsetOf, Listed, AllStand, Strings;
    var e := k.indexes[i];
    assert [e.keys[0]] == e.keys;
    OffsetIsLast(k.indexes, i);
    FrameBack(crc, b, e.offset, ValuesContent(k.symbols, k.values[i]));
    ValuesBack(k.symbols, k.table, k.values[i]);
  }

  /** Names and pairs that nothing was written for have no values and no series. */
  lemma NothingElseFound(crc: Checksum, b: Bytes, k: Contents, name: string, value: string)
    ensures (forall i :: 0 <= i < |k.postings| ==> k.postings[i].keys != [name, value])
        ==> PostingsFrom(crc, b, Kept(k), name, value) == Some([])
    ensures (forall i :: 0 <= i < |k.indexes| ==> k.indexes[i].keys != [name])
        ==> ValuesFrom(crc, b, Kept(k), name) == Some([])
  {
    hide FrameAt, OffsetOf;
    OffsetIsAbsent(k.postings, [name, value]);
    OffsetIsAbsent(k.indexes, [name]);
  }
}
