/** The reader of index files (index/index.go). */
module IndexReader {
  import opened Options
  import opened Words
  import opened ByteBuffers
  import opened Labelling
  import opened RecordCodec
  import opened IndexFormat
  import opened IndexTables
  import opened IndexContents
  import Seqs

  /** A buffer that could not be read off at all, or that holds c. */
  ghost predicate Holding(d: Decbuf, c: Option<Bytes>)
    reads d
  {
    match c case None => d.e && d.b == [] case Some(x) => !d.e && d.b == x
  }

  method DecbufAt(crc: Checksum, b: Bytes, off: nat) returns (d: Decbuf)
    ensures fresh(d) && Holding(d, FrameAt(crc, b, off))
  {
    hide FromBigEndian;
    d := new Decbuf([]);
    if |b| < off + 4 {
      d.e := true;
      return;
    }
    var l := FromBigEndian(b[off..off + 4]);
    if |b| < off + 4 + l + 4 {
      d.e := true;
      return;
    }
    var c := b[off + 4..off + 4 + l];
    if FromBigEndian(b[off + 4 + l..off + 4 + l + 4]) != crc(c) {
      d.e := true;
      return;
    }
    d.b := c;
  }

  method DecbufUvarintAt(crc: Checksum, b: Bytes, off: nat) returns (d: Decbuf)
    ensures fresh(d) && Holding(d, VarFrameAt(crc, b, off))
  {
    hide FromBigEndian, TakeUvarint64;
    d := new Decbuf([]);
    if |b| < off + 5 {
      d.e := true;
      return;
    }
    var p := TakeUvarint64(b[off..off + 5]);
    if p.Bad? {
      d.e := true;
      return;
    }
    var l, n := p.value, 5 - |p.rest|;
    if |b| < off + n + l + 4 {
      d.e := true;
      return;
    }
    var c := b[off + n..off + n + l];
    if crc(c) != FromBigEndian(b[off + n + l..off + n + l + 4]) {
      d.e := true;
      return;
    }
    d.b := c;
  }

  /** The outcome of reading something off a buffer. */
  ghost predicate Reads<T>(d: Decbuf, e0: bool, p: Parsed<T>, v: T)
    reads d
  {
    if e0 || p.Bad? then d.e else !d.e && d.b == p.rest && v == p.value
  }

  lemma StringsUnfold(b: Bytes, n: nat)
    ensures TakeStrings(b, n) == if n == 0 || b == [] then Got([], b) else
              match TakeString(b) case Bad => Bad case Got(s, rest) => Onto([s], TakeStrings(rest, n - 1))
  {
    hide TakeString;
  }

  method NextStrings(d: Decbuf, n: nat) returns (ss: seq<string>)
    modifies d
    ensures Reads(d, old(d.e), TakeStrings(old(d.b), n), ss)
  {
    hide TakeStrings, TakeString, Onto;
    ss := [];
    var cnt := n;
    ghost var e0, p0 := d.e, TakeStrings(d.b, n);
    OntoNothing(p0);
    while !d.e && |d.b| > 0 && cnt > 0
      invariant e0 ==> d.e
      invariant !e0 ==> p0 == if d.e then Bad else Onto(ss, TakeStrings(d.b, cnt))
      decreases cnt
    {
      StringsUnfold(d.b, cnt);
      var s := d.TakeUvarintStr();
      OntoMore(ss, s, TakeStrings(d.b, cnt - 1));
      OntoBad(ss);
      ss := ss + [s];
      cnt := cnt - 1;
    }
    StringsUnfold(d.b, cnt);
    OntoEnd(ss, d.b);
  }

  lemma OntoEnd<T>(xs: seq<T>, b: Bytes)
    ensures Onto(xs, Got([], b)) == Got(xs, b)
  {
    Seqs.Nothing(xs);
  }

  lemma KeysUnfold(b: Bytes, n: nat)
    ensures TakeKeys(b, n) == if n == 0 then Got([], b) else
              match TakeString(b) case Bad => Bad case Got(s, rest) => Onto([s], TakeKeys(rest, n - 1))
  {
    hide TakeString;
  }

  method NextKeys(d: Decbuf, n: nat) returns (keys: seq<string>)
    modifies d
    ensures Reads(d, old(d.e), TakeKeys(old(d.b), n), keys)
  {
    hide TakeKeys, TakeString, Onto;
    keys := [];
    ghost var e0, p0 := d.e, TakeKeys(d.b, n);
    OntoNothing(p0);
    for i := 0 to n
      invariant e0 ==> d.e
      invariant !e0 ==> p0 == if d.e then Bad else Onto(keys, TakeKeys(d.b, n - i))
    {
      KeysUnfold(d.b, n - i);
      var s := d.TakeUvarintStr();
      OntoMore(keys, s, TakeKeys(d.b, n - i - 1));
      OntoBad(keys);
      keys := keys + [s];
    }
    KeysUnfold(d.b, 0);
    OntoEnd(keys, d.b);
  }

  method NextEntry(d: Decbuf) returns (e: Entry)
    modifies d
    ensures Reads(d, old(d.e), TakeEntry(old(d.b)), e)
  {
    hide TakeUvarint64, TakeKeys;
    var n := d.TakeUvarint();
    var keys := NextKeys(d, n);
    var o := d.TakeUvarint();
    e := Entry(keys, o);
  }

  lemma EntriesUnfold(b: Bytes, n: nat, width: nat)
    ensures TakeEntries(b, n, width) == if n == 0 || b == [] then Some([]) else
              match TakeEntry(b)
              case Bad => None
              case Got(e, rest) => if |e.keys| != width then None else Behind([e], TakeEntries(rest, n - 1, width))
  {
    hide TakeEntry;
  }

  /** The entries of a table, each with the given number of keys. */
  method ReadOffsetTable(crc: Checksum, b: Bytes, off: nat, width: nat) returns (ok: bool, es: seq<Entry>)
    ensures ok <==> TableFrom(crc, b, off, width).Some?
    ensures ok ==> TableFrom(crc, b, off, width) == Some(es)
  {
    hide FrameAt, GetBE32, TakeEntries, TakeEntry, Behind;
    var d := DecbufAt(crc, b, off);
    es := [];
    if d.e {
      return false, es;
    }
    var cnt := d.TakeBE32();
    ghost var r := TableFrom(crc, b, off, width);
    BehindNothing(TakeEntries(d.b, cnt, width));
    while !d.e && |d.b| > 0 && cnt > 0
      invariant fresh(d) && r == if d.e then None else Behind(es, TakeEntries(d.b, cnt, width))
      decreases cnt
    {
      EntriesUnfold(d.b, cnt, width);
      BehindNone(es);
      var e := NextEntry(d);
      if d.e {
        break;
      }
      if |e.keys| != width {
        return false, es;
      }
      BehindMore(es, e, TakeEntries(d.b, cnt - 1, width));
      es := es + [e];
      cnt := cnt - 1;
    }
    EntriesUnfold(d.b, cnt, width);
    BehindAll(es);
    ok := !d.e;
  }

  lemma BehindNone<T>(xs: seq<T>)
    ensures Behind(xs, None) == None
  {
  }

  /* Series entries */

  lemma RefsUnfold(symbols: seq<string>, b: Bytes, n: nat)
    requires n > 0
    ensures TakeRefs(symbols, b, n) == match TakeRef(symbols, b)
                                       case Bad => Bad
                                       case Got(l, rest) => Onto([l], TakeRefs(symbols, rest, n - 1))
  {
    hide TakeUvarint64;
  }

  function TakeRef(symbols: seq<string>, b: Bytes): Parsed<Label> {
    match TakeUvarint64(b)
    case Bad => Bad
    case Got(i, b1) =>
      match TakeUvarint64(b1)
      case Bad => Bad
      case Got(j, b2) => if i % LIMIT32 >= |symbols| || j % LIMIT32 >= |symbols| then Bad
                         else Got(Label(symbols[i % LIMIT32], symbols[j % LIMIT32]), b2)
  }

  lemma NoRefs(symbols: seq<string>, b: Bytes)
    ensures TakeRefs(symbols, b, 0) == Got([], b)
  {
  }

  /** Fails if numbers cannot be read, and for numbers that no symbol has. */
  method NextRefs(d: Decbuf, symbols: seq<string>, n: nat) returns (ok: bool, ls: Labels)
    requires d.e ==> n == 0
    modifies d
    ensures old(d.e) ==> ok && ls == [] && d.e
    ensures !old(d.e) ==> match TakeRefs(symbols, old(d.b), n)
                          case Bad => !ok
                          case Got(more, rest) => ok && !d.e && ls == more && d.b == rest
  {
    hide TakeRefs, TakeUvarint64, Onto;
    ls := [];
    ghost var p0 := TakeRefs(symbols, d.b, n);
    OntoNothing(p0);
    for i := 0 to n
      invariant d.e == old(d.e) && (i == 0 ==> d.b == old(d.b)) && (d.e ==> n == 0 && ls == [])
      invariant p0 == Onto(ls, TakeRefs(symbols, d.b, n - i))
    {
      RefsUnfold(symbols, d.b, n - i);
      OntoBad(ls);
      var x := d.TakeUvarint();
      var y := d.TakeUvarint();
      if d.e {
        return false, ls;
      }
      var lno, lvo := x % LIMIT32, y % LIMIT32;
      if lno >= |symbols| || lvo >= |symbols| {
        return false, ls;
      }
      var l := Label(symbols[lno], symbols[lvo]);
      OntoMore(ls, l, TakeRefs(symbols, d.b, n - i - 1));
      ls := ls + [l];
    }
    NoRefs(symbols, d.b);
    OntoEnd(ls, d.b);
    ok := true;
  }

  method NextChunk(d: Decbuf, prev: ChunkMeta) returns (c: ChunkMeta)
    requires prev.ref < MODULUS
    modifies d
    ensures c.ref < MODULUS && Reads(d, old(d.e), TakeChunk(prev, old(d.b)), c)
  {
    hide TakeUvarint64, TakeVarint64, ToWord, FromWord, Words.Add;
    var gap := d.TakeUvarint();
    var mint := Words.Add(gap, ToWord(prev.maxt));
    var span := d.TakeUvarint();
    var dref := d.TakeVarint();
    c := ChunkMeta(Words.Add(prev.ref, dref), FromWord(mint), FromWord(Words.Add(span, mint)));
  }

  lemma MoreUnfold(prev: ChunkMeta, b: Bytes, n: nat)
    requires prev.ref < MODULUS
    ensures TakeMoreChunks(prev, b, n) == if n == 0 then Got([], b) else
              match TakeChunk(prev, b) case Bad => Bad case Got(c, rest) => Onto([c], TakeMoreChunks(c, rest, n - 1))
  {
    hide TakeChunk;
  }

  method NextChunks(d: Decbuf, n: nat) returns (cs: seq<ChunkMeta>)
    requires n > 0 && !d.e
    modifies d
    ensures Reads(d, old(d.e), TakeChunks(old(d.b), n), cs)
  {
    hide TakeUvarint64, TakeVarint64, FromWord, Words.Add, TakeMoreChunks, TakeChunk;
    var mint := d.TakeVarint();
    var span := d.TakeUvarint();
    var ref := d.TakeUvarint();
    var c := ChunkMeta(ref, FromWord(mint), FromWord(Words.Add(span, mint)));
    cs := [c];
    ghost var e1, p1 := d.e, Onto([c], TakeMoreChunks(c, d.b, n - 1));
    for i := 1 to n
      invariant c.ref < MODULUS && (e1 ==> d.e)
      invariant !e1 ==> p1 == if d.e then Bad else Onto(cs, TakeMoreChunks(c, d.b, n - i))
    {
      hide Onto;
      MoreUnfold(c, d.b, n - i);
      ghost var prev := c;
      c := NextChunk(d, c);
      OntoMore(cs, c, TakeMoreChunks(c, d.b, n - i - 1));
      OntoBad(cs);
      cs := cs + [c];
    }
    MoreUnfold(c, d.b, 0);
    OntoEnd(cs, d.b);
  }

  /** Decoder.Series. */
  method DecodeSeries(symbols: seq<string>, b: Bytes) returns (ok: bool, ls: Labels, cs: seq<ChunkMeta>)
    ensures ReadSeries(symbols, b) == if ok then Some((ls, cs)) else None
  {
    hide TakeUvarint64, TakeRefs, TakeChunks;
    cs := [];
    var d := new Decbuf(b);
    var k := d.TakeUvarint();
    ok, ls := NextRefs(d, symbols, LabelCount(k));
    if !ok {
      return;
    }
    k := d.TakeUvarint();
    if k == 0 {
      NoChunksTaken(d.b);
      return;
    }
    cs := NextChunks(d, ChunkCount(k));
    ok := !d.e;
  }

  lemma NoChunksTaken(b: Bytes)
    ensures TakeChunks(b, 0) == Got([], b)
  {
  }

  /* Opening */

  lemma WordsUnfold(b: Bytes)
    requires |b| % 8 == 0 && b != []
    ensures GetBE64(b) == Got(TakeWords(b)[0], b[8..]) && TakeWords(b) == [TakeWords(b)[0]] + TakeWords(b[8..])
  {
  }

  method LoadTOC(crc: Checksum, b: Bytes) returns (ok: bool, toc: TOC)
    ensures ReadTOC(crc, b) == if ok then Some(toc) else None
  {
    hide FromBigEndian, TakeWords, GetBE64;
    toc := TOC(0, 0, 0, 0, 0, 0);
    if |b| < TOC_LENGTH {
      return false, toc;
    }
    var w := b[|b| - 52..|b| - 4];
    if crc(w) != FromBigEndian(b[|b| - 4..]) {
      return false, toc;
    }
    var d := new Decbuf(w);
    var ws := [];
    TakenWords(w);
    Seqs.Nothing(TakeWords(w));
    for i := 0 to 6
      invariant fresh(d) && !d.e && |d.b| == 48 - 8 * i && |ws| == i
      invariant ws + TakeWords(d.b) == TakeWords(w)
    {
      WordsUnfold(d.b);
      Seqs.Associate(ws, [TakeWords(d.b)[0]], TakeWords(d.b[8..]));
      var x := d.TakeBE64();
      ws := ws + [x];
    }
    TakenWords(d.b);
    Seqs.Nothing(ws);
    return true, TOC(ws[0], ws[1], ws[2], ws[3], ws[4], ws[5]);
  }

  method LoadSymbols(crc: Checksum, b: Bytes, off: nat) returns (ok: bool, ss: seq<string>)
    ensures SymbolsFrom(crc, b, off) == if ok then Some(ss) else None
  {
    hide FrameAt, GetBE32, TakeStrings;
    if off == 0 {
      return true, [];
    }
    var d := DecbufAt(crc, b, off);
    ss := [];
    if d.e {
      return false, ss;
    }
    var cnt := d.TakeBE32();
    ss := NextStrings(d, cnt);
    ok := !d.e;
  }

  /** A map from names holds what the last entries say. */
  ghost predicate ByName(m: map<string, nat>, es: seq<Entry>) {
    forall name :: OffsetOf(es, [name]) == if name in m then Some(m[name]) else None
  }

  ghost predicate ByPair(m: map<Label, nat>, es: seq<Entry>) {
    forall l: Label :: OffsetOf(es, [l.name, l.value]) == if l in m then Some(m[l]) else None
  }

  lemma OffsetNext(es: seq<Entry>, i: nat, keys: seq<string>)
    requires i < |es|
    ensures OffsetOf(es[..i + 1], keys) == if es[i].keys == keys then Some(es[i].offset) else OffsetOf(es[..i], keys)
  {
    Seqs.Prefix(es, i);
  }

  method NameOffsets(es: seq<Entry>) returns (m: map<string, nat>)
    requires forall i :: 0 <= i < |es| ==> |es[i].keys| == 1
    ensures ByName(m, es)
  {
    hide OffsetOf;
    m := map[];
    OffsetIsAbsentAll();
    for i := 0 to |es|
      invariant ByName(m, es[..i])
    {
      var key := es[i].keys;
      assert key == [key[0]];
      forall name: string ensures OffsetOf(es[..i + 1], [name])
                               == if key[0] == name then Some(es[i].offset) else OffsetOf(es[..i], [name]) {
        OffsetNext(es, i, [name]);
        assert [name][0] == name;
      }
      m := m[key[0] := es[i].offset];
    }
    Seqs.Parts(es, |es|);
  }

  lemma OffsetIsAbsentAll()
    ensures forall keys :: OffsetOf([], keys) == None
  {
  }

  method PairOffsets(es: seq<Entry>) returns (m: map<Label, nat>)
    requires forall i :: 0 <= i < |es| ==> |es[i].keys| == 2
    ensures ByPair(m, es)
  {
    hide OffsetOf;
    m := map[];
    OffsetIsAbsentAll();
    for i := 0 to |es|
      invariant ByPair(m, es[..i])
    {
      var key := es[i].keys;
      var l := Label(key[0], key[1]);
      assert key == [l.name, l.value];
      forall x: Label ensures OffsetOf(es[..i + 1], [x.name, x.value])
                           == if l == x then Some(es[i].offset) else OffsetOf(es[..i], [x.name, x.value]) {
        OffsetNext(es, i, [x.name, x.value]);
        assert [x.name, x.value][0] == x.name && [x.name, x.value][1] == x.value;
      }
      m := m[l := es[i].offset];
    }
    Seqs.Parts(es, |es|);
  }

  lemma {:induction false} WidthsTaken(b: Bytes, n: nat, width: nat)
    ensures var r := TakeEntries(b, n, width); r.Some? ==> forall i :: 0 <= i < |r.value| ==> |r.value[i].keys| == width
    decreases n
  {
    hide TakeEntry;
    if n > 0 && b != [] {
      match TakeEntry(b)
      case Bad =>
      case Got(_, rest) => WidthsTaken(rest, n - 1, width);
    }
  }

  lemma Widths(crc: Checksum, b: Bytes, off: nat, width: nat)
    ensures var r := TableFrom(crc, b, off, width);
            r.Some? ==> forall i :: 0 <= i < |r.value| ==> |r.value[i].keys| == width
  {
    hide FrameAt, TakeEntries, GetBE32;
    match FrameAt(crc, b, off)
    case None =>
    case Some(c) =>
      match GetBE32(c)
      case Bad =>
      case Got(n, rest) => WidthsTaken(rest, n, width);
  }

  class Reader {
    const crc: Checksum
    const b: Bytes
    const labels: map<string, nat>
    const postings: map<Label, nat>
    const symbols: seq<string>
    ghost const view: Opened

    ghost predicate Valid() {
      && Open(crc, b) == Some(view)
      && symbols == view.symbols
      && ByName(labels, view.indexes)
      && ByPair(postings, view.postings)
    }

    constructor (crc: Checksum, b: Bytes, symbols: seq<string>, labels: map<string, nat>, postings: map<Label, nat>,
        ghost view: Opened)
      requires Open(crc, b) == Some(view) && symbols == view.symbols
      requires ByName(labels, view.indexes) && ByPair(postings, view.postings)
      ensures Valid() && this.crc == crc && this.b == b && this.view == view
    {
      this.crc, this.b, this.symbols, this.labels, this.postings, this.view := crc, b, symbols, labels, postings, view;
    }

    method Series(id: Word) returns (ok: bool, ls: Labels, cs: seq<ChunkMeta>)
      requires Valid()
      ensures SeriesFrom(crc, b, view, id) == if ok then Some(Row(ls, cs)) else None
    {
      hide Open, ByName, ByPair, VarFrameAt, ReadSeries;
      var d := DecbufUvarintAt(crc, b, 16 * id % MODULUS);
      if d.e {
        return false, [], [];
      }
      ok, ls, cs := DecodeSeries(symbols, d.b);
    }

    /** The ids that the iterator over the list will deliver. */
    method Postings(name: string, value: string) returns (ok: bool, ids: seq<nat>)
      requires Valid()
      ensures PostingsFrom(crc, b, view, name, value) == if ok then Some(ids) else None
    {
      hide Open, ByName, FrameAt, OffsetOf, GetBE32, TakeNumbers;
      var l := Label(name, value);
      assert l.name == name && l.value == value;
      if l !in postings {
        return true, [];
      }
      var d := DecbufAt(crc, b, postings[l]);
      if d.e {
        return false, [];
      }
      var n := d.TakeBE32();
      if d.e {
        return false, [];
      }
      ids := TakeNumbers(d.b);
      ok := true;
    }

    method LabelValues(name: string) returns (ok: bool, vs: seq<string>)
      requires Valid()
      ensures ValuesFrom(crc, b, view, name) == if ok then Some(vs) else None
    {
      hide Open, ByPair, FrameAt, OffsetOf, GetBE32, TakeNumbers, Lookup;
      if name !in labels {
        return true, [];
      }
      var d := DecbufAt(crc, b, labels[name]);
      if d.e {
        return false, [];
      }
      var nc := d.TakeBE32();
      var _ := d.TakeBE32();
      if d.e || nc != 1 {
        return false, [];
      }
      var r := Lookup(symbols, TakeNumbers(d.b));
      return r.Some?, if r.Some? then r.value else [];
    }
  }

  /** newReader: opens exactly the files that Open accepts. */
  method NewReader(crc: Checksum, b: Bytes) returns (r: Reader?)
    ensures r == null <==> Open(crc, b).None?
    ensures r != null ==> fresh(r) && r.Valid() && r.crc == crc && r.b == b
  {
    hide FromBigEndian, ReadTOC, SymbolsFrom, TableFrom, ByName, ByPair;
    r := null;
    if |b| < 5 {
      return;
    }
    if FromBigEndian(b[0..4]) != MAGIC || b[4] != 2 {
      return;
    }
    var ok, toc := LoadTOC(crc, b);
    if !ok {
      return;
    }
    var ss;
    ok, ss := LoadSymbols(crc, b, toc.symbols);
    if !ok {
      return;
    }
    var es, ps;
    ok, es := ReadOffsetTable(crc, b, toc.labelIndicesTable, 1);
    if !ok {
      return;
    }
    Widths(crc, b, toc.labelIndicesTable, 1);
    var labels := NameOffsets(es);
    ok, ps := ReadOffsetTable(crc, b, toc.postingsTable, 2);
    if !ok {
      return;
    }
    Widths(crc, b, toc.postingsTable, 2);
    var postings := PairOffsets(ps);
    r := new Reader(crc, b, ss, labels, postings, Opened(ss, es, ps));
  }
}
