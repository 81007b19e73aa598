/** The other sections of an index file (index/index.go): postings lists, label
    indexes, tables of offsets and the table of contents. */
module IndexTables {
  import opened Options
  import opened Words
  import opened Varints
  import opened ByteBuffers
  import opened IndexFormat
  import Seqs

  /* Lists of four-byte numbers */

  function NumbersBytes(ns: seq<nat>): (b: Bytes)
    ensures |b| == 4 * |ns|
  {
    if ns == [] then [] else BigEndian(ns[0], 4) + NumbersBytes(ns[1..])
  }

  /** What an iterator over four-byte numbers delivers. */
  function TakeNumbers(b: Bytes): seq<nat> {
    if |b| < 4 then [] else [FromBigEndian(b[..4])] + TakeNumbers(b[4..])
  }

  predicate Small(ns: seq<nat>) { forall i :: 0 <= i < |ns| ==> ns[i] < LIMIT32 }

  lemma {:induction false} NumbersBack(ns: seq<nat>)
    requires Small(ns)
    ensures TakeNumbers(NumbersBytes(ns)) == ns
  {
    hide BigEndian, FromBigEndian;
    if ns != [] {
      var x, more := BigEndian(ns[0], 4), NumbersBytes(ns[1..]);
      FirstFour(x, more);
      BE32Back(ns[0], []);
      NumbersBack(ns[1..]);
      Seqs.Uncons(ns);
    }
  }

  lemma FirstFour(x: Bytes, more: Bytes)
    requires |x| == 4
    ensures (x + more)[..4] == x && (x + more)[4..] == more
  {
  }

  function PostingsContent(ns: seq<nat>): Bytes {
    BigEndian(|ns|, 4) + NumbersBytes(ns)
  }

  /** Decoder.Postings: the count is not needed. */
  function ReadPostings(c: Bytes): Option<seq<nat>> {
    match GetBE32(c) case Bad => None case Got(_, b) => Some(TakeNumbers(b))
  }

  lemma PostingsBack(ns: seq<nat>)
    requires Small(ns)
    ensures ReadPostings(PostingsContent(ns)) == Some(ns)
  {
    hide BigEndian, GetBE32, NumbersBytes, TakeNumbers;
    BE32Back(|ns|, NumbersBytes(ns));
    NumbersBack(ns);
  }

  /* Label indexes for one name */

  predicate Listed(symbols: map<string, nat>, vs: seq<string>) {
    forall i :: 0 <= i < |vs| ==> vs[i] in symbols
  }

  function Codes(symbols: map<string, nat>, vs: seq<string>): (ns: seq<nat>)
    requires Listed(symbols, vs)
    ensures |ns| == |vs| && forall i :: 0 <= i < |vs| ==> ns[i] == symbols[vs[i]]
  {
    seq(|vs|, i requires 0 <= i < |vs| => symbols[vs[i]])
  }

  function ValuesContent(symbols: map<string, nat>, vs: seq<string>): Bytes
    requires Listed(symbols, vs)
  {
    BigEndian(1, 4) + BigEndian(|vs|, 4) + NumbersBytes(Codes(symbols, vs))
  }

  function Lookup(ss: seq<string>, ns: seq<nat>): Option<seq<string>> {
    if ns == [] then Some([]) else
    if ns[0] >= |ss| then None else
    match Lookup(ss, ns[1..]) case None => None case Some(vs) => Some([ss[ns[0]]] + vs)
  }

  /** The tuples that LabelValues returns, one name wide. */
  function ReadValues(ss: seq<string>, c: Bytes): Option<seq<string>> {
    match GetBE32(c)
    case Bad => None
    case Got(width, b) =>
      match GetBE32(b)
      case Bad => None
      case Got(_, b1) => if width != 1 then None else Lookup(ss, TakeNumbers(b1))
  }

  predicate AllStand(symbols: map<string, nat>, ss: seq<string>, vs: seq<string>)
    requires Listed(symbols, vs)
  {
    forall i :: 0 <= i < |vs| ==> Stands(symbols, ss, vs[i])
  }

  lemma {:induction false} LookupBack(symbols: map<string, nat>, ss: seq<string>, vs: seq<string>)
    requires Listed(symbols, vs)
    ensures Lookup(ss, Codes(symbols, vs)) == Some(vs) <==> AllStand(symbols, ss, vs)
  {
    if vs != [] {
      var ns, t := Codes(symbols, vs), vs[1..];
      assert ns[1..] == Codes(symbols, t);
      LookupBack(symbols, ss, t);
      Seqs.Uncons(vs);
      StandMore(symbols, ss, vs);
      if ns[0] < |ss| {
        match Lookup(ss, ns[1..])
        case None =>
        case Some(us) => Seqs.Cons(ss[ns[0]], us);
      }
    }
  }

  lemma StandMore(symbols: map<string, nat>, ss: seq<string>, vs: seq<string>)
    requires Listed(symbols, vs) && vs != []
    ensures AllStand(symbols, ss, vs) <==> Stands(symbols, ss, vs[0]) && AllStand(symbols, ss, vs[1..])
  {
    var t := vs[1..];
    assert forall i :: 0 < i < |vs| ==> vs[i] == t[i - 1];
  }

  /** A label index reads back exactly if its symbols stand where their numbers say. */
  lemma ValuesBack(symbols: map<string, nat>, ss: seq<string>, vs: seq<string>)
    requires Listed(symbols, vs) && Numbers(symbols)
    ensures ReadValues(ss, ValuesContent(symbols, vs)) == Some(vs) <==> AllStand(symbols, ss, vs)
  {
    hide BigEndian, GetBE32, NumbersBytes, TakeNumbers, Codes, AllStand, Lookup;
    var ns := Codes(symbols, vs);
    assert Small(ns) by {
      CodesSmall(symbols, vs);
    }
    Seqs.Associate(BigEndian(1, 4), BigEndian(|vs|, 4), NumbersBytes(ns));
    BE32Back(1, BigEndian(|vs|, 4) + NumbersBytes(ns));
    BE32Back(|vs|, NumbersBytes(ns));
    NumbersBack(ns);
    LookupBack(symbols, ss, vs);
  }

  lemma CodesSmall(symbols: map<string, nat>, vs: seq<string>)
    requires Listed(symbols, vs) && Numbers(symbols)
    ensures Small(Codes(symbols, vs))
  {
  }

  /* Tables of offsets */

  /** The names of a section, and where it begins. */
  datatype Entry = Entry(keys: seq<string>, offset: nat)

  predicate Storing(e: Entry) {
    |e.keys| < MODULUS && Strings(e.keys) && e.offset < MODULUS
  }

  function EntryBytes(e: Entry): (b: Bytes)
    requires Storing(e)
    ensures b != []
  {
    Uvarint64Back(|e.keys|, []);
    Uvarint(|e.keys|) + StringsBytes(e.keys) + Uvarint(e.offset)
  }

  /** Exactly n strings. */
  function TakeKeys(b: Bytes, n: nat): (p: Parsed<seq<string>>)
    ensures p.Got? ==> |p.rest| <= |b|
    decreases n
  {
    if n == 0 then Got([], b) else
    match TakeString(b)
    case Bad => Bad
    case Got(s, b1) => match TakeKeys(b1, n - 1) case Bad => Bad case Got(ss, rest) => Got([s] + ss, rest)
  }

  function TakeEntry(b: Bytes): (p: Parsed<Entry>)
    ensures p.Got? ==> |p.rest| < |b|
  {
    match TakeUvarint64(b)
    case Bad => Bad
    case Got(n, b1) =>
      match TakeKeys(b1, n)
      case Bad => Bad
      case Got(keys, b2) => match TakeUvarint64(b2) case Bad => Bad case Got(o, rest) => Got(Entry(keys, o), rest)
  }

  lemma {:induction false} KeysBack(ss: seq<string>, rest: Bytes)
    requires Strings(ss)
    ensures TakeKeys(StringsBytes(ss) + rest, |ss|) == Got(ss, rest)
  {
    hide StringBytes, TakeString, IsBytes;
    if ss == [] {
      Seqs.Nothing(rest);
    } else {
      Seqs.Associate(StringBytes(ss[0]), StringsBytes(ss[1..]), rest);
      StringBack(ss[0], StringsBytes(ss[1..]) + rest);
      KeysBack(ss[1..], rest);
      Seqs.Uncons(ss);
    }
  }

  lemma EntryBack(e: Entry, rest: Bytes)
    requires Storing(e)
    ensures TakeEntry(EntryBytes(e) + rest) == Got(e, rest)
  {
    hide Uvarint, TakeUvarint64, StringsBytes, TakeKeys, Strings;
    var x, y, z := Uvarint(|e.keys|), StringsBytes(e.keys), Uvarint(e.offset);
    Seqs.FourParts(x, y, z, rest);
    Seqs.FourParts(x, y, z + rest, []);
    Uvarint64Back(|e.keys|, y + (z + rest));
    KeysBack(e.keys, z + rest);
    Uvarint64Back(e.offset, rest);
  }

  predicate AllStoring(es: seq<Entry>) { forall i :: 0 <= i < |es| ==> Storing(es[i]) }

  function EntriesBytes(es: seq<Entry>): (b: Bytes)
    requires AllStoring(es)
    ensures |b| >= |es|
  {
    if es == [] then [] else EntryBytes(es[0]) + EntriesBytes(es[1..])
  }

  /** Entries with the given number of keys, until there are n or nothing is left. */
  function TakeEntries(b: Bytes, n: nat, width: nat): Option<seq<Entry>>
    decreases n
  {
    if n == 0 || b == [] then Some([]) else
    match TakeEntry(b)
    case Bad => None
    case Got(e, rest) =>
      if |e.keys| != width then None else
      match TakeEntries(rest, n - 1, width) case None => None case Some(es) => Some([e] + es)
  }

  lemma {:induction false} EntriesBack(es: seq<Entry>, width: nat)
    requires AllStoring(es) && forall i :: 0 <= i < |es| ==> |es[i].keys| == width
    ensures TakeEntries(EntriesBytes(es), |es|, width) == Some(es)
  {
    hide EntryBytes, TakeEntry, Storing;
    if es != [] {
      EntryBack(es[0], EntriesBytes(es[1..]));
      EntriesBack(es[1..], width);
      Seqs.Uncons(es);
    }
  }

  function TableContent(es: seq<Entry>): (c: Bytes)
    requires AllStoring(es)
    ensures |c| >= |es|
  {
    BigEndian(|es|, 4) + EntriesBytes(es)
  }

  /** readOffsetTable. */
  function ReadTable(c: Bytes, width: nat): Option<seq<Entry>> {
    match GetBE32(c) case Bad => None case Got(n, b) => TakeEntries(b, n, width)
  }

  lemma TableBack(es: seq<Entry>, width: nat)
    requires AllStoring(es) && |es| < LIMIT32 && forall i :: 0 <= i < |es| ==> |es[i].keys| == width
    ensures ReadTable(TableContent(es), width) == Some(es)
  {
    hide BigEndian, GetBE32, EntriesBytes, TakeEntries, AllStoring;
    BE32Back(|es|, EntriesBytes(es));
    EntriesBack(es, width);
  }

  /** The last entry with the keys decides. */
  function OffsetOf(es: seq<Entry>, keys: seq<string>): Option<nat> {
    if es == [] then None else
    var e := es[|es| - 1];
    if e.keys == keys then Some(e.offset) else OffsetOf(es[..|es| - 1], keys)
  }

  lemma {:induction false} OffsetIsLast(es: seq<Entry>, i: nat)
    requires i < |es| && forall j :: i < j < |es| ==> es[j].keys != es[i].keys
    ensures OffsetOf(es, es[i].keys) == Some(es[i].offset)
  {
    if i < |es| - 1 {
      OffsetIsLast(es[..|es| - 1], i);
    }
  }

  lemma {:induction false} OffsetIsAbsent(es: seq<Entry>, keys: seq<string>)
    ensures OffsetOf(es, keys).None? <==> forall i :: 0 <= i < |es| ==> es[i].keys != keys
  {
    if es != [] {
      OffsetIsAbsent(es[..|es| - 1], keys);
      assert forall i :: 0 <= i < |es| - 1 ==> es[i] == es[..|es| - 1][i];
    }
  }

  /* The table of contents */

  datatype TOC = TOC(symbols: Word, series: Word, labelIndices: Word, labelIndicesTable: Word, postings: Word,
    postingsTable: Word)

  const TOC_LENGTH: nat := 52

  function TOCParts(t: TOC): seq<Word> {
    [t.symbols, t.series, t.labelIndices, t.labelIndicesTable, t.postings, t.postingsTable]
  }

  function WordsBytes(ws: seq<Word>): (b: Bytes)
    ensures |b| == 8 * |ws|
  {
    if ws == [] then [] else BigEndian(ws[0], 8) + WordsBytes(ws[1..])
  }

  function TakeWords(b: Bytes): seq<Word>
    requires |b| % 8 == 0
  {
    if b == [] then [] else [GetBE64(b).value] + TakeWords(b[8..])
  }

  lemma {:induction false} WordsBack(ws: seq<Word>)
    ensures TakeWords(WordsBytes(ws)) == ws
  {
    hide BigEndian;
    if ws != [] {
      BE64Back(ws[0], WordsBytes(ws[1..]));
      WordsBack(ws[1..]);
      Seqs.Uncons(ws);
      AfterEight(BigEndian(ws[0], 8), WordsBytes(ws[1..]));
    }
  }

  lemma AfterEight(x: Bytes, more: Bytes)
    requires |x| == 8
    ensures (x + more)[8..] == more
  {
  }

  function TOCBytes(crc: Checksum, t: TOC): (b: Bytes)
    ensures |b| == TOC_LENGTH
  {
    var w := WordsBytes(TOCParts(t));
    w + BigEndian(crc(w), 4)
  }

  lemma {:induction false} TakenWords(b: Bytes)
    requires |b| % 8 == 0
    ensures |TakeWords(b)| == |b| / 8
  {
    if b != [] {
      TakenWords(b[8..]);
    }
  }

  /** readTOC. */
  function ReadTOC(crc: Checksum, b: Bytes): Option<TOC> {
    if |b| < TOC_LENGTH then None else
    var w := b[|b| - 52..|b| - 4];
    if crc(w) != FromBigEndian(b[|b| - 4..]) then None else
      TakenWords(w);
      var ws := TakeWords(w);
      Some(TOC(ws[0], ws[1], ws[2], ws[3], ws[4], ws[5]))
  }

  lemma TOCBack(crc: Checksum, b: Bytes, t: TOC)
    ensures ReadTOC(crc, b + TOCBytes(crc, t)) == Some(t)
  {
    hide BigEndian, FromBigEndian, WordsBytes, TakeWords, TOCParts;
    var w := WordsBytes(TOCParts(t));
    SixParts(t);
    LastParts(b, w, BigEndian(crc(w), 4));
    WordsBack(TOCParts(t));
    BE32Back(crc(w), []);
    Parts(t);
  }

  lemma SixParts(t: TOC)
    ensures |TOCParts(t)| == 6
  {
  }

  lemma Parts(t: TOC)
    ensures var ws := TOCParts(t); TOC(ws[0], ws[1], ws[2], ws[3], ws[4], ws[5]) == t
  {
  }

  lemma LastParts(b: Bytes, w: Bytes, c: Bytes)
    requires |w| == 48 && |c| == 4
    ensures var f := b + (w + c); f[|f| - 52..|f| - 4] == w && f[|f| - 4..] == c
  {
  }
}
