/** The loops of the index writer that fill its buffers. */
module IndexEncoding {
  import opened Words
  import opened Varints
  import opened ByteBuffers
  import opened Samples
  import opened Labelling
  import opened RecordCodec
  import opened IndexFormat
  import opened IndexTables
  import opened IndexSorting
  import Seqs

  lemma Rest<T>(s: seq<T>, i: nat)
    requires i < |s|
    ensures s[i..] != [] && s[i..][0] == s[i] && s[i..][1..] == s[i + 1..]
  {
  }

  lemma Ends<T>(s: seq<T>)
    ensures s[|s|..] == [] && s[0..] == s && s[..|s|] == s
  {
  }

  lemma StringsUnfold(ss: seq<string>, i: nat)
    requires Strings(ss) && i < |ss|
    ensures StringsBytes(ss[i..]) == StringBytes(ss[i]) + StringsBytes(ss[i + 1..])
  {
    hide StringBytes, IsBytes;
    Rest(ss, i);
  }

  lemma NoStrings()
    ensures StringsBytes([]) == [] && NumbersOf([]) == map[]
  {
  }

  /** Symbols are numbered from 0 on. */
  method PutSymbols(buf: Encbuf, ss: seq<string>) returns (symbols: map<string, nat>)
    requires Strings(ss)
    modifies buf
    ensures buf.b == old(buf.b) + StringsBytes(ss) && symbols == NumbersOf(ss)
  {
    hide StringBytes, StringsBytes, NumbersOf;
    symbols := map[];
    NoStrings();
    Ends(ss);
    for i := 0 to |ss|
      invariant symbols == NumbersOf(ss[..i])
      invariant buf.b + StringsBytes(ss[i..]) == old(buf.b) + StringsBytes(ss)
    {
      NumbersMore(ss, i);
      symbols := symbols[ss[i] := i % LIMIT32];
      StringsUnfold(ss, i);
      Seqs.Associate(buf.b, StringBytes(ss[i]), StringsBytes(ss[i + 1..]));
      buf.PutUvarintStr(ss[i]);
    }
    Seqs.Nothing(buf.b);
  }

  lemma NumbersMore(ss: seq<string>, i: nat)
    requires i < |ss|
    ensures NumbersOf(ss[..i + 1]) == NumbersOf(ss[..i])[ss[i] := i % LIMIT32]
  {
    Seqs.Prefix(ss, i);
  }

  lemma RefsUnfold(symbols: map<string, nat>, ls: Labels, i: nat)
    requires Known(symbols, ls) && i < |ls|
    ensures RefsBytes(symbols, ls[i..])
         == Uvarint(symbols[ls[i].name]) + Uvarint(symbols[ls[i].value]) + RefsBytes(symbols, ls[i + 1..])
  {
    hide Uvarint;
    Rest(ls, i);
  }

  lemma NoRefs(symbols: map<string, nat>)
    ensures RefsBytes(symbols, []) == []
  {
  }

  /** The numbers of names and values, as long as all of them are known. */
  method PutRefs(buf: Encbuf, symbols: map<string, nat>, ls: Labels) returns (ok: bool)
    modifies buf
    ensures ok <==> Known(symbols, ls)
    ensures ok ==> buf.b == old(buf.b) + RefsBytes(symbols, ls)
  {
    hide Uvarint, RefsBytes;
    Ends(ls);
    for i := 0 to |ls|
      invariant Known(symbols, ls[..i])
      invariant Known(symbols, ls) ==> buf.b + RefsBytes(symbols, ls[i..]) == old(buf.b) + RefsBytes(symbols, ls)
    {
      var l := ls[i];
      if l.name !in symbols || l.value !in symbols {
        return false;
      }
      if Known(symbols, ls) {
        RefsUnfold(symbols, ls, i);
        Seqs.FourParts(buf.b, Uvarint(symbols[l.name]), Uvarint(symbols[l.value]), RefsBytes(symbols, ls[i + 1..]));
        Seqs.Associate(Uvarint(symbols[l.name]), Uvarint(symbols[l.value]), RefsBytes(symbols, ls[i + 1..]));
      }
      buf.PutUvarint(symbols[l.name]);
      buf.PutUvarint(symbols[l.value]);
    }
    NoRefs(symbols);
    Seqs.Nothing(buf.b);
    return true;
  }

  lemma MoreUnfold(cs: seq<ChunkMeta>, i: nat)
    requires Refs(cs) && 0 < i < |cs|
    ensures MoreChunkBytes(cs[i - 1], cs[i..]) == ChunkBytes(cs[i - 1], cs[i]) + MoreChunkBytes(cs[i], cs[i + 1..])
  {
    hide ChunkBytes;
    Rest(cs, i);
  }

  lemma NoChunks(c: ChunkMeta)
    requires c.ref < MODULUS
    ensures MoreChunkBytes(c, []) == [] && ChunksBytes([]) == []
  {
  }

  method PutChunk(buf: Encbuf, t0: int64, ref0: Word, c: ChunkMeta, ghost prev: ChunkMeta)
    requires c.ref < MODULUS && prev.ref == ref0 && prev.maxt == t0
    modifies buf
    ensures buf.b == old(buf.b) + ChunkBytes(prev, c)
  {
    hide Uvarint, ZigZag, Sub, ToWord;
    buf.PutUvarint(Sub(ToWord(c.mint), ToWord(t0)));
    buf.PutUvarint(Sub(ToWord(c.maxt), ToWord(c.mint)));
    buf.PutVarint(Sub(c.ref, ref0));
  }

  method PutChunks(buf: Encbuf, cs: seq<ChunkMeta>)
    requires Refs(cs)
    modifies buf
    ensures buf.b == old(buf.b) + ChunksBytes(cs)
  {
    hide Uvarint, ZigZag, Sub, ToWord, MoreChunkBytes, ChunkBytes;
    if |cs| > 0 {
      var c := cs[0];
      NoChunks(c);
      buf.PutVarint(ToWord(c.mint));
      buf.PutUvarint(Sub(ToWord(c.maxt), ToWord(c.mint)));
      buf.PutUvarint(c.ref);
      var t0, ref0 := c.maxt, c.ref;
      for i := 1 to |cs|
        invariant t0 == cs[i - 1].maxt && ref0 == cs[i - 1].ref
        invariant buf.b + MoreChunkBytes(cs[i - 1], cs[i..]) == old(buf.b) + ChunksBytes(cs)
      {
        MoreUnfold(cs, i);
        Seqs.Associate(buf.b, ChunkBytes(cs[i - 1], cs[i]), MoreChunkBytes(cs[i], cs[i + 1..]));
        PutChunk(buf, t0, ref0, cs[i], cs[i - 1]);
        t0, ref0 := cs[i].maxt, cs[i].ref;
      }
      Ends(cs);
      NoChunks(cs[|cs| - 1]);
      Seqs.Nothing(buf.b);
    } else {
      Seqs.Nothing(buf.b);
    }
  }

  lemma NumbersUnfold(ns: seq<nat>, i: nat)
    requires i < |ns|
    ensures NumbersBytes(ns[i..]) == BigEndian(ns[i], 4) + NumbersBytes(ns[i + 1..])
  {
    hide BigEndian;
    Rest(ns, i);
  }

  lemma NoNumbers()
    ensures NumbersBytes([]) == []
  {
  }

  method PutNumbers(buf: Encbuf, ns: seq<nat>)
    modifies buf
    ensures buf.b == old(buf.b) + NumbersBytes(ns)
  {
    hide BigEndian, NumbersBytes;
    Ends(ns);
    for i := 0 to |ns|
      invariant buf.b + NumbersBytes(ns[i..]) == old(buf.b) + NumbersBytes(ns)
    {
      NumbersUnfold(ns, i);
      Seqs.Associate(buf.b, BigEndian(ns[i], 4), NumbersBytes(ns[i + 1..]));
      buf.PutBE32(ns[i]);
    }
    NoNumbers();
    Seqs.Nothing(buf.b);
  }

  /** The numbers of values, as long as all of them are known. */
  method PutCodes(buf: Encbuf, symbols: map<string, nat>, vs: seq<string>) returns (ok: bool)
    modifies buf
    ensures ok <==> Listed(symbols, vs)
    ensures ok ==> buf.b == old(buf.b) + NumbersBytes(Codes(symbols, vs))
  {
    hide BigEndian, NumbersBytes, Codes;
    Ends(vs);
    ghost var ns := if Listed(symbols, vs) then Codes(symbols, vs) else [];
    Ends(ns);
    for i := 0 to |vs|
      invariant Listed(symbols, vs[..i])
      invariant Listed(symbols, vs) ==> buf.b + NumbersBytes(ns[i..]) == old(buf.b) + NumbersBytes(ns)
    {
      if vs[i] !in symbols {
        return false;
      }
      if Listed(symbols, vs) {
        NumbersUnfold(ns, i);
        Seqs.Associate(buf.b, BigEndian(ns[i], 4), NumbersBytes(ns[i + 1..]));
      }
      buf.PutBE32(symbols[vs[i]]);
    }
    NoNumbers();
    Seqs.Nothing(buf.b);
    return true;
  }

  lemma EntriesUnfold(es: seq<Entry>, i: nat)
    requires AllStoring(es) && i < |es|
    ensures EntriesBytes(es[i..]) == EntryBytes(es[i]) + EntriesBytes(es[i + 1..])
  {
    hide EntryBytes, Storing;
    Rest(es, i);
  }

  lemma NoEntries()
    ensures EntriesBytes([]) == []
  {
  }

  method PutEntry(buf: Encbuf, e: Entry)
    requires Storing(e)
    modifies buf
    ensures buf.b == old(buf.b) + EntryBytes(e)
  {
    hide Uvarint, StringBytes, StringsBytes, IsBytes;
    buf.PutUvarint(|e.keys|);
    ghost var b1 := buf.b;
    Ends(e.keys);
    for i := 0 to |e.keys|
      invariant buf.b + StringsBytes(e.keys[i..]) == b1 + StringsBytes(e.keys)
    {
      StringsUnfold(e.keys, i);
      Seqs.Associate(buf.b, StringBytes(e.keys[i]), StringsBytes(e.keys[i + 1..]));
      buf.PutUvarintStr(e.keys[i]);
    }
    NoStrings();
    Seqs.Nothing(buf.b);
    Seqs.FourParts(old(buf.b), Uvarint(|e.keys|), StringsBytes(e.keys), Uvarint(e.offset));
    Seqs.Associate(Uvarint(|e.keys|), StringsBytes(e.keys), Uvarint(e.offset));
    buf.PutUvarint(e.offset);
  }

  method PutEntries(buf: Encbuf, es: seq<Entry>)
    requires AllStoring(es)
    modifies buf
    ensures buf.b == old(buf.b) + EntriesBytes(es)
  {
    hide EntryBytes, EntriesBytes, Storing;
    Ends(es);
    for i := 0 to |es|
      invariant buf.b + EntriesBytes(es[i..]) == old(buf.b) + EntriesBytes(es)
    {
      EntriesUnfold(es, i);
      Seqs.Associate(buf.b, EntryBytes(es[i]), EntriesBytes(es[i + 1..]));
      PutEntry(buf, es[i]);
    }
    NoEntries();
    Seqs.Nothing(buf.b);
  }

  /* Whole buffers */

  method EncodeSymbols(ss: seq<string>) returns (c: Bytes, symbols: map<string, nat>)
    requires Strings(ss)
    ensures c == SymbolsContent(ss) && symbols == NumbersOf(ss)
  {
    hide BigEndian, StringsBytes, NumbersOf, Strings;
    var buf := new Encbuf([]);
    buf.PutBE32(|ss|);
    Seqs.Nothing(BigEndian(|ss|, 4));
    symbols := PutSymbols(buf, ss);
    c := buf.b;
  }

  method EncodeSeries(symbols: map<string, nat>, ls: Labels, cs: seq<ChunkMeta>) returns (ok: bool, c: Bytes)
    requires Refs(cs) && |ls| < SIGN
    ensures ok <==> Known(symbols, ls)
    ensures ok ==> c == SeriesContent(symbols, ls, cs)
  {
    hide Uvarint, RefsBytes, ChunksBytes, Known;
    var buf := new Encbuf([]);
    buf.PutUvarint(|ls|);
    Seqs.Nothing(Uvarint(|ls|));
    c := [];
    ok := PutRefs(buf, symbols, ls);
    if ok {
      buf.PutUvarint(|cs|);
      PutChunks(buf, cs);
      c := buf.b;
    }
  }

  method EncodeValues(symbols: map<string, nat>, vs: seq<string>) returns (ok: bool, c: Bytes)
    ensures ok <==> Listed(symbols, vs)
    ensures ok ==> c == ValuesContent(symbols, vs)
  {
    hide BigEndian, NumbersBytes, Codes, Listed;
    var buf := new Encbuf([]);
    buf.PutBE32(1);
    Seqs.Nothing(BigEndian(1, 4));
    buf.PutBE32(|vs|);
    c := [];
    ok := PutCodes(buf, symbols, vs);
    if ok {
      c := buf.b;
    }
  }

  method EncodePostings(ns: seq<nat>) returns (c: Bytes)
    ensures c == PostingsContent(ns)
  {
    hide BigEndian, NumbersBytes;
    var buf := new Encbuf([]);
    buf.PutBE32(|ns|);
    Seqs.Nothing(BigEndian(|ns|, 4));
    PutNumbers(buf, ns);
    c := buf.b;
  }

  method EncodeTable(es: seq<Entry>) returns (c: Bytes)
    requires AllStoring(es)
    ensures c == TableContent(es)
  {
    hide BigEndian, EntriesBytes, AllStoring;
    var buf := new Encbuf([]);
    buf.PutBE32(|es|);
    Seqs.Nothing(BigEndian(|es|, 4));
    PutEntries(buf, es);
    c := buf.b;
  }

  lemma WordsUnfold(ws: seq<Word>, i: nat)
    requires i < |ws|
    ensures WordsBytes(ws[i..]) == BigEndian(ws[i], 8) + WordsBytes(ws[i + 1..])
  {
    hide BigEndian;
    Rest(ws, i);
  }

  lemma NoWords()
    ensures WordsBytes([]) == []
  {
  }

  method EncodeTOC(crc: Checksum, t: TOC) returns (c: Bytes)
    ensures c == TOCBytes(crc, t)
  {
    hide BigEndian, WordsBytes;
    var buf := new Encbuf([]);
    var ws := TOCParts(t);
    Ends(ws);
    Seqs.Nothing(WordsBytes(ws));
    for i := 0 to 6
      invariant fresh(buf) && buf.b + WordsBytes(ws[i..]) == WordsBytes(ws)
    {
      WordsUnfold(ws, i);
      Seqs.Associate(buf.b, BigEndian(ws[i], 8), WordsBytes(ws[i + 1..]));
      buf.PutBE64(ws[i]);
    }
    NoWords();
    Seqs.Nothing(buf.b);
    buf.PutBE32(crc(buf.b));
    c := buf.b;
  }
}
