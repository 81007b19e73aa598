/** What the reader of an index file accepts: a section only with its checksum, a file only
    with its header and table of contents, and labels only from the symbol table. */
module IndexLaws {
  import opened Options
  import opened Words
  import opened ByteBuffers
  import opened Varints
  import opened Labelling
  import opened IndexFormat
  import opened IndexTables
  import opened IndexContents
  import Seqs

  /** A number of n bytes has only one representation. */
  lemma {:induction false} BigEndianAgain(b: Bytes)
    ensures BigEndian(FromBigEndian(b), |b|) == b
  {
    if b != [] {
      var init, x := b[..|b| - 1], b[|b| - 1];
      BigEndianAgain(init);
      DivUnique(256 * FromBigEndian(init) + x, 256, FromBigEndian(init), x);
      assert b == init + [x];
    }
  }

  /** A section is read exactly if it stands there as a whole: with its length in 32 bits,
      and with the checksum of its contents. */
  lemma FrameExactly(crc: Checksum, b: Bytes, off: nat, c: Bytes)
    ensures FrameAt(crc, b, off) == Some(c) <==> |c| < LIMIT32 && Placed(b, off, Frame(crc, c))
  {
    if FrameAt(crc, b, off) == Some(c) {
      FrameStands(crc, b, off, c);
    } else if Placed(b, off, Frame(crc, c)) {
      FrameBack(crc, b, off, c);
    }
  }

  lemma FrameStands(crc: Checksum, b: Bytes, off: nat, c: Bytes)
    requires FrameAt(crc, b, off) == Some(c)
    ensures |c| < LIMIT32 && Placed(b, off, Frame(crc, c))
  {
    hide BigEndian, FromBigEndian;
    var l, x, z := |c|, b[off..off + 4], b[off + 4 + |c|..off + 4 + |c| + 4];
    BE32Bound(x);
    assert FromBigEndian(x) == l;
    BigEndianAgain(x);
    BigEndianAgain(z);
    ThreeSlices(b, off, off + 4, off + 4 + l, off + 4 + l + 4);
  }

  lemma ThreeSlices(b: Bytes, i: nat, j: nat, k: nat, l: nat)
    requires i <= j <= k <= l <= |b|
    ensures b[i..l] == b[i..j] + b[j..k] + b[k..l]
  {
  }

  ghost predicate Summed(crc: Checksum, b: Bytes, p: nat, c: Bytes) { Placed(b, p, c + BigEndian(crc(c), 4)) }

  /** What is read of a series stands behind its length, and its checksum behind it. */
  lemma SeriesFrameStands(crc: Checksum, b: Bytes, off: nat, c: Bytes)
    requires VarFrameAt(crc, b, off) == Some(c)
    ensures exists p :: off < p <= off + 5 && Summed(crc, b, p, c)
  {
    hide BigEndian, FromBigEndian, TakeUvarint64;
    var p := TakeUvarint64(b[off..off + 5]);
    var n := 5 - |p.rest|;
    var z := b[off + n + |c|..off + n + |c| + 4];
    BigEndianAgain(z);
    ThreeSlices(b, off + n, off + n, off + n + |c|, off + n + |c| + 4);
    assert b[off + n..off + n + |c| + 4] == c + z;
    assert Summed(crc, b, off + n, c);
  }

  /** The table of contents is read exactly if its checksum is right. */
  lemma ContentsExactly(crc: Checksum, b: Bytes)
    ensures ReadTOC(crc, b).Some? <==>
              |b| >= 52 && b[|b| - 4..] == BigEndian(crc(b[|b| - 52..|b| - 4]), 4)
  {
    hide BigEndian, FromBigEndian, TakeWords;
    if |b| >= 52 {
      BigEndianAgain(b[|b| - 4..]);
      BE32Back(crc(b[|b| - 52..|b| - 4]), []);
    }
  }

  /** The five bytes that an index file begins with. */
  lemma HeaderExactly(b: Bytes)
    ensures HeaderIsRight(b) <==> |b| >= 5 && b[..5] == [0xBA, 0xAA, 0xD7, 0x00, 0x02]
    ensures Header() == [0xBA, 0xAA, 0xD7, 0x00, 0x02]
  {
    MagicBytes();
    hide BigEndian, FromBigEndian;
    if |b| >= 5 {
      BigEndianAgain(b[0..4]);
      var h := [0xBA, 0xAA, 0xD7, 0x00, 0x02];
      assert b[..5] == b[0..4] + [b[4]] && h == h[..4] + [h[4]] && h[..4] == [0xBA, 0xAA, 0xD7, 0x00];
      assert b[..5] == h <==> b[0..4] == h[..4] && b[4] == h[4];
      BE32Back(MAGIC, []);
      assert FromBigEndian(b[0..4]) == MAGIC <==> b[0..4] == BigEndian(MAGIC, 4);
    }
  }

  lemma MagicBytes()
    ensures BigEndian(MAGIC, 4) == [0xBA, 0xAA, 0xD7, 0x00]
  {
    assert MAGIC / 256 == 0xBAAAD7 && MAGIC % 256 == 0;
    assert BigEndian(0, 0) == [];
    assert BigEndian(0xBA, 1) == [0xBA];
    assert BigEndian(0xBAAA, 2) == [0xBA] + [0xAA];
    assert BigEndian(0xBAAAD7, 3) == [0xBA] + [0xAA] + [0xD7];
  }

  /** A file that opens has the right header, a table of contents with its checksum, and
      all sections that this points to with theirs. */
  lemma OpenChecks(crc: Checksum, b: Bytes)
    ensures Open(crc, b).Some? ==> HeaderIsRight(b) && SectionsStand(crc, b)
  {
    hide HeaderIsRight, ReadTOC, FrameAt, ReadSymbols, ReadTable, Placed, Frame;
    if Open(crc, b).Some? {
      var toc := ReadTOC(crc, b).value;
      ReadStands(crc, b, toc.symbols);
      ReadStands(crc, b, toc.labelIndicesTable);
      ReadStands(crc, b, toc.postingsTable);
      hide Stands;
    }
  }

  lemma ReadStands(crc: Checksum, b: Bytes, off: nat)
    ensures FrameAt(crc, b, off).Some? ==> Stands(crc, b, off)
  {
    hide FrameAt, Placed, Frame;
    if FrameAt(crc, b, off).Some? {
      FrameExactly(crc, b, off, FrameAt(crc, b, off).value);
    }
  }

  ghost predicate SectionsStand(crc: Checksum, b: Bytes) {
    match ReadTOC(crc, b)
    case None => false
    case Some(toc) =>
      && (toc.symbols != 0 ==> Stands(crc, b, toc.symbols))
      && Stands(crc, b, toc.labelIndicesTable) && Stands(crc, b, toc.postingsTable)
  }

  ghost predicate Stands(crc: Checksum, b: Bytes, off: nat) {
    exists c :: |c| < LIMIT32 && Placed(b, off, Frame(crc, c))
  }

  /** Whatever the bytes of a series are: its labels come from the symbol table. */
  lemma {:induction false} LabelsAreSymbols(symbols: seq<string>, b: Bytes, n: nat)
    requires TakeRefs(symbols, b, n).Got?
    ensures var ls := TakeRefs(symbols, b, n).value;
            |ls| == n && forall l :: l in ls ==> l.name in symbols && l.value in symbols
    decreases n
  {
    hide TakeUvarint64;
    if n > 0 {
      var b1 := TakeUvarint64(b).rest;
      LabelsAreSymbols(symbols, TakeUvarint64(b1).rest, n - 1);
    }
  }

  lemma SeriesHasSymbols(symbols: seq<string>, c: Bytes)
    requires ReadSeries(symbols, c).Some?
    ensures forall l :: l in ReadSeries(symbols, c).value.0 ==> l.name in symbols && l.value in symbols
  {
    hide TakeRefs, TakeChunks, TakeUvarint64;
    if TakeUvarint64(c).Got? {
      var n := LabelCount(TakeUvarint64(c).value);
      LabelsAreSymbols(symbols, TakeUvarint64(c).rest, n);
    }
  }

  /* Tables that are damaged or cut off */

  /** Whatever the bytes: the entries that are read all have the right number of keys, and
      there are no more of them than announced. */
  lemma {:induction false} EntriesHaveWidth(b: Bytes, n: nat, width: nat)
    requires TakeEntries(b, n, width).Some?
    ensures var es := TakeEntries(b, n, width).value;
            |es| <= n && forall i :: 0 <= i < |es| ==> |es[i].keys| == width
    decreases n
  {
    hide TakeEntry;
    if n > 0 && b != [] {
      EntriesHaveWidth(TakeEntry(b).rest, n - 1, width);
    }
  }

  /** One entry that cannot be read, or has another number of keys, spoils the table. */
  lemma {:induction false} BadEntryRefused(es: seq<Entry>, bad: Bytes, n: nat, width: nat)
    requires AllStoring(es) && |es| < n && bad != []
    requires TakeEntry(bad).Bad? || |TakeEntry(bad).value.keys| != width
    ensures TakeEntries(EntriesBytes(es) + bad, n, width) == None
    decreases |es|
  {
    hide EntryBytes, TakeEntry, Storing;
    if es == [] {
      Seqs.Nothing(bad);
    } else {
      Seqs.Associate(EntryBytes(es[0]), EntriesBytes(es[1..]), bad);
      EntryBack(es[0], EntriesBytes(es[1..]) + bad);
      BadEntryRefused(es[1..], bad, n - 1, width);
    }
  }

  lemma BadTableRefused(es: seq<Entry>, bad: Bytes, n: nat, width: nat)
    requires AllStoring(es) && |es| < n < LIMIT32 && bad != []
    requires TakeEntry(bad).Bad? || |TakeEntry(bad).value.keys| != width
    ensures ReadTable(BigEndian(n, 4) + (EntriesBytes(es) + bad), width) == None
  {
    hide BigEndian, GetBE32, EntriesBytes, TakeEntry, TakeEntries, AllStoring;
    BE32Back(n, EntriesBytes(es) + bad);
    BadEntryRefused(es, bad, n, width);
  }

  /** One string that cannot be read spoils the symbol table. */
  lemma {:induction false} BadStringRefused(ss: seq<string>, bad: Bytes, n: nat)
    requires Strings(ss) && |ss| < n && bad != [] && TakeString(bad) == Bad
    ensures TakeStrings(StringsBytes(ss) + bad, n) == Bad
    decreases |ss|
  {
    hide StringBytes, TakeString, IsBytes;
    if ss == [] {
      Seqs.Nothing(bad);
    } else {
      var more := StringsBytes(ss[1..]) + bad;
      Seqs.Associate(StringBytes(ss[0]), StringsBytes(ss[1..]), bad);
      StringBack(ss[0], more);
      NotEmpty(ss[0], more);
      BadStringRefused(ss[1..], bad, n - 1);
    }
  }

  lemma BadSymbolsRefused(ss: seq<string>, bad: Bytes, n: nat)
    requires Strings(ss) && |ss| < n < LIMIT32 && bad != [] && TakeString(bad) == Bad
    ensures ReadSymbols(BigEndian(n, 4) + (StringsBytes(ss) + bad)) == None
  {
    hide BigEndian, GetBE32, StringsBytes, TakeStrings, TakeString, Strings;
    BE32Back(n, StringsBytes(ss) + bad);
    BadStringRefused(ss, bad, n);
  }

  function LastChunk(prev: ChunkMeta, cs: seq<ChunkMeta>): ChunkMeta {
    if cs == [] then prev else cs[|cs| - 1]
  }

  /** One chunk that cannot be read spoils the series, whatever chunks come before it. */
  lemma {:induction false} BadChunkRefused(prev: ChunkMeta, cs: seq<ChunkMeta>, bad: Bytes, n: nat)
    requires prev.ref < MODULUS && (forall i :: 0 <= i < |cs| ==> cs[i].ref < MODULUS) && |cs| < n
    requires TakeChunk(LastChunk(prev, cs), bad) == Bad
    ensures TakeMoreChunks(prev, MoreChunkBytes(prev, cs) + bad, n) == Bad
    decreases |cs|
  {
    hide ChunkBytes, TakeChunk;
    if cs == [] {
      Seqs.Nothing(bad);
    } else {
      var more := MoreChunkBytes(cs[0], cs[1..]);
      Seqs.Associate(ChunkBytes(prev, cs[0]), more, bad);
      ChunkBack(prev, cs[0], more + bad);
      BadChunkRefused(cs[0], cs[1..], bad, n - 1);
    }
  }

  /** One symbol number that cannot be read, or that no symbol has, spoils it too. */
  lemma {:induction false} BadLabelRefused(symbols: map<string, nat>, ss: seq<string>, ls: Labels, bad: Bytes, n: nat)
    requires Known(symbols, ls) && Numbers(symbols) && |ls| < n && TakeRefs(ss, bad, 1) == Bad
    ensures TakeRefs(ss, RefsBytes(symbols, ls) + bad, n) == Bad
    decreases |ls|
  {
    hide Uvarint, TakeUvarint64;
    if ls == [] {
      Seqs.Nothing(bad);
      FirstRefBad(ss, bad, n);
    } else {
      var i, j, more := symbols[ls[0].name], symbols[ls[0].value], RefsBytes(symbols, ls[1..]);
      Seqs.FourParts(Uvarint(i), Uvarint(j), more, bad);
      Uvarint64Back(i, Uvarint(j) + (more + bad));
      Uvarint64Back(j, more + bad);
      BadLabelRefused(symbols, ss, ls[1..], bad, n - 1);
    }
  }

  lemma FirstRefBad(ss: seq<string>, bad: Bytes, n: nat)
    requires n > 0 && TakeRefs(ss, bad, 1) == Bad
    ensures TakeRefs(ss, bad, n) == Bad
  {
    hide TakeUvarint64;
  }
}
