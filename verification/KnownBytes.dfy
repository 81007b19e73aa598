/** Bytes worked out by hand. Round trips hold of any format; these fix which one it is:
    the order of bytes, the tags and the layout that files on disk have. */
module KnownBytes {
  import opened Words
  import opened Bits
  import opened Varints
  import opened ByteBuffers
  import opened Samples
  import opened Labelling
  import opened Tombstones
  import opened Replay
  import opened RecordCodec
  import opened BStreams
  import XorChunks
  import Format = WalFormat
  import Index = IndexFormat
  import Tables = IndexTables

  lemma Small8(x: nat)
    requires x < 256
    ensures BigEndian(x, 8) == [0, 0, 0, 0, 0, 0, 0, x]
  {
    Small4(x);
    Zeros4();
    assert BigEndian(0, 5) == [0, 0, 0, 0] + [0];
    assert BigEndian(0, 6) == BigEndian(0, 5) + [0];
    assert BigEndian(0, 7) == BigEndian(0, 6) + [0];
    assert BigEndian(x, 8) == BigEndian(0, 7) + [x];
  }

  lemma Zeros4()
    ensures BigEndian(0, 3) == [0, 0, 0] && BigEndian(0, 4) == [0, 0, 0, 0]
  {
    assert BigEndian(0, 1) == [] + [0];
    assert BigEndian(0, 2) == [0] + [0];
    assert BigEndian(0, 3) == [0, 0] + [0];
    assert BigEndian(0, 4) == [0, 0, 0] + [0];
  }

  lemma Small4(x: nat)
    requires x < 256
    ensures BigEndian(x, 4) == [0, 0, 0, x]
  {
    Zeros4();
    assert x / 256 == 0 && x % 256 == x;
    assert BigEndian(x, 4) == BigEndian(0, 3) + [x];
  }

  /** The most significant byte comes first. */
  lemma FourBytes()
    ensures BigEndian(0x0102_0304, 4) == [1, 2, 3, 4]
  {
    assert BigEndian(1, 1) == [] + [1];
    assert BigEndian(0x0102, 2) == [1] + [2];
    assert BigEndian(0x01_0203, 3) == [1, 2] + [3];
    assert BigEndian(0x0102_0304, 4) == [1, 2, 3] + [4];
  }

  /** Groups of seven bits, the lowest first, with the top bit set on all but the last;
      signed numbers alternate between even and odd. */
  lemma VarintBytes()
    ensures Uvarint(300) == [0xAC, 0x02]
    ensures ZigZag(ToWord(0)) == 0 && ZigZag(ToWord(-1)) == 1 && ZigZag(ToWord(1)) == 2 && ZigZag(ToWord(-2)) == 3
  {
    SmallZigZag();
    hide OrB, ZigZag;
    ContinuedByte(300);
    assert 300 % 256 == 44 && 300 / 128 == 2 && Uvarint(2) == [2];
    assert Uvarint(300) == [OrB(44, 0x80)] + Uvarint(2);
  }

  lemma SmallZigZag()
    ensures ZigZag(ToWord(0)) == 0 && ZigZag(ToWord(-1)) == 1 && ZigZag(ToWord(1)) == 2 && ZigZag(ToWord(-2)) == 3
    ensures ZigZag(0) == 0 && ToWord(0) == 0
  {
    PowValues();
    assert Pow2(1) == 2;
  }

  lemma OneLabel()
    ensures Storable([Label("a", "b")]) && LabelsBytes([Label("a", "b")]) == [1, 97, 1, 98]
  {
    var ls := [Label("a", "b")];
    assert ls[1..] == [];
    assert StringBytes("a") == [1] + [97] && StringBytes("b") == [1] + [98];
    assert LabelsBytes(ls) == [1, 97] + [1, 98] + [];
  }

  /** A series record: the tag, the reference in eight bytes, the number of labels, and each
      name and value behind its length. */
  lemma SeriesRecordBytes()
    ensures var r := SeriesRecord([RefSeries(1, [Label("a", "b")])]);
            Encodable(r) && Encode(r) == [1, 0, 0, 0, 0, 0, 0, 0, 1, 1, 1, 97, 1, 98]
  {
    OneLabel();
    Small8(1);
    var s := RefSeries(1, [Label("a", "b")]);
    hide BigEndian, LabelsBytes, Storable;
    assert Uvarint(1) == [1];
    assert SeriesBytes(s) == [0, 0, 0, 0, 0, 0, 0, 1] + [1] + [1, 97, 1, 98];
    assert [s][1..] == [];
    assert AllSeriesBytes([s]) == SeriesBytes(s) + [];
  }

  /** A sample record: reference and time of the first sample in eight bytes each, and then
      for each sample the differences to these, and the value in eight bytes. */
  lemma SamplesRecordBytes()
    ensures var r := SamplesRecord([RefSample(7, Sample(9, 3))]);
            Encodable(r) && Encode(r) == [2] + ([0, 0, 0, 0, 0, 0, 0, 7] + [0, 0, 0, 0, 0, 0, 0, 9]
                                                + [0, 0, 0, 0, 0, 0, 0, 0, 0, 3])
  {
    OneSampleBytes();
    Small8(7);
    Small8(9);
    var x := RefSample(7, Sample(9, 3));
    assert ToWord(9) == 9;
    hide BigEndian, ToWord, AllSampleBytes;
  }

  lemma OneSampleBytes()
    ensures var x := RefSample(7, Sample(9, 3));
            AllSampleBytes(x, [x]) == [0, 0, 0, 0, 0, 0, 0, 0, 0, 3]
  {
    Small8(3);
    SmallZigZag();
    var x := RefSample(7, Sample(9, 3));
    assert ToWord(9) == 9 && Sub(7, 7) == 0 && Sub(9, 9) == 0 && Uvarint(0) == [0];
    hide BigEndian, ZigZag, ToWord, Uvarint, Sub;
    assert SampleBytes(x, x) == [0] + [0] + [0, 0, 0, 0, 0, 0, 0, 3];
    assert [x][1..] == [];
    assert AllSampleBytes(x, [x]) == SampleBytes(x, x) + [];
  }

  /** A record of deleted ranges: reference, first and last time. */
  lemma StonesRecordBytes()
    ensures var r := StonesRecord([Stone(5, Interval(-1, 1))]);
            Encodable(r) && Encode(r) == [3, 0, 0, 0, 0, 0, 0, 0, 5, 1, 2]
  {
    Small8(5);
    SmallZigZag();
    var st := Stone(5, Interval(-1, 1));
    assert Uvarint(1) == [1] && Uvarint(2) == [2];
    hide BigEndian, ZigZag, ToWord, Uvarint;
    assert StoneBytes(st) == [0, 0, 0, 0, 0, 0, 0, 5] + [1] + [2];
    assert [st][1..] == [];
    assert AllStoneBytes([st]) == StoneBytes(st) + [];
  }

  /** The number of samples of a chunk stands in its first two bytes. */
  lemma ChunkHeader()
    ensures XorChunks.Header([1, 2, 0]) == 258
  {
  }

  /** Fragments of the log: type, length in two bytes, checksum in four, and the data. */
  lemma FragmentBytes(crc: Format.Checksum)
    requires crc([5]) == 0x0102_0304
    ensures Format.Fragment(crc, Format.FragmentType(true, true), [5]) == [1, 0, 1, 1, 2, 3, 4, 5]
    ensures Format.Fragment(crc, Format.FragmentType(true, false), [5]) == [2, 0, 1, 1, 2, 3, 4, 5]
    ensures Format.Fragment(crc, Format.FragmentType(false, false), [5]) == [3, 0, 1, 1, 2, 3, 4, 5]
    ensures Format.Fragment(crc, Format.FragmentType(false, true), [5]) == [4, 0, 1, 1, 2, 3, 4, 5]
  {
    assert Format.BE16(1) == [0, 1] && Format.BE32(0x0102_0304) == [1, 2, 3, 4];
  }

  /** The symbol table of an index file: the number of strings, and the strings. */
  lemma SymbolsBytes()
    ensures Index.Strings(["a"]) && Index.SymbolsContent(["a"]) == [0, 0, 0, 1, 1, 97]
  {
    Small4(1);
    assert ["a"][1..] == [];
    assert StringBytes("a") == [1] + [97];
    assert Index.StringsBytes(["a"]) == [1, 97] + [];
  }

  /** A series in an index file: the number of labels, their symbols, the number of chunks;
      of the first chunk its first time, its length and its reference, and of each further
      one the gap, its length, and the difference of references. */
  lemma SeriesEntryBytes()
    ensures var symbols := map["a" := 0, "b" := 1];
            var ls, cs := [Label("a", "b")], [Index.ChunkMeta(3, 1, 5), Index.ChunkMeta(2, 6, 9)];
            && Index.Known(symbols, ls) && Index.Refs(cs)
            && Index.SeriesContent(symbols, ls, cs) == [1, 0, 1, 2, 2, 4, 3, 1, 3, 1]
  {
    var symbols := map["a" := 0, "b" := 1];
    var ls, c, d := [Label("a", "b")], Index.ChunkMeta(3, 1, 5), Index.ChunkMeta(2, 6, 9);
    var cs := [c, d];
    SmallZigZag();
    assert ToWord(1) == 1 && ToWord(5) == 5 && ToWord(6) == 6 && ToWord(9) == 9;
    assert Sub(5, 1) == 4 && Sub(6, 5) == 1 && Sub(9, 6) == 3 && Sub(2, 3) == ToWord(-1);
    assert Uvarint(0) == [0] && Uvarint(1) == [1] && Uvarint(2) == [2] && Uvarint(3) == [3] && Uvarint(4) == [4];
    hide ZigZag, ToWord, Uvarint, Sub;
    assert ls[1..] == [] && cs[1..] == [d] && [d][1..] == [];
    assert Index.RefsBytes(symbols, ls) == [0] + [1] + [];
    assert Index.ChunkBytes(c, d) == [1] + [3] + [1];
    assert Index.MoreChunkBytes(d, []) == [];
    assert Index.MoreChunkBytes(c, [d]) == [1, 3, 1] + [];
    assert Index.ChunksBytes(cs) == [2] + [4] + [3] + [1, 3, 1];
  }

  /** Lists of series and of values, and tables of offsets. */
  lemma ListBytes()
    ensures Tables.PostingsContent([1, 2]) == [0, 0, 0, 2, 0, 0, 0, 1, 0, 0, 0, 2]
    ensures Tables.Listed(map["a" := 7], ["a"])
    ensures Tables.ValuesContent(map["a" := 7], ["a"]) == [0, 0, 0, 1, 0, 0, 0, 1, 0, 0, 0, 7]
  {
    Small4(1);
    Small4(2);
    Small4(7);
    hide BigEndian;
    assert [1, 2][1..] == [2] && [2][1..] == [] && [7][1..] == [];
    assert Tables.NumbersBytes([2]) == [0, 0, 0, 2] + [];
    assert Tables.NumbersBytes([1, 2]) == [0, 0, 0, 1] + [0, 0, 0, 2];
    assert Tables.NumbersBytes([7]) == [0, 0, 0, 7] + [];
    assert Tables.Codes(map["a" := 7], ["a"]) == [7];
  }

  lemma TableBytes()
    ensures var e := Tables.Entry(["a"], 9);
            Tables.AllStoring([e]) && Tables.TableContent([e]) == [0, 0, 0, 1, 1, 1, 97, 9]
  {
    var e := Tables.Entry(["a"], 9);
    Small4(1);
    SymbolsBytes();
    hide BigEndian;
    assert ["a"][1..] == [] && [e][1..] == [];
    assert StringBytes("a") == [1] + [97];
    assert Index.StringsBytes(["a"]) == [1, 97] + [];
    assert Uvarint(1) == [1] && Uvarint(9) == [9];
    assert Tables.EntryBytes(e) == [1] + [1, 97] + [9];
    assert Tables.EntriesBytes([e]) == Tables.EntryBytes(e) + [];
  }

  lemma {:induction false} WordsAt(ws: seq<Word>, i: nat)
    requires i < |ws|
    ensures Tables.WordsBytes(ws)[8 * i..8 * i + 8] == BigEndian(ws[i], 8)
  {
    hide BigEndian;
    if i > 0 {
      WordsAt(ws[1..], i - 1);
      var more := Tables.WordsBytes(ws[1..]);
      assert (BigEndian(ws[0], 8) + more)[8 * i..8 * i + 8] == more[8 * (i - 1)..8 * (i - 1) + 8];
    }
  }

  /** The table of contents: six positions in this order, and their checksum. */
  lemma ContentsBytes(crc: Index.Checksum, t: Tables.TOC)
    ensures var b := Tables.TOCBytes(crc, t);
            && b[0..8] == BigEndian(t.symbols, 8) && b[8..16] == BigEndian(t.series, 8)
            && b[16..24] == BigEndian(t.labelIndices, 8) && b[24..32] == BigEndian(t.labelIndicesTable, 8)
            && b[32..40] == BigEndian(t.postings, 8) && b[40..48] == BigEndian(t.postingsTable, 8)
            && b[48..] == BigEndian(crc(b[..48]), 4)
  {
    hide BigEndian, Tables.WordsBytes;
    var ws := Tables.TOCParts(t);
    var w := Tables.WordsBytes(ws);
    forall i | 0 <= i < 6 ensures w[8 * i..8 * i + 8] == BigEndian(ws[i], 8) {
      WordsAt(ws, i);
    }
    var b := Tables.TOCBytes(crc, t);
    assert |w| == 48 && b[..48] == w && b[48..] == BigEndian(crc(w), 4);
    Slices(w, b);
    assert w[8 * 0..8 * 0 + 8] == BigEndian(ws[0], 8) && w[8 * 1..8 * 1 + 8] == BigEndian(ws[1], 8);
    assert w[8 * 2..8 * 2 + 8] == BigEndian(ws[2], 8) && w[8 * 3..8 * 3 + 8] == BigEndian(ws[3], 8);
    assert w[8 * 4..8 * 4 + 8] == BigEndian(ws[4], 8) && w[8 * 5..8 * 5 + 8] == BigEndian(ws[5], 8);
  }

  lemma Slices(w: Bytes, b: Bytes)
    requires |w| == 48 <= |b| && b[..48] == w
    ensures b[0..8] == w[0..8] && b[8..16] == w[8..16] && b[16..24] == w[16..24]
    ensures b[24..32] == w[24..32] && b[32..40] == w[32..40] && b[40..48] == w[40..48]
  {
  }
}
