/** The format of an index file (index/index.go): framed sections, the symbol table,
    series with delta-coded chunks, lists of numbers and tables of offsets. */
module IndexFormat {
  import opened Options
  import opened Words
  import opened Varints
  import opened ByteBuffers
  import opened Samples
  import opened Labelling
  import opened RecordCodec
  import Seqs

  type U32 = x: int | 0 <= x < 0x1_0000_0000

  /** Any function of the bytes. */
  type Checksum = Bytes -> U32

  /** The bytes x are found at an offset. */
  ghost predicate Placed(b: Bytes, off: nat, x: Bytes) {
    off + |x| <= |b| && b[off..off + |x|] == x
  }

  lemma PlacedMore(b: Bytes, off: nat, x: Bytes, more: Bytes)
    requires Placed(b, off, x)
    ensures Placed(b + more, off, x)
  {
  }

  lemma PlacedLast(b: Bytes, x: Bytes)
    ensures Placed(b + x, |b|, x)
  {
  }

  /** A part of placed bytes is placed. */
  lemma PlacedPart(b: Bytes, off: nat, x: Bytes, y: Bytes, z: Bytes)
    requires Placed(b, off, x + y + z)
    ensures Placed(b, off, x) && Placed(b, off + |x|, y) && Placed(b, off + |x| + |y|, z)
  {
    var w := x + y + z;
    SlicePart(b, off, w, 0, |x|);
    SlicePart(b, off, w, |x|, |x| + |y|);
    SlicePart(b, off, w, |x| + |y|, |w|);
    ThreeParts(x, y, z);
  }

  lemma ThreeParts(x: Bytes, y: Bytes, z: Bytes)
    ensures var w := x + y + z; w[0..|x|] == x && w[|x|..|x| + |y|] == y && w[|x| + |y|..|w|] == z
  {
  }

  lemma SlicePart(b: Bytes, off: nat, w: Bytes, i: nat, j: nat)
    requires Placed(b, off, w) && i <= j <= |w|
    ensures b[off + i..off + j] == w[i..j]
  {
    Seqs.Slice(b, off, off + |w|, i, j);
  }

  /* Frames: length, contents, checksum */

  function Frame(crc: Checksum, c: Bytes): Bytes {
    BigEndian(|c|, 4) + c + BigEndian(crc(c), 4)
  }

  /** decbufAt. */
  function FrameAt(crc: Checksum, b: Bytes, off: nat): Option<Bytes> {
    if |b| < off + 4 then None else
    var l := FromBigEndian(b[off..off + 4]);
    if |b| < off + 4 + l + 4 then None else
    var c := b[off + 4..off + 4 + l];
    if crc(c) != FromBigEndian(b[off + 4 + l..off + 4 + l + 4]) then None else Some(c)
  }

  /** Contents read back exactly if their length fits into 32 bits. */
  lemma FrameBack(crc: Checksum, b: Bytes, off: nat, c: Bytes)
    requires Placed(b, off, Frame(crc, c))
    ensures FrameAt(crc, b, off) == Some(c) <==> |c| < LIMIT32
  {
    hide BigEndian, FromBigEndian;
    PlacedPart(b, off, BigEndian(|c|, 4), c, BigEndian(crc(c), 4));
    BE32Back(|c|, []);
    BE32Back(crc(c), []);
  }

  function VarFrame(crc: Checksum, c: Bytes): Bytes {
    Uvarint(|c|) + c + BigEndian(crc(c), 4)
  }

  /** decbufUvarintAt: the length is at most five bytes long. */
  function VarFrameAt(crc: Checksum, b: Bytes, off: nat): Option<Bytes> {
    if |b| < off + 5 then None else
    match TakeUvarint64(b[off..off + 5])
    case Bad => None
    case Got(l, rest) =>
      var n := 5 - |rest|;
      if |b| < off + n + l + 4 then None else
      var c := b[off + n..off + n + l];
      if crc(c) != FromBigEndian(b[off + n + l..off + n + l + 4]) then None else Some(c)
  }

  lemma {:induction false} UvarintLength(x: nat, k: nat)
    requires 0 < k
    ensures x < Pow2(7 * k) ==> 0 < |Uvarint(x)| <= k
    ensures x >= Pow2(7 * k) ==> |Uvarint(x)| > k && forall i :: 0 <= i < k ==> Uvarint(x)[i] >= 128
  {
    Power7();
    PowAdd(7, 7 * (k - 1));
    ContinuedLength(x);
    if x >= 128 && k > 1 {
      hide Uvarint;
      UvarintLength(x / 128, k - 1);
    } else if k == 1 {
      assert Pow2(0) == 1;
    }
  }

  lemma ContinuedLength(x: nat)
    ensures x < 128 ==> |Uvarint(x)| == 1
    ensures x >= 128 ==> |Uvarint(x / 128)| > 0 && Uvarint(x)[0] >= 128 && Uvarint(x)[1..] == Uvarint(x / 128)
  {
    ContinuedByte(x);
  }

  /** A number without a last byte. */
  lemma {:induction false} Unended(b: Bytes, x: Word, i: nat)
    requires forall j :: 0 <= j < |b| ==> b[j] >= 128
    ensures GetUvarint(b, x, i) == Bad
    decreases |b|
  {
    hide Gather;
    if b != [] {
      Unended(b[1..], Gather(x, b[0] % 128, i), i + 1);
    }
  }

  lemma Power7()
    ensures Pow2(7) == 128
  {
  }

  /** Contents read back exactly if their length fits into five bytes of seven bits. */
  lemma VarFrameBack(crc: Checksum, b: Bytes, off: nat, c: Bytes)
    requires Placed(b, off, VarFrame(crc, c)) && off + 5 <= |b|
    ensures VarFrameAt(crc, b, off) == if |c| < 8 * LIMIT32 then Some(c) else None
  {
    hide BigEndian, FromBigEndian, Uvarint, GetUvarint, Pow2;
    var u := Uvarint(|c|);
    PlacedPart(b, off, u, c, BigEndian(crc(c), 4));
    Power32();
    UvarintLength(|c|, 5);
    if |c| < 8 * LIMIT32 {
      BE32Back(crc(c), []);
      Seqs.Nothing(BigEndian(crc(c), 4));
      var rest := b[off + |u|..off + 5];
      Seqs.Join(b, off, off + |u|, off + 5);
      Uvarint64Back(|c|, rest);
    } else {
      Seqs.Slice(b, off, off + |u|, 0, 5);
      var w := b[off..off + 5];
      assert w == u[0..5];
      forall j | 0 <= j < 5 ensures w[j] >= 128 {
        assert w[j] == u[j];
      }
      Unended(w, 0, 0);
    }
  }

  /* The symbol table */

  predicate Strings(ss: seq<string>) {
    forall i :: 0 <= i < |ss| ==> IsBytes(ss[i]) && |ss[i]| < MODULUS
  }

  function StringsBytes(ss: seq<string>): (b: Bytes)
    requires Strings(ss)
    ensures |b| >= |ss|
  {
    if ss == [] then [] else
      Uvarint64Back(|ss[0]|, []); StringBytes(ss[0]) + StringsBytes(ss[1..])
  }

  /** Reads strings until there are n of them, or nothing is left. */
  function TakeStrings(b: Bytes, n: nat): (p: Parsed<seq<string>>)
    ensures p.Got? ==> |p.rest| <= |b|
    decreases n
  {
    if n == 0 || b == [] then Got([], b) else
    match TakeString(b)
    case Bad => Bad
    case Got(s, b1) => match TakeStrings(b1, n - 1) case Bad => Bad case Got(ss, rest) => Got([s] + ss, rest)
  }

  lemma {:induction false} StringsBack(ss: seq<string>, rest: Bytes)
    requires Strings(ss)
    ensures TakeStrings(StringsBytes(ss) + rest, |ss|) == Got(ss, rest)
  {
    hide StringBytes, TakeString, IsBytes;
    if ss == [] {
      Seqs.Nothing(rest);
    } else {
      Seqs.Associate(StringBytes(ss[0]), StringsBytes(ss[1..]), rest);
      StringBack(ss[0], StringsBytes(ss[1..]) + rest);
      NotEmpty(ss[0], StringsBytes(ss[1..]) + rest);
      StringsBack(ss[1..], rest);
      Seqs.Uncons(ss);
    }
  }

  lemma NotEmpty(s: string, rest: Bytes)
    requires IsBytes(s) && |s| < MODULUS
    ensures StringBytes(s) + rest != []
  {
    Uvarint64Back(|s|, []);
  }

  function SymbolsContent(ss: seq<string>): Bytes
    requires Strings(ss)
  {
    BigEndian(|ss|, 4) + StringsBytes(ss)
  }

  /** readSymbols, for version 2: the i-th string has number i. */
  function ReadSymbols(c: Bytes): Option<seq<string>> {
    match GetBE32(c)
    case Bad => None
    case Got(n, b) => match TakeStrings(b, n) case Bad => None case Got(ss, _) => Some(ss)
  }

  lemma SymbolsBack(ss: seq<string>)
    requires Strings(ss) && |ss| < LIMIT32
    ensures ReadSymbols(SymbolsContent(ss)) == Some(ss)
  {
    hide StringsBytes, TakeStrings, BigEndian, GetBE32;
    BE32Back(|ss|, StringsBytes(ss));
    StringsBack(ss, []);
    Seqs.Nothing(StringsBytes(ss));
  }

  /* Series entries */

  datatype ChunkMeta = ChunkMeta(ref: nat, mint: int64, maxt: int64)

  predicate Known(symbols: map<string, nat>, ls: Labels) {
    forall i :: 0 <= i < |ls| ==> ls[i].name in symbols && ls[i].value in symbols
  }

  function RefsBytes(symbols: map<string, nat>, ls: Labels): Bytes
    requires Known(symbols, ls)
  {
    if ls == [] then [] else Uvarint(symbols[ls[0].name]) + Uvarint(symbols[ls[0].value]) + RefsBytes(symbols, ls[1..])
  }

  /** The times and the reference of a chunk, relative to the one before. */
  function ChunkBytes(prev: ChunkMeta, c: ChunkMeta): Bytes
    requires c.ref < MODULUS && prev.ref < MODULUS
  {
    Uvarint(Sub(ToWord(c.mint), ToWord(prev.maxt))) + Uvarint(Sub(ToWord(c.maxt), ToWord(c.mint)))
    + Uvarint(ZigZag(Sub(c.ref, prev.ref)))
  }

  predicate Refs(cs: seq<ChunkMeta>) {
    |cs| < SIGN && forall i :: 0 <= i < |cs| ==> cs[i].ref < MODULUS
  }

  function MoreChunkBytes(prev: ChunkMeta, cs: seq<ChunkMeta>): Bytes
    requires prev.ref < MODULUS && forall i :: 0 <= i < |cs| ==> cs[i].ref < MODULUS
    decreases |cs|
  {
    if cs == [] then [] else ChunkBytes(prev, cs[0]) + MoreChunkBytes(cs[0], cs[1..])
  }

  function ChunksBytes(cs: seq<ChunkMeta>): Bytes
    requires Refs(cs)
  {
    if cs == [] then []
    else
      var c := cs[0];
      Uvarint(ZigZag(ToWord(c.mint))) + Uvarint(Sub(ToWord(c.maxt), ToWord(c.mint))) + Uvarint(c.ref)
      + MoreChunkBytes(c, cs[1..])
  }

  function SeriesContent(symbols: map<string, nat>, ls: Labels, cs: seq<ChunkMeta>): Bytes
    requires Known(symbols, ls) && Refs(cs) && |ls| < SIGN
  {
    Uvarint(|ls|) + RefsBytes(symbols, ls) + Uvarint(|cs|) + ChunksBytes(cs)
  }

  /** Looks up n pairs of symbols. */
  function TakeRefs(symbols: seq<string>, b: Bytes, n: nat): (p: Parsed<Labels>)
    decreases n
  {
    if n == 0 then Got([], b) else
    match TakeUvarint64(b)
    case Bad => Bad
    case Got(i, b1) =>
      match TakeUvarint64(b1)
      case Bad => Bad
      case Got(j, b2) =>
        // Symbol numbers have 32 bits.
        if i % LIMIT32 >= |symbols| || j % LIMIT32 >= |symbols| then Bad else
        match TakeRefs(symbols, b2, n - 1)
        case Bad => Bad
        case Got(ls, rest) => Got([Label(symbols[i % LIMIT32], symbols[j % LIMIT32])] + ls, rest)
  }

  function TakeChunk(prev: ChunkMeta, b: Bytes): (p: Parsed<ChunkMeta>)
    requires prev.ref < MODULUS
    ensures p.Got? ==> p.value.ref < MODULUS
  {
    match TakeUvarint64(b)
    case Bad => Bad
    case Got(gap, b1) =>
      match TakeUvarint64(b1)
      case Bad => Bad
      case Got(span, b2) =>
        match TakeVarint64(b2)
        case Bad => Bad
        case Got(dref, rest) =>
          var mint := Words.Add(gap, ToWord(prev.maxt));
          Got(ChunkMeta(Words.Add(prev.ref, dref), FromWord(mint), FromWord(Words.Add(span, mint))), rest)
  }

  function TakeMoreChunks(prev: ChunkMeta, b: Bytes, n: nat): Parsed<seq<ChunkMeta>>
    requires prev.ref < MODULUS
    decreases n
  {
    if n == 0 then Got([], b) else
    match TakeChunk(prev, b)
    case Bad => Bad
    case Got(c, b1) => match TakeMoreChunks(c, b1, n - 1) case Bad => Bad case Got(cs, rest) => Got([c] + cs, rest)
  }

  function TakeChunks(b: Bytes, n: nat): Parsed<seq<ChunkMeta>> {
    if n == 0 then Got([], b) else
    match TakeVarint64(b)
    case Bad => Bad
    case Got(mint, b1) =>
      match TakeUvarint64(b1)
      case Bad => Bad
      case Got(span, b2) =>
        match TakeUvarint64(b2)
        case Bad => Bad
        case Got(ref, b3) =>
          var c := ChunkMeta(ref, FromWord(mint), FromWord(Words.Add(span, mint)));
          match TakeMoreChunks(c, b3, n - 1) case Bad => Bad case Got(cs, rest) => Got([c] + cs, rest)
  }

  /** A count as an int, which is negative from 2^63 on. */
  function AsInt(n: Word): int { if n < SIGN then n else n - MODULUS }

  /** How often a loop runs over labels; and over chunks, of which the first is read
      before the loop. */
  function LabelCount(n: Word): nat { if AsInt(n) < 0 then 0 else n }

  function ChunkCount(n: Word): nat { if AsInt(n) < 0 then 1 else n }

  /** Decoder.Series. A count that cannot be read counts as zero. */
  function ReadSeries(symbols: seq<string>, c: Bytes): Option<(Labels, seq<ChunkMeta>)> {
    match TakeUvarint64(c)
    case Bad => Some(([], []))
    case Got(n, b) =>
      match TakeRefs(symbols, b, LabelCount(n))
      case Bad => None
      case Got(ls, b1) =>
        match TakeUvarint64(b1)
        case Bad => Some((ls, []))
        case Got(k, b2) => match TakeChunks(b2, ChunkCount(k)) case Bad => None case Got(cs, _) => Some((ls, cs))
  }

  predicate Stands(symbols: map<string, nat>, ss: seq<string>, s: string)
    requires s in symbols
  {
    symbols[s] < |ss| && ss[symbols[s]] == s
  }

  /** In a table, the labels' symbols stand where their numbers say. */
  predicate Resolves(symbols: map<string, nat>, ss: seq<string>, ls: Labels)
    requires Known(symbols, ls)
  {
    forall i :: 0 <= i < |ls| ==> Stands(symbols, ss, ls[i].name) && Stands(symbols, ss, ls[i].value)
  }

  /** Symbol numbers are 32-bit words. */
  predicate Numbers(symbols: map<string, nat>) {
    forall s :: s in symbols ==> symbols[s] < LIMIT32
  }

  lemma {:induction false} RefsBack(symbols: map<string, nat>, ss: seq<string>, ls: Labels, rest: Bytes)
    requires Known(symbols, ls) && Numbers(symbols)
    ensures var p := TakeRefs(ss, RefsBytes(symbols, ls) + rest, |ls|);
            (p.Got? ==> p.rest == rest) && (p.Got? && p.value == ls <==> Resolves(symbols, ss, ls))
  {
    hide Uvarint, TakeUvarint64;
    if ls == [] {
      Seqs.Nothing(rest);
    } else {
      var i, j, more := symbols[ls[0].name], symbols[ls[0].value], RefsBytes(symbols, ls[1..]);
      Seqs.FourParts(Uvarint(i), Uvarint(j), more, rest);
      Uvarint64Back(i, Uvarint(j) + (more + rest));
      Uvarint64Back(j, more + rest);
      RefsBack(symbols, ss, ls[1..], rest);
      Seqs.Uncons(ls);
      ResolvesMore(symbols, ss, ls);
      if i < |ss| && j < |ss| {
        var l, p := Label(ss[i], ss[j]), TakeRefs(ss, more + rest, |ls| - 1);
        if p.Got? {
          Seqs.Cons(l, p.value);
        }
      }
    }
  }

  lemma ResolvesMore(symbols: map<string, nat>, ss: seq<string>, ls: Labels)
    requires Known(symbols, ls) && ls != []
    ensures Resolves(symbols, ss, ls) <==> Stands(symbols, ss, ls[0].name) && Stands(symbols, ss, ls[0].value)
                                           && Resolves(symbols, ss, ls[1..])
  {
    var t := ls[1..];
    assert forall i :: 0 < i < |ls| ==> ls[i] == t[i - 1];
  }

  lemma ChunkBack(prev: ChunkMeta, c: ChunkMeta, rest: Bytes)
    requires c.ref < MODULUS && prev.ref < MODULUS
    ensures TakeChunk(prev, ChunkBytes(prev, c) + rest) == Got(c, rest)
  {
    hide Uvarint, TakeUvarint64, TakeVarint64, ZigZag, ToWord, FromWord, Words.Add, Sub;
    var gap, span := Sub(ToWord(c.mint), ToWord(prev.maxt)), Sub(ToWord(c.maxt), ToWord(c.mint));
    var dref := Sub(c.ref, prev.ref);
    Seqs.FourParts(Uvarint(gap), Uvarint(span), Uvarint(ZigZag(dref)), rest);
    Uvarint64Back(gap, Uvarint(span) + (Uvarint(ZigZag(dref)) + rest));
    Uvarint64Back(span, Uvarint(ZigZag(dref)) + rest);
    Varint64Back(dref, rest);
    AddSubBack(ToWord(c.mint), ToWord(prev.maxt));
    AddSubBack(ToWord(c.maxt), ToWord(c.mint));
    SubBack(c.ref, prev.ref);
    WordBack(c.mint);
    WordBack(c.maxt);
  }

  lemma AddSubBack(a: Word, b: Word)
    ensures Words.Add(Sub(a, b), b) == a
  {
  }

  lemma {:induction false} MoreChunksBack(prev: ChunkMeta, cs: seq<ChunkMeta>, rest: Bytes)
    requires prev.ref < MODULUS && forall i :: 0 <= i < |cs| ==> cs[i].ref < MODULUS
    ensures TakeMoreChunks(prev, MoreChunkBytes(prev, cs) + rest, |cs|) == Got(cs, rest)
    decreases |cs|
  {
    hide ChunkBytes, TakeChunk;
    if cs == [] {
      Seqs.Nothing(rest);
    } else {
      var more := MoreChunkBytes(cs[0], cs[1..]);
      Seqs.Associate(ChunkBytes(prev, cs[0]), more, rest);
      ChunkBack(prev, cs[0], more + rest);
      MoreChunksBack(cs[0], cs[1..], rest);
      Seqs.Uncons(cs);
    }
  }

  lemma ChunksBack(cs: seq<ChunkMeta>, rest: Bytes)
    requires Refs(cs)
    ensures TakeChunks(ChunksBytes(cs) + rest, |cs|) == Got(cs, rest)
  {
    hide Uvarint, TakeUvarint64, TakeVarint64, ZigZag, ToWord, FromWord, Words.Add, Sub, MoreChunkBytes, TakeMoreChunks;
    if cs == [] {
      Seqs.Nothing(rest);
    } else {
      var c, more := cs[0], MoreChunkBytes(cs[0], cs[1..]);
      var x, y, z := Uvarint(ZigZag(ToWord(c.mint))), Uvarint(Sub(ToWord(c.maxt), ToWord(c.mint))), Uvarint(c.ref);
      Seqs.Associate(x + y + z, more, rest);
      Seqs.FourParts(x, y, z, more + rest);
      Varint64Back(ToWord(c.mint), y + (z + (more + rest)));
      Uvarint64Back(Sub(ToWord(c.maxt), ToWord(c.mint)), z + (more + rest));
      Uvarint64Back(c.ref, more + rest);
      AddSubBack(ToWord(c.maxt), ToWord(c.mint));
      WordBack(c.mint);
      WordBack(c.maxt);
      MoreChunksBack(c, cs[1..], rest);
      Seqs.Uncons(cs);
    }
  }

  /** A series reads back, through a table of symbols and with the same chunks,
      exactly if its symbols stand in the table where their numbers say. */
  lemma SeriesEntryBack(symbols: map<string, nat>, ss: seq<string>, ls: Labels, cs: seq<ChunkMeta>)
    requires Known(symbols, ls) && Refs(cs) && |ls| < SIGN && Numbers(symbols)
    ensures ReadSeries(ss, SeriesContent(symbols, ls, cs)) == Some((ls, cs)) <==> Resolves(symbols, ss, ls)
  {
    hide Uvarint, TakeUvarint64, RefsBytes, TakeRefs, ChunksBytes, TakeChunks, Known, Numbers, Resolves;
    var a, r, k, c := Uvarint(|ls|), RefsBytes(symbols, ls), Uvarint(|cs|), ChunksBytes(cs);
    Seqs.FourParts(a, r, k, c);
    Uvarint64Back(|ls|, r + (k + c));
    RefsBack(symbols, ss, ls, k + c);
    Uvarint64Back(|cs|, c);
    ChunksBack(cs, []);
    Seqs.Nothing(c);
  }
}
