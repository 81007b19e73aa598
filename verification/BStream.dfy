/** The bit stream of chunkenc/bstream.go. One class serves as writer and as
    reader: a writer keeps in `count` how many low bits of its last byte are
    free, a reader how many low bits of its first byte are still unread. */
module BStreams {
  import opened Words
  import opened Bits
  import Seqs

  datatype Read<T> = Ok(value: T) | Eof

  // ---------- the byte operations of the stream, bit by bit ----------

  function OrB(a: Byte, b: Byte): Byte {
    PowValues();
    OrBound(a, b, 8);
    Or(a, b)
  }

  function ShlB(b: Byte, k: nat): Byte {
    PowValues();
    Shl(b, k, 8)
  }

  function ShrB(b: Byte, k: nat): Byte {
    ShrAtMost(b, k);
    Shr(b, k)
  }

  /** The low k bits of a byte are zero. */
  predicate LowClear(b: Byte, k: nat) {
    forall j: nat :: j < k ==> !TestBit(b, j)
  }

  /** `1 << (count-1)` sets the next free bit. */
  lemma SetBit(b: Byte, count: nat)
    requires 1 <= count <= 8 && LowClear(b, count)
    ensures var x := OrB(b, ShlB(1, count - 1));
      ByteBits(x)[..9 - count] == ByteBits(b)[..8 - count] + [true] && LowClear(x, count - 1)
  {
    hide TestBit, Or, Shl;
    var m := ShlB(1, count - 1);
    var x := OrB(b, m);
    forall j: nat | j < 8 ensures TestBit(x, j) == (TestBit(b, j) || j == count - 1) {
      BitOr(b, m, j);
      BitShl(1, count - 1, 8, j);
      BitPow(0, if j >= count - 1 then j - (count - 1) else 0);
    }
  }

  lemma KeepBit(b: Byte, count: nat)
    requires 1 <= count <= 8 && LowClear(b, count)
    ensures ByteBits(b)[..9 - count] == ByteBits(b)[..8 - count] + [false] && LowClear(b, count - 1)
  {
    hide TestBit;
  }

  /** A byte written over two: its first bits fill up the last byte. */
  lemma SplitByte(b: Byte, byt: Byte, count: nat)
    requires 1 <= count <= 8 && LowClear(b, count)
    ensures var x, y := OrB(b, ShrB(byt, 8 - count)), ShlB(byt, count);
      && ByteBits(x) == ByteBits(b)[..8 - count] + ByteBits(byt)[..count]
      && ByteBits(y)[..8 - count] == ByteBits(byt)[count..]
      && LowClear(y, count)
  {
    hide TestBit, Or, Shl, Shr;
    var m, y := ShrB(byt, 8 - count), ShlB(byt, count);
    forall j: nat | j < 8
      ensures TestBit(OrB(b, m), j) == (TestBit(b, j) || TestBit(byt, j + 8 - count))
      ensures TestBit(y, j) == (j >= count && TestBit(byt, j - count))
    {
      BitOr(b, m, j);
      BitShr(byt, 8 - count, j);
      BitShl(byt, count, 8, j);
    }
    ByteAbove(byt);
  }

  lemma ByteAbove(b: Byte)
    ensures forall j: nat :: j >= 8 ==> !TestBit(b, j)
  {
    hide TestBit;
    PowValues();
    forall j: nat | j >= 8 ensures !TestBit(b, j) { BitSmall(b, 8, j); }
  }

  /** A byte read over two: the rest of the first and the start of the second. */
  lemma SpliceByte(b: Byte, c: Byte, count: nat)
    requires 1 <= count <= 7
    ensures ByteBits(OrB(ShlB(b, 8 - count), ShrB(c, count)))
         == ByteBits(b)[8 - count..] + ByteBits(c)[..8 - count]
  {
    hide TestBit, Or, Shl, Shr;
    var m, n := ShlB(b, 8 - count), ShrB(c, count);
    var x := OrB(m, n);
    forall j: nat | j < 8
      ensures TestBit(x, j) == ((j >= 8 - count && TestBit(b, j - (8 - count))) || TestBit(c, j + count))
    {
      BitOr(m, n, j);
      BitShl(b, 8 - count, 8, j);
      BitShr(c, count, j);
    }
    ByteAbove(c);
    var l, r1, r2 := ByteBits(x), ByteBits(b)[8 - count..], ByteBits(c)[..8 - count];
    forall i | 0 <= i < count ensures l[i] == r1[i] {
      assert !TestBit(c, 7 - i + count);
    }
    forall i | 0 <= i < 8 - count ensures l[count + i] == r2[i] {
      assert TestBit(x, 7 - count - i) == TestBit(c, 7 - i);
    }
  }

  /** Taking n of the count low bits of a byte. */
  lemma ExtractByte(b: Byte, count: nat, n: nat)
    requires n <= count <= 8
    ensures ShrB(ShlB(b, 8 - count), 8 - n) == FromBits(ByteBits(b)[8 - count..8 - count + n])
  {
    hide TestBit, Shl, ShrB, ShlB, FromBits, ByteBits;
    var x := ShrB(ShlB(b, 8 - count), 8 - n);
    ExtractBits(b, count, n);
    FromLowBits(x, n);
    ExtractBound(ShlB(b, 8 - count), n);
  }

  lemma ExtractBits(b: Byte, count: nat, n: nat)
    requires n <= count <= 8
    ensures LowBits(ShrB(ShlB(b, 8 - count), 8 - n), n) == ByteBits(b)[8 - count..8 - count + n]
  {
    hide TestBit, ShrB, ShlB;
    var l, w := LowBits(ShrB(ShlB(b, 8 - count), 8 - n), n), ByteBits(b);
    forall i | 0 <= i < n ensures l[i] == w[8 - count + i] {
      ExtractBit(b, count, n, n - 1 - i);
    }
  }

  lemma ExtractBit(b: Byte, count: nat, n: nat, j: nat)
    requires j < n <= count <= 8
    ensures TestBit(ShrB(ShlB(b, 8 - count), 8 - n), j) == TestBit(b, j + count - n)
  {
    hide TestBit, Shr, Shl;
    BitShr(ShlB(b, 8 - count), 8 - n, j);
    BitShl(b, 8 - count, 8, j + 8 - n);
  }

  lemma ExtractBound(y: Byte, n: nat)
    requires n <= 8
    ensures ShrB(y, 8 - n) % Pow2(n) == ShrB(y, 8 - n)
  {
    hide Pow2, Shr;
    PowValues();
    PowAdd(8 - n, n);
    ShrBound(y, 8 - n, Pow2(n));
    ModSmall(ShrB(y, 8 - n), Pow2(n));
  }

  /** Shifting what has been read and or-ing in the next bits. */
  lemma ReadStep(bs: Bits, cs: Bits)
    requires |bs| + |cs| <= 64
    ensures FromBits(bs + cs) < MODULUS
    ensures Or(Shl(FromBits(bs), |cs|, 64), FromBits(cs)) == FromBits(bs + cs)
  {
    hide FromBits, Or, Pow2;
    FromBitsConcat(bs, cs);
    FromBitsBound(cs);
    FromBitsBound(bs + cs);
    PowValues();
    PowAdd(|bs| + |cs|, 64 - |bs| - |cs|);
    AtLeastOne(Pow2(|bs| + |cs|), Pow2(64 - |bs| - |cs|));
    ModSmall(FromBits(bs) * Pow2(|cs|), Pow2(64));
    OrDisjoint(FromBits(bs), FromBits(cs), |cs|);
  }

  lemma AtLeastOne(a: nat, b: nat)
    requires b >= 1
    ensures a <= a * b
  {
  }

  // ---------- the stream ----------

  /** The bits a writer has produced: those of s but for its last count bits. */
  function Produced(s: seq<Byte>, count: nat): (bs: Bits)
    requires count <= 8 && (|s| == 0 ==> count == 0)
    ensures |bs| == 8 * |s| - count
  {
    if |s| == 0 then []
    else StreamBits(s[..|s| - 1]) + ByteBits(s[|s| - 1])[..8 - count]
  }

  lemma ProducedFresh(s: seq<Byte>)
    ensures Produced(s, 0) == StreamBits(s)
    ensures Produced(s + [0], 8) == StreamBits(s)
    ensures LowClear(0, 8)
  {
    hide ByteBits, LowClear, StreamBits;
    ZeroClear();
    assert (s + [0])[..|s|] == s;
    if |s| > 0 {
      StreamBitsSnoc(s[..|s| - 1], s[|s| - 1]);
      assert s == s[..|s| - 1] + [s[|s| - 1]];
    } else {
      assert StreamBits(s) == [];
    }
  }

  lemma ZeroClear()
    ensures LowClear(0, 8)
  {
    hide TestBit;
    forall j: nat | j < 8 ensures !TestBit(0, j) { BitSmall(0, 0, j); }
  }

  lemma BitWritten(s: seq<Byte>, bit: bool, count: nat)
    requires |s| > 0 && 1 <= count <= 8 && LowClear(s[|s| - 1], count)
    ensures var i := |s| - 1;
      var x := if bit then OrB(s[i], ShlB(1, count - 1)) else s[i];
      && LowClear(x, count - 1)
      && Produced(s[i := x], count - 1) == Produced(s, count) + [bit]
  {
    hide ByteBits, StreamBits, OrB, ShlB, LowClear;
    var i := |s| - 1;
    if bit { SetBit(s[i], count); } else { KeepBit(s[i], count); }
  }

  lemma ByteWritten(s: seq<Byte>, byt: Byte, count: nat)
    requires |s| > 0 && 1 <= count <= 8 && LowClear(s[|s| - 1], count)
    ensures var i := |s| - 1;
      var x, y := OrB(s[i], ShrB(byt, 8 - count)), ShlB(byt, count);
      && LowClear(y, count)
      && Produced((s[i := x] + [0])[i + 1 := y], count) == Produced(s, count) + ByteBits(byt)
  {
    hide ByteBits, StreamBits, OrB, ShlB, ShrB, LowClear;
    var i := |s| - 1;
    var b := s[i];
    var x, y := OrB(b, ShrB(byt, 8 - count)), ShlB(byt, count);
    SplitByte(b, byt, count);
    StreamBitsSnoc(s[..i], x);
    var t := (s[i := x] + [0])[i + 1 := y];
    assert t == s[..i] + [x] + [y];
    assert t[..i + 1] == s[..i] + [x];
    assert ByteBits(byt)[..count] + ByteBits(byt)[count..] == ByteBits(byt);
  }

  /** The bits a reader has not consumed yet. */
  function Unread(s: seq<Byte>, count: nat): (bs: Bits)
    requires count <= 8
  {
    if |s| == 0 then [] else ByteBits(s[0])[8 - count..] + StreamBits(s[1..])
  }

  lemma UnreadNext(s: seq<Byte>)
    ensures Unread(s, 8) == StreamBits(s)
    ensures |s| > 0 ==> Unread(s, 0) == StreamBits(s[1..]) == Unread(s[1..], 8)
  {
    hide ByteBits;
  }

  lemma ByteSpliced(s: seq<Byte>, count: nat)
    requires |s| > 0 && 1 <= count <= 7
    ensures |Unread(s, count)| >= 8 <==> |s| > 1
    ensures |s| > 1 ==>
              Unread(s, count) == ByteBits(OrB(ShlB(s[0], 8 - count), ShrB(s[1], count))) + Unread(s[1..], count)
  {
    hide ByteBits, OrB, ShlB, ShrB, StreamBits;
    if |s| > 1 {
      SpliceByte(s[0], s[1], count);
      var c := s[1];
      assert StreamBits(s[1..]) == ByteBits(c) + StreamBits(s[2..]) by {
        StreamBitsConcat([c], s[2..]);
        OneByte(c);
        assert s[1..] == [c] + s[2..];
      }
      assert s[1..][1..] == s[2..];
      Resplit(ByteBits(s[0])[8 - count..], ByteBits(c), 8 - count, StreamBits(s[2..]));
    }
  }

  lemma OneByte(c: Byte)
    ensures StreamBits([c]) == ByteBits(c)
  {
    assert StreamBits([c]) == ByteBits(c) + StreamBits([]);
  }

  lemma Resplit(a: Bits, b: Bits, n: nat, c: Bits)
    requires n <= |b|
    ensures a + (b + c) == (a + b[..n]) + (b[n..] + c)
  {
  }

  /** A whole byte of what is ahead has been taken. */
  lemma ByteRead(all: Bits, k: nat, b: Byte, rest: Bits)
    requires k + 8 <= 64 && k <= |all| && all[k..] == ByteBits(b) + rest
    ensures k + 8 <= |all| && rest == all[k + 8..]
    ensures FromBits(all[..k + 8]) < MODULUS && FromBits(all[..k + 8]) == Or(Shl(FromBits(all[..k]), 8, 64), b)
  {
    hide ByteBits, FromBits, Or, Shl;
    var w, tail := ByteBits(b), all[k..];
    assert tail[..8] == w && tail[8..] == rest;
    assert all[..k] + w == all[..k + 8];
    FromByteBits(b);
    ReadStep(all[..k], w);
  }

  /** Reading n of the count unread bits of the first byte, when k bits of all
      have been read before. */
  lemma PartRead(s: seq<Byte>, count: nat, all: Bits, k: nat, n: nat)
    requires |s| > 0 && n <= count <= 8 && k <= |all| && k + n <= 64
    requires Unread(s, count) == all[k..]
    ensures k + n <= |all| && Unread(s, count - n) == all[k + n..]
    ensures FromBits(all[..k + n]) < MODULUS
    ensures FromBits(all[..k + n])
         == Or(Shl(FromBits(all[..k]), n, 64), ShrB(ShlB(s[0], 8 - count), 8 - n))
  {
    hide ByteBits, StreamBits, FromBits, Or, Shl, ShrB, ShlB;
    ExtractByte(s[0], count, n);
    var w, rest := ByteBits(s[0]), StreamBits(s[1..]);
    var tail := all[k..];
    assert |tail| == count + |rest|;
    assert tail[..n] == w[8 - count..8 - count + n];
    assert tail[n..] == w[8 - (count - n)..] + rest;
    assert all[..k + n] == all[..k] + tail[..n];
    assert all[k + n..] == tail[n..];
    ReadStep(all[..k], tail[..n]);
  }

  lemma NoneRead(all: Bits)
    ensures FromBits(all[..0]) == 0
  {
  }

  lemma FirstBit(b: Byte, count: nat)
    requires 1 <= count <= 8
    ensures ByteBits(b)[8 - count..] == [ShlB(b, 8 - count) >= 128] + ByteBits(b)[9 - count..]
  {
    hide TestBit, Shl;
    var y := ShlB(b, 8 - count);
    BitShl(b, 8 - count, 8, 7);
    HighBit(y, 7);
    PowValues();
    assert ByteBits(b)[8 - count] == TestBit(b, count - 1);
  }

  /** The top bit of a number of k + 1 bits. */
  lemma {:induction false} HighBit(n: nat, k: nat)
    requires n < Pow2(k + 1)
    ensures TestBit(n, k) <==> n >= Pow2(k)
    decreases k
  {
    if k > 0 { HighBit(n / 2, k - 1); }
  }

  class BStream {
    var stream: seq<Byte>
    var count: nat

    constructor (stream: seq<Byte>, count: nat)
      ensures this.stream == stream && this.count == count
    {
      this.stream, this.count := stream, count;
    }

    /** A reader over all of b. */
    constructor Reader(b: seq<Byte>)
      ensures ValidReader() && ToRead() == StreamBits(b)
    {
      stream, count := b, 8;
      new;
      UnreadNext(b);
    }

    // ----- writing -----

    ghost predicate ValidWriter()
      reads this
    {
      && count <= 8
      && (|stream| == 0 ==> count == 0)
      && (|stream| > 0 ==> LowClear(stream[|stream| - 1], count))
    }

    ghost function Written(): Bits
      requires ValidWriter()
      reads this
    {
      Produced(stream, count)
    }

    /** The bytes that no further write changes. */
    ghost function Settled(): seq<Byte>
      reads this
    {
      if count == 0 || |stream| == 0 then stream else stream[..|stream| - 1]
    }

    method WriteBit(bit: bool)
      requires ValidWriter()
      modifies this
      ensures ValidWriter() && Written() == old(Written()) + [bit]
      ensures old(Settled()) <= Settled()
    {
      hide ByteBits, LowClear, StreamBits, Produced, OrB, ShlB;
      if count == 0 {
        ProducedFresh(stream);
        stream := stream + [0];
        count := 8;
      }
      var i := |stream| - 1;
      BitWritten(stream, bit, count);
      assert stream[i := stream[i]] == stream;
      if bit {
        stream := stream[i := OrB(stream[i], ShlB(1, count - 1))];
      }
      count := count - 1;
    }

    method WriteByte(byt: Byte)
      requires ValidWriter()
      modifies this
      ensures ValidWriter() && Written() == old(Written()) + ByteBits(byt)
      ensures old(Settled()) <= Settled()
    {
      hide ByteBits, LowClear, StreamBits, Produced, OrB, ShlB, ShrB;
      if count == 0 {
        ProducedFresh(stream);
        stream := stream + [0];
        count := 8;
      }
      var i := |stream| - 1;
      ByteWritten(stream, byt, count);
      stream := stream[i := OrB(stream[i], ShrB(byt, 8 - count))];
      stream := stream + [0];
      i := i + 1;
      stream := stream[i := ShlB(byt, count)];
    }

    /** Writes the nbits low-order bits of u0, most significant first. */
    method WriteBits(u0: Word, nbits0: nat)
      requires ValidWriter() && nbits0 <= 64
      modifies this
      ensures ValidWriter() && Written() == old(Written()) + LowBits(u0, nbits0)
      ensures old(Settled()) <= Settled()
    {
      hide ValidWriter, Written, Settled, LowBits, TopBits, Shl, Shr;
      TopBitsAligned(u0, nbits0);
      var u: Word, nbits := Shl(u0, 64 - nbits0, 64), nbits0;
      while nbits >= 8
        invariant ValidWriter() && 0 <= nbits <= nbits0
        invariant Written() + TopBits(u, nbits) == old(Written()) + LowBits(u0, nbits0)
        invariant old(Settled()) <= Settled()
      {
        TopBitsSplit(u, nbits, 8);
        PowValues();
        Seqs.Associate(Written(), ByteBits(Shr(u, 56)), TopBits(Shl(u, 8, 64), nbits - 8));
        WriteByte(Shr(u, 56));
        u := Shl(u, 8, 64);
        nbits := nbits - 8;
      }
      while nbits > 0
        invariant ValidWriter() && 0 <= nbits <= nbits0
        invariant Written() + TopBits(u, nbits) == old(Written()) + LowBits(u0, nbits0)
        invariant old(Settled()) <= Settled()
      {
        TopBitsSplit(u, nbits, 1);
        OneBit(Shr(u, 63));
        Seqs.Associate(Written(), [Shr(u, 63) == 1], TopBits(Shl(u, 1, 64), nbits - 1));
        WriteBit(Shr(u, 63) == 1);
        u := Shl(u, 1, 64);
        nbits := nbits - 1;
      }
      assert TopBits(u, 0) == [];
    }

    // ----- reading -----

    ghost predicate ValidReader()
      reads this
    {
      count <= 8
    }

    ghost function ToRead(): Bits
      requires ValidReader()
      reads this
    {
      Unread(stream, count)
    }

    /** The next bit, or end of stream exactly when no bit is left. */
    method ReadBit() returns (r: Read<bool>)
      requires ValidReader()
      modifies this
      ensures ValidReader()
      ensures r.Ok? <==> |old(ToRead())| >= 1
      ensures r.Ok? ==> old(ToRead()) == [r.value] + ToRead() && |stream| > 0
      ensures r.Eof? ==> stream == []
    {
      hide ByteBits, StreamBits, ShlB;
      if |stream| == 0 {
        return Eof;
      }
      if count == 0 {
        UnreadNext(stream);
        stream := stream[1..];
        if |stream| == 0 {
          return Eof;
        }
        count := 8;
      }
      var d := ShlB(stream[0], 8 - count) >= 128;
      FirstBit(stream[0], count);
      count := count - 1;
      return Ok(d);
    }

    method ReadByte() returns (r: Read<Byte>)
      requires ValidReader()
      modifies this
      ensures ValidReader()
      ensures r.Ok? <==> |old(ToRead())| >= 8
      ensures r.Ok? ==> old(ToRead()) == ByteBits(r.value) + ToRead() && |stream| > 0
      ensures r.Eof? ==> stream == []
    {
      hide ByteBits, StreamBits, OrB, ShlB, ShrB;
      if |stream| == 0 {
        return Eof;
      }
      UnreadNext(stream);
      if count == 0 {
        stream := stream[1..];
        if |stream| == 0 {
          return Eof;
        }
        UnreadNext(stream);
        return Ok(stream[0]);
      }
      if count == 8 {
        count := 0;
        return Ok(stream[0]);
      }
      ByteSpliced(stream, count);
      var byt := ShlB(stream[0], 8 - count);
      stream := stream[1..];
      if |stream| == 0 {
        return Eof;
      }
      // The stream has advanced, so the rest of the byte starts at its first bit.
      byt := OrB(byt, ShrB(stream[0], count));
      return Ok(byt);
    }

    /** Reads nbits bits as a word; an error exactly when fewer are left. A
        stream that has already reported its end must not be read from again. */
    method ReadBits(nbits0: nat) returns (r: Read<Word>)
      requires ValidReader() && |stream| > 0 && nbits0 <= 64
      modifies this
      ensures ValidReader()
      ensures r.Ok? <==> |old(ToRead())| >= nbits0
      ensures r.Ok? ==> old(ToRead())[nbits0..] == ToRead() && |stream| > 0
      ensures r.Ok? ==> r.value == FromBits(old(ToRead())[..nbits0])
      ensures r.Eof? ==> stream == []
    {
      hide ByteBits, StreamBits, Unread, FromBits, Or, Shl, ShlB, ShrB;
      ghost var all := ToRead();
      ghost var k := 0;
      var u: Word, nbits := 0, nbits0;
      NoneRead(all);
      while nbits >= 8
        invariant ValidReader() && |stream| > 0
        invariant 0 <= nbits && k + nbits == nbits0 && k <= |all|
        invariant ToRead() == all[k..] && u == FromBits(all[..k])
      {
        var byt := ReadByte();
        if byt.Eof? {
          return Eof;
        }
        ByteRead(all, k, byt.value, ToRead());
        u := Or(Shl(u, 8, 64), byt.value);
        nbits := nbits - 8;
        k := k + 8;
      }
      if nbits == 0 {
        return Ok(u);
      }
      if nbits > count {
        PartRead(stream, count, all, k, count);
        u := Or(Shl(u, count, 64), ShrB(ShlB(stream[0], 8 - count), 8 - count));
        nbits := nbits - count;
        k := k + count;
        UnreadNext(stream);
        stream := stream[1..];
        if |stream| == 0 {
          assert Unread(stream, 8) == [];
          return Eof;
        }
        count := 8;
      }
      PartRead(stream, count, all, k, nbits);
      u := Or(Shl(u, nbits, 64), ShrB(ShlB(stream[0], 8 - count), 8 - nbits));
      count := count - nbits;
      return Ok(u);
    }
  }

  lemma OneBit(h: nat)
    requires h < Pow2(1)
    ensures LowBits(h, 1) == [h == 1]
  {
    assert LowBits(h, 1)[0] == TestBit(h, 0);
  }
}
