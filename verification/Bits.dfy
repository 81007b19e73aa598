/** Bit sequences, most significant bit first: the specification language of the
    chunk codec. */
module Bits {
  import opened Words
  import Seqs

  type Bits = seq<bool>

  /** The k low-order bits of n. */
  function LowBits(n: nat, k: nat): (bs: Bits)
    ensures |bs| == k
  {
    seq(k, i requires 0 <= i < k => TestBit(n, k - 1 - i))
  }

  function ByteBits(b: Byte): (bs: Bits)
    ensures |bs| == 8
  {
    LowBits(b, 8)
  }

  /** The bits of a byte string. */
  function StreamBits(s: seq<Byte>): (bs: Bits)
    ensures |bs| == 8 * |s|
  {
    if |s| == 0 then [] else ByteBits(s[0]) + StreamBits(s[1..])
  }

  /** The number that a bit sequence denotes. */
  function FromBits(bs: Bits): nat {
    if |bs| == 0 then 0 else 2 * FromBits(bs[..|bs| - 1]) + (if bs[|bs| - 1] then 1 else 0)
  }

  lemma {:induction false} StreamBitsConcat(s: seq<Byte>, t: seq<Byte>)
    ensures StreamBits(s + t) == StreamBits(s) + StreamBits(t)
  {
    hide ByteBits;
    if |s| == 0 {
      Seqs.Nothing(t);
      Seqs.Nothing(StreamBits(t));
    } else {
      Seqs.Tail(s, t);
      StreamBitsConcat(s[1..], t);
      Seqs.Associate(ByteBits(s[0]), StreamBits(s[1..]), StreamBits(t));
    }
  }

  lemma StreamBitsSnoc(s: seq<Byte>, b: Byte)
    ensures StreamBits(s + [b]) == StreamBits(s) + ByteBits(b)
  {
    hide ByteBits;
    StreamBitsConcat(s, [b]);
    assert StreamBits([b]) == ByteBits(b) + StreamBits([]);
  }

  lemma FromBitsSnoc(bs: Bits, b: bool)
    ensures FromBits(bs + [b]) == 2 * FromBits(bs) + (if b then 1 else 0)
  {
    assert (bs + [b])[..|bs|] == bs;
  }

  lemma {:induction false} FromBitsConcat(bs: Bits, cs: Bits)
    ensures FromBits(bs + cs) == FromBits(bs) * Pow2(|cs|) + FromBits(cs)
    decreases |cs|
  {
    if |cs| == 0 {
      assert bs + cs == bs;
    } else {
      var init, last := cs[..|cs| - 1], cs[|cs| - 1];
      FromBitsConcat(bs, init);
      assert bs + cs == (bs + init) + [last];
      FromBitsSnoc(bs + init, last);
      assert FromBits(bs) * Pow2(|cs|) == 2 * (FromBits(bs) * Pow2(|init|));
    }
  }

  lemma {:induction false} FromBitsBound(bs: Bits)
    ensures FromBits(bs) < Pow2(|bs|)
  {
    if |bs| > 0 { FromBitsBound(bs[..|bs| - 1]); }
  }

  lemma LowBitsSnoc(n: nat, k: nat)
    requires k > 0
    ensures LowBits(n, k) == LowBits(n / 2, k - 1) + [n % 2 == 1]
  {
    var l, r := LowBits(n, k), LowBits(n / 2, k - 1);
    forall i | 0 <= i < k - 1 ensures l[i] == r[i] {
      assert TestBit(n, k - 1 - i) == TestBit(n / 2, k - 2 - i);
    }
    assert l[k - 1] == TestBit(n, 0);
    assert l == r + [n % 2 == 1];
  }

  /** Reading back the low bits of a number gives the number modulo 2^k. */
  lemma {:induction false} FromLowBits(n: nat, k: nat)
    ensures FromBits(LowBits(n, k)) == n % Pow2(k)
    decreases k
  {
    hide TestBit, LowBits, FromBits;
    if k > 0 {
      LowBitsSnoc(n, k);
      FromLowBits(n / 2, k - 1);
      FromBitsSnoc(LowBits(n / 2, k - 1), n % 2 == 1);
      ModDouble(n, Pow2(k - 1));
    } else {
      assert LowBits(n, 0) == [];
      NoBits();
    }
  }

  lemma NoBits()
    ensures FromBits([]) == 0
  {
  }

  lemma FromByteBits(b: Byte)
    ensures FromBits(ByteBits(b)) == b
  {
    FromLowBits(b, 8);
    PowValues();
  }

  /** The top k bits of a 64-bit word. */
  function TopBits(u: Word, k: nat): (bs: Bits)
    requires k <= 64
    ensures |bs| == k
  {
    seq(k, i requires 0 <= i < k => TestBit(u, 63 - i))
  }

  /** Aligning a value to the top of the word exposes exactly its low bits. */
  lemma TopBitsAligned(u: nat, k: nat)
    requires k <= 64
    ensures Shl(u, 64 - k, 64) < MODULUS
    ensures TopBits(Shl(u, 64 - k, 64), k) == LowBits(u, k)
  {
    hide TestBit, Pow2, Shl;
    PowValues();
    var w := Shl(u, 64 - k, 64);
    var l, r := TopBits(w, k), LowBits(u, k);
    forall i | 0 <= i < k ensures l[i] == r[i] {
      BitShl(u, 64 - k, 64, 63 - i);
    }
  }

  /** The top bits of a word are those of its first n bits, then those that a
      left shift by n moves to the top. */
  lemma TopBitsSplit(u: Word, k: nat, n: nat)
    requires n <= k <= 64
    ensures Shr(u, 64 - n) < Pow2(n) && Shl(u, n, 64) < MODULUS
    ensures TopBits(u, k) == LowBits(Shr(u, 64 - n), n) + TopBits(Shl(u, n, 64), k - n)
  {
    hide TestBit, Pow2, Shl, Shr;
    PowValues();
    PowAdd(n, 64 - n);
    ShrBound(u, 64 - n, Pow2(n));
    var h, t := Shr(u, 64 - n), Shl(u, n, 64);
    var l, r1, r2 := TopBits(u, k), LowBits(h, n), TopBits(t, k - n);
    forall i | 0 <= i < n ensures l[i] == r1[i] {
      BitShr(u, 64 - n, n - 1 - i);
    }
    forall i | 0 <= i < k - n ensures l[i + n] == r2[i] {
      BitShl(u, n, 64, 63 - i);
    }
  }

  lemma ShrBound(u: nat, k: nat, m: nat)
    requires u < m * Pow2(k)
    ensures Shr(u, k) < m
  {
    var p := Pow2(k);
    assert u == p * (u / p) + u % p;
    if u / p >= m {
      MulMono(p, m, u / p);
    }
  }
}
