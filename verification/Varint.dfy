/** The variable-length integers of Go's encoding/binary, as xor.go writes them
    into a bit stream byte by byte and reads them back. */
module Varints {
  import opened Options
  import opened Words
  import opened Bits
  import opened BStreams

  /** PutUvarint: seven bits a byte, least significant group first. */
  function Uvarint(x: nat): seq<Byte> {
    if x < 128 then [x] else [OrB(x % 256, 0x80)] + Uvarint(x / 128)
  }

  function Complement(u: Word): Word { MODULUS - 1 - u }

  /** PutVarint and ReadVarint map signed words to unsigned ones and back. */
  function ZigZag(t: Word): Word {
    PowValues();
    if t >= SIGN then Complement(Shl(t, 1, 64)) else Shl(t, 1, 64)
  }

  function UnZigZag(u: Word): Word {
    if u % 2 == 1 then Complement(u / 2) else u / 2
  }

  lemma UnZigZagZigZag(t: Word)
    ensures UnZigZag(ZigZag(t)) == t
  {
    PowValues();
    assert Pow2(1) == 2;
  }

  /** What ReadUvarint makes of a bit sequence: i bytes have been read so far
      and x holds their payload. */
  function TakeUvarint(bs: Bits, x: Word, i: nat): Option<(Word, Bits)>
    decreases |bs|
  {
    if |bs| < 8 then None else
    var b := ByteOf(bs[..8]);
    var y := Gather(x, b % 128, i);
    if b >= 128 then TakeUvarint(bs[8..], y, i + 1)
    else if i > 9 || (i == 9 && b > 1) then None
    else Some((y, bs[8..]))
  }

  function ByteOf(w: Bits): Byte
    requires |w| == 8
  {
    FromBitsBound(w);
    PowValues();
    FromBits(w)
  }

  /** x | group << 7*i. */
  function Gather(x: Word, group: Byte, i: nat): Word {
    PowValues();
    OrBound(x, Shl(group, 7 * i, 64), 64);
    Or(x, Shl(group, 7 * i, 64))
  }

  lemma {:induction false} OrComm(a: nat, b: nat)
    ensures Or(a, b) == Or(b, a)
    decreases a + b
  {
    if a != 0 || b != 0 { OrComm(a / 2, b / 2); }
  }

  /** Setting the top bit of n + 1. */
  lemma {:induction false} OrHigh(y: nat, n: nat)
    requires y < 2 * Pow2(n)
    ensures Or(y, Pow2(n)) == if y >= Pow2(n) then y else y + Pow2(n)
    decreases n
  {
    if n == 0 {
      OrNothing(y / 2);
    } else {
      OrHigh(y / 2, n - 1);
    }
  }

  lemma ContinuedByte(x: nat)
    ensures OrB(x % 256, 0x80) == 128 + x % 128
  {
    hide Or;
    PowValues();
    OrHigh(x % 256, 7);
  }

  /** Groups gathered so far and the next one do not overlap. */
  lemma GatherSum(x: Word, group: Byte, i: nat)
    requires x < Pow2(7 * i) && group * Pow2(7 * i) < MODULUS
    ensures Gather(x, group, i) == x + group * Pow2(7 * i)
  {
    hide Or, Pow2;
    PowValues();
    var p := Pow2(7 * i);
    ModSmall(group * p, Pow2(64));
    OrComm(x, group * p);
    OrDisjoint(group, x, 7 * i);
  }

  lemma TakeByte(b: Byte, rest: Bits, x: Word, i: nat)
    ensures TakeUvarint(ByteBits(b) + rest, x, i)
         == if b >= 128 then TakeUvarint(rest, Gather(x, b % 128, i), i + 1)
            else if i > 9 || (i == 9 && b > 1) then None
            else Some((Gather(x, b % 128, i), rest))
  {
    hide Gather, ByteBits, FromBits;
    var bs := ByteBits(b) + rest;
    assert bs[..8] == ByteBits(b) && bs[8..] == rest;
    FromByteBits(b);
  }

  lemma GroupBounds(x: nat, i: nat)
    requires i <= 9 && x < Pow2(64 - 7 * i)
    ensures x * Pow2(7 * i) < MODULUS
    ensures (x % 128) * Pow2(7 * i) < MODULUS
    ensures i == 9 ==> x <= 1
    ensures x >= 128 ==> i < 9 && x / 128 < Pow2(64 - 7 * (i + 1))
    ensures i < 9 ==> Pow2(7 * (i + 1)) == 128 * Pow2(7 * i)
  {
    hide Pow2;
    PowValues();
    PowAdd(64 - 7 * i, 7 * i);
    ScaleLess(x, Pow2(64 - 7 * i), Pow2(7 * i));
    MulMono(Pow2(7 * i), x % 128, x);
    PowOne();
    if i < 9 {
      PowAdd(7, 7 * i);
      PowAdd(7, 64 - 7 * (i + 1));
    }
  }

  lemma PowOne()
    ensures Pow2(1) == 2
  {
  }

  lemma ScaleLess(a: nat, b: nat, p: nat)
    requires a < b && p > 0
    ensures a * p < b * p
  {
  }

  lemma UvarintBits(x: nat, rest: Bits)
    ensures StreamBits(Uvarint(x)) + rest
         == if x < 128 then ByteBits(x) + rest
            else ByteBits(OrB(x % 256, 0x80)) + (StreamBits(Uvarint(x / 128)) + rest)
  {
    hide ByteBits, OrB, StreamBits;
    if x < 128 {
      OneByte(x);
    } else {
      var b := OrB(x % 256, 0x80);
      OneByte(b);
      StreamBitsConcat([b], Uvarint(x / 128));
    }
  }

  /** One continued byte of the encoding: what is gathered and what is left. */
  lemma UvarintStep(x: nat, acc: Word, i: nat, rest: Bits)
    requires i <= 9 && 128 <= x < Pow2(64 - 7 * i) && acc < Pow2(7 * i)
    ensures i < 9 && x / 128 < Pow2(64 - 7 * (i + 1))
    ensures var y := Gather(acc, x % 128, i);
      && y < Pow2(7 * (i + 1))
      && y + (x / 128) * Pow2(7 * (i + 1)) == acc + x * Pow2(7 * i)
      && TakeUvarint(StreamBits(Uvarint(x)) + rest, acc, i)
         == TakeUvarint(StreamBits(Uvarint(x / 128)) + rest, y, i + 1)
  {
    hide Pow2, ByteBits, StreamBits, TakeUvarint, Gather, Uvarint, OrB;
    var l, h, p := x % 128, x / 128, Pow2(7 * i);
    GroupBounds(x, i);
    GatherSum(acc, l, i);
    MulMono(p, l, 127);
    Recombine(l, h, p);
    UvarintBits(x, rest);
    ContinuedByte(x);
    TakeByte(OrB(x % 256, 0x80), StreamBits(Uvarint(h)) + rest, acc, i);
  }

  /** ReadUvarint inverts PutUvarint and stops right after its last byte. */
  lemma {:induction false} UvarintRoundTrip(x: nat, acc: Word, i: nat, rest: Bits)
    requires i <= 9 && x < Pow2(64 - 7 * i) && acc < Pow2(7 * i)
    ensures acc + x * Pow2(7 * i) < MODULUS
    ensures TakeUvarint(StreamBits(Uvarint(x)) + rest, acc, i) == Some((acc + x * Pow2(7 * i), rest))
    decreases 9 - i
  {
    hide Pow2, ByteBits, StreamBits, TakeUvarint, Gather, Uvarint;
    if x < 128 {
      GroupBounds(x, i);
      UvarintBits(x, rest);
      GatherSum(acc, x, i);
      TakeByte(x, rest, acc, i);
    } else {
      UvarintStep(x, acc, i, rest);
      UvarintRoundTrip(x / 128, Gather(acc, x % 128, i), i + 1, rest);
    }
  }

  lemma Recombine(l: nat, h: nat, p: nat)
    ensures l * p + h * (128 * p) == (128 * h + l) * p
  {
  }
}
