/** The buffers that records are encoded into and decoded from
    (encoding_helpers.go): fixed-size and variable-length numbers, and strings. */
module ByteBuffers {
  import opened Options
  import opened Words
  import opened Varints
  import opened BStreams

  type Bytes = seq<Byte>

  /** What is read from the front of some bytes, and the bytes behind it. */
  datatype Parsed<T> = Bad | Got(value: T, rest: Bytes)

  /** The n low bytes of a number, the most significant one first. */
  function BigEndian(x: nat, n: nat): (b: Bytes)
    ensures |b| == n
  {
    if n == 0 then [] else BigEndian(x / 256, n - 1) + [x % 256]
  }

  function FromBigEndian(b: Bytes): nat {
    if b == [] then 0 else 256 * FromBigEndian(b[..|b| - 1]) + b[|b| - 1]
  }

  lemma PowEight()
    ensures Pow2(8) == 256 && Pow2(0) == 1
  {
  }

  lemma {:induction false} FromBigEndianBound(b: Bytes)
    ensures FromBigEndian(b) < Pow2(8 * |b|)
  {
    if b != [] {
      FromBigEndianBound(b[..|b| - 1]);
      PowAdd(8, 8 * (|b| - 1));
      PowEight();
    }
  }

  function GetBE64(b: Bytes): (p: Parsed<Word>)
    ensures p.Got? ==> |p.rest| < |b|
  {
    if |b| < 8 then Bad else
      FromBigEndianBound(b[..8]);
      PowValues();
      Got(FromBigEndian(b[..8]), b[8..])
  }

  lemma BE64Back(x: Word, rest: Bytes)
    ensures GetBE64(BigEndian(x, 8) + rest) == Got(x, rest)
  {
    PowValues();
    BigEndianLow(x, 8);
    ModSmall(x, MODULUS);
    assert (BigEndian(x, 8) + rest)[..8] == BigEndian(x, 8);
  }

  const LIMIT32: nat := 0x1_0000_0000

  function GetBE32(b: Bytes): (p: Parsed<nat>)
    ensures p.Got? ==> p.value < LIMIT32 && |p.rest| == |b| - 4
  {
    if |b| < 4 then Bad else
      BE32Bound(b[..4]);
      Got(FromBigEndian(b[..4]), b[4..])
  }

  lemma BE32Bound(b: Bytes)
    requires |b| == 4
    ensures FromBigEndian(b) < LIMIT32
  {
    FromBigEndianBound(b);
    Power32();
  }

  lemma Power32()
    ensures Pow2(32) == LIMIT32 && Pow2(35) == 8 * LIMIT32
  {
    PowAdd(16, 16);
    Power16();
    PowAdd(3, 32);
    assert Pow2(3) == 8;
  }

  lemma Power16()
    ensures Pow2(16) == 0x1_0000
  {
    PowAdd(8, 8);
    PowEight();
  }

  /** Only the low 32 bits of a number are kept. */
  lemma BE32Back(x: nat, rest: Bytes)
    ensures GetBE32(BigEndian(x, 4) + rest) == Got(x % LIMIT32, rest)
    ensures FromBigEndian(BigEndian(x, 4)) == x % LIMIT32
  {
    Power32();
    BigEndianLow(x, 4);
    assert (BigEndian(x, 4) + rest)[..4] == BigEndian(x, 4);
  }

  lemma {:induction false} BigEndianLow(x: nat, n: nat)
    ensures FromBigEndian(BigEndian(x, n)) == x % Pow2(8 * n)
  {
    if n > 0 {
      PowAdd(8, 8 * (n - 1));
      PowEight();
      BigEndianLow(x / 256, n - 1);
      LowByte(x, Pow2(8 * (n - 1)));
    }
  }

  lemma LowByte(x: nat, m: nat)
    requires m > 0
    ensures 256 * (x / 256 % m) + x % 256 == x % (256 * m)
  {
    var q, r := x / 256 / m, x / 256 % m;
    assert x == 256 * (q * m + r) + x % 256;
    MulMono(256, r, m - 1);
    DivUnique(x, 256 * m, q, 256 * r + x % 256);
  }

  /** binary.Uvarint, with i bytes read so far and x their payload. */
  function GetUvarint(b: Bytes, x: Word, i: nat): (p: Parsed<Word>)
    ensures p.Got? ==> |p.rest| < |b|
    decreases |b|
  {
    if b == [] then Bad else
    var y := Gather(x, b[0] % 128, i);
    if b[0] >= 128 then GetUvarint(b[1..], y, i + 1)
    else if i > 9 || (i == 9 && b[0] > 1) then Bad
    else Got(y, b[1..])
  }

  lemma UvarintUnfolds(x: nat, acc: Word, i: nat, rest: Bytes)
    requires i <= 9 && (i == 9 ==> x <= 1)
    ensures GetUvarint(Uvarint(x) + rest, acc, i)
         == if x < 128 then Got(Gather(acc, x, i), rest)
            else GetUvarint(Uvarint(x / 128) + rest, Gather(acc, x % 128, i), i + 1)
  {
    hide Gather, OrB;
    ContinuedByte(x);
    var b := Uvarint(x) + rest;
    if x < 128 {
      assert b[1..] == rest;
    } else {
      assert b[1..] == Uvarint(x / 128) + rest;
    }
  }

  lemma {:induction false} UvarintBack(x: nat, acc: Word, i: nat, rest: Bytes)
    requires i <= 9 && x < Pow2(64 - 7 * i) && acc < Pow2(7 * i)
    ensures acc + x * Pow2(7 * i) < MODULUS
    ensures GetUvarint(Uvarint(x) + rest, acc, i) == Got(acc + x * Pow2(7 * i), rest)
    decreases 9 - i
  {
    hide Pow2, Gather, OrB, Uvarint, GetUvarint;
    GroupBounds(x, i);
    UvarintUnfolds(x, acc, i, rest);
    if x < 128 {
      GatherSum(acc, x, i);
    } else {
      UvarintStep(x, acc, i, []);
      UvarintBack(x / 128, Gather(acc, x % 128, i), i + 1, rest);
    }
  }

  function TakeUvarint64(b: Bytes): (p: Parsed<Word>)
    ensures p.Got? ==> |p.rest| < |b|
  {
    GetUvarint(b, 0, 0)
  }

  lemma Uvarint64Back(x: Word, rest: Bytes)
    ensures TakeUvarint64(Uvarint(x) + rest) == Got(x, rest) && |Uvarint(x)| > 0
  {
    PowValues();
    assert Pow2(0) == 1;
    UvarintBack(x, 0, 0, rest);
  }

  function TakeVarint64(b: Bytes): (p: Parsed<Word>)
    ensures p.Got? ==> |p.rest| < |b|
  {
    match TakeUvarint64(b)
    case Bad => Bad
    case Got(u, rest) => Got(UnZigZag(u), rest)
  }

  lemma Varint64Back(t: Word, rest: Bytes)
    ensures TakeVarint64(Uvarint(ZigZag(t)) + rest) == Got(t, rest)
  {
    Uvarint64Back(ZigZag(t), rest);
    UnZigZagZigZag(t);
  }

  /** Strings are made of bytes. */
  predicate IsBytes(s: string) { forall i :: 0 <= i < |s| ==> s[i] as int < 256 }

  function ToBytes(s: string): (b: Bytes)
    requires IsBytes(s)
    ensures |b| == |s|
  {
    seq(|s|, i requires 0 <= i < |s| => s[i] as int)
  }

  function ToString(b: Bytes): (s: string) {
    seq(|b|, i requires 0 <= i < |b| => b[i] as char)
  }

  function StringBytes(s: string): Bytes
    requires IsBytes(s)
  {
    Uvarint(|s|) + ToBytes(s)
  }

  function TakeString(b: Bytes): (p: Parsed<string>)
    ensures p.Got? ==> |p.rest| < |b|
  {
    match TakeUvarint64(b)
    case Bad => Bad
    case Got(l, rest) => if |rest| < l then Bad else Got(ToString(rest[..l]), rest[l..])
  }

  lemma StringBack(s: string, rest: Bytes)
    requires IsBytes(s) && |s| < MODULUS
    ensures TakeString(StringBytes(s) + rest) == Got(s, rest)
  {
    var b := ToBytes(s);
    Uvarint64Back(|s|, b + rest);
    assert StringBytes(s) + rest == Uvarint(|s|) + (b + rest);
    assert (b + rest)[..|s|] == b && (b + rest)[|s|..] == rest;
    assert ToString(b) == s;
  }

  /** What follows on entries that have been read already. */
  function Onto<T>(xs: seq<T>, p: Parsed<seq<T>>): Parsed<seq<T>> {
    match p case Bad => Bad case Got(more, rest) => Got(xs + more, rest)
  }

  lemma OntoMore<T>(xs: seq<T>, x: T, p: Parsed<seq<T>>)
    ensures Onto(xs, Onto([x], p)) == Onto(xs + [x], p)
  {
    if p.Got? {
      assert xs + ([x] + p.value) == xs + [x] + p.value;
    }
  }

  lemma OntoNothing<T>(p: Parsed<seq<T>>)
    ensures Onto([], p) == p
  {
    assert p.Got? ==> [] + p.value == p.value;
  }

  lemma OntoBad<T>(xs: seq<T>)
    ensures Onto(xs, Bad) == Bad
  {
  }

  function Behind<T>(ss: seq<T>, r: Option<seq<T>>): Option<seq<T>> {
    match r case None => None case Some(more) => Some(ss + more)
  }

  lemma BehindMore<T>(ss: seq<T>, s: T, r: Option<seq<T>>)
    ensures Behind(ss, Behind([s], r)) == Behind(ss + [s], r)
  {
    if r.Some? {
      assert ss + ([s] + r.value) == ss + [s] + r.value;
    }
  }

  lemma BehindAll<T>(ss: seq<T>)
    ensures Behind(ss, Some([])) == Some(ss)
  {
    assert ss + [] == ss;
  }

  lemma BehindNothing<T>(r: Option<seq<T>>)
    ensures Behind([], r) == r
  {
    assert r.Some? ==> [] + r.value == r.value;
  }

  class Encbuf {
    var b: Bytes

    constructor (b: Bytes)
      ensures this.b == b
    {
      this.b := b;
    }

    method PutByte(c: Byte)
      modifies this
      ensures b == old(b) + [c]
    {
      b := b + [c];
    }

    method PutBE64(x: Word)
      modifies this
      ensures b == old(b) + BigEndian(x, 8)
    {
      b := b + BigEndian(x, 8);
    }

    method PutBE32(x: nat)
      modifies this
      ensures b == old(b) + BigEndian(x, 4)
    {
      b := b + BigEndian(x, 4);
    }

    method PutUvarint(x: nat)
      modifies this
      ensures b == old(b) + Uvarint(x)
    {
      b := b + Uvarint(x);
    }

    method PutVarint(t: Word)
      modifies this
      ensures b == old(b) + Uvarint(ZigZag(t))
    {
      b := b + Uvarint(ZigZag(t));
    }

    method PutUvarintStr(s: string)
      requires IsBytes(s) && |s| < MODULUS
      modifies this
      ensures b == old(b) + StringBytes(s)
    {
      PutUvarint(|s|);
      b := b + ToBytes(s);
    }
  }

  /** Takes data off the front of a buffer. After the first failure it stays as it
      is, and yields nothing but zeros. */
  class Decbuf {
    var b: Bytes
    var e: bool

    constructor (b: Bytes)
      ensures this.b == b && !e
    {
      this.b, e := b, false;
    }

    /** The outcome p of reading from the buffer b0, as seen in v. */
    ghost predicate Took<T>(b0: Bytes, e0: bool, p: Parsed<T>, v: T, zero: T)
      reads this
    {
      if e0 then e && b == b0 && v == zero
      else if p.Bad? then e && v == zero else !e && b == p.rest && v == p.value
    }

    method TakeByte() returns (c: Byte)
      modifies this
      ensures Took(old(b), old(e), if old(b) == [] then Bad else Got(old(b)[0], old(b)[1..]), c, 0)
    {
      if e || |b| < 1 {
        e := true;
        return 0;
      }
      c := b[0];
      b := b[1..];
    }

    method TakeBE64() returns (x: Word)
      modifies this
      ensures Took(old(b), old(e), GetBE64(old(b)), x, 0)
    {
      if e || |b| < 8 {
        e := true;
        return 0;
      }
      x := GetBE64(b).value;
      b := b[8..];
    }

    method TakeBE32() returns (x: nat)
      modifies this
      ensures Took(old(b), old(e), GetBE32(old(b)), x, 0)
    {
      if e || |b| < 4 {
        e := true;
        return 0;
      }
      x := GetBE32(b).value;
      b := b[4..];
    }

    method TakeUvarint() returns (x: Word)
      modifies this
      ensures Took(old(b), old(e), TakeUvarint64(old(b)), x, 0)
    {
      var p := TakeUvarint64(b);
      if e || p.Bad? {
        e := true;
        return 0;
      }
      x, b := p.value, p.rest;
    }

    method TakeVarint() returns (x: Word)
      modifies this
      ensures Took(old(b), old(e), TakeVarint64(old(b)), x, 0)
    {
      var u := TakeUvarint();
      x := if e then 0 else UnZigZag(u);
    }

    method TakeUvarintStr() returns (s: string)
      modifies this
      ensures Took(old(b), old(e), TakeString(old(b)), s, "")
    {
      var l := TakeUvarint();
      if e || |b| < l {
        e := true;
        return "";
      }
      s, b := ToString(b[..l]), b[l..];
    }
  }
}
