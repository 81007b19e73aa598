/** The encoding of one sample of chunkenc/xor.go as a bit sequence, the decoding
    of one sample, and the proof that the second inverts the first. Timestamps
    are int64 and values float64 patterns, both held as 64-bit words. */
module XorCodec {
  import opened Options
  import opened Words
  import opened Bits
  import opened BStreams
  import opened Varints
  import Seqs

  datatype WordSample = WordSample(t: Word, v: Word)

  /** The state that appender and iterator both carry from sample to sample.
      `leading` and `trailing` are the bounds of the last window of significant
      value bits; leading 0xff marks an appender that has none yet. */
  datatype State = State(t: Word, v: Word, tDelta: Word, leading: nat, trailing: nat)

  const NO_WINDOW := 0xff

  const FRESH := State(0, 0, 0, 0, 0)

  // ---------- encoding ----------

  predicate BitRange(x: int, nbits: nat)
    requires nbits > 0
  {
    -(Pow2(nbits - 1) - 1) <= x <= Pow2(nbits - 1)
  }

  /** The delta of deltas, in the narrowest bucket it fits. */
  function DodBits(dod: Word): Bits {
    if dod == 0 then [false]
    else if BitRange(Signed(dod), 14) then [true, false] + LowBits(dod, 14)
    else if BitRange(Signed(dod), 17) then [true, true, false] + LowBits(dod, 17)
    else if BitRange(Signed(dod), 20) then [true, true, true, false] + LowBits(dod, 20)
    else [true, true, true, true] + LowBits(dod, 64)
  }

  /** The timestamp of sample number num. */
  function TimeBits(a: State, num: nat, t: Word): Bits {
    if num == 0 then StreamBits(Uvarint(ZigZag(t)))
    else if num == 1 then StreamBits(Uvarint(Sub(t, a.t)))
    else DodBits(Sub(Sub(t, a.t), a.tDelta))
  }

  function LeadingZeros(v: Word): (n: nat)
    ensures n <= 64
  {
    LeadingFalse(LowBits(v, 64))
  }

  function TrailingZeros(v: Word): (n: nat)
    ensures n <= 64
  {
    TrailingFalse(LowBits(v, 64))
  }

  function LeadingFalse(bs: Bits): (n: nat)
    ensures n <= |bs|
  {
    if |bs| == 0 || bs[0] then 0 else 1 + LeadingFalse(bs[1..])
  }

  function TrailingFalse(bs: Bits): (n: nat)
    ensures n <= |bs|
  {
    if |bs| == 0 || bs[|bs| - 1] then 0 else 1 + TrailingFalse(bs[..|bs| - 1])
  }

  /** Leading zeros, clamped so that they fit into five bits. */
  function Clamped(v: Word): nat {
    if LeadingZeros(v) >= 32 then 31 else LeadingZeros(v)
  }

  /** A window that is absent or leaves at least one significant bit. */
  predicate WindowOk(a: State) {
    a.leading == NO_WINDOW || (a.leading <= 31 && a.leading + a.trailing <= 63)
  }

  predicate Reuses(a: State, vDelta: Word) {
    a.leading != NO_WINDOW && Clamped(vDelta) >= a.leading && TrailingZeros(vDelta) >= a.trailing
  }

  function NextWindow(a: State, v: Word): State {
    var vDelta := Delta(a.v, v);
    if vDelta == 0 || Reuses(a, vDelta) then a
    else a.(leading := Clamped(vDelta), trailing := TrailingZeros(vDelta))
  }

  /** The bits of v that differ from those of the previous value. */
  function Delta(prev: Word, v: Word): Word {
    PowValues();
    XorBound(v, prev, 64);
    Xor(v, prev)
  }

  function SignificantBits(vDelta: Word, leading: nat, trailing: nat): Bits
    requires leading + trailing <= 64
  {
    LowBits(Shr(vDelta, trailing), 64 - leading - trailing)
  }

  function ValueBits(a: State, v: Word): Bits
    requires WindowOk(a)
  {
    var vDelta := Delta(a.v, v);
    if vDelta == 0 then [false]
    else if Reuses(a, vDelta) then [true, false] + SignificantBits(vDelta, a.leading, a.trailing)
    else
      WindowFits(vDelta);
      var l, t := Clamped(vDelta), TrailingZeros(vDelta);
      [true, true] + LowBits(l, 5) + LowBits(64 - l - t, 6) + SignificantBits(vDelta, l, t)
  }

  /** What Append writes for sample number num. */
  function SampleBits(a: State, num: nat, s: WordSample): Bits
    requires WindowOk(a)
  {
    TimeBits(a, num, s.t) + if num == 0 then LowBits(s.v, 64) else ValueBits(a, s.v)
  }

  /** The appender's state after sample number num. */
  function Advanced(a: State, num: nat, s: WordSample): (r: State)
    requires WindowOk(a)
    ensures WindowOk(r)
  {
    var w := if num == 0 then a else NextWindow(a, s.v);
    WindowFits(Delta(a.v, s.v));
    w.(t := s.t, v := s.v, tDelta := if num == 0 then 0 else Sub(s.t, a.t))
  }

  lemma {:induction false} FalseRuns(bs: Bits)
    ensures forall i :: 0 <= i < LeadingFalse(bs) ==> !bs[i]
    ensures forall i :: |bs| - TrailingFalse(bs) <= i < |bs| ==> !bs[i]
    ensures (exists i :: 0 <= i < |bs| && bs[i]) ==> LeadingFalse(bs) + TrailingFalse(bs) < |bs|
    decreases |bs|
  {
    LeadingRun(bs);
    TrailingRun(bs);
  }

  lemma {:induction false} LeadingRun(bs: Bits)
    ensures forall i :: 0 <= i < LeadingFalse(bs) ==> !bs[i]
    ensures LeadingFalse(bs) < |bs| ==> bs[LeadingFalse(bs)]
    decreases |bs|
  {
    if |bs| > 0 && !bs[0] {
      LeadingRun(bs[1..]);
      forall i | 0 <= i < LeadingFalse(bs) ensures !bs[i] {
        if i > 0 { assert bs[i] == bs[1..][i - 1]; }
      }
    }
  }

  lemma {:induction false} TrailingRun(bs: Bits)
    ensures forall i :: |bs| - TrailingFalse(bs) <= i < |bs| ==> !bs[i]
    decreases |bs|
  {
    if |bs| > 0 && !bs[|bs| - 1] {
      var init := bs[..|bs| - 1];
      TrailingRun(init);
      forall i | |bs| - TrailingFalse(bs) <= i < |bs| ensures !bs[i] {
        if i < |bs| - 1 { assert bs[i] == init[i]; }
      }
    }
  }

  /** A non-zero delta has a window of at least one significant bit. */
  lemma WindowFits(vDelta: Word)
    ensures vDelta != 0 ==> LeadingZeros(vDelta) + TrailingZeros(vDelta) <= 63
  {
    hide LowBits, TestBit;
    var bs := LowBits(vDelta, 64);
    FalseRuns(bs);
    if forall i :: 0 <= i < 64 ==> !bs[i] {
      AllFalse(bs);
      FromLowBits(vDelta, 64);
      PowValues();
    }
  }

  lemma {:induction false} AllFalse(bs: Bits)
    requires forall i :: 0 <= i < |bs| ==> !bs[i]
    ensures FromBits(bs) == 0
    decreases |bs|
  {
    if |bs| > 0 { AllFalse(bs[..|bs| - 1]); }
  }

  // ---------- decoding ----------

  datatype Decoded = Failed | Got(state: State, rest: Bits)

  /** The number of significant bits a window stands for, in uint8 arithmetic. */
  function WindowSize(st: State): nat { (64 - st.leading - st.trailing) % 256 }

  predicate IterOk(st: State) { 1 <= WindowSize(st) <= 64 }

  /** A signed field of sz bits whose range is shifted up by one. */
  function SizedDod(bs: Bits, sz: nat): Option<(Word, Bits)>
    requires 1 <= sz <= 64
  {
    if |bs| < sz then None else
    var bits := ReadWord(bs, sz);
    var dod := if bits > Pow2(sz - 1) then (bits - Pow2(sz)) % MODULUS else bits;
    Some((dod, bs[sz..]))
  }

  function ReadWord(bs: Bits, n: nat): Word
    requires n <= |bs| && n <= 64
  {
    WordBound(bs[..n]);
    FromBits(bs[..n])
  }

  lemma WordBound(bs: Bits)
    requires |bs| <= 64
    ensures FromBits(bs) < MODULUS
  {
    hide FromBits, Pow2;
    FromBitsBound(bs);
    PowValues();
    PowAdd(|bs|, 64 - |bs|);
    AtLeastOne(Pow2(|bs|), Pow2(64 - |bs|));
  }

  /** Up to four prefix bits select the bucket. */
  function ReadDod(bs: Bits): Option<(Word, Bits)> {
    if |bs| < 1 then None
    else if !bs[0] then Some((0, bs[1..]))
    else if |bs| < 2 then None
    else if !bs[1] then SizedDod(bs[2..], 14)
    else if |bs| < 3 then None
    else if !bs[2] then SizedDod(bs[3..], 17)
    else if |bs| < 4 then None
    else if !bs[3] then SizedDod(bs[4..], 20)
    else if |bs| < 68 then None
    else Some((ReadWord(bs[4..], 64), bs[68..]))
  }

  function ReadWindow(st: State, bs: Bits): (r: State)
    requires |bs| >= 11
    ensures IterOk(r)
  {
    WindowBounds(bs);
    var leading := ReadWord(bs, 5);
    var mbits := ReadWord(bs[5..], 6);
    st.(leading := leading, trailing := (64 - leading - (if mbits == 0 then 64 else mbits)) % 256)
  }

  lemma WindowBounds(bs: Bits)
    requires |bs| >= 11
    ensures ReadWord(bs, 5) < 32 && ReadWord(bs[5..], 6) < 64
  {
    FromBitsBound(bs[..5]);
    FromBitsBound(bs[5..][..6]);
    assert Pow2(5) == 32 && Pow2(6) == 64;
  }

  function ApplyDelta(st: State, bs: Bits): Decoded
    requires IterOk(st)
  {
    var n := WindowSize(st);
    if |bs| < n then Failed
    else Got(st.(v := Delta(Shl64(ReadWord(bs, n), st.trailing), st.v)), bs[n..])
  }

  function Shl64(u: Word, n: nat): Word {
    PowValues();
    Shl(u, n, 64)
  }

  /** What readValue makes of the bits that follow a timestamp. */
  function DecodeValue(st: State, bs: Bits): Decoded
    requires IterOk(st)
  {
    if |bs| < 1 then Failed
    else if !bs[0] then Got(st, bs[1..])
    else if |bs| < 2 then Failed
    else if !bs[1] then ApplyDelta(st, bs[2..])
    else if |bs| < 13 then Failed
    else ApplyDelta(ReadWindow(st, bs[2..13]), bs[13..])
  }

  /** What Next makes of the bits of sample number num. */
  function DecodeNext(num: nat, st: State, bs: Bits): Decoded
    requires IterOk(st)
  {
    if num == 0 then
      match TakeUvarint(bs, 0, 0)
      case None => Failed
      case Some((u, rest)) =>
        if |rest| < 64 then Failed
        else Got(st.(t := UnZigZag(u), v := ReadWord(rest, 64)), rest[64..])
    else if num == 1 then
      match TakeUvarint(bs, 0, 0)
      case None => Failed
      case Some((d, rest)) => DecodeValue(st.(tDelta := d, t := Add(st.t, d)), rest)
    else
      match ReadDod(bs)
      case None => Failed
      case Some((dod, rest)) =>
        var d := Add(st.tDelta, dod);
        DecodeValue(st.(tDelta := d, t := Add(st.t, d)), rest)
  }

  // ---------- decoding inverts encoding ----------

  lemma ReadWordOf(bs: Bits, rest: Bits)
    requires |bs| <= 64
    ensures ReadWord(bs + rest, |bs|) == FromBits(bs) && (bs + rest)[|bs|..] == rest
  {
    hide FromBits;
    assert (bs + rest)[..|bs|] == bs;
  }

  lemma SizedRoundTrip(dod: Word, sz: nat, rest: Bits)
    requires sz == 14 || sz == 17 || sz == 20
    requires BitRange(Signed(dod), sz)
    ensures SizedDod(LowBits(dod, sz) + rest, sz) == Some((dod, rest))
  {
    hide LowBits, FromBits, ReadWord, Pow2;
    ReadWordOf(LowBits(dod, sz), rest);
    FromLowBits(dod, sz);
    BucketPowers();
    SignExtend(dod, Pow2(sz - 1));
  }

  /** A signed number whose low bits are read back modulo 2 * h. */
  lemma SignExtend(dod: Word, h: nat)
    requires h == 0x2000 || h == 0x1_0000 || h == 0x8_0000
    requires -(h - 1) <= Signed(dod) <= h
    ensures var r := dod % (2 * h); (if r > h then (r - 2 * h) % MODULUS else r) == dod
  {
    if dod < SIGN {
      ModSmall(dod, 2 * h);
    } else {
      var r := dod - MODULUS + 2 * h;
      if h == 0x2000 {
        DivUnique(dod, 2 * h, 0x4_0000_0000_0000 - 1, r);
      } else if h == 0x1_0000 {
        DivUnique(dod, 2 * h, 0x8000_0000_0000 - 1, r);
      } else {
        DivUnique(dod, 2 * h, 0x1000_0000_0000 - 1, r);
      }
    }
  }

  lemma BucketPowers()
    ensures Pow2(13) == 0x2000 && Pow2(14) == 0x4000 && Pow2(16) == 0x1_0000
    ensures Pow2(17) == 0x2_0000 && Pow2(19) == 0x8_0000 && Pow2(20) == 0x10_0000
  {
    hide Pow2;
    PowValues();
    PowAdd(8, 8);
    PowSteps();
  }

  lemma PowSteps()
    ensures Pow2(14) == 2 * Pow2(13) && Pow2(15) == 2 * Pow2(14) && Pow2(16) == 2 * Pow2(15)
    ensures Pow2(17) == 2 * Pow2(16) && Pow2(18) == 2 * Pow2(17) && Pow2(19) == 2 * Pow2(18) && Pow2(20) == 2 * Pow2(19)
  {
  }

  lemma DodRoundTrip(dod: Word, rest: Bits)
    ensures ReadDod(DodBits(dod) + rest) == Some((dod, rest))
  {
    hide LowBits, FromBits, SizedDod, BitRange, ReadWord;
    var bs := DodBits(dod) + rest;
    if dod == 0 {
      assert bs[1..] == rest;
    } else if BitRange(Signed(dod), 14) {
      assert bs[2..] == LowBits(dod, 14) + rest;
      SizedRoundTrip(dod, 14, rest);
    } else if BitRange(Signed(dod), 17) {
      assert bs[3..] == LowBits(dod, 17) + rest;
      SizedRoundTrip(dod, 17, rest);
    } else if BitRange(Signed(dod), 20) {
      assert bs[4..] == LowBits(dod, 20) + rest;
      SizedRoundTrip(dod, 20, rest);
    } else {
      assert bs[4..] == LowBits(dod, 64) + rest;
      ReadWordOf(LowBits(dod, 64), rest);
      WholeWord(dod);
      assert bs[68..] == bs[4..][64..];
    }
  }

  lemma WholeWord(u: Word)
    ensures FromBits(LowBits(u, 64)) == u
  {
    FromLowBits(u, 64);
    PowValues();
  }

  /** What an appender's window and an iterator's have in common. */
  predicate Linked(a: State, st: State)
    ensures Linked(a, st) ==> WindowOk(a) && IterOk(st)
  {
    && WindowOk(a) && st.leading <= 31 && st.leading + st.trailing <= 63
    && a.t == st.t && a.v == st.v && a.tDelta == st.tDelta
    && (a.leading == NO_WINDOW || (a.leading == st.leading && a.trailing == st.trailing))
  }

  /** Where an iterator in state st lands when the appender has moved on to a. */
  function Landed(st: State, a: State): State {
    if a.leading == NO_WINDOW then a.(leading := st.leading, trailing := st.trailing) else a
  }

  /** Dropping the clear bits at both ends of a delta loses nothing. */
  lemma SignificantRoundTrip(vDelta: Word, l: nat, t: nat)
    requires l <= LeadingZeros(vDelta) && t <= TrailingZeros(vDelta) && l + t <= 63
    ensures FromBits(SignificantBits(vDelta, l, t)) < MODULUS
    ensures Shl64(FromBits(SignificantBits(vDelta, l, t)), t) == vDelta
  {
    hide LowBits, FromBits, Pow2, LeadingFalse, TrailingFalse;
    var bs, n := LowBits(vDelta, 64), 64 - l - t;
    FalseRuns(bs);
    WholeWord(vDelta);
    LeadingBound(bs, l);
    TrailingMultiple(bs, t);
    var y := FromBits(bs[..64 - t]);
    PowAdd(n, t);
    ShiftBack(vDelta, y, t, n);
    FromLowBits(y, n);
    PowValues();
    WordBound(LowBits(y, n));
    ModSmall(vDelta, Pow2(64));
  }

  lemma LeadingBound(bs: Bits, l: nat)
    requires l <= |bs| && forall i :: 0 <= i < l ==> !bs[i]
    ensures FromBits(bs) < Pow2(|bs| - l)
  {
    hide FromBits, Pow2;
    assert bs == bs[..l] + bs[l..];
    FromBitsConcat(bs[..l], bs[l..]);
    AllFalse(bs[..l]);
    FromBitsBound(bs[l..]);
  }

  lemma TrailingMultiple(bs: Bits, t: nat)
    requires t <= |bs| && forall i :: |bs| - t <= i < |bs| ==> !bs[i]
    ensures FromBits(bs) == FromBits(bs[..|bs| - t]) * Pow2(t)
  {
    hide FromBits, Pow2;
    var k := |bs| - t;
    assert bs == bs[..k] + bs[k..];
    FromBitsConcat(bs[..k], bs[k..]);
    AllFalse(bs[k..]);
  }

  lemma ShiftBack(u: nat, y: nat, t: nat, n: nat)
    requires u == y * Pow2(t) && u < Pow2(n) * Pow2(t)
    ensures Shr(u, t) == y && y % Pow2(n) == y
  {
    hide Pow2;
    DivUnique(u, Pow2(t), y, 0);
    ShrBound(u, t, Pow2(n));
    ModSmall(y, Pow2(n));
  }

  lemma ApplyRoundTrip(st: State, v: Word, rest: Bits)
    requires IterOk(st) && st.leading + st.trailing <= 63
    requires var d := Delta(st.v, v);
      st.leading <= LeadingZeros(d) && st.trailing <= TrailingZeros(d)
    ensures ApplyDelta(st, SignificantBits(Delta(st.v, v), st.leading, st.trailing) + rest) == Got(st.(v := v), rest)
  {
    hide LowBits, FromBits, Shl64, Xor, LeadingZeros, TrailingZeros, ReadWord;
    var d := Delta(st.v, v);
    var bs := SignificantBits(d, st.leading, st.trailing);
    SignificantRoundTrip(d, st.leading, st.trailing);
    ReadWordOf(bs, rest);
    XorXor(st.v, v);
    XorComm(d, st.v);
  }

  lemma {:induction false} XorComm(a: nat, b: nat)
    ensures Xor(a, b) == Xor(b, a)
    decreases a + b
  {
    if a != 0 || b != 0 { XorComm(a / 2, b / 2); }
  }

  /** A window written as 5 + 6 bits is read back, 64 being written as 0. */
  lemma WindowRoundTrip(st: State, l: nat, t: nat)
    requires l <= 31 && l + t <= 63
    ensures ReadWindow(st, LowBits(l, 5) + LowBits(64 - l - t, 6)) == st.(leading := l, trailing := t)
  {
    hide LowBits, FromBits, ReadWord, Pow2;
    var p, q := LowBits(l, 5), LowBits(64 - l - t, 6);
    ReadWordOf(p, q);
    ReadWordOf(q, []);
    Seqs.Nothing(q);
    Seqs.Shift(p, q, 0, 6);
    FromLowBits(l, 5);
    FromLowBits(64 - l - t, 6);
    WindowPowers();
    ModSmall(l, 32);
  }

  lemma WindowPowers()
    ensures Pow2(5) == 32 && Pow2(6) == 64
  {
  }

  lemma ValueRoundTrip(a: State, st: State, v: Word, rest: Bits)
    requires Linked(a, st)
    ensures var b := NextWindow(a, v).(v := v);
      && DecodeValue(st, ValueBits(a, v) + rest) == Got(Landed(st, b), rest)
      && Linked(b, Landed(st, b))
  {
    hide LowBits, FromBits, Xor, LeadingZeros, TrailingZeros, SignificantBits, ReadWindow, ApplyDelta;
    var d := Delta(a.v, v);
    var bs := ValueBits(a, v) + rest;
    WindowFits(d);
    if d == 0 {
      XorXor(a.v, v);
      assert bs[1..] == rest;
    } else if Reuses(a, d) {
      assert bs[2..] == SignificantBits(d, a.leading, a.trailing) + rest;
      ApplyRoundTrip(st, v, rest);
    } else {
      var l, t := Clamped(d), TrailingZeros(d);
      var w := LowBits(l, 5) + LowBits(64 - l - t, 6);
      var sig := SignificantBits(d, l, t);
      assert bs[2..13] == w;
      assert bs[13..] == sig + rest;
      WindowRoundTrip(st, l, t);
      ApplyRoundTrip(st.(leading := l, trailing := t), v, rest);
    }
  }

  /** Next inverts Append: it finds the sample, lands in the linked state and
      consumes exactly the bits that were written. */
  lemma SampleRoundTrip(a: State, st: State, num: nat, s: WordSample, rest: Bits)
    requires Linked(a, st) && (num == 0 ==> st == FRESH && a.leading == NO_WINDOW)
    ensures var b := Advanced(a, num, s);
      && DecodeNext(num, st, SampleBits(a, num, s) + rest) == Got(Landed(st, b), rest)
      && Linked(b, Landed(st, b))
  {
    hide LowBits, StreamBits, Uvarint, TakeUvarint, DodBits, ReadDod, ValueBits, DecodeValue, NextWindow, Advanced,
         Linked, Landed;
    PowValues();
    if num == 0 {
      FirstRoundTrip(a, st, s, rest);
    } else {
      var d, tail := Sub(s.t, a.t), ValueBits(a, s.v);
      Seqs.Associate(TimeBits(a, num, s.t), tail, rest);
      LaterRoundTrip(a, st, num, s, rest);
      AddSub(a.t, s.t);
      AddSub(a.tDelta, d);
      if num == 1 {
        UvarintRoundTrip(d, 0, 0, tail + rest);
      } else {
        DodRoundTrip(Sub(d, a.tDelta), tail + rest);
      }
    }
  }

  /** Behind the time of a later sample, its value. */
  lemma LaterRoundTrip(a: State, st: State, num: nat, s: WordSample, rest: Bits)
    requires Linked(a, st) && num > 0
    ensures var b := Advanced(a, num, s);
      && DecodeValue(st.(tDelta := Sub(s.t, a.t), t := s.t), ValueBits(a, s.v) + rest) == Got(Landed(st, b), rest)
      && Linked(b, Landed(st, b))
    ensures st.t == a.t && st.tDelta == a.tDelta
  {
    hide ValueBits, DecodeValue, NextWindow, Sub;
    var d := Sub(s.t, a.t);
    WindowOnly(a, d, s.t, s.v);
    ValueRoundTrip(a.(tDelta := d, t := s.t), st.(tDelta := d, t := s.t), s.v, rest);
  }

  lemma FirstRoundTrip(a: State, st: State, s: WordSample, rest: Bits)
    requires Linked(a, st) && st == FRESH && a.leading == NO_WINDOW
    ensures var b := Advanced(a, 0, s);
      && DecodeNext(0, st, SampleBits(a, 0, s) + rest) == Got(Landed(st, b), rest)
      && Linked(b, Landed(st, b))
  {
    hide LowBits, StreamBits, Uvarint, TakeUvarint, ReadDod, DecodeValue, NextWindow;
    PowValues();
    var tail := LowBits(s.v, 64);
    Seqs.Associate(TimeBits(a, 0, s.t), tail, rest);
    UvarintRoundTrip(ZigZag(s.t), 0, 0, tail + rest);
    UnZigZagZigZag(s.t);
    ReadWordOf(tail, rest);
    WholeWord(s.v);
  }

  lemma AddSub(a: Word, b: Word)
    ensures Add(a, Sub(b, a)) == b
  {
  }

  /** The value bits depend on the previous value and its window alone. */
  lemma WindowOnly(a: State, d: Word, t: Word, v: Word)
    requires WindowOk(a)
    ensures var b := a.(tDelta := d, t := t);
      ValueBits(b, v) == ValueBits(a, v) && NextWindow(b, v) == NextWindow(a, v).(tDelta := d, t := t)
  {
    hide Delta, SignificantBits, LowBits;
  }
}
