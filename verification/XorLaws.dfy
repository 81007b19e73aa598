/** What a chunk costs and when it cannot be read: the number of bits of each time and
    value, which window of bits a value uses, and chunks that are cut off. */
module XorLaws {
  import opened Options
  import opened Words
  import opened Bits
  import opened BStreams
  import opened Varints
  import opened XorCodec
  import opened XorChunks
  import Seqs

  /* Sizes */

  /** One bit for an even step, and otherwise the smallest of four sizes. */
  lemma DodSize(dod: Word)
    ensures var d := Signed(dod);
            |DodBits(dod)| == if d == 0 then 1 else if -8191 <= d <= 8192 then 16
                              else if -65535 <= d <= 65536 then 20 else if -524287 <= d <= 524288 then 24 else 68
    ensures var bs := DodBits(dod);
            match |bs|
            case 1 => bs == [false]
            case 16 => bs[..2] == [true, false]
            case 20 => bs[..3] == [true, true, false]
            case 24 => bs[..4] == [true, true, true, false]
            case _ => bs[..4] == [true, true, true, true]
  {
    BucketPowers();
  }

  /** The bits of a word outside a window are clear. */
  ghost predicate InWindow(v: Word, leading: nat, trailing: nat) {
    forall k :: 0 <= k < 64 && (k < trailing || 64 - leading <= k) ==> !TestBit(v, k)
  }

  lemma {:induction false} TrailingEnds(bs: Bits)
    ensures TrailingFalse(bs) < |bs| ==> bs[|bs| - 1 - TrailingFalse(bs)]
    decreases |bs|
  {
    if |bs| > 0 && !bs[|bs| - 1] {
      TrailingEnds(bs[..|bs| - 1]);
    }
  }

  lemma LeadingClear(v: Word, k: nat)
    requires 64 - LeadingZeros(v) <= k < 64
    ensures !TestBit(v, k)
  {
    hide TestBit;
    var bs := LowBits(v, 64);
    LeadingRun(bs);
    assert !bs[63 - k] && bs[63 - k] == TestBit(v, k);
  }

  lemma LeadingExactly(v: Word, l: nat)
    requires l <= 64
    ensures l <= LeadingZeros(v) <==> forall k :: 0 <= k < 64 && 64 - l <= k ==> !TestBit(v, k)
  {
    hide TestBit;
    hide LeadingZeros;
    var n := LeadingZeros(v);
    if l <= n {
      forall k | 0 <= k < 64 && 64 - l <= k ensures !TestBit(v, k) {
        LeadingClear(v, k);
      }
    } else {
      LeadingSet(v, 63 - n);
    }
  }

  lemma LeadingSet(v: Word, k: nat)
    requires LeadingZeros(v) == 63 - k
    ensures TestBit(v, k)
  {
    hide TestBit;
    var bs := LowBits(v, 64);
    LeadingRun(bs);
    assert bs[63 - k] == TestBit(v, k);
  }

  lemma TrailingClear(v: Word, k: nat)
    requires k < TrailingZeros(v)
    ensures !TestBit(v, k)
  {
    hide TestBit;
    var bs := LowBits(v, 64);
    TrailingRun(bs);
    assert !bs[63 - k] && bs[63 - k] == TestBit(v, k);
  }

  lemma TrailingSet(v: Word, k: nat)
    requires TrailingZeros(v) == k < 64
    ensures TestBit(v, k)
  {
    hide TestBit;
    var bs := LowBits(v, 64);
    TrailingEnds(bs);
    assert bs[63 - k] == TestBit(v, k);
  }

  lemma TrailingExactly(v: Word, t: nat)
    requires t <= 64
    ensures t <= TrailingZeros(v) <==> forall k :: 0 <= k < 64 && k < t ==> !TestBit(v, k)
  {
    hide TestBit, TrailingZeros;
    var n := TrailingZeros(v);
    if t <= n {
      forall k | 0 <= k < 64 && k < t ensures !TestBit(v, k) {
        TrailingClear(v, k);
      }
    } else {
      TrailingSet(v, n);
    }
  }

  /** A window is reused exactly if there is one and the new difference lies inside it. */
  lemma ReusesExactly(a: State, vDelta: Word)
    requires WindowOk(a)
    ensures Reuses(a, vDelta) <==> a.leading != NO_WINDOW && InWindow(vDelta, a.leading, a.trailing)
  {
    hide LeadingZeros, TrailingZeros, InWindow;
    if a.leading != NO_WINDOW {
      InWindowExactly(vDelta, a.leading, a.trailing);
    }
  }

  lemma InWindowExactly(v: Word, l: nat, t: nat)
    requires l + t <= 64
    ensures InWindow(v, l, t) <==> l <= LeadingZeros(v) && t <= TrailingZeros(v)
  {
    hide LeadingZeros, TrailingZeros, TestBit;
    LeadingExactly(v, l);
    TrailingExactly(v, t);
    if l <= LeadingZeros(v) && t <= TrailingZeros(v) {
      forall k | 0 <= k < 64 && (k < t || 64 - l <= k) ensures !TestBit(v, k) {
      }
    }
  }

  /** An unchanged value takes one bit. A window that is reused takes two more than its own
      size; a new one takes thirteen more, and is the smallest that holds the difference,
      but for a limit of 31 on the zeros in front. */
  lemma ValueSize(a: State, v: Word)
    requires WindowOk(a)
    ensures var d := Delta(a.v, v); var b := NextWindow(a, v);
            if v == a.v then |ValueBits(a, v)| == 1 && b == a
            else if a.leading != NO_WINDOW && InWindow(d, a.leading, a.trailing) then
              |ValueBits(a, v)| == 2 + (64 - a.leading - a.trailing) && b == a
            else
              && |ValueBits(a, v)| == 13 + (64 - b.leading - b.trailing) && InWindow(d, b.leading, b.trailing)
              && TestBit(d, b.trailing) && (b.leading < 31 ==> TestBit(d, 63 - b.leading)) && b.leading <= 31
    ensures var bs := ValueBits(a, v); var b := NextWindow(a, v);
            if |bs| == 1 then bs == [false]
            else if b == a && Reuses(a, Delta(a.v, v)) then bs[..2] == [true, false]
            else bs[..2] == [true, true] && bs[2..7] == LowBits(b.leading, 5)
                 && bs[7..13] == LowBits(64 - b.leading - b.trailing, 6)
  {
    hide TestBit, LowBits, LeadingZeros, TrailingZeros, InWindow;
    var d := Delta(a.v, v);
    DeltaZero(a.v, v);
    WindowFits(d);
    hide Delta;
    ReusesExactly(a, d);
    if d != 0 && !Reuses(a, d) {
      NewWindow(d);
      hide Reuses, Clamped;
    }
  }

  lemma NewWindow(d: Word)
    requires d != 0
    ensures var l, t := Clamped(d), TrailingZeros(d);
            l + t <= 63 && InWindow(d, l, t) && TestBit(d, t) && (l < 31 ==> TestBit(d, 63 - l)) && l <= 31
  {
    hide TestBit, LeadingZeros, TrailingZeros, InWindow;
    var l, t := Clamped(d), TrailingZeros(d);
    WindowFits(d);
    InWindowExactly(d, l, t);
    TrailingExactly(d, t);
    TrailingExactly(d, t + 1);
    if l < 31 {
      LeadingExactly(d, l);
      LeadingExactly(d, l + 1);
    }
  }

  lemma DeltaZero(p: Word, v: Word)
    ensures Delta(p, v) == 0 <==> p == v
  {
    XorXor(p, v);
    hide Xor;
  }

  /* Chunks that are cut off */

  lemma {:induction false} UvarintLonger(bs: Bits, x: Word, i: nat, t: Bits)
    requires TakeUvarint(bs, x, i).Some?
    ensures var r := TakeUvarint(bs, x, i).value; TakeUvarint(bs + t, x, i) == Some((r.0, r.1 + t))
    decreases |bs|
  {
    hide Gather, ByteOf;
    assert (bs + t)[..8] == bs[..8] && (bs + t)[8..] == bs[8..] + t;
    if ByteOf(bs[..8]) >= 128 {
      UvarintLonger(bs[8..], Gather(x, ByteOf(bs[..8]) % 128, i), i + 1, t);
    }
  }

  lemma WordLonger(bs: Bits, n: nat, t: Bits)
    requires n <= |bs| && n <= 64
    ensures ReadWord(bs + t, n) == ReadWord(bs, n) && (bs + t)[n..] == bs[n..] + t
  {
    hide FromBits;
    assert (bs + t)[..n] == bs[..n];
  }

  lemma SizedLonger(bs: Bits, sz: nat, t: Bits)
    requires 1 <= sz <= 64 && SizedDod(bs, sz).Some?
    ensures var r := SizedDod(bs, sz).value; SizedDod(bs + t, sz) == Some((r.0, r.1 + t))
  {
    hide ReadWord, Pow2;
    WordLonger(bs, sz, t);
  }

  lemma DodLonger(bs: Bits, t: Bits)
    requires ReadDod(bs).Some?
    ensures var r := ReadDod(bs).value; ReadDod(bs + t) == Some((r.0, r.1 + t))
  {
    hide ReadWord, SizedDod;
    var u := bs + t;
    Starts(bs, t, 1);
    if bs[0] {
      Starts(bs, t, 2);
      if !bs[1] {
        SizedLonger(bs[2..], 14, t);
      } else {
        Starts(bs, t, 3);
        if !bs[2] {
          SizedLonger(bs[3..], 17, t);
        } else {
          Starts(bs, t, 4);
          if !bs[3] {
            SizedLonger(bs[4..], 20, t);
          } else {
            WordLonger(bs[4..], 64, t);
            Starts(bs, t, 68);
          }
        }
      }
    }
  }

  lemma Starts(bs: Bits, t: Bits, k: nat)
    requires k <= |bs|
    ensures (bs + t)[..k] == bs[..k] && (bs + t)[k..] == bs[k..] + t
    ensures k > 0 ==> (bs + t)[k - 1] == bs[k - 1]
  {
  }

  lemma ApplyLonger(st: State, bs: Bits, t: Bits)
    requires IterOk(st) && ApplyDelta(st, bs).Got?
    ensures var r := ApplyDelta(st, bs); ApplyDelta(st, bs + t) == Got(r.state, r.rest + t)
  {
    hide ReadWord, Delta, Shl64;
    WordLonger(bs, WindowSize(st), t);
  }

  lemma ValueLonger(st: State, bs: Bits, t: Bits)
    requires IterOk(st) && DecodeValue(st, bs).Got?
    ensures var r := DecodeValue(st, bs); DecodeValue(st, bs + t) == Got(r.state, r.rest + t)
  {
    hide ReadWindow, ApplyDelta;
    Starts(bs, t, 1);
    if bs[0] {
      Starts(bs, t, 2);
      if !bs[1] {
        ApplyLonger(st, bs[2..], t);
      } else {
        Starts(bs, t, 13);
        assert (bs + t)[2..13] == bs[2..13];
        ApplyLonger(ReadWindow(st, bs[2..13]), bs[13..], t);
      }
    }
  }

  /** What is read of a sample does not depend on the bits behind it. */
  lemma NextLonger(num: nat, st: State, bs: Bits, t: Bits)
    requires IterOk(st) && DecodeNext(num, st, bs).Got?
    ensures var r := DecodeNext(num, st, bs); DecodeNext(num, st, bs + t) == Got(r.state, r.rest + t)
  {
    hide TakeUvarint, ReadDod, DecodeValue, ReadWord, UnZigZag;
    if num <= 1 {
      UvarintLonger(bs, 0, 0, t);
      var (u, rest) := TakeUvarint(bs, 0, 0).value;
      if num == 0 {
        WordLonger(rest, 64, t);
      } else {
        ValueLonger(st.(tDelta := u, t := Add(st.t, u)), rest, t);
      }
    } else {
      DodLonger(bs, t);
      var (dod, rest) := ReadDod(bs).value;
      var d := Add(st.tDelta, dod);
      ValueLonger(st.(tDelta := d, t := Add(st.t, d)), rest, t);
    }
  }

  lemma {:induction false} AllLonger(num: nat, st: State, bs: Bits, n: nat, t: Bits)
    requires IterOk(st) && DecodeAll(num, st, bs, n).Some?
    ensures var r := DecodeAll(num, st, bs, n).value;
            DecodeAll(num, st, bs + t, n) == Some(r.(rest := r.rest + t))
    decreases n
  {
    hide DecodeNext;
    if n > 0 {
      var d := DecodeNext(num, st, bs);
      NextOk(num, st, bs);
      NextLonger(num, st, bs, t);
      AllLonger(num + 1, d.state, d.rest, n - 1, t);
    }
  }

  /** An encoding that has lost any bits at its end does not decode: there is no sample
      that missing bits would make up. */
  lemma CutChunkFails(bs: Bits, list: seq<WordSample>, st: State, n: nat)
    requires Encodes(bs, list, st) && n < |bs|
    ensures DecodeAll(0, FRESH, bs[..n], |list|) == None
  {
    hide DecodeAll;
    if DecodeAll(0, FRESH, bs[..n], |list|).Some? {
      var r := DecodeAll(0, FRESH, bs[..n], |list|).value;
      AllLonger(0, FRESH, bs[..n], |list|, bs[n..]);
      Seqs.Parts(bs, n);
      EncodesYields(bs, [], list, st);
      Seqs.Nothing(bs);
    }
  }

  /** A number takes ten bytes at most, also in a chunk, and the tenth adds a single bit. */
  lemma {:induction false} UvarintFits(bs: Bits, x: Word, i: nat)
    requires TakeUvarint(bs, x, i).Some?
    ensures var rest := TakeUvarint(bs, x, i).value.1; |rest| + 8 <= |bs| <= |rest| + 8 * (10 - i)
    ensures i == 9 ==> ByteOf(bs[..8]) <= 1
    decreases |bs|
  {
    hide Gather, ByteOf;
    if ByteOf(bs[..8]) >= 128 {
      UvarintFits(bs[8..], Gather(x, ByteOf(bs[..8]) % 128, i), i + 1);
    }
  }
}
