/** Chunks of many samples: chunkenc/xor.go's XORChunk, xorAppender and
    xorIterator over the bit stream, and what a whole run of appends leaves. */
module XorChunks {
  import opened Options
  import opened Words
  import opened Bits
  import opened BStreams
  import opened Varints
  import opened XorCodec
  import Seqs

  // ---------- decoding many samples ----------

  datatype Samples = Samples(list: seq<WordSample>, state: State, rest: Bits)

  /** The result of n calls of Next from sample number num on. */
  function DecodeAll(num: nat, st: State, bs: Bits, n: nat): Option<Samples>
    requires IterOk(st)
    decreases n
  {
    if n == 0 then Some(Samples([], st, bs)) else
    match DecodeNext(num, st, bs)
    case Failed => None
    case Got(st1, rest) =>
      NextOk(num, st, bs);
      match DecodeAll(num + 1, st1, rest, n - 1)
      case None => None
      case Some(r) => Some(r.(list := [WordSample(st1.t, st1.v)] + r.list))
  }

  /** Whatever Next reads, the window it keeps stays usable. */
  lemma NextOk(num: nat, st: State, bs: Bits)
    requires IterOk(st)
    ensures DecodeNext(num, st, bs).Got? ==> IterOk(DecodeNext(num, st, bs).state)
  {
    hide TakeUvarint, ReadDod, ReadWindow, ReadWord;
  }

  lemma {:induction false} DecodeSnoc(num: nat, st: State, bs: Bits, n: nat)
    requires IterOk(st)
    requires DecodeAll(num, st, bs, n).Some?
    ensures IterOk(DecodeAll(num, st, bs, n).value.state)
    ensures var r := DecodeAll(num, st, bs, n).value;
      DecodeNext(num + n, r.state, r.rest).Got? ==>
        var q := DecodeNext(num + n, r.state, r.rest);
        DecodeAll(num, st, bs, n + 1)
        == Some(Samples(r.list + [WordSample(q.state.t, q.state.v)], q.state, q.rest))
    decreases n
  {
    hide DecodeNext;
    NextOk(num, st, bs);
    if n > 0 {
      var d := DecodeNext(num, st, bs);
      DecodeSnoc(num + 1, d.state, d.rest, n - 1);
      var t := DecodeAll(num + 1, d.state, d.rest, n - 1).value;
      var q := DecodeNext(num + n, t.state, t.rest);
      assert num + 1 + (n - 1) == num + n;
      if q.Got? {
        var x, y := WordSample(d.state.t, d.state.v), WordSample(q.state.t, q.state.v);
        assert [x] + (t.list + [y]) == ([x] + t.list) + [y];
      }
    } else {
      var q := DecodeNext(num, st, bs);
      if q.Got? {
        var y := WordSample(q.state.t, q.state.v);
        assert DecodeAll(num + 1, q.state, q.rest, 0) == Some(Samples([], q.state, q.rest));
        assert DecodeAll(num, st, bs, 1) == Some(Samples([y] + [], q.state, q.rest));
        assert [y] + [] == [] + [y];
      }
    }
  }

  /** bs, whatever follows it, is decoded to exactly these samples. */
  ghost predicate Encodes(bs: Bits, list: seq<WordSample>, st: State) {
    forall rest: Bits :: DecodeAll(0, FRESH, bs + rest, |list|) == Some(Samples(list, st, rest))
  }

  lemma EncodesYields(bs: Bits, rest: Bits, list: seq<WordSample>, st: State)
    requires Encodes(bs, list, st)
    ensures DecodeAll(0, FRESH, bs + rest, |list|) == Some(Samples(list, st, rest))
  {
    hide DecodeAll;
  }

  /** The appender that continues after list, when an iterator ends in st. */
  predicate Continues(a: State, list: seq<WordSample>, st: State) {
    Linked(a, st) && (|list| == 0 ==> st == FRESH && a.leading == NO_WINDOW)
  }

  lemma AppendEncodes(bs: Bits, list: seq<WordSample>, st: State, a: State, s: WordSample)
    requires Encodes(bs, list, st) && Continues(a, list, st)
    ensures var b := Advanced(a, |list|, s);
      && Encodes(bs + SampleBits(a, |list|, s), list + [s], Landed(st, b))
      && Continues(b, list + [s], Landed(st, b))
  {
    hide SampleBits, DecodeNext, DecodeAll;
    var enc, st1 := SampleBits(a, |list|, s), Landed(st, Advanced(a, |list|, s));
    SampleRoundTrip(a, st, |list|, s, []);
    forall rest: Bits
      ensures DecodeAll(0, FRESH, (bs + enc) + rest, |list| + 1) == Some(Samples(list + [s], st1, rest))
    {
      Seqs.Associate(bs, enc, rest);
      assert DecodeAll(0, FRESH, bs + (enc + rest), |list|) == Some(Samples(list, st, enc + rest));
      DecodeSnoc(0, FRESH, bs + (enc + rest), |list|);
      SampleRoundTrip(a, st, |list|, s, rest);
    }
  }

  // ---------- whole runs ----------

  /** What a user of a chunk does: append a sample, or drop the appender and
      have Appender() make a new one from the bytes. */
  datatype Op = Append(s: WordSample) | Reopen

  datatype Run = Run(bits: Bits, list: seq<WordSample>, app: State)

  const EMPTY := Run([], [], FRESH.(leading := NO_WINDOW))

  /** The appender that Appender() builds from an iterator that ended in st. */
  function Remade(st: State, n: nat): State {
    if n == 0 then st.(leading := NO_WINDOW) else st
  }

  function Step(r: Run, op: Op): (q: Run)
    requires WindowOk(r.app)
    ensures WindowOk(q.app)
  {
    match op
    case Append(s) => Run(r.bits + SampleBits(r.app, |r.list|, s), r.list + [s], Advanced(r.app, |r.list|, s))
    case Reopen =>
      match DecodeAll(0, FRESH, r.bits, |r.list|)
      case None => r
      case Some(d) => if WindowOk(Remade(d.state, |r.list|)) then r.(app := Remade(d.state, |r.list|)) else r
  }

  function Perform(ops: seq<Op>): (r: Run)
    ensures WindowOk(r.app)
  {
    if |ops| == 0 then EMPTY else Step(Perform(ops[..|ops| - 1]), ops[|ops| - 1])
  }

  /** The samples that a run appends. */
  function Appended(ops: seq<Op>): seq<WordSample> {
    if |ops| == 0 then []
    else Appended(ops[..|ops| - 1]) + match ops[|ops| - 1] { case Append(s) => [s] case Reopen => [] }
  }

  /** The bits of every run, wherever the appender was re-made, decode to exactly
      the appended samples, with whatever follows the bits left unread. */
  lemma {:induction false} RunRoundTrip(ops: seq<Op>, rest: Bits)
    ensures var r := Perform(ops);
      exists st :: DecodeAll(0, FRESH, r.bits + rest, |Appended(ops)|) == Some(Samples(Appended(ops), st, rest))
  {
    var st := RunEncodes(ops);
    assert DecodeAll(0, FRESH, Perform(ops).bits + rest, |Appended(ops)|) == Some(Samples(Appended(ops), st, rest));
  }

  lemma {:induction false} RunEncodes(ops: seq<Op>) returns (st: State)
    ensures var r := Perform(ops);
      r.list == Appended(ops) && Encodes(r.bits, r.list, st) && Continues(r.app, r.list, st)
  {
    hide SampleBits, Advanced, DecodeAll;
    if |ops| == 0 {
      st := FRESH;
      NothingEncodes();
    } else {
      var init, op := ops[..|ops| - 1], ops[|ops| - 1];
      var r := Perform(init);
      st := RunEncodes(init);
      match op
      case Append(s) =>
        AppendEncodes(r.bits, r.list, st, r.app, s);
        st := Landed(st, Advanced(r.app, |r.list|, s));
      case Reopen =>
        assert r.bits == r.bits + [];
        assert DecodeAll(0, FRESH, r.bits, |r.list|) == Some(Samples(r.list, st, []));
        RemadeContinues(r.app, r.list, st);
    }
  }

  lemma RemadeContinues(a: State, list: seq<WordSample>, st: State)
    requires Continues(a, list, st)
    ensures Continues(Remade(st, |list|), list, st)
  {
  }

  lemma NothingEncodes()
    ensures Encodes([], [], FRESH)
  {
    assert forall rest: Bits :: [] + rest == rest;
  }

  // ---------- the chunk and its header ----------

  /** As many as the 16-bit counter can tell. */
  const MAX_SAMPLES := 65535

  /** The sample count that a chunk's first two bytes hold. */
  function Header(s: seq<Byte>): nat
    requires |s| >= 2
  {
    (s[0] as int) * 256 + s[1]
  }

  lemma HeaderBits(s: seq<Byte>, count: nat, x: Byte, y: Byte)
    requires |s| >= 2 && count <= 8 && (count == 0 || |s| >= 3)
    requires LowClear(s[|s| - 1], count)
    ensures Produced(s[0 := x][1 := y], count)[16..] == Produced(s, count)[16..]
    ensures LowClear(s[0 := x][1 := y][|s| - 1], count)
  {
    hide ByteBits, StreamBits, Produced, LowClear;
    HeaderTail(s, x, y);
    SamePayload(s, s[0 := x][1 := y], count);
    LastByteClear(s, s[0 := x][1 := y], count);
  }

  lemma LastByteClear(s: seq<Byte>, u: seq<Byte>, count: nat)
    requires |u| == |s| >= 2 && (count == 0 || |s| >= 3) && LowClear(s[|s| - 1], count)
    requires |s| > 2 ==> u[|s| - 1] == s[|s| - 1]
    ensures LowClear(u[|s| - 1], count)
  {
    hide LowClear;
    NoneClear(u[|s| - 1]);
  }

  lemma SamePayload(s: seq<Byte>, u: seq<Byte>, count: nat)
    requires |u| == |s| >= 2 && count <= 8 && (count == 0 || |s| >= 3) && u[2..] == s[2..]
    ensures Produced(u, count)[16..] == Produced(s, count)[16..]
  {
    hide ByteBits, StreamBits, Produced;
    PayloadBits(s, count);
    PayloadBits(u, count);
  }

  lemma HeaderTail(s: seq<Byte>, x: Byte, y: Byte)
    requires |s| >= 2
    ensures s[0 := x][1 := y][2..] == s[2..] && (|s| > 2 ==> s[0 := x][1 := y][|s| - 1] == s[|s| - 1])
  {
  }

  lemma NoneClear(b: Byte)
    ensures LowClear(b, 0)
  {
  }

  /** What a writer has produced after the header, as a reader of the bytes
      behind the header finds it. */
  lemma PayloadBits(s: seq<Byte>, count: nat)
    requires |s| >= 2 && count <= 8 && (count == 0 || |s| >= 3)
    ensures StreamBits(s[2..]) == Produced(s, count)[16..] + StreamBits(s[2..])[8 * |s| - 16 - count..]
    ensures Produced(s, count)[16..] == StreamBits(s[2..])[..8 * |s| - 16 - count]
  {
    hide ByteBits, StreamBits, Produced;
    ProducedPrefix(s, count);
    StreamBitsConcat(s[..2], s[2..]);
    Seqs.Parts(s, 2);
    BehindHeader(StreamBits(s[..2]), StreamBits(s[2..]), 8 * |s| - 16 - count);
  }

  lemma BehindHeader(a: Bits, b: Bits, n: nat)
    requires n <= |b|
    ensures (a + b)[..|a| + n][|a|..] == b[..n] && b == b[..n] + b[n..]
  {
  }

  lemma ProducedPrefix(s: seq<Byte>, count: nat)
    requires |s| > 0 && count <= 8
    ensures Produced(s, count) == StreamBits(s)[..8 * |s| - count]
  {
    hide ByteBits, StreamBits;
    var a, b := StreamBits(s[..|s| - 1]), ByteBits(s[|s| - 1]);
    StreamBitsSnoc(s[..|s| - 1], s[|s| - 1]);
    assert s == s[..|s| - 1] + [s[|s| - 1]];
    TakeInto(a, b, 8 - count);
  }

  lemma TakeInto(a: Bits, b: Bits, n: nat)
    requires n <= |b|
    ensures (a + b)[..|a| + n] == a + b[..n]
  {
  }

  class XORChunk {
    var b: BStream

    ghost var list: seq<WordSample>  // the samples the chunk holds
    ghost var end: State         // where an iterator over them ends

    ghost predicate Valid()
      reads this, b
    {
      && b.ValidWriter() && |b.stream| >= 2 && |b.Settled()| >= 2
      && |list| <= MAX_SAMPLES && Header(b.stream) == |list|
      && Encodes(Payload(), list, end)
      && Continues(Remade(end, |list|), list, end)
    }

    /** The bits behind the header. */
    ghost function Payload(): Bits
      requires b.ValidWriter() && |b.stream| >= 2 && |b.Settled()| >= 2
      reads this, b
    {
      b.Written()[16..]
    }

    constructor ()
      ensures Valid() && fresh(b) && list == []
    {
      b := new BStream([0, 0], 0);
      list, end := [], FRESH;
      new;
      NothingEncodes();
      NoneClear(0);
    }

    method NumSamples() returns (n: nat)
      requires Valid()
      ensures n == |list|
    {
      n := Header(b.stream);
    }

    /** An iterator over the chunk's present bytes yields exactly its samples. */
    method Iterator() returns (it: XorIterator)
      requires Valid()
      ensures fresh(it) && fresh(it.br) && it.Valid() && !it.err && it.numRead == 0
      ensures it.Remaining().Some? && it.Remaining().value.list == list && it.Remaining().value.state == end
    {
      hide Produced, StreamBits, LowClear, DecodeAll, DecodeNext, Encodes, Linked;
      it := new XorIterator(b.stream[2..], Header(b.stream));
      PayloadBits(b.stream, b.count);
      EncodesYields(Payload(), StreamBits(b.stream[2..])[8 * |b.stream| - 16 - b.count..], list, end);
    }

    /** A fresh appender, brought by an iterator to the state that appending all
        existing samples from scratch would have left. */
    method Appender() returns (a: XorAppender?)
      requires Valid()
      ensures a != null && fresh(a) && a.chunk == this && a.b == b && a.Valid()
    {
      hide Produced, LowClear, DecodeNext, Encodes, Unread;
      var it := Iterator();
      var more := true;
      while more
        invariant fresh(it) && fresh(it.br) && it.Valid() && !it.err
        invariant it.Remaining().Some? && it.Remaining().value.state == end
        invariant more || it.numRead == it.numTotal
        decreases it.numTotal - it.numRead, more
      {
        more := it.Next();
      }
      if it.err {
        return null;
      }
      a := new XorAppender(this, it.t, it.v, it.tDelta,
                           if Header(b.stream) == 0 then NO_WINDOW else it.leading, it.trailing);
    }
  }

  class XorAppender {
    var b: BStream
    var t: Word
    var v: Word
    var tDelta: Word
    var leading: nat
    var trailing: nat

    ghost var chunk: XORChunk  // the chunk whose stream this appends to

    constructor (chunk: XORChunk, t: Word, v: Word, tDelta: Word, leading: nat, trailing: nat)
      ensures this.chunk == chunk && b == chunk.b
      ensures State() == XorCodec.State(t, v, tDelta, leading, trailing)
    {
      this.chunk, this.b := chunk, chunk.b;
      this.t, this.v, this.tDelta := t, v, tDelta;
      this.leading, this.trailing := leading, trailing;
    }

    ghost function State(): State
      reads this
    {
      XorCodec.State(t, v, tDelta, leading, trailing)
    }

    ghost predicate Valid()
      reads this, chunk, chunk.b
    {
      chunk.Valid() && chunk.b == b && Continues(State(), chunk.list, chunk.end)
    }

    /** Adds a sample to the chunk without touching the bits of earlier ones. */
    method Append(t: Word, v: Word)
      requires Valid() && |chunk.list| < MAX_SAMPLES
      modifies this, b, chunk
      ensures Valid() && b == old(b) && chunk == old(chunk)
      ensures chunk.list == old(chunk.list) + [WordSample(t, v)]
      ensures old(chunk.Payload()) <= chunk.Payload()
    {
      hide Produced, LowClear, SampleBits, Encodes, Advanced;
      ghost var before, s := State(), WordSample(t, v);
      ghost var written := b.Written();
      var num := Header(b.stream);
      var tDelta := WriteSample(num, t, v);
      this.t := t;
      this.v := v;
      HeaderBits(b.stream, b.count, (num + 1) / 256, (num + 1) % 256);
      b.stream := b.stream[0 := (num + 1) / 256][1 := (num + 1) % 256];
      this.tDelta := tDelta;
      DropAfter(written, SampleBits(before, num, s));
      AppendEncodes(written[16..], chunk.list, chunk.end, before, s);
      chunk.list, chunk.end := chunk.list + [s], Landed(chunk.end, Advanced(before, num, s));
      RemadeContinues(State(), chunk.list, chunk.end);
    }

    /** The bits of sample number num, and its time delta. */
    method WriteSample(num: nat, t: Word, v: Word) returns (tDelta: Word)
      requires b.ValidWriter() && WindowOk(State())
      modifies `leading, `trailing, b
      ensures b.ValidWriter() && b.Written() == old(b.Written()) + old(SampleBits(State(), num, WordSample(t, v)))
      ensures old(b.Settled()) <= b.Settled()
      ensures State().(t := t, v := v, tDelta := tDelta) == old(Advanced(State(), num, WordSample(t, v)))
    {
      hide Produced, LowClear, StreamBits, SampleBits, ValueBits, DodBits, Uvarint, ZigZag, LowBits, NextWindow;
      SampleParts(State(), num, WordSample(t, v), b.Written());
      tDelta := 0;
      if num == 0 {
        WriteUvarint(b, ZigZag(t));
        b.WriteBits(v, 64);
      } else if num == 1 {
        tDelta := Sub(t, this.t);
        WriteUvarint(b, tDelta);
        WriteVDelta(v);
      } else {
        tDelta := Sub(t, this.t);
        WriteDod(Sub(tDelta, this.tDelta));
        WriteVDelta(v);
      }
    }

    /** The delta of deltas in the narrowest bucket it fits. */
    method WriteDod(dod: Word)
      requires b.ValidWriter()
      modifies b
      ensures b.ValidWriter() && b.Written() == old(b.Written()) + DodBits(dod)
      ensures old(b.Settled()) <= b.Settled()
    {
      hide Produced, LowClear, StreamBits, LowBits, BitRange;
      PrefixBits();
      ghost var w := b.Written();
      if dod == 0 {
        b.WriteBit(false);
      } else if BitRange(Signed(dod), 14) {
        b.WriteBits(0x02, 2);
        b.WriteBits(dod, 14);
        Seqs.Associate(w, [true, false], LowBits(dod, 14));
      } else if BitRange(Signed(dod), 17) {
        b.WriteBits(0x06, 3);
        b.WriteBits(dod, 17);
        Seqs.Associate(w, [true, true, false], LowBits(dod, 17));
      } else if BitRange(Signed(dod), 20) {
        b.WriteBits(0x0e, 4);
        b.WriteBits(dod, 20);
        Seqs.Associate(w, [true, true, true, false], LowBits(dod, 20));
      } else {
        b.WriteBits(0x0f, 4);
        b.WriteBits(dod, 64);
        Seqs.Associate(w, [true, true, true, true], LowBits(dod, 64));
      }
    }

    /** The bits in which v differs from the previous value, in the window last
        used if they fit it and in a new one otherwise. */
    method WriteVDelta(v: Word)
      requires b.ValidWriter() && WindowOk(State())
      modifies `leading, `trailing, b
      ensures b.ValidWriter() && b.Written() == old(b.Written()) + old(ValueBits(State(), v))
      ensures old(b.Settled()) <= b.Settled()
      ensures State() == old(NextWindow(State(), v))
    {
      hide BStream.ValidWriter, BStream.Written, BStream.Settled, LowBits, LeadingZeros, TrailingZeros, Delta,
           SignificantBits, ValueBits;
      ghost var w, was := b.Written(), State();
      ValueParts(was, v);
      var vDelta := Delta(this.v, v);
      if vDelta == 0 {
        b.WriteBit(false);
        return;
      }
      b.WriteBit(true);
      Seqs.Snoc(w, true);
      WindowFits(vDelta);
      var leading, trailing := LeadingZeros(vDelta), TrailingZeros(vDelta);
      if leading >= 32 {
        leading := 31;
      }
      if this.leading != NO_WINDOW && leading >= this.leading && trailing >= this.trailing {
        b.WriteBit(false);
        WriteSignificant(vDelta, this.leading, this.trailing);
        RegroupReused(w, SignificantBits(vDelta, this.leading, this.trailing));
        assert Reuses(was, vDelta);
      } else {
        this.leading, this.trailing := leading, trailing;
        WriteNewWindow(vDelta, leading, trailing);
        assert !Reuses(was, vDelta);
      }
    }

    /** A new window, of 5 and 6 bits, and the bits in it. */
    method WriteNewWindow(vDelta: Word, leading: nat, trailing: nat)
      requires b.ValidWriter() && leading <= 31 && leading + trailing <= 63
      requires b.Written() != [] && b.Written()[|b.Written()| - 1]
      modifies b
      ensures b.ValidWriter()
      ensures b.Written() == old(b.Written()[..|b.Written()| - 1])
                + ([true, true] + LowBits(leading, 5) + LowBits(64 - leading - trailing, 6)
                   + SignificantBits(vDelta, leading, trailing))
      ensures old(b.Settled()) <= b.Settled()
    {
      hide Produced, LowClear, LowBits, SignificantBits;
      ghost var w := b.Written();
      Seqs.Parts(w, |w| - 1);
      b.WriteBit(true);
      b.WriteBits(leading, 5);
      // 64 significant bits do not fit six bits and are written as 0.
      var sigbits := 64 - leading - trailing;
      b.WriteBits(sigbits, 6);
      WriteSignificant(vDelta, leading, trailing);
      assert w == w[..|w| - 1] + [true];
      RegroupWindow(w[..|w| - 1], LowBits(leading, 5), LowBits(sigbits, 6), SignificantBits(vDelta, leading, trailing));
    }

    /** vDelta without its leading and trailing zeros. */
    method WriteSignificant(vDelta: Word, leading: nat, trailing: nat)
      requires b.ValidWriter() && leading + trailing <= 64
      modifies b
      ensures b.ValidWriter() && b.Written() == old(b.Written()) + SignificantBits(vDelta, leading, trailing)
      ensures old(b.Settled()) <= b.Settled()
    {
      hide Produced, LowClear, LowBits, Shr;
      ShrAtMost(vDelta, trailing);
      b.WriteBits(Shr(vDelta, trailing), 64 - leading - trailing);
    }
  }

  lemma SampleParts(a: State, num: nat, s: WordSample, w: Bits)
    requires WindowOk(a)
    ensures num == 0 ==> w + StreamBits(Uvarint(ZigZag(s.t))) + LowBits(s.v, 64) == w + SampleBits(a, num, s)
    ensures num == 1 ==> w + StreamBits(Uvarint(Sub(s.t, a.t))) + ValueBits(a, s.v) == w + SampleBits(a, num, s)
    ensures num > 1 ==>
              w + DodBits(Sub(Sub(s.t, a.t), a.tDelta)) + ValueBits(a, s.v) == w + SampleBits(a, num, s)
  {
    hide LowBits, StreamBits, Uvarint, ZigZag, ValueBits, DodBits;
    Seqs.Associate(w, TimeBits(a, num, s.t), if num == 0 then LowBits(s.v, 64) else ValueBits(a, s.v));
  }

  lemma ValueParts(a: State, v: Word)
    requires WindowOk(a)
    ensures var d := Delta(a.v, v);
            && (d != 0 ==> Clamped(d) + TrailingZeros(d) <= 63)
            && ValueBits(a, v) ==
               (if d == 0 then [false]
                else if Reuses(a, d) then [true, false] + SignificantBits(d, a.leading, a.trailing)
                else [true, true] + LowBits(Clamped(d), 5) + LowBits(64 - Clamped(d) - TrailingZeros(d), 6)
                     + SignificantBits(d, Clamped(d), TrailingZeros(d)))
  {
    WindowFits(Delta(a.v, v));
    hide LowBits, SignificantBits, Delta, LeadingZeros, TrailingZeros;
  }

  lemma DropAfter(w: Bits, c: Bits)
    requires |w| >= 16
    ensures (w + c)[16..] == w[16..] + c
  {
  }

  lemma RegroupReused(w: Bits, c: Bits)
    ensures w + [true] + [false] + c == w + ([true, false] + c)
  {
  }

  lemma RegroupWindow(w: Bits, p: Bits, q: Bits, c: Bits)
    ensures w + [true] + [true] + p + q + c == w + ([true, true] + p + q + c)
  {
  }

  lemma PrefixBits()
    ensures LowBits(0x02, 2) == [true, false] && LowBits(0x06, 3) == [true, true, false]
    ensures LowBits(0x0e, 4) == [true, true, true, false] && LowBits(0x0f, 4) == [true, true, true, true]
  {
    assert TestBit(0x02, 0) == false && TestBit(0x02, 1);
    assert !TestBit(0x06, 0) && TestBit(0x06, 1) && TestBit(0x06, 2);
    assert !TestBit(0x0e, 0) && TestBit(0x0e, 1) && TestBit(0x0e, 2) && TestBit(0x0e, 3);
    assert TestBit(0x0f, 0) && TestBit(0x0f, 1) && TestBit(0x0f, 2) && TestBit(0x0f, 3);
  }

  /** PutUvarint into a buffer, then its bytes one by one into the stream. */
  method WriteUvarint(b: BStream, x: Word)
    requires b.ValidWriter()
    modifies b
    ensures b.ValidWriter() && b.Written() == old(b.Written()) + StreamBits(Uvarint(x))
    ensures old(b.Settled()) <= b.Settled()
  {
    hide BStream.ValidWriter, BStream.Written, BStream.Settled, StreamBits, ByteBits, Uvarint;
    var buf := Uvarint(x);
    ghost var w := b.Written();
    NoBitsYet(w);
    for i := 0 to |buf|
      invariant b.ValidWriter() && b.Written() == w + StreamBits(buf[..i])
      invariant old(b.Settled()) <= b.Settled()
    {
      StreamBitsSnoc(buf[..i], buf[i]);
      Seqs.Prefix(buf, i);
      Seqs.Associate(w, StreamBits(buf[..i]), ByteBits(buf[i]));
      b.WriteByte(buf[i]);
    }
    Seqs.Parts(buf, |buf|);
  }

  lemma NoBitsYet(w: Bits)
    ensures w + StreamBits([]) == w
  {
  }

  class XorIterator {
    var br: BStream
    var numTotal: nat
    var numRead: nat
    var t: Word
    var v: Word
    var leading: nat
    var trailing: nat
    var tDelta: Word
    var err: bool

    constructor (bytes: seq<Byte>, numTotal: nat)
      ensures fresh(br) && br.ValidReader() && br.ToRead() == StreamBits(bytes)
      ensures State() == FRESH && this.numTotal == numTotal && numRead == 0 && !err
    {
      br := new BStream.Reader(bytes);
      this.numTotal, numRead, err := numTotal, 0, false;
      t, v, leading, trailing, tDelta := 0, 0, 0, 0, 0;
    }

    ghost function State(): State
      reads this
    {
      XorCodec.State(t, v, tDelta, leading, trailing)
    }

    ghost predicate Valid()
      reads this, br
    {
      br.ValidReader() && IterOk(State()) && numRead <= numTotal
    }

    /** What the remaining calls of Next will deliver. */
    ghost function Remaining(): Option<Samples>
      requires Valid()
      reads this, br
    {
      DecodeAll(numRead, State(), br.ToRead(), numTotal - numRead)
    }

    /** Delivers the next decoded sample; stops at the end of the chunk and, for
        good, at the first sample that cannot be decoded. */
    method Next() returns (ok: bool)
      requires Valid()
      modifies this, br
      ensures Valid() && br == old(br) && numTotal == old(numTotal)
      ensures old(err || numRead == numTotal) ==> !ok && err == old(err) && Remaining() == old(Remaining())
      ensures !old(err || numRead == numTotal) ==>
        match old(DecodeNext(numRead, State(), br.ToRead()))
        case Failed => !ok && err && numRead == old(numRead)
        case Got(st, rest) => ok && !err && State() == st && br.ToRead() == rest && numRead == old(numRead) + 1
      ensures !old(err) && old(Remaining()).Some? ==>
                && !err && (ok <==> old(Remaining()).value.list != [])
                && (ok ==>
                      && WordSample(t, v) == old(Remaining()).value.list[0]
                      && Remaining() == Some(old(Remaining()).value.(list := old(Remaining()).value.list[1..])))
    {
      hide TakeUvarint, ReadDod, DecodeValue, FromBits, Unread;
      if err || numRead == numTotal {
        return false;
      }
      if numRead == 0 {
        var u := ReadUvarint(br);
        if u.Eof? {
          err := true;
          return false;
        }
        var bits := br.ReadBits(64);
        if bits.Eof? {
          err := true;
          return false;
        }
        t, v := UnZigZag(u.value), bits.value;
        numRead := numRead + 1;
        return true;
      }
      if numRead == 1 {
        var d := ReadUvarint(br);
        if d.Eof? {
          err := true;
          return false;
        }
        tDelta := d.value;
        t := Add(t, tDelta);
        ok := ReadValue();
        return;
      }
      var dod := ReadDelta();
      if dod.Eof? {
        err := true;
        return false;
      }
      tDelta := Add(tDelta, dod.value);
      t := Add(t, tDelta);
      ok := ReadValue();
    }

    /** The delta of deltas: up to four prefix bits, then the bucket they select. */
    method ReadDelta() returns (r: Read<Word>)
      requires Valid()
      modifies br
      ensures Valid()
      ensures match old(ReadDod(br.ToRead()))
              case None => r.Eof?
              case Some((dod, rest)) => r == Ok(dod) && br.ToRead() == rest
    {
      hide FromBits, Unread, Pow2;
      ghost var bs := br.ToRead();
      var d, i := 0, 0;
      while i < 4
        invariant 0 <= i <= 4 && |bs| >= i && br.ValidReader() && br.ToRead() == bs[i..]
        invariant i > 0 ==> |br.stream| > 0
        invariant forall k :: 0 <= k < i ==> bs[k]
        invariant d == [0, 1, 3, 7, 15][i]
      {
        d := 2 * d;
        var bit := br.ReadBit();
        if bit.Eof? {
          return Eof;
        }
        i := i + 1;
        assert br.ToRead() == bs[i..];
        if !bit.value {
          break;
        }
        d := d + 1;
      }
      assert (d == 0 && i == 1 && !bs[0]) || (d == 2 && i == 2 && bs[0] && !bs[1])
          || (d == 6 && i == 3 && bs[0] && bs[1] && !bs[2])
          || (d == 14 && i == 4 && bs[0] && bs[1] && bs[2] && !bs[3])
          || (d == 15 && i == 4 && bs[0] && bs[1] && bs[2] && bs[3]);
      var sz, dod: Word := 0, 0;
      match d {
        case 0x00 =>
        case 0x02 => sz := 14;
        case 0x06 => sz := 17;
        case 0x0e => sz := 20;
        case _ =>
          var bits := br.ReadBits(64);
          if bits.Eof? {
            return Eof;
          }
          dod := bits.value;
          assert bs[4..][64..] == bs[68..];
      }
      if sz != 0 {
        ghost var tail := br.ToRead();
        assert ReadDod(bs) == SizedDod(tail, sz);
        var bits := br.ReadBits(sz);
        if bits.Eof? {
          return Eof;
        }
        dod := bits.value;
        if dod > Pow2(sz - 1) {
          dod := (dod - Pow2(sz)) % MODULUS;
        }
        assert SizedDod(tail, sz) == Some((dod, br.ToRead()));
      }
      return Ok(dod);
    }

    method ReadValue() returns (ok: bool)
      requires Valid() && !err && numRead < numTotal
      modifies this, br
      ensures Valid() && br == old(br) && numTotal == old(numTotal)
      ensures match old(DecodeValue(State(), br.ToRead()))
              case Failed => !ok && err && numRead == old(numRead)
              case Got(st, rest) => ok && !err && State() == st && br.ToRead() == rest && numRead == old(numRead) + 1
    {
      hide FromBits, Unread, Delta, Shl64, ReadWindow;
      ghost var bs := br.ToRead();
      var bit := br.ReadBit();
      if bit.Eof? {
        err := true;
        return false;
      }
      if bit.value {
        bit := br.ReadBit();
        if bit.Eof? {
          err := true;
          return false;
        }
        assert br.ToRead() == bs[2..];
        if bit.value {
          assert |bs| >= 13 ==> bs[2..][..11] == bs[2..13] && bs[2..][11..] == bs[13..];
          var known := ReadNewWindow();
          if !known {
            err := true;
            return false;
          }
        }
        var mbits := (64 - leading - trailing) % 256;
        var bits := br.ReadBits(mbits);
        if bits.Eof? {
          err := true;
          return false;
        }
        v := Delta(Shl64(bits.value, trailing), v);
      }
      numRead := numRead + 1;
      return true;
    }

    /** The five and six bits that announce a new window. */
    method ReadNewWindow() returns (ok: bool)
      requires Valid() && |br.stream| > 0
      modifies `leading, `trailing, br
      ensures Valid() && (ok ==> |br.stream| > 0)
      ensures ok <==> |old(br.ToRead())| >= 11
      ensures ok ==> State() == old(ReadWindow(State(), br.ToRead()[..11])) && br.ToRead() == old(br.ToRead())[11..]
    {
      hide FromBits, Unread;
      ghost var bs := br.ToRead();
      var bits := br.ReadBits(5);
      if bits.Eof? {
        return false;
      }
      var l: nat := bits.value;
      bits := br.ReadBits(6);
      if bits.Eof? {
        return false;
      }
      var mbits: nat := bits.value;
      WindowBounds(bs[..11]);
      assert bs[..11][..5] == bs[..5] && bs[..11][5..][..6] == bs[5..][..6];
      // No significant bits stand for 64 of them, see the encoder.
      if mbits == 0 {
        mbits := 64;
      }
      leading, trailing := l, (64 - l - mbits) % 256;
      return true;
    }
  }

  /** ReadUvarint of encoding/binary over the stream's bytes. */
  method ReadUvarint(br: BStream) returns (r: Read<Word>)
    requires br.ValidReader()
    modifies br
    ensures br.ValidReader()
    ensures match old(TakeUvarint(br.ToRead(), 0, 0))
            case None => r.Eof?
            case Some((u, rest)) => r == Ok(u) && br.ToRead() == rest && |br.stream| > 0
  {
    hide Gather, Unread, ByteBits;
    ghost var bs := br.ToRead();
    var x: Word, i := 0, 0;
    while true
      invariant br.ValidReader() && 0 <= i
      invariant TakeUvarint(bs, 0, 0) == TakeUvarint(br.ToRead(), x, i)
      decreases |br.ToRead()|
    {
      ghost var before := br.ToRead();
      var b := br.ReadByte();
      if b.Eof? {
        return Eof;
      }
      TakeByte(b.value, br.ToRead(), x, i);
      x := Gather(x, b.value % 128, i);
      if b.value < 128 {
        if i > 9 || (i == 9 && b.value > 1) {
          return Eof;
        }
        return Ok(x);
      }
      i := i + 1;
    }
  }
}
