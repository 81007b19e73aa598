/** Series of the head block (memSeries in head.go): how samples are cut into
    chunks, how chunks are dropped again, and how the chunk that is still being
    written to can be read. */
module HeadSeries {
  import opened Words
  import opened Samples
  import XorChunks
  import Seqs

  const SAMPLES_PER_CHUNK := 120

  lemma QuotientInRange(t: int, w: nat)
    requires w > 0
    ensures t >= 0 ==> 0 <= Quotient(t, w) * w <= t
    ensures t < 0 ==> t <= Quotient(t, w) * w <= 0
  {
    DivisionBounds(t, w);
    DivisionBounds(t + w - 1, w);
    if t < 0 {
      NegativeQuotient(t, w);
      NotPositive(t + w - 1, w);
    } else {
      NotNegative(t, w);
    }
  }

  lemma DivisionBounds(n: int, w: nat)
    requires w > 0
    ensures n - w < (n / w) * w <= n
  {
    assert n == w * (n / w) + n % w;
  }

  lemma NotPositive(n: int, w: nat)
    requires w > 0 && n < w
    ensures (n / w) * w <= 0
  {
    SignOfProduct(n / w, w);
  }

  lemma SignOfProduct(q: int, w: nat)
    ensures q <= 0 ==> q * w <= 0
    ensures q >= 0 ==> q * w >= 0
  {
  }

  lemma NotNegative(n: nat, w: nat)
    requires w > 0
    ensures (n / w) * w >= 0
  {
    SignOfProduct(n / w, w);
  }

  /** The window of the given width around a time. */
  function RangeForTimestamp(t: int64, width: int64): (r: (int64, int64))
    requires width > 0 && t <= MAX - width
  {
    QuotientInRange(t as int, width as int);
    var mint := (Quotient(t as int, width as int) * width as int) as int64;
    (mint, mint + width)
  }

  /** A time lies inside its window exactly if it is not negative or is a window
      boundary itself: for other negative times the window starts too late. */
  lemma WindowHolds(t: int64, width: int64)
    requires width > 0 && t <= MAX - width
    ensures var (mint, maxt) := RangeForTimestamp(t, width);
            mint <= t < maxt <==> t >= 0 || t as int % width as int == 0
  {
    var q, n, w := Quotient(t as int, width as int), t as int, width as int;
    assert q * w == RangeForTimestamp(t, width).0 as int;
    if t >= 0 {
      assert q == n / w;
    } else {
      NegativeQuotient(n, w);
      assert n == (n / w) * w + n % w;
      if n % w == 0 {
        DivUnique(n + w - 1, w, n / w, w - 1);
        assert q == n / w;
      } else {
        DivUnique(n + w - 1, w, n / w + 1, n % w - 1);
        assert q == n / w + 1;
        assert (n / w + 1) * w == (n / w) * w + w;
      }
    }
  }

  /** Where a chunk should end whose first quarter of samples reaches from start to cur:
      at the bound if four times the quarter's span does not fit before it, and otherwise
      between four and eight times the span. */
  ghost predicate FourQuarters(start: int, cur: int, max: int, end: int) {
    var d := 4 * (cur - start + 1);
    if max - start < d then end == max else start + d <= end < start + 2 * d && end <= max
  }

  /** Estimates where a chunk that is a quarter full should end. */
  function ComputeChunkEndTime(start: int64, cur: int64, max: int64): (end: int64)
    requires 0 <= start <= cur < max && max - start <= MAX / 4
    ensures cur < end <= max && FourQuarters(start as int, cur as int, max as int, end as int)
  {
    EndTimeBound(cur as int - start as int + 1, max as int - start as int);
    var a := (max - start) / ((cur - start + 1) * 4);
    if a == 0 then max else start + (max - start) / a
  }

  lemma EndTimeBound(d: nat, m: nat)
    requires 1 <= d <= m
    ensures var a := m / (d * 4);
            a >= 0 && (a > 0 <==> d * 4 <= m) && (a > 0 ==> d <= m / a <= m && d * 4 <= m / a < 2 * (d * 4))
  {
    QuotientOfQuotient(m, d * 4);
  }

  lemma QuotientOfQuotient(m: nat, e: nat)
    requires e > 0
    ensures var a := m / e; a >= 0 && (a > 0 <==> e <= m) && (a > 0 ==> e <= m / a <= m && m / a < 2 * e)
  {
    var a := m / e;
    assert m == e * a + m % e && e * a == a * e;
    if a > 0 {
      MulMono(e, 1, a);
      QuotientBetween(m, a, e);
      QuotientBelow(m, a, e);
    }
  }

  lemma QuotientBelow(m: nat, a: nat, e: nat)
    requires a > 0 && e > 0 && m < a * e + e
    ensures m / a < 2 * e
  {
    assert m == a * (m / a) + m % a;
    MulMono(e, 1, a);
    Twice(a, e);
    LessFactor(a, m / a, 2 * e);
  }

  lemma Twice(a: nat, e: nat)
    ensures a * (2 * e) == a * e + e * a && e * a == a * e
  {
  }

  lemma LessFactor(a: nat, q: nat, k: nat)
    requires a * q < a * k
    ensures q < k
  {
    if k <= q {
      MulMono(a, k, q);
    }
  }

  lemma QuotientBetween(m: nat, a: nat, d: nat)
    requires a > 0 && a * d <= m
    ensures d <= m / a <= m
  {
    var q := m / a;
    assert m == a * q + m % a;
    if q < d {
      MulMono(a, q + 1, d);
    }
    MulMono(q, 1, a);
  }

  datatype MemChunk = MemChunk(samples: seq<Sample>, minTime: int64, maxTime: int64)
  {
    predicate OverlapsClosedInterval(mint: int64, maxt: int64) {
      minTime <= maxt && mint <= maxTime
    }

    /** The samples are in order, between the bounds, inside one window, and not too many. */
    ghost predicate Valid(width: int64)
      requires width > 0
      ensures Valid(width) ==> |samples| > 0 && 0 <= minTime <= maxTime <= MAX - width
    {
      && 0 < |samples| <= XorChunks.MAX_SAMPLES && Ordered(samples)
      && samples[0].t == minTime && samples[|samples| - 1].t == maxTime
      && 0 <= minTime <= maxTime <= MAX - width
      && maxTime < RangeForTimestamp(minTime, width).1
    }
  }

  ghost function Flat(cs: seq<MemChunk>): seq<Sample> {
    if cs == [] then [] else Flat(cs[..|cs| - 1]) + cs[|cs| - 1].samples
  }

  ghost predicate ChunksValid(cs: seq<MemChunk>, width: int64)
    requires width > 0
  {
    && (forall i :: 0 <= i < |cs| ==> cs[i].Valid(width))
    && forall i, j :: 0 <= i < j < |cs| ==> cs[i].maxTime < cs[j].minTime
  }

  /** Times between a chunk's start and the end of its window share that window. */
  lemma SameWindow(t: int64, u: int64, width: int64)
    requires width > 0 && 0 <= t <= u <= MAX - width && u < RangeForTimestamp(t, width).1
    ensures RangeForTimestamp(u, width) == RangeForTimestamp(t, width)
    ensures RangeForTimestamp(t, width).0 <= t < RangeForTimestamp(t, width).1 <= t + width
  {
    WindowHolds(t, width);
    var q := t as int / width as int;
    DivUnique(u as int, width as int, q, u as int - q * width as int);
  }

  lemma OwnWindow(t: int64, width: int64)
    requires width > 0 && 0 <= t <= MAX - width
    ensures RangeForTimestamp(t, width).0 <= t < RangeForTimestamp(t, width).1 <= t + width
  {
    WindowHolds(t, width);
  }

  /** The chunks that a cut-off time removes: a prefix, all of it too old. */
  ghost predicate Cutoff(cs: seq<MemChunk>, k: nat, mint: int64) {
    && k <= |cs|
    && (forall i :: 0 <= i < k ==> cs[i].maxTime < mint)
    && (k < |cs| ==> mint <= cs[k].maxTime)
  }

  /** The last samples of s, as many as the buffer holds, are at its end. */
  ghost predicate Buffered(buf: seq<Sample>, s: seq<Sample>) {
    |buf| == 4 && var n := if |s| < 4 then |s| else 4; buf[4 - n..] == s[|s| - n..]
  }

  lemma BufferedNext(buf: seq<Sample>, s: seq<Sample>, x: Sample)
    requires |buf| == 4 && (s == [] || Buffered(buf, s))
    ensures Buffered(buf[1..] + [x], s + [x])
  {
    var n := if |s| < 4 then |s| else 4;
    var m := if |s| < 3 then |s| else 3;
    assert (buf[1..] + [x])[3 - m..] == buf[4 - m..] + [x];
    assert buf[4 - m..] == buf[4 - n..][n - m..] == s[|s| - m..];
    assert (s + [x])[|s| - m..] == s[|s| - m..] + [x];
  }

  lemma SuffixValid(cs: seq<MemChunk>, k: nat, width: int64)
    requires width > 0 && ChunksValid(cs, width) && k <= |cs|
    ensures ChunksValid(cs[k..], width)
  {
    hide MemChunk.Valid;
    var d := cs[k..];
    assert forall i :: 0 <= i < |d| ==> d[i] == cs[i + k];
  }

  /** A chunk grows, or is added, at the end. */
  lemma LastValid(cs: seq<MemChunk>, c: MemChunk, width: int64)
    requires width > 0 && ChunksValid(cs, width) && c.Valid(width)
    requires cs != [] ==> cs[|cs| - 1].maxTime < c.minTime
    ensures ChunksValid(cs + [c], width) && Flat(cs + [c]) == Flat(cs) + c.samples
  {
    hide MemChunk.Valid;
    Seqs.Snoc(cs, c);
    forall i | 0 <= i < |cs| ensures cs[i].maxTime < c.minTime {
      var last := cs[|cs| - 1];
      assert last.Valid(width) && last.minTime <= last.maxTime < c.minTime;
      if i < |cs| - 1 {
        assert cs[i].maxTime < last.minTime;
      }
    }
    ValidSnoc(cs, c, width);
  }

  lemma ValidSnoc(cs: seq<MemChunk>, c: MemChunk, width: int64)
    requires width > 0 && ChunksValid(cs, width) && c.Valid(width)
    requires forall i :: 0 <= i < |cs| ==> cs[i].maxTime < c.minTime
    ensures ChunksValid(cs + [c], width)
  {
    hide MemChunk.Valid;
  }

  lemma GrownValid(c: MemChunk, x: Sample, width: int64)
    requires width > 0 && c.Valid(width) && |c.samples| < XorChunks.MAX_SAMPLES
    requires c.maxTime < x.t < RangeForTimestamp(c.minTime, width).1 && x.t <= MAX - width
    ensures MemChunk(c.samples + [x], c.minTime, x.t).Valid(width)
  {
    hide RangeForTimestamp;
    var s := c.samples + [x];
    forall i, j | 0 <= i < j < |s| ensures s[i].t < s[j].t {
      if j == |c.samples| && i < j - 1 {
        assert s[i].t < s[j - 1].t;
      }
    }
  }

  /** A new sample starts a chunk, ... */
  lemma StartsChunk(cs: seq<MemChunk>, x: Sample, width: int64)
    requires width > 0 && ChunksValid(cs, width) && 0 <= x.t <= MAX - width
    requires cs != [] ==> cs[|cs| - 1].maxTime < x.t
    ensures var d := cs + [MemChunk([x], x.t, x.t)]; ChunksValid(d, width) && Flat(d) == Flat(cs) + [x]
  {
    OwnWindow(x.t, width);
    assert MemChunk([x], x.t, x.t).Valid(width);
    hide RangeForTimestamp, MemChunk.Valid, ChunksValid, Flat;
    LastValid(cs, MemChunk([x], x.t, x.t), width);
  }

  /** ... or becomes the last one of the last chunk. */
  lemma ExtendsChunk(cs: seq<MemChunk>, x: Sample, width: int64)
    requires width > 0 && ChunksValid(cs, width) && cs != [] && x.t <= MAX - width
    requires var c := cs[|cs| - 1];
             c.maxTime < x.t < RangeForTimestamp(c.minTime, width).1 && |c.samples| < XorChunks.MAX_SAMPLES
    ensures ChunksValid(Extended(cs, x), width) && Flat(Extended(cs, x)) == Flat(cs) + [x]
  {
    hide RangeForTimestamp, MemChunk.Valid, ChunksValid, Flat;
    var c := cs[|cs| - 1];
    InitValid(cs, width);
    GrownValid(c, x, width);
    LastValid(cs[..|cs| - 1], MemChunk(c.samples + [x], c.minTime, x.t), width);
    assert Flat(cs[..|cs| - 1]) + (c.samples + [x]) == Flat(cs[..|cs| - 1]) + c.samples + [x];
  }

  lemma InitValid(cs: seq<MemChunk>, width: int64)
    requires width > 0 && ChunksValid(cs, width) && cs != []
    ensures var init, c := cs[..|cs| - 1], cs[|cs| - 1];
            && ChunksValid(init, width) && c.Valid(width) && Flat(cs) == Flat(init) + c.samples
            && (init != [] ==> init[|init| - 1].maxTime < c.minTime)
  {
    hide MemChunk.Valid;
  }

  ghost function Extended(cs: seq<MemChunk>, x: Sample): seq<MemChunk>
    requires cs != []
  {
    var c := cs[|cs| - 1];
    cs[..|cs| - 1] + [MemChunk(c.samples + [x], c.minTime, x.t)]
  }

  /** The chunks of a series, and when to cut the next one. */
  datatype SeriesState = SeriesState(chunks: seq<MemChunk>, nextAt: int64)
  {
    function MaxTime(): int64 {
      if chunks == [] then MIN else chunks[|chunks| - 1].maxTime
    }

    ghost predicate Ok(width: int64)
      requires width > 0
    {
      && ChunksValid(chunks, width)
      && (chunks != [] ==>
            var c := chunks[|chunks| - 1]; c.maxTime < nextAt <= RangeForTimestamp(c.minTime, width).1)
    }

    predicate Accepts(x: Sample) {
      chunks == [] || MaxTime() < x.t
    }

    /** The time at which the next chunk is due: when a quarter of the samples of a
        chunk has come in, the end is estimated once and for all. */
    ghost function DueAt(width: int64): (d: int64)
      requires 0 < width <= MAX / 4 && Ok(width) && chunks != []
      ensures MaxTime() < d <= nextAt
      ensures (var c := chunks[|chunks| - 1];
               if |c.samples| == SAMPLES_PER_CHUNK / 4
               then FourQuarters(c.minTime as int, c.maxTime as int, nextAt as int, d as int)
               else d == nextAt)
    {
      var c := chunks[|chunks| - 1];
      LastBounds(this, width);
      if |c.samples| == SAMPLES_PER_CHUNK / 4 then ComputeChunkEndTime(c.minTime, c.maxTime, nextAt) else nextAt
    }

    /** A sample that will go into the last chunk finds room in it. */
    ghost predicate HasRoom(x: Sample, width: int64)
      requires 0 < width <= MAX / 4 && Ok(width)
    {
      chunks != [] && MaxTime() < x.t < DueAt(width) ==> |chunks[|chunks| - 1].samples| < XorChunks.MAX_SAMPLES
    }

    /** memSeries.append. */
    ghost function Appended(x: Sample, width: int64): SeriesState
      requires 0 < width <= MAX / 4 && Ok(width) && 0 <= x.t <= MAX - width
    {
      if !Accepts(x) then this
      else if chunks == [] || DueAt(width) <= x.t then
        SeriesState(chunks + [MemChunk([x], x.t, x.t)], RangeForTimestamp(x.t, width).1)
      else
        SeriesState(Extended(chunks, x), DueAt(width))
    }
  }

  lemma LastBounds(s: SeriesState, width: int64)
    requires width > 0 && s.Ok(width) && s.chunks != []
    ensures var c := s.chunks[|s.chunks| - 1];
            c.Valid(width) && 0 <= c.minTime <= c.maxTime < s.nextAt && s.nextAt - c.minTime <= width
  {
    var c := s.chunks[|s.chunks| - 1];
    OwnWindow(c.minTime, width);
  }

  /** A chunk is ended by the spread of its first quarter: a sample that comes less than four
      times its span after the chunk's start still goes into it, and one that comes eight
      times its span after the start does not any more. */
  lemma QuarterDecides(s: SeriesState, x: Sample, width: int64)
    requires 0 < width <= MAX / 4 && s.Ok(width) && 0 <= x.t <= MAX - width && s.chunks != [] && s.MaxTime() < x.t
    requires |s.chunks[|s.chunks| - 1].samples| == 30
    ensures var c, r := s.chunks[|s.chunks| - 1], s.Appended(x, width);
            var d, t := 4 * (c.maxTime as int - c.minTime as int + 1), x.t as int - c.minTime as int;
            && (t < d && x.t < s.nextAt ==> |r.chunks| == |s.chunks|)
            && (2 * d <= t || s.nextAt <= x.t ==> |r.chunks| == |s.chunks| + 1)
  {
    hide ChunksValid, SeriesState.Ok, RangeForTimestamp;
  }

  /** The time that is set for the next chunk: a new chunk gets the end of its window; a
      chunk with a quarter of its samples gets the estimate, and otherwise it stays. */
  lemma NextCutExactly(s: SeriesState, x: Sample, width: int64)
    requires 0 < width <= MAX / 4 && s.Ok(width) && 0 <= x.t <= MAX - width && (s.chunks == [] || s.MaxTime() < x.t)
    ensures var r := s.Appended(x, width);
            if |r.chunks| != |s.chunks| then
              r.nextAt as int % width as int == 0 && x.t < r.nextAt && r.nextAt as int <= x.t as int + width as int
            else
              var c := s.chunks[|s.chunks| - 1];
              if |c.samples| == 30
              then FourQuarters(c.minTime as int, c.maxTime as int, s.nextAt as int, r.nextAt as int)
              else r.nextAt == s.nextAt
  {
    OwnWindow(x.t, width);
    WindowEnd(x.t, width);
    hide ChunksValid, SeriesState.Ok, RangeForTimestamp;
  }

  lemma WindowEnd(t: int64, width: int64)
    requires width > 0 && 0 <= t <= MAX - width
    ensures RangeForTimestamp(t, width).1 as int % width as int == 0
  {
    var q, w := t as int / width as int, width as int;
    assert RangeForTimestamp(t, width).1 as int == q * w + w;
    assert q * w + w == w * (q + 1);
    DivUnique(w * (q + 1), w, q + 1, 0);
  }

  /** With any other number of samples, the chunk ends at the time that is set. */
  lemma EndDecides(s: SeriesState, x: Sample, width: int64)
    requires 0 < width <= MAX / 4 && s.Ok(width) && 0 <= x.t <= MAX - width && s.chunks != [] && s.MaxTime() < x.t
    requires |s.chunks[|s.chunks| - 1].samples| != 30
    ensures |s.Appended(x, width).chunks| == |s.chunks| + if s.nextAt <= x.t then 1 else 0
  {
    hide ChunksValid, SeriesState.Ok, RangeForTimestamp;
  }

  /** Appending keeps a series in order and adds the sample if it is newer than all. */
  lemma AppendedOk(s: SeriesState, x: Sample, width: int64)
    requires 0 < width <= MAX / 4 && s.Ok(width) && 0 <= x.t <= MAX - width && s.HasRoom(x, width)
    ensures var r := s.Appended(x, width);
            && r.Ok(width) && r.chunks != []
            && Flat(r.chunks) == Flat(s.chunks) + (if s.Accepts(x) then [x] else [])
            && r.chunks[0].minTime == (if s.chunks == [] then x.t else s.chunks[0].minTime)
            && r.MaxTime() == (if s.Accepts(x) then x.t else s.MaxTime())
  {
    hide ChunksValid, MemChunk.Valid, Flat;
    Seqs.Nothing(Flat(s.chunks));
    if s.Accepts(x) {
      OwnWindow(x.t, width);
      if s.chunks == [] || s.DueAt(width) <= x.t {
        StartsChunk(s.chunks, x, width);
      } else {
        LastBounds(s, width);
        ExtendsChunk(s.chunks, x, width);
      }
    }
  }

  /** With a sample added to the last chunk. */
  function Topped(cs: seq<MemChunk>, x: Sample): (r: seq<MemChunk>)
    requires cs != []
    ensures |r| == |cs|
  {
    var c := cs[|cs| - 1];
    cs[|cs| - 1 := MemChunk(c.samples + [x], c.minTime, x.t)]
  }

  lemma ToppedLast(cs: seq<MemChunk>, x: Sample)
    requires cs != []
    ensures Topped(cs, x) == Extended(cs, x)
  {
  }

  lemma ToppedNew(cs: seq<MemChunk>, x: Sample)
    ensures Topped(cs + [MemChunk([], x.t, MIN)], x) == cs + [MemChunk([x], x.t, x.t)]
    ensures cs == [] ==> cs + [MemChunk([], x.t, MIN)] == [MemChunk([], x.t, MIN)]
  {
    Seqs.Nothing([x]);
  }

  /** The last value and the last samples of s. */
  ghost predicate Remembers(s: seq<Sample>, v: nat, buf: seq<Sample>) {
    s != [] && v == s[|s| - 1].v && Buffered(buf, s)
  }

  lemma RememberedNext(s: seq<Sample>, v: nat, buf: seq<Sample>, x: Sample)
    requires |buf| == 4 && (s == [] || Remembers(s, v, buf))
    ensures Remembers(s + [x], x.v, buf[1..] + [x])
  {
    BufferedNext(buf, s, x);
  }

  datatype AppendError = OutOfOrderSample | AmendSample

  datatype Check = Appendable | Refused(error: AppendError)

  class MemSeries {
    const ref: nat
    const chunkRange: int64
    var chunks: seq<MemChunk>
    var firstChunkID: nat
    var nextAt: int64                // when to cut the next chunk
    var lastValue: nat
    var sampleBuf: seq<Sample>

    ghost predicate Valid()
      reads this
      ensures Valid() ==> 0 < chunkRange && ChunksValid(chunks, chunkRange)
    {
      && 0 < chunkRange <= MAX / 4 && |sampleBuf| == 4
      && State().Ok(chunkRange)
      && (chunks != [] ==> Remembers(chunks[|chunks| - 1].samples, lastValue, sampleBuf))
    }

    ghost function State(): SeriesState
      reads this
    {
      SeriesState(chunks, nextAt)
    }

    /** All samples held. */
    ghost function Contents(): seq<Sample>
      reads this
    {
      Flat(chunks)
    }

    constructor (ref: nat, chunkRange: int64)
      requires 0 < chunkRange <= MAX / 4
      ensures Valid() && Contents() == [] && State() == SeriesState([], MIN)
      ensures this.ref == ref && this.chunkRange == chunkRange && firstChunkID == 0
    {
      this.ref, this.chunkRange := ref, chunkRange;
      chunks, firstChunkID, nextAt, lastValue := [], 0, MIN, 0;
      sampleBuf := seq(4, _ => Sample(0, 0));
    }

    function MaxTime(): int64
      reads this
    {
      if chunks == [] then MIN else chunks[|chunks| - 1].maxTime
    }

    /** The chunk of an id, if it is still held. */
    function Chunk(id: int): (r: seq<MemChunk>)
      reads this
    {
      var ix := id - firstChunkID;
      if ix < 0 || ix >= |chunks| then [] else [chunks[ix]]
    }

    function CheckAppend(t: int64, v: nat): Check
      reads this
    {
      if chunks == [] || t > MaxTime() then Appendable
      else if t < MaxTime() then Refused(OutOfOrderSample)
      else if lastValue != v then Refused(AmendSample)
      else Appendable
    }

    /** What is refused before it is logged: samples that are not newer than the last
        one, except an exact repetition of it. */
    lemma CheckAppendMeans(t: int64, v: nat)
      requires Valid() && chunks != []
      ensures var all := Contents();
              all != [] && match CheckAppend(t, v)
              case Appendable => all[|all| - 1].t < t || all[|all| - 1] == Sample(t, v)
              case Refused(OutOfOrderSample) => t < all[|all| - 1].t
              case Refused(AmendSample) => t == all[|all| - 1].t && v != all[|all| - 1].v
    {
      var c := chunks[|chunks| - 1];
      assert c.Valid(chunkRange);
      hide RangeForTimestamp, Buffered;
    }

    /** Starts an empty chunk; its samples and end follow with the first append. */
    method Cut(mint: int64)
      requires 0 < chunkRange <= MAX / 4 && 0 <= mint <= MAX - chunkRange
      modifies this`chunks, this`nextAt
      ensures chunks == old(chunks) + [MemChunk([], mint, MIN)]
      ensures nextAt == RangeForTimestamp(mint, chunkRange).1
    {
      chunks := chunks + [MemChunk([], mint, MIN)];
      nextAt := RangeForTimestamp(mint, chunkRange).1;
    }

    method Append(t: int64, v: nat) returns (success: bool, chunkCreated: bool)
      requires Valid() && 0 <= t <= MAX - chunkRange && State().HasRoom(Sample(t, v), chunkRange)
      modifies this`chunks, this`nextAt, this`lastValue, this`sampleBuf
      ensures Valid() && State() == old(State().Appended(Sample(t, v), chunkRange))
      ensures success <==> old(chunks) == [] || old(MaxTime()) < t
      ensures Contents() == old(Contents()) + if success then [Sample(t, v)] else []
      ensures !success ==> chunks == old(chunks) && !chunkCreated
      ensures chunkCreated <==> old(chunks) == [] || (success && old(State().DueAt(chunkRange)) <= t)
      ensures if chunkCreated then chunks == old(chunks) + [MemChunk([Sample(t, v)], t, t)]
              else if success then chunks == Extended(old(chunks), Sample(t, v))
              else chunks == old(chunks)
    {
      hide RangeForTimestamp, MemChunk.Valid, ChunksValid, Flat, Remembers, Buffered, SeriesState.Ok, SeriesState.DueAt,
           Extended;
      ghost var x, s := Sample(t, v), State();
      AppendedOk(s, x, chunkRange);
      chunkCreated := false;
      if chunks == [] {
        Cut(t);
        chunkCreated := true;
      }
      if chunks[|chunks| - 1].maxTime >= t {
        return false, chunkCreated;
      }
      var cut := CutWhenDue(t, s, x);
      chunkCreated := chunkCreated || cut;
      Put(t, v);
      success := true;
    }

    /** Starts another chunk if that is due. */
    method CutWhenDue(t: int64, ghost s: SeriesState, ghost x: Sample) returns (cut: bool)
      requires 0 < chunkRange <= MAX / 4 && 0 <= t <= MAX - chunkRange && s.Ok(chunkRange) && x.t == t && s.Accepts(x)
      requires if s.chunks == [] then chunks == [MemChunk([], t, MIN)] && nextAt == RangeForTimestamp(t, chunkRange).1
               else State() == s
      modifies this`chunks, this`nextAt
      ensures chunks != [] && SeriesState(Topped(chunks, x), nextAt) == s.Appended(x, chunkRange)
      ensures cut <==> s.chunks != [] && s.DueAt(chunkRange) <= t
      ensures var c := chunks[|chunks| - 1];
              c.samples == [] || (chunks == s.chunks && !cut && s.chunks != [])
      ensures if cut then chunks == s.chunks + [MemChunk([], t, MIN)] else chunks == old(chunks)
    {
      hide MemChunk.Valid, ChunksValid, SeriesState.Ok;
      var c := chunks[|chunks| - 1];
      if s.chunks != [] {
        LastBounds(s, chunkRange);
        ToppedLast(s.chunks, x);
      } else {
        OwnWindow(t, chunkRange);
      }
      ToppedNew(s.chunks, x);
      hide RangeForTimestamp, Topped, Extended;
      if |c.samples| == SAMPLES_PER_CHUNK / 4 {
        nextAt := ComputeChunkEndTime(c.minTime, c.maxTime, nextAt);
      }
      cut := t >= nextAt;
      if cut {
        Cut(t);
      }
    }

    /** Adds a sample to the last chunk. */
    method Put(t: int64, v: nat)
      requires chunks != [] && |sampleBuf| == 4
      modifies this`chunks, this`lastValue, this`sampleBuf
      ensures chunks == Topped(old(chunks), Sample(t, v)) && |sampleBuf| == 4
      ensures var c := old(chunks)[|old(chunks)| - 1];
              (c.samples == [] || Remembers(c.samples, old(lastValue), old(sampleBuf)))
              ==> Remembers(chunks[|chunks| - 1].samples, lastValue, sampleBuf)
    {
      hide Remembers, Buffered;
      var c := chunks[|chunks| - 1];
      if c.samples == [] || Remembers(c.samples, lastValue, sampleBuf) {
        RememberedNext(c.samples, lastValue, sampleBuf, Sample(t, v));
      }
      chunks := chunks[|chunks| - 1 := MemChunk(c.samples + [Sample(t, v)], c.minTime, t)];
      lastValue := v;
      sampleBuf := sampleBuf[1..] + [Sample(t, v)];
    }

    /** The chunk of an id is delivered in full, and nothing for an id not held. */
    method Iterator(id: int) returns (it: SeriesIterator)
      requires Valid()
      ensures Delivers(it, if Chunk(id) == [] then [] else Chunk(id)[0].samples)
    {
      hide RangeForTimestamp, ChunksValid, MemChunk.Valid, SeriesState.Ok, Buffered;
      if Chunk(id) == [] {
        return Nop;
      }
      var c := Chunk(id)[0];
      var inner := new ChunkIterator(c.samples);
      if id - firstChunkID < |chunks| - 1 {
        return Plain(inner);
      }
      var safe := new MemSafeIterator(inner, |c.samples|, sampleBuf, c.samples);
      return Safe(safe);
    }

    method TruncateChunksBefore(mint: int64) returns (removed: nat)
      requires Valid()
      modifies this`chunks, this`firstChunkID
      ensures Valid() && nextAt == old(nextAt) && Cutoff(old(chunks), removed, mint)
      ensures chunks == old(chunks)[removed..] && firstChunkID == old(firstChunkID) + removed
      ensures forall id: int :: id >= firstChunkID ==> Chunk(id) == old(Chunk(id))
    {
      hide MemChunk.Valid, Remembers, RangeForTimestamp, ChunksValid;
      var k := 0;
      while k < |chunks| && chunks[k].maxTime < mint
        invariant 0 <= k <= |chunks| && forall i :: 0 <= i < k ==> chunks[i].maxTime < mint
      {
        k := k + 1;
      }
      SuffixValid(chunks, k, chunkRange);
      chunks := chunks[k..];
      firstChunkID := firstChunkID + k;
      removed := k;
    }
  }

  lemma ChunkBetween(c: MemChunk, k: nat, width: int64)
    requires width > 0 && c.Valid(width) && k < |c.samples|
    ensures c.minTime <= c.samples[k].t <= c.maxTime
    ensures RangeForTimestamp(c.samples[k].t, width) == RangeForTimestamp(c.minTime, width)
  {
    SameWindow(c.minTime, c.samples[k].t, width);
  }

  lemma {:induction false} FlatOrdered(cs: seq<MemChunk>, width: int64)
    requires width > 0 && ChunksValid(cs, width)
    ensures Ordered(Flat(cs))
    ensures cs != [] ==> forall x :: x in Flat(cs) ==> cs[0].minTime <= x.t <= cs[|cs| - 1].maxTime
  {
    if cs != [] {
      var init, c := cs[..|cs| - 1], cs[|cs| - 1];
      InitValid(cs, width);
      FlatOrdered(init, width);
      forall k | 0 <= k < |c.samples| ensures c.minTime <= c.samples[k].t <= c.maxTime {
        ChunkBetween(c, k, width);
      }
      assert Ordered(c.samples);
      assert init == [] ==> Flat(init) == [];
      hide MemChunk.Valid, Flat, ChunksValid;
      if init != [] {
        OrderedConcat(Flat(init), c.samples, init[|init| - 1].maxTime);
      }
    }
  }

  lemma OrderedConcat(a: seq<Sample>, b: seq<Sample>, m: int64)
    requires Ordered(a) && Ordered(b)
    requires (forall x :: x in a ==> x.t <= m) && (forall x :: x in b ==> m < x.t)
    ensures Ordered(a + b)
  {
    var s := a + b;
    forall i, j | 0 <= i < j < |s| ensures s[i].t < s[j].t {
      assert s[i] in a || s[i] in b;
      assert s[j] in a || s[j] in b;
    }
  }

  lemma {:induction false} FlatSplits(cs: seq<MemChunk>, k: nat)
    requires k <= |cs|
    ensures Flat(cs) == Flat(cs[..k]) + Flat(cs[k..])
  {
    if k == |cs| {
      assert cs[..k] == cs;
    } else {
      var init := cs[..|cs| - 1];
      FlatSplits(init, k);
      assert init[..k] == cs[..k];
      assert cs[k..][..|cs| - k - 1] == init[k..];
    }
  }

  /** A window boundary separates chunks: one that starts before it ends before it. */
  lemma EndsBefore(c: MemChunk, bound: int64, width: int64)
    requires width > 0 && c.Valid(width) && bound as int % width as int == 0
    ensures c.minTime < bound <==> c.maxTime < bound
  {
    if c.minTime < bound {
      NextBoundary(c.minTime as int, bound as int, width as int);
      assert RangeForTimestamp(c.minTime, width).1 <= bound;
    }
  }

  lemma NextBoundary(m: nat, b: nat, w: nat)
    requires w > 0 && m < b && b % w == 0
    ensures m / w * w + w <= b
  {
    assert m == w * (m / w) + m % w && b == w * (b / w);
    if b / w <= m / w {
      MulMono(w, b / w, m / w);
    }
    MulMono(w, m / w + 1, b / w);
    assert m / w * w == w * (m / w);
  }

  /** Handing a window over from the head to a block. The chunks that a reader of
      [mint, maxt) sees are those that truncation at maxt then removes; they lie in
      the window, and together with the chunks that stay they hold every sample. */
  lemma HandOver(cs: seq<MemChunk>, mint: int64, maxt: int64, k: nat, width: int64)
    requires width > 0 && ChunksValid(cs, width) && cs != []
    requires mint <= cs[0].minTime && MIN < maxt && maxt as int % width as int == 0
    requires Cutoff(cs, k, maxt)
    ensures forall i :: 0 <= i < |cs| ==> (cs[i].OverlapsClosedInterval(mint, maxt - 1) <==> i < k)
    ensures forall x :: x in Flat(cs[..k]) ==> mint <= x.t < maxt
    ensures forall x :: x in Flat(cs[k..]) ==> maxt <= x.t
    ensures Flat(cs) == Flat(cs[..k]) + Flat(cs[k..])
  {
    VisibleAreRemoved(cs, mint, maxt, k, width);
    FlatSplits(cs, k);
    ChunksValidTo(cs, k, width);
    SuffixValid(cs, k, width);
    FlatOrdered(cs[..k], width);
    FlatOrdered(cs[k..], width);
    hide ChunksValid, MemChunk.Valid, Flat, Ordered;
  }

  lemma VisibleAreRemoved(cs: seq<MemChunk>, mint: int64, maxt: int64, k: nat, width: int64)
    requires width > 0 && ChunksValid(cs, width) && cs != []
    requires mint <= cs[0].minTime && MIN < maxt && maxt as int % width as int == 0
    requires Cutoff(cs, k, maxt)
    ensures forall i :: 0 <= i < |cs| ==> mint <= cs[i].minTime
    ensures forall i :: 0 <= i < |cs| ==> (cs[i].OverlapsClosedInterval(mint, maxt - 1) <==> i < k)
    ensures forall i :: 0 <= i < |cs| ==> if i < k then cs[i].maxTime < maxt else maxt <= cs[i].minTime
  {
    forall i | 0 <= i < |cs|
      ensures mint <= cs[i].minTime && (cs[i].minTime < maxt <==> i < k) && (cs[i].maxTime < maxt <==> i < k)
      ensures cs[i].minTime <= cs[i].maxTime
    {
      EndsBefore(cs[i], maxt, width);
      hide MemChunk.Valid, RangeForTimestamp;
      if k < i {
        assert cs[k].maxTime < cs[i].minTime;
      }
      if 0 < i {
        assert cs[0].Valid(width) && cs[0].maxTime < cs[i].minTime;
      }
    }
  }

  lemma ChunksValidTo(cs: seq<MemChunk>, k: nat, width: int64)
    requires width > 0 && ChunksValid(cs, width) && k <= |cs|
    ensures ChunksValid(cs[..k], width)
  {
    hide MemChunk.Valid;
  }

  /** For any cut-off, at most the samples before it are removed. */
  lemma KeepsFrom(cs: seq<MemChunk>, k: nat, mint: int64, width: int64)
    requires width > 0 && ChunksValid(cs, width) && Cutoff(cs, k, mint)
    ensures forall x :: x in Flat(cs) && mint <= x.t ==> x in Flat(cs[k..])
  {
    FlatSplits(cs, k);
    ChunksValidTo(cs, k, width);
    FlatOrdered(cs[..k], width);
  }

  /* Reading a series while it is being written */

  /** Takes the last four samples from a copy of the series' buffer: the encoded
      chunk, whose last bytes may still change, is only read up to these. */
  class MemSafeIterator {
    const inner: ChunkIterator
    const total: nat
    const buf: seq<Sample>
    var i: int
    ghost const samples: seq<Sample>   // what is to be delivered

    ghost predicate Valid()
      reads this, inner
    {
      var encoded := if total < 4 then 0 else total - 4;
      && total == |samples| && Buffered(buf, samples)
      && encoded <= |inner.samples| && inner.samples[..encoded] == samples[..encoded]
      && -1 <= i && i + 1 <= total
      && inner.next == if i + 1 < encoded then i + 1 else encoded
    }

    constructor (inner: ChunkIterator, total: nat, buf: seq<Sample>, ghost samples: seq<Sample>)
      requires inner.next == 0 && total == |samples| && Buffered(buf, samples)
      requires var encoded := if total < 4 then 0 else total - 4;
               encoded <= |inner.samples| && inner.samples[..encoded] == samples[..encoded]
      ensures Valid() && i == -1 && this.samples == samples && this.inner == inner
    {
      this.inner, this.total, this.buf, this.samples, i := inner, total, buf, samples, -1;
    }

    method Next() returns (r: bool)
      requires Valid()
      modifies this, inner
      ensures Valid()
      ensures r <==> old(i) + 1 < |samples|
      ensures i == old(i) + if r then 1 else 0
    {
      if i + 1 >= total {
        return false;
      }
      i := i + 1;
      if total - i > 4 {
        r := inner.Next();
      } else {
        r := true;
      }
    }

    /** The current sample of the chunk, wherever it is read from. */
    function At(): (s: Sample)
      requires Valid() && i >= 0
      reads this, inner
      ensures s == samples[i]
    {
      if total - i > 4 then
        assert inner.samples[..total - 4][i] == samples[..total - 4][i];
        inner.At()
      else
        BufferedAt(buf, samples, total - i);
        buf[4 - (total - i)]
    }
  }

  lemma BufferedAt(buf: seq<Sample>, s: seq<Sample>, k: nat)
    requires Buffered(buf, s) && 1 <= k <= 4 && k <= |s|
    ensures buf[4 - k] == s[|s| - k]
  {
    var n := if |s| < 4 then |s| else 4;
    assert buf[4 - n..][n - k] == s[|s| - n..][n - k];
  }

  datatype SeriesIterator = Nop | Plain(it: ChunkIterator) | Safe(safe: MemSafeIterator)

  /** What a new iterator is about to deliver. */
  ghost predicate Delivers(it: SeriesIterator, s: seq<Sample>)
    reads match it case Nop => {} case Plain(p) => {p} case Safe(q) => {q, q.inner}
  {
    match it
    case Nop => s == []
    case Plain(p) => p.samples == s && p.next == 0
    case Safe(q) => q.Valid() && q.samples == s && q.i == -1
  }
}
