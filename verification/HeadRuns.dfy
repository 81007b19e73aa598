/** Handing the oldest window of the head over to a block (db.go and head.go), while
    appenders come, add and commit: no sample is lost or doubled. */
module HeadRuns {
  import opened Samples
  import opened HeadSeries
  import opened HeadStates
  import Words
  import Seqs

  /* Samples before and from a time on */

  function Below(s: seq<Sample>, w: int64): seq<Sample> {
    if s == [] then [] else (if s[0].t < w then [s[0]] else []) + Below(s[1..], w)
  }

  function From(s: seq<Sample>, w: int64): seq<Sample> {
    if s == [] then [] else (if s[0].t < w then [] else [s[0]]) + From(s[1..], w)
  }

  lemma {:induction false} BelowConcat(a: seq<Sample>, b: seq<Sample>, w: int64)
    ensures Below(a + b, w) == Below(a, w) + Below(b, w)
    ensures From(a + b, w) == From(a, w) + From(b, w)
  {
    if a == [] {
      Seqs.Nothing(b);
      Seqs.Nothing(Below(b, w));
      Seqs.Nothing(From(b, w));
    } else {
      Seqs.Tail(a, b);
      BelowConcat(a[1..], b, w);
      Seqs.Associate(if a[0].t < w then [a[0]] else [], Below(a[1..], w), Below(b, w));
      Seqs.Associate(if a[0].t < w then [] else [a[0]], From(a[1..], w), From(b, w));
    }
  }

  lemma {:induction false} AllOnOneSide(s: seq<Sample>, w: int64)
    ensures (forall x :: x in s ==> x.t < w) ==> Below(s, w) == s && From(s, w) == []
    ensures (forall x :: x in s ==> w <= x.t) <==> Below(s, w) == []
    ensures (forall x :: x in s ==> w <= x.t) ==> From(s, w) == s
  {
    if s != [] {
      AllOnOneSide(s[1..], w);
      Seqs.Uncons(s);
    }
  }

  /** Chunks that a window boundary separates. */
  lemma CutIsBelow(cs: seq<MemChunk>, k: nat, w: int64, width: int64)
    requires IsWidth(width) && ChunksValid(cs, width) && Cutoff(cs, k, w) && TimeOk(w, width)
    requires w as int % width as int == 0
    ensures Flat(cs[..k]) == Below(Flat(cs), w) && Flat(cs[k..]) == From(Flat(cs), w)
    ensures Flat(cs) == Below(Flat(cs), w) + From(Flat(cs), w)
    ensures k < |cs| ==> w <= cs[k].minTime
  {
    if cs != [] {
      HandOver(cs, 0, w, k, width) by {
        assert cs[0].Valid(width);
      }
      VisibleAreRemoved(cs, 0, w, k, width) by {
        assert cs[0].Valid(width);
      }
      hide ChunksValid, Flat, Cutoff, MemChunk.Valid;
      BelowConcat(Flat(cs[..k]), Flat(cs[k..]), w);
      AllOnOneSide(Flat(cs[..k]), w);
      AllOnOneSide(Flat(cs[k..]), w);
      Seqs.Nothing(Flat(cs[..k]));
      Seqs.Nothing(Flat(cs[k..]));
    }
  }

  /* Truncation */

  /** How many chunks at the front end before a time. */
  function Leading(cs: seq<MemChunk>, mint: int64): (k: nat)
    ensures k <= |cs| && Cutoff(cs, k, mint)
  {
    if cs == [] || cs[0].maxTime >= mint then 0 else
      var k := 1 + Leading(cs[1..], mint);
      assert forall i :: 0 < i < k ==> cs[i] == cs[1..][i - 1];
      k
  }

  function Dropped(s: SeriesState, mint: int64): SeriesState {
    SeriesState(s.chunks[Leading(s.chunks, mint)..], s.nextAt)
  }

  function AllDropped(series: map<nat, SeriesState>, mint: int64): map<nat, SeriesState> {
    map ref | ref in series :: Dropped(series[ref], mint)
  }

  /** Head.Truncate. The first call, before any sample, only sets the times. */
  function Truncated(h: HeadState, mint: int64): HeadState {
    if h.minTime >= mint && h.minTime != MAX then h
    else
      HeadState(mint, if h.maxTime < mint then mint else h.maxTime,
        if h.minTime == MAX then h.series else AllDropped(h.series, mint))
  }

  lemma DroppedOk(s: SeriesState, lo: int64, hi: int64, mint: int64, width: int64)
    requires IsWidth(width) && s.Ok(width) && Bounded(s, lo, hi) && TimeOk(mint, width)
    requires mint as int % width as int == 0
    ensures Dropped(s, mint).Ok(width) && Bounded(Dropped(s, mint), mint, hi)
    ensures Flat(Dropped(s, mint).chunks) == From(Flat(s.chunks), mint)
    ensures Flat(s.chunks) == Below(Flat(s.chunks), mint) + From(Flat(s.chunks), mint)
  {
    hide ChunksValid, Flat, Cutoff, MemChunk.Valid, RangeForTimestamp, Below, From, Leading;
    var k := Leading(s.chunks, mint);
    CutIsBelow(s.chunks, k, mint, width);
    SuffixValid(s.chunks, k, width);
    LastStays(s.chunks, k);
  }

  lemma LastStays(cs: seq<MemChunk>, k: nat)
    requires k <= |cs|
    ensures cs[k..] != [] ==> k < |cs| && cs[k..][0] == cs[k] && cs[k..][|cs[k..]| - 1] == cs[|cs| - 1]
  {
  }

  lemma TruncateKeeps(h: HeadState, mint: int64, width: int64)
    requires HeadOk(h, width) && TimeOk(mint, width) && mint as int % width as int == 0
    ensures var g := Truncated(h, mint); HeadOk(g, width) && h.maxTime <= g.maxTime && g.minTime != MAX
    ensures h.minTime < mint ==> forall ref :: Held(Truncated(h, mint).series, ref) == From(Held(h.series, ref), mint)
    ensures forall ref :: Held(h.series, ref) == Below(Held(h.series, ref), mint) + From(Held(h.series, ref), mint)
  {
    hide SeriesState.Ok, Bounded, Dropped;
    var g := Truncated(h, mint);
    forall ref | ref in h.series
      ensures Dropped(h.series[ref], mint).Ok(width) && Bounded(Dropped(h.series[ref], mint), mint, g.maxTime)
      ensures Flat(Dropped(h.series[ref], mint).chunks) == From(Flat(h.series[ref].chunks), mint)
      ensures var all := Flat(h.series[ref].chunks); all == Below(all, mint) + From(all, mint)
      ensures h.minTime == MAX ==> Bounded(h.series[ref], mint, g.maxTime)
    {
      DroppedOk(h.series[ref], h.minTime, h.maxTime, mint, width);
      Wider(Dropped(h.series[ref], mint), mint, h.maxTime, g.maxTime);
      if h.minTime == MAX {
        NoChunks(h.series[ref], h.maxTime, mint, g.maxTime, width);
      }
    }
    NothingHeld(mint);
  }

  lemma Wider(s: SeriesState, lo: int64, hi: int64, more: int64)
    requires Bounded(s, lo, hi) && hi <= more
    ensures Bounded(s, lo, more)
  {
  }

  /** Before the first sample there are no chunks to bound. */
  lemma NoChunks(s: SeriesState, hi: int64, lo: int64, more: int64, width: int64)
    requires IsWidth(width) && s.Ok(width) && Bounded(s, MAX, hi)
    ensures Bounded(s, lo, more)
  {
    FirstTime(s, width);
  }

  lemma FirstTime(s: SeriesState, width: int64)
    requires IsWidth(width) && s.Ok(width)
    ensures s.chunks != [] ==> s.chunks[0].minTime < MAX
  {
    assert s.chunks != [] ==> s.chunks[0].Valid(width);
  }

  lemma NothingHeld(w: int64)
    ensures Flat(NEW_SERIES.chunks) == [] && Below([], w) == [] && From([], w) == []
  {
  }

  /* Blocks */

  /** The chunks that a reader of a closed range sees. */
  function Visible(cs: seq<MemChunk>, mint: int64, maxt: int64): seq<MemChunk> {
    if cs == [] then []
    else (if cs[0].OverlapsClosedInterval(mint, maxt) then [cs[0]] else []) + Visible(cs[1..], mint, maxt)
  }

  lemma {:induction false} VisibleAre(cs: seq<MemChunk>, k: nat, mint: int64, maxt: int64)
    requires k <= |cs| && forall i :: 0 <= i < |cs| ==> (cs[i].OverlapsClosedInterval(mint, maxt) <==> i < k)
    ensures Visible(cs, mint, maxt) == cs[..k]
  {
    if cs != [] {
      var t := cs[1..];
      forall i | 0 <= i < |t| ensures t[i].OverlapsClosedInterval(mint, maxt) <==> i < (if k > 0 then k - 1 else 0) {
        assert t[i] == cs[i + 1];
      }
      VisibleAre(t, if k > 0 then k - 1 else 0, mint, maxt);
      if k > 0 {
        assert cs[0].OverlapsClosedInterval(mint, maxt);
        assert cs[..k] == [cs[0]] + t[..k - 1];
      } else {
        assert !cs[0].OverlapsClosedInterval(mint, maxt);
      }
    }
  }

  /** What a block over [mint, maxt) has of each series: of a head whose chunks start no
      earlier than mint, all samples below maxt. */
  lemma VisibleIsBelow(s: SeriesState, mint: int64, lo: int64, hi: int64, maxt: int64, width: int64)
    requires IsWidth(width) && s.Ok(width) && Bounded(s, lo, hi) && mint <= lo && TimeOk(maxt, width)
    requires maxt as int % width as int == 0
    ensures Flat(Visible(s.chunks, mint, maxt - 1)) == Below(Flat(s.chunks), maxt)
    ensures forall x :: x in Flat(Visible(s.chunks, mint, maxt - 1)) ==> mint <= x.t < maxt
  {
    var k := Leading(s.chunks, maxt);
    if s.chunks == [] {
      NothingHeld(maxt);
    } else {
      HandOver(s.chunks, mint, maxt, k, width);
      CutIsBelow(s.chunks, k, maxt, width);
      hide ChunksValid, Flat, Cutoff;
      VisibleAre(s.chunks, k, mint, maxt - 1);
    }
  }

  ghost function BlockOf(h: HeadState, mint: int64, maxt: int64): map<nat, seq<Sample>>
    requires MIN < maxt
  {
    map ref | ref in h.series :: Flat(Visible(h.series[ref].chunks, mint, maxt - 1))
  }

  function In(m: map<nat, seq<Sample>>, ref: nat): seq<Sample> {
    if ref in m then m[ref] else []
  }

  /** More than one and a half windows lie between the oldest and the newest sample. */
  predicate Compactable(h: HeadState, width: int64)
    requires IsWidth(width) && TimesOk(h.minTime, h.maxTime, width)
  {
    h.minTime != MAX && h.maxTime - h.minTime > width / 2 * 3
  }

  /** No window waits too long: one that ended one and a half windows before the newest
      sample, or earlier, is to be written. */
  lemma OldWindowIsDue(h: HeadState, width: int64)
    requires IsWidth(width) && TimesOk(h.minTime, h.maxTime, width) && h.minTime != MAX
    requires RangeForTimestamp(h.minTime, width).1 as int + width as int / 2 * 3 <= h.maxTime as int
    ensures Compactable(h, width)
  {
    OwnWindow(h.minTime, width);
    hide RangeForTimestamp;
  }

  lemma WindowBounds(h: HeadState, width: int64)
    requires IsWidth(width) && TimesOk(h.minTime, h.maxTime, width) && Compactable(h, width)
    ensures var (mint, maxt) := RangeForTimestamp(h.minTime, width);
            && 0 <= mint <= h.minTime < maxt && TimeOk(maxt, width) && maxt as int % width as int == 0
            && maxt <= h.maxTime - width / 2
  {
    WindowArithmetic(h.minTime as nat, h.maxTime as nat, width as nat);
    StartOfWindow(h.minTime, width);
    hide RangeForTimestamp;
  }

  lemma StartOfWindow(t: int64, width: int64)
    requires width > 0 && 0 <= t <= MAX - width
    ensures var (mint, maxt) := RangeForTimestamp(t, width);
            mint as int == t as int / width as int * width as int && maxt == mint + width
  {
  }

  lemma WindowArithmetic(lo: nat, hi: nat, w: nat)
    requires w > 0 && lo <= hi && hi - lo > w / 2 * 3
    ensures var m := lo / w * w; 0 <= m <= lo < m + w <= hi - w / 2 && (m + w) % w == 0
  {
    var q := lo / w;
    assert lo == w * q + lo % w;
    assert q * w == w * q;
    assert w * (q + 1) == w * q + w;
    Words.DivUnique(w * (q + 1), w, q + 1, 0);
    OneAndAHalf(w);
  }

  lemma OneAndAHalf(w: nat)
    ensures w / 2 * 3 + 1 >= w + w / 2
  {
  }

  /** Once the head can be compacted, an appender opened from now on takes no sample
      before the end of the window that is about to be written. */
  lemma LaterAppendersReject(h: HeadState, ref: nat, x: Sample, a: Appender, width: int64)
    requires HeadOk(h, width) && Compactable(h, width) && TimeOk(x.t, width)
    requires a.Unset? || a == Opened(h, width)
    requires x.t < RangeForTimestamp(h.minTime, width).1
    ensures Added(h, a, ref, x, width).0 == OutOfBounds && Added(h, a, ref, x, width).1 == h
    ensures a.Appender? ==> AddedFast(h, a, ref, x, width) == (OutOfBounds, a)
  {
    WindowBounds(h, width);
    hide RangeForTimestamp, AllOk;
  }
}
