/** The head block as a whole (head.go): its times, its series and its appenders, as
    values. */
module HeadStates {
  import opened Samples
  import opened HeadSeries
  import Replay
  import Seqs

  type RefSample = Replay.RefSample

  /** The oldest and the newest time, MAX and MIN before the first sample. A series
      without chunks is as good as none. */
  datatype HeadState = HeadState(minTime: int64, maxTime: int64, series: map<nat, SeriesState>)

  const NEW_SERIES: SeriesState := SeriesState([], MIN)

  /** The windows of time that chunks do not cross. */
  predicate IsWidth(width: int64) { 2 <= width <= MAX / 4 }

  ghost predicate AllOk(series: map<nat, SeriesState>, width: int64)
    requires IsWidth(width)
  {
    forall ref :: ref in series ==> series[ref].Ok(width)
  }

  ghost predicate Bounded(s: SeriesState, lo: int64, hi: int64) {
    s.chunks != [] ==> lo <= s.chunks[0].minTime && s.MaxTime() <= hi
  }

  predicate TimesOk(minTime: int64, maxTime: int64, width: int64)
    requires IsWidth(width)
  {
    if minTime == MAX then maxTime == MIN else 0 <= minTime <= maxTime <= MAX - width
  }

  /** The head's times bound all chunks. */
  ghost predicate HeadOk(h: HeadState, width: int64) {
    && IsWidth(width)
    && TimesOk(h.minTime, h.maxTime, width)
    && AllOk(h.series, width)
    && forall ref :: ref in h.series ==> Bounded(h.series[ref], h.minTime, h.maxTime)
  }

  /** An appender. One that is opened before the first sample gets its bounds from it. */
  datatype Appender = Unset | Appender(minValid: int64, mint: int64, maxt: int64, samples: seq<RefSample>)

  predicate TimeOk(t: int64, width: int64)
    requires IsWidth(width)
  {
    0 <= t <= MAX - width
  }

  /** What an appender has taken lies between its bounds. */
  ghost predicate AppenderOk(a: Appender, width: int64)
    requires IsWidth(width)
  {
    a.Appender? ==>
      && a.minValid <= a.mint
      && (a.samples == [] ==> a.mint == MAX && a.maxt == MIN)
      && (a.samples != [] ==> TimeOk(a.mint, width) && TimeOk(a.maxt, width))
      && forall i :: 0 <= i < |a.samples| ==> var t := a.samples[i].s.t; a.minValid <= t && a.mint <= t <= a.maxt
  }

  function Fresh(h: HeadState, width: int64): Appender
    requires IsWidth(width) && 0 <= h.maxTime
  {
    Appender(h.maxTime - width / 2, MAX, MIN, [])
  }

  /** Head.Appender. */
  function Opened(h: HeadState, width: int64): Appender
    requires IsWidth(width) && TimesOk(h.minTime, h.maxTime, width)
  {
    if h.minTime == MAX then Unset else Fresh(h, width)
  }

  /** Head.initTime. */
  function Initialized(h: HeadState, t: int64): HeadState {
    if h.minTime != MAX then h else HeadState(t, if h.maxTime == MIN then t else h.maxTime, h.series)
  }

  datatype Answer = Taken | OutOfBounds | UnknownSeries | OutOfOrder | Amended

  /** memSeries.appendable. */
  ghost function Checked(s: SeriesState, x: Sample, width: int64): (r: Answer)
    requires IsWidth(width) && s.Ok(width)
    ensures !r.OutOfBounds? && !r.UnknownSeries?
  {
    if s.Accepts(x) then Taken
    else if x.t < s.MaxTime() then OutOfOrder
    else
      LastBounds(s, width);
      var c := s.chunks[|s.chunks| - 1];
      if c.samples[|c.samples| - 1].v != x.v then Amended else Taken
  }

  /** The newest sample that a series holds is the last one. */
  lemma LastOf(s: SeriesState, width: int64)
    requires IsWidth(width) && s.Ok(width) && s.chunks != []
    ensures var all, c := Flat(s.chunks), s.chunks[|s.chunks| - 1];
            && Ordered(all) && all != [] && all[|all| - 1].t == s.MaxTime()
            && c.samples != [] && c.samples[|c.samples| - 1] == all[|all| - 1]
  {
    FlatOrdered(s.chunks, width);
    LastBounds(s, width);
    hide RangeForTimestamp;
  }

  /** What a series answers, told from the samples that it holds: a sample is taken if it is
      newer than all of them or repeats the last one, is out of order if there is a newer
      one, and amends if the last one has the same time and another value. */
  lemma CheckedExactly(s: SeriesState, x: Sample, width: int64)
    requires IsWidth(width) && s.Ok(width)
    ensures var r, all := Checked(s, x, width), Flat(s.chunks);
            && (r == Taken <==> (forall y :: y in all ==> y.t < x.t) || (all != [] && all[|all| - 1] == x))
            && (r == OutOfOrder <==> exists y :: y in all && x.t < y.t)
            && (r == Amended <==> all != [] && all[|all| - 1].t == x.t && all[|all| - 1].v != x.v)
            && (s.Accepts(x) <==> forall y :: y in all ==> y.t < x.t)
  {
    var all := Flat(s.chunks);
    if s.chunks != [] {
      LastOf(s, width);
      LastBounds(s, width);
      hide Flat, SeriesState.Ok, RangeForTimestamp;
      assert all[|all| - 1] in all;
      forall y | y in all ensures y.t <= all[|all| - 1].t && (y.t == all[|all| - 1].t ==> y == all[|all| - 1]) {
        var i :| 0 <= i < |all| && all[i] == y;
      }
    }
  }

  function With(a: Appender, ref: nat, x: Sample): Appender
    requires a.Appender?
  {
    Appender(a.minValid, if x.t < a.mint then x.t else a.mint, if x.t > a.maxt then x.t else a.maxt,
             a.samples + [Replay.RefSample(ref, x)])
  }

  /** headAppender.AddFast. */
  ghost function AddedFast(h: HeadState, a: Appender, ref: nat, x: Sample, width: int64): (Answer, Appender)
    requires IsWidth(width) && AllOk(h.series, width)
  {
    if a.Unset? then (UnknownSeries, a)
    else if x.t < a.minValid then (OutOfBounds, a)
    else if ref !in h.series then (UnknownSeries, a)
    else
      var r := Checked(h.series[ref], x, width);
      (r, if r == Taken then With(a, ref, x) else a)
  }

  function Created(h: HeadState, ref: nat): HeadState {
    if ref in h.series then h else h.(series := h.series[ref := NEW_SERIES])
  }

  /** headAppender.Add and initAppender.Add; the series of a label set is created when
      it is first seen. */
  ghost function Added(h: HeadState, a: Appender, ref: nat, x: Sample, width: int64): (Answer, HeadState, Appender)
    requires HeadOk(h, width) && TimeOk(x.t, width)
  {
    var h1 := if a.Unset? then Initialized(h, x.t) else h;
    var a1 := if a.Unset? then Fresh(h1, width) else a;
    if x.t < a1.minValid then (OutOfBounds, h1, a1)
    else
      var h2 := Created(h1, ref);
      var (r, a2) := AddedFast(h2, a1, ref, x, width);
      (r, h2, a2)
  }

  /* Committing */

  /** The series is there, and the chunk that takes the sample has room for it. */
  ghost predicate Can(series: map<nat, SeriesState>, x: RefSample, width: int64)
    requires IsWidth(width) && AllOk(series, width)
  {
    x.ref in series && TimeOk(x.s.t, width) && series[x.ref].HasRoom(x.s, width)
  }

  ghost function Step(series: map<nat, SeriesState>, x: RefSample, width: int64): (r: map<nat, SeriesState>)
    requires IsWidth(width) && AllOk(series, width) && Can(series, x, width)
    ensures AllOk(r, width) && r.Keys == series.Keys
  {
    StepOk(series, x, width);
    series[x.ref := series[x.ref].Appended(x.s, width)]
  }

  lemma StepOk(series: map<nat, SeriesState>, x: RefSample, width: int64)
    requires IsWidth(width) && AllOk(series, width) && Can(series, x, width)
    ensures AllOk(series[x.ref := series[x.ref].Appended(x.s, width)], width)
  {
    hide SeriesState.Ok, SeriesState.Appended, SeriesState.HasRoom, SeriesState.DueAt, Flat;
    AppendedOk(series[x.ref], x.s, width);
    var r := series[x.ref].Appended(x.s, width);
    forall ref | ref in series ensures series[x.ref := r][ref].Ok(width) {
    }
  }

  ghost predicate CanAll(series: map<nat, SeriesState>, xs: seq<RefSample>, width: int64)
    requires IsWidth(width) && AllOk(series, width)
    decreases |xs|
  {
    xs == [] || (Can(series, xs[0], width) && CanAll(Step(series, xs[0], width), xs[1..], width))
  }

  ghost function StepAll(series: map<nat, SeriesState>, xs: seq<RefSample>, width: int64): (r: map<nat, SeriesState>)
    requires IsWidth(width) && AllOk(series, width) && CanAll(series, xs, width)
    ensures AllOk(r, width) && r.Keys == series.Keys
    decreases |xs|
  {
    if xs == [] then series else StepAll(Step(series, xs[0], width), xs[1..], width)
  }

  function Widened(h: HeadState, mint: int64, maxt: int64): HeadState {
    HeadState(if mint < h.minTime then mint else h.minTime, if maxt > h.maxTime then maxt else h.maxTime, h.series)
  }

  /** headAppender.Commit. */
  ghost function Committed(h: HeadState, a: Appender, width: int64): HeadState
    requires HeadOk(h, width) && (a.Appender? ==> CanAll(h.series, a.samples, width))
  {
    if a.Unset? then h
    else Widened(h.(series := StepAll(h.series, a.samples, width)), a.mint, a.maxt)
  }

  /** What a series really takes of one sample. */
  function Takes(series: map<nat, SeriesState>, x: RefSample, ref: nat): seq<Sample> {
    if x.ref == ref && ref in series && series[ref].Accepts(x.s) then [x.s] else []
  }

  /** The samples of a commit that a series really takes, one after the other. */
  ghost function Gained(series: map<nat, SeriesState>, xs: seq<RefSample>, ref: nat, width: int64): seq<Sample>
    requires IsWidth(width) && AllOk(series, width) && CanAll(series, xs, width)
    decreases |xs|
  {
    if xs == [] then [] else Takes(series, xs[0], ref) + Gained(Step(series, xs[0], width), xs[1..], ref, width)
  }

  function SamplesOf(series: map<nat, SeriesState>, ref: nat): SeriesState {
    if ref in series then series[ref] else NEW_SERIES
  }

  ghost function Held(series: map<nat, SeriesState>, ref: nat): seq<Sample> {
    Flat(SamplesOf(series, ref).chunks)
  }

  lemma StepHolds(series: map<nat, SeriesState>, x: RefSample, ref: nat, width: int64)
    requires IsWidth(width) && AllOk(series, width) && Can(series, x, width)
    ensures Held(Step(series, x, width), ref)
         == Held(series, ref) + Takes(series, x, ref)
  {
    AppendedOk(series[x.ref], x.s, width);
    Seqs.Nothing(Held(series, ref));
  }

  /** Each series has what it had, and what it takes. */
  lemma {:induction false} CommitHolds(series: map<nat, SeriesState>, xs: seq<RefSample>, ref: nat, width: int64)
    requires IsWidth(width) && AllOk(series, width) && CanAll(series, xs, width)
    ensures Held(StepAll(series, xs, width), ref) == Held(series, ref) + Gained(series, xs, ref, width)
    decreases |xs|
  {
    hide SeriesState.Ok, Held, Can, Step, Takes;
    if xs == [] {
      Seqs.Nothing(Held(series, ref));
    } else {
      StepHolds(series, xs[0], ref, width);
      CommitHolds(Step(series, xs[0], width), xs[1..], ref, width);
      Seqs.Associate(Held(series, ref), Takes(series, xs[0], ref),
                     Gained(Step(series, xs[0], width), xs[1..], ref, width));
    }
  }

  lemma {:induction false} GainedAmong(series: map<nat, SeriesState>, xs: seq<RefSample>, ref: nat, width: int64)
    requires IsWidth(width) && AllOk(series, width) && CanAll(series, xs, width)
    ensures forall x :: x in Gained(series, xs, ref, width) ==> Replay.RefSample(ref, x) in xs
    decreases |xs|
  {
    hide SeriesState.Ok, Can, Step;
    if xs != [] {
      GainedAmong(Step(series, xs[0], width), xs[1..], ref, width);
      Seqs.Uncons(xs);
    }
  }

  lemma StepBounded(s: SeriesState, x: Sample, lo: int64, hi: int64, width: int64)
    requires IsWidth(width) && s.Ok(width) && TimeOk(x.t, width) && s.HasRoom(x, width) && Bounded(s, lo, hi)
    requires lo <= x.t <= hi
    ensures Bounded(s.Appended(x, width), lo, hi)
  {
    AppendedOk(s, x, width);
    hide SeriesState.Ok, SeriesState.DueAt, SeriesState.HasRoom;
  }

  lemma {:induction false} StepsBounded(series: map<nat, SeriesState>, xs: seq<RefSample>, lo: int64, hi: int64,
      width: int64)
    requires IsWidth(width) && AllOk(series, width) && CanAll(series, xs, width)
    requires forall ref :: ref in series ==> Bounded(series[ref], lo, hi)
    requires forall i :: 0 <= i < |xs| ==> lo <= xs[i].s.t <= hi
    ensures forall ref :: ref in series ==> Bounded(StepAll(series, xs, width)[ref], lo, hi)
    decreases |xs|
  {
    hide SeriesState.Ok, Bounded, SeriesState.HasRoom;
    if xs != [] {
      StepBounded(series[xs[0].ref], xs[0].s, lo, hi, width);
      StepsBounded(Step(series, xs[0], width), xs[1..], lo, hi, width);
    }
  }

  /** The head's times go on to bound all chunks. */
  lemma CommitKeeps(h: HeadState, a: Appender, width: int64)
    requires HeadOk(h, width) && AppenderOk(a, width) && (a.Appender? ==> CanAll(h.series, a.samples, width))
    requires a.Appender? ==> h.minTime != MAX
    ensures HeadOk(Committed(h, a, width), width)
  {
    hide SeriesState.Ok, CanAll;
    if a.Appender? {
      var g := Widened(h, a.mint, a.maxt);
      assert forall ref :: ref in h.series ==> Bounded(h.series[ref], g.minTime, g.maxTime);
      StepsBounded(h.series, a.samples, g.minTime, g.maxTime, width);
    }
  }

  lemma OpenKeeps(h: HeadState, width: int64)
    requires HeadOk(h, width)
    ensures AppenderOk(Opened(h, width), width)
  {
  }

  /** An appender with bounds has been opened after the head got its times. */
  predicate After(a: Appender, h: HeadState) { a.Appender? ==> h.minTime != MAX }

  lemma AddKeeps(h: HeadState, a: Appender, ref: nat, x: Sample, width: int64)
    requires HeadOk(h, width) && AppenderOk(a, width) && TimeOk(x.t, width) && After(a, h)
    ensures var (r, h', a') := Added(h, a, ref, x, width);
            && HeadOk(h', width) && AppenderOk(a', width) && a'.Appender?
            && h'.minTime <= h.minTime && h.maxTime <= h'.maxTime && h'.minTime != MAX
            && (a.Unset? && h.minTime == MAX ==> h'.minTime == x.t && h'.maxTime == x.t)
            && (a.Appender? || h.minTime != MAX ==> h'.minTime == h.minTime && h'.maxTime == h.maxTime)
            && (a.Appender? ==> a'.minValid == a.minValid)
            && (a.Unset? ==> a'.minValid == h'.maxTime - width / 2)
            && forall k :: Held(h'.series, k) == Held(h.series, k)
  {
    hide AllOk, Bounded, AppenderOk, AddedFast, Held;
    var h1 := if a.Unset? then Initialized(h, x.t) else h;
    InitKeeps(h, x.t, width);
    var a1 := if a.Unset? then Fresh(h1, width) else a;
    FreshOk(h1, width);
    CreateKeeps(h1, ref, width);
    AddFastKeeps(Created(h1, ref), a1, ref, x, width);
  }

  lemma InitKeeps(h: HeadState, t: int64, width: int64)
    requires HeadOk(h, width) && TimeOk(t, width)
    ensures var g := Initialized(h, t);
            && HeadOk(g, width) && g.minTime <= h.minTime && h.maxTime <= g.maxTime && 0 <= g.maxTime
            && (if h.minTime == MAX then g.minTime == t && g.maxTime == t
                else g.minTime == h.minTime && g.maxTime == h.maxTime)
    ensures Initialized(h, t).minTime != MAX
  {
    hide SeriesState.Ok;
  }

  lemma FreshOk(h: HeadState, width: int64)
    requires IsWidth(width) && 0 <= h.maxTime
    ensures AppenderOk(Fresh(h, width), width)
  {
  }

  lemma CreateKeeps(h: HeadState, ref: nat, width: int64)
    requires HeadOk(h, width)
    ensures HeadOk(Created(h, ref), width) && forall k :: Held(Created(h, ref).series, k) == Held(h.series, k)
  {
    EmptyOk(width);
    hide SeriesState.Ok;
  }

  lemma AddFastKeeps(h: HeadState, a: Appender, ref: nat, x: Sample, width: int64)
    requires HeadOk(h, width) && AppenderOk(a, width) && TimeOk(x.t, width)
    ensures var (r, a') := AddedFast(h, a, ref, x, width);
            && AppenderOk(a', width)
            && (a.Appender? ==> a'.Appender? && a'.minValid == a.minValid) && (a.Unset? ==> a'.Unset?)
            && (r == OutOfBounds <==> a.Appender? && x.t < a.minValid)
            && (r == UnknownSeries <==> a.Unset? || (a.minValid <= x.t && ref !in h.series))
            && (r == Taken ==> a'.Appender? && a'.samples == a.samples + [Replay.RefSample(ref, x)])
            && (r != Taken ==> a' == a)
  {
    hide SeriesState.Ok, Checked;
  }

  lemma EmptyOk(width: int64)
    requires IsWidth(width)
    ensures NEW_SERIES.Ok(width)
  {
  }
}
