/** The ring of replay workers leaves the head as sequential replay does, whatever
    the order in which reader and workers take their steps. */
module ReplayMeaning {
  import opened Samples
  import opened Labelling
  import opened Tombstones
  import opened Replay
  import Seqs

  function AllSamples(log: seq<Event>): seq<RefSample> {
    if log == [] then [] else (if log[0].Samples? then log[0].samples else []) + AllSamples(log[1..])
  }

  function Flat(bs: seq<Batch>): seq<RefSample> {
    if bs == [] then [] else bs[0] + Flat(bs[1..])
  }

  lemma {:induction false} FlatPush(bs: seq<Batch>, b: Batch)
    ensures Flat(bs + [b]) == Flat(bs) + b
  {
    if bs == [] {
      assert ([] + [b])[1..] == [];
    } else {
      FlatPush(bs[1..], b);
      assert (bs + [b])[1..] == bs[1..] + [b];
    }
  }

  /** What a worker keeps for the next one, and what it has still to do itself. */
  function Held(w: Worker): seq<RefSample> {
    if w.phase.Working? then w.phase.batch else []
  }

  function Rest(w: Worker): seq<RefSample> {
    if w.phase.Working? && w.phase.k <= |w.phase.batch| then w.phase.batch[w.phase.k..] else []
  }

  function AtReader(s: State): seq<RefSample> {
    (if s.reader.Holding? then s.reader.batch else []) + AllSamples(s.log)
  }

  /** The samples that worker i has not received yet, in order. */
  function Upstream(s: State, i: nat): seq<RefSample>
    requires i < |s.chans| && i <= |s.workers|
  {
    Flat(s.chans[i]) + if i == 0 then AtReader(s) else Held(s.workers[i - 1]) + Upstream(s, i - 1)
  }

  /** The samples that worker i has still to look at. */
  function Pending(s: State, i: nat): seq<RefSample>
    requires i < |s.chans| && i < |s.workers|
  {
    Rest(s.workers[i]) + Upstream(s, i)
  }

  lemma {:induction false} UpstreamSame(s: State, t: State, n: nat, i: nat)
    requires Shape(s, n) && Shape(t, n) && i <= n
    requires AtReader(s) == AtReader(t)
    requires forall j :: 0 <= j <= i ==> s.chans[j] == t.chans[j]
    requires forall j :: 0 <= j < i ==> Held(s.workers[j]) == Held(t.workers[j])
    ensures Upstream(s, i) == Upstream(t, i)
  {
    if i > 0 {
      UpstreamSame(s, t, n, i - 1);
    }
  }

  lemma PendingReader(s: State, n: nat, i: nat, from: int64)
    requires Shape(s, n) && Enabled(s, n, TheReader) && i < n
    ensures var t := ReaderStep(s, n, from); Shape(t, n) && Pending(t, i) == Pending(s, i)
  {
    hide Record;
    var t := ReaderStep(s, n, from);
    if s.reader.Holding? {
      UpstreamSent(s, t, n, i, from);
    } else {
      if s.reader.Reading? && s.log != [] && s.log[0].Samples? && s.log[0].samples != [] {
        AtReaderTakes(s.log, |t.reader.batch|);
      }
      UpstreamSame(s, t, n, i);
    }
  }

  lemma AtReaderTakes(log: seq<Event>, m: nat)
    requires log != [] && log[0].Samples? && m <= |log[0].samples|
    ensures AllSamples(log) == log[0].samples[..m] + AllSamples([Samples(log[0].samples[m..])] + log[1..])
  {
    var xs, e := log[0].samples, Samples(log[0].samples[m..]);
    Seqs.Cons(e, log[1..]);
    Seqs.Parts(xs, m);
    Seqs.Associate(xs[..m], xs[m..], AllSamples(log[1..]));
  }

  lemma {:induction false} UpstreamSent(s: State, t: State, n: nat, i: nat, from: int64)
    requires Shape(s, n) && s.reader.Holding? && t == ReaderStep(s, n, from) && i <= n
    ensures Upstream(s, i) == Upstream(t, i)
  {
    hide AllSamples, Flat;
    if i == 0 {
      FlatPush(s.chans[0], s.reader.batch);
      Seqs.Associate(Flat(s.chans[0]), s.reader.batch, AllSamples(s.log));
      Seqs.Nothing(AllSamples(s.log));
    } else {
      UpstreamSent(s, t, n, i - 1, from);
    }
  }

  /** Taking a batch from a channel. */
  lemma {:induction false} UpstreamTaken(s: State, t: State, n: nat, i: nat, j: nat)
    requires Shape(s, n) && Shape(t, n) && i < j <= n
    requires AtReader(s) == AtReader(t) && s.chans[i] != [] && t.chans == s.chans[i := s.chans[i][1..]]
    requires Held(s.workers[i]) == [] && Held(t.workers[i]) == s.chans[i][0]
    requires forall k :: 0 <= k < n && k != i ==> s.workers[k] == t.workers[k]
    ensures Upstream(s, j) == Upstream(t, j)
  {
    hide AtReader, Flat;
    if i + 1 < j {
      UpstreamTaken(s, t, n, i, j - 1);
    } else {
      UpstreamDrops(s, t, n, i);
      Seqs.Nothing(Upstream(s, i));
    }
  }

  lemma UpstreamDrops(s: State, t: State, n: nat, i: nat)
    requires Shape(s, n) && Shape(t, n) && i <= n
    requires AtReader(s) == AtReader(t) && s.chans[i] != [] && t.chans == s.chans[i := s.chans[i][1..]]
    requires forall k :: 0 <= k < n && k != i ==> s.workers[k] == t.workers[k]
    ensures Upstream(s, i) == s.chans[i][0] + Upstream(t, i)
  {
    hide AtReader, Flat, Held;
    var up := if i == 0 then AtReader(s) else Held(s.workers[i - 1]) + Upstream(s, i - 1);
    FlatFirst(s.chans[i]);
    Seqs.Associate(s.chans[i][0], Flat(t.chans[i]), up);
    if i > 0 {
      UpstreamSame(s, t, n, i - 1);
    }
  }

  lemma FlatFirst(bs: seq<Batch>)
    requires bs != []
    ensures Flat(bs) == bs[0] + Flat(bs[1..])
  {
  }

  /** Passing a batch on to the next channel. */
  lemma {:induction false} UpstreamPassed(s: State, t: State, n: nat, i: nat, j: nat, b: Batch)
    requires Shape(s, n) && Shape(t, n) && i < j <= n
    requires AtReader(s) == AtReader(t) && t.chans == s.chans[i + 1 := s.chans[i + 1] + [b]]
    requires Held(s.workers[i]) == b && Held(t.workers[i]) == []
    requires forall k :: 0 <= k < n && k != i ==> s.workers[k] == t.workers[k]
    ensures Upstream(s, j) == Upstream(t, j)
  {
    hide AtReader, Flat, Held;
    if i + 1 < j {
      UpstreamPassed(s, t, n, i, j - 1, b);
    } else {
      assert t.chans[j] == s.chans[j] + [b] && t.chans[..j] == s.chans[..j];
      assert forall k :: 0 <= k <= i ==> s.chans[k] == t.chans[k];
      FlatPush(s.chans[j], b);
      UpstreamSame(s, t, n, i);
      Seqs.Associate(Flat(s.chans[j]), b, Upstream(s, i));
      Seqs.Nothing(Upstream(t, i));
    }
  }

  /** A worker's step only takes one sample off its own pending ones, if any. */
  lemma PendingWorker(s: State, n: nat, i: nat, j: nat, from: int64)
    requires Shape(s, n) && Enabled(s, n, TheWorker(i)) && j < n
    ensures var t, w := WorkerStep(s, n, i, from), s.workers[i].phase;
            Shape(t, n) &&
            if j == i && w.Working? && w.k < |w.batch| then Pending(s, j) == [w.batch[w.k]] + Pending(t, j)
            else Pending(s, j) == Pending(t, j)
  {
    hide Accept, Min, Max, AllSamples, Flat;
    WorkerMoves(s, n, i, from);
    var t, w := WorkerStep(s, n, i, from), s.workers[i];
    if w.phase.Receiving? && s.chans[i] != [] {
      if i < j { UpstreamTaken(s, t, n, i, j); }
      else if i == j { UpstreamDrops(s, t, n, i); }
      else { UpstreamSame(s, t, n, j); }
    } else if w.phase.Working? && w.phase.k == |w.phase.batch| {
      if i < j { UpstreamPassed(s, t, n, i, j, w.phase.batch); }
      else { UpstreamSame(s, t, n, j); }
    } else {
      UpstreamSame(s, t, n, j);
    }
  }

  /* The meaning of a log, series by series */

  function SeriesOf(h: Head, r: nat): seq<Sample> {
    if r in h.series then h.series[r] else []
  }

  /** The samples of one series, added to what the series holds. */
  function Applied(c: seq<Sample>, xs: seq<RefSample>, r: nat, from: int64): seq<Sample>
    decreases |xs|
  {
    if xs == [] then c
    else Applied(if xs[0].ref == r && xs[0].s.t >= from then Accept(c, xs[0].s) else c, xs[1..], r, from)
  }

  lemma {:induction false} AppliedConcat(c: seq<Sample>, a: seq<RefSample>, b: seq<RefSample>, r: nat, from: int64)
    ensures Applied(c, a + b, r, from) == Applied(Applied(c, a, r, from), b, r, from)
    decreases |a|
  {
    hide Accept;
    if a == [] {
      Seqs.Nothing(b);
    } else {
      Seqs.Tail(a, b);
      AppliedConcat(if a[0].ref == r && a[0].s.t >= from then Accept(c, a[0].s) else c, a[1..], b, r, from);
    }
  }

  function FinalRefs(refs: map<Labels, nat>, log: seq<Event>): map<Labels, nat>
    decreases |log|
  {
    if log == [] then refs
    else FinalRefs(if log[0].Series? then Register(refs, log[0]) else refs, log[1..])
  }

  function FinalStones(stones: map<nat, seq<Interval>>, log: seq<Event>, from: int64): map<nat, seq<Interval>>
    decreases |log|
  {
    if log == [] then stones
    else FinalStones(if log[0].Stones? then AddStones(stones, log[0].stones, from) else stones, log[1..], from)
  }

  /** A new series has a new id, and its record comes before its samples. */
  ghost predicate WellOrdered(refs: map<Labels, nat>, log: seq<Event>)
    decreases |log|
  {
    log == [] ||
    match log[0]
    case Series(ref, lset) =>
      (lset !in refs ==> ref !in refs.Values) && WellOrdered(Register(refs, log[0]), log[1..])
    case Samples(xs) =>
      (forall x :: x in xs ==> x.ref in refs.Values || x.ref !in FinalRefs(refs, log[1..]).Values)
      && WellOrdered(refs, log[1..])
    case Stones(_) => WellOrdered(refs, log[1..])
  }

  lemma {:induction false} RefsGrow(refs: map<Labels, nat>, log: seq<Event>)
    requires WellOrdered(refs, log)
    ensures refs.Values <= FinalRefs(refs, log).Values
    decreases |log|
  {
    if log != [] {
      if log[0].Series? {
        var next := Register(refs, log[0]);
        RefsGrow(next, log[1..]);
        RegisterValues(refs, log[0]);
      } else {
        RefsGrow(refs, log[1..]);
      }
    }
  }

  lemma RegisterValues(refs: map<Labels, nat>, e: Event)
    requires e.Series?
    ensures Register(refs, e).Values == if e.lset in refs then refs.Values else refs.Values + {e.ref}
  {
    if e.lset !in refs {
      var next := Register(refs, e);
      assert next[e.lset] == e.ref;
      forall v | v in refs.Values ensures v in next.Values {
        var k :| k in refs && refs[k] == v;
        assert next[k] == v;
      }
    }
  }

  /** The samples that take effect: not too old, and of a known series. */
  ghost predicate Effective(x: RefSample, xs: seq<RefSample>, known: set<nat>, from: int64) {
    x in xs && x.s.t >= from && x.ref in known
  }

  ghost predicate IsMin(m: int64, init: int64, xs: seq<RefSample>, known: set<nat>, from: int64) {
    && m <= init && (forall x :: Effective(x, xs, known, from) ==> m <= x.s.t)
    && (m == init || exists x :: Effective(x, xs, known, from) && x.s.t == m)
  }

  ghost predicate IsMax(m: int64, init: int64, xs: seq<RefSample>, known: set<nat>, from: int64) {
    && m >= init && (forall x :: Effective(x, xs, known, from) ==> m >= x.s.t)
    && (m == init || exists x :: Effective(x, xs, known, from) && x.s.t == m)
  }

  /** What a head looks like after the samples xs have been replayed over h. */
  ghost predicate Replayed(h: Head, g: Head, xs: seq<RefSample>, from: int64) {
    && (forall r :: r in g.series ==> g.series[r] == Applied(SeriesOf(h, r), xs, r, from))
    && IsMin(g.minT, h.minT, xs, g.series.Keys, from)
    && IsMax(g.maxT, h.maxT, xs, g.series.Keys, from)
  }

  lemma ReplayedOnce(h: Head, g: Head, g': Head, xs: seq<RefSample>, from: int64)
    requires Replayed(h, g, xs, from) && Replayed(h, g', xs, from)
    requires g.series.Keys == g'.series.Keys && g.refs == g'.refs && g.stones == g'.stones
    ensures g == g'
  {
    assert g.series == g'.series;
  }

  /** Replaying a and then b. */
  lemma ReplayedThen(h: Head, k: Head, g: Head, a: seq<RefSample>, b: seq<RefSample>, from: int64)
    requires Replayed(h, k, a, from) && Replayed(k, g, b, from) && k.series.Keys <= g.series.Keys
    requires forall x :: x in a ==> x.ref in k.series || x.ref !in g.series
    requires h.series.Keys <= k.series.Keys
    ensures Replayed(h, g, a + b, from)
  {
    hide Accept, IsMin, IsMax, Effective, Applied;
    forall r | r in g.series ensures g.series[r] == Applied(SeriesOf(h, r), a + b, r, from) {
      AppliedConcat(SeriesOf(h, r), a, b, r, from);
      if r !in k.series {
        NotApplied([], a, r, from);
      }
    }
    SameEffective(a, k.series.Keys, g.series.Keys, from);
    SameExtremes(k.minT, h.minT, k.maxT, h.maxT, a, k.series.Keys, g.series.Keys, from);
    ReplayedMinMax(h, k, g, a, b, from);
  }

  lemma SameExtremes(m: int64, i: int64, n: int64, j: int64, xs: seq<RefSample>, known: set<nat>, more: set<nat>,
      from: int64)
    requires forall x :: Effective(x, xs, known, from) <==> Effective(x, xs, more, from)
    requires IsMin(m, i, xs, known, from) && IsMax(n, j, xs, known, from)
    ensures IsMin(m, i, xs, more, from) && IsMax(n, j, xs, more, from)
  {
    hide Effective;
  }

  lemma ApplyMeans(h: Head, x: RefSample, from: int64)
    ensures var g := Apply(h, x, from);
            && g.refs == h.refs && g.stones == h.stones && g.series.Keys == h.series.Keys
            && Replayed(h, g, [x], from)
  {
    hide Accept, Applied;
    var g := Apply(h, x, from);
    forall r | r in g.series ensures g.series[r] == Applied(SeriesOf(h, r), [x], r, from) {
      AppliedOne(SeriesOf(h, r), x, r, from);
    }
    assert x in [x];
  }

  lemma {:induction false} ApplyAllMeans(h: Head, xs: seq<RefSample>, from: int64)
    ensures var g := ApplyAll(h, xs, from);
            && g.refs == h.refs && g.stones == h.stones && g.series.Keys == h.series.Keys
            && Replayed(h, g, xs, from)
    decreases |xs|
  {
    if xs != [] {
      ApplyMeans(h, xs[0], from);
      ApplyAllMeans(Apply(h, xs[0], from), xs[1..], from);
      hide Replayed, Apply;
      ReplayedThen(h, Apply(h, xs[0], from), ApplyAll(h, xs, from), [xs[0]], xs[1..], from);
      assert xs == [xs[0]] + xs[1..];
    }
  }

  lemma AppliedOne(c: seq<Sample>, x: RefSample, r: nat, from: int64)
    ensures Applied(c, [x], r, from) == if x.ref == r && x.s.t >= from then Accept(c, x.s) else c
  {
    assert [x][1..] == [];
  }

  lemma ReplayedMinMax(h: Head, k: Head, g: Head, a: seq<RefSample>, b: seq<RefSample>, from: int64)
    requires IsMin(k.minT, h.minT, a, g.series.Keys, from) && IsMin(g.minT, k.minT, b, g.series.Keys, from)
    requires IsMax(k.maxT, h.maxT, a, g.series.Keys, from) && IsMax(g.maxT, k.maxT, b, g.series.Keys, from)
    ensures IsMin(g.minT, h.minT, a + b, g.series.Keys, from)
    ensures IsMax(g.maxT, h.maxT, a + b, g.series.Keys, from)
  {
    var known := g.series.Keys;
    assert forall x :: Effective(x, a + b, known, from) <==>
        Effective(x, a, known, from) || Effective(x, b, known, from);
  }

  /** Sequential replay, one series at a time. */
  lemma {:induction false} SequentialMeans(h: Head, log: seq<Event>, from: int64)
    requires h.series.Keys == h.refs.Values && WellOrdered(h.refs, log)
    ensures var g := Sequential(h, log, from);
            && g.refs == FinalRefs(h.refs, log) && g.series.Keys == g.refs.Values
            && g.stones == FinalStones(h.stones, log, from)
            && Replayed(h, g, AllSamples(log), from)
    decreases |log|
  {
    if log != [] {
      var e, g := log[0], Sequential(h, log, from);
      if e.Series? {
        RegisterValues(h.refs, e);
        SequentialMeans(Create(h, e), log[1..], from);
        assert AllSamples(log) == AllSamples(log[1..]);
      } else if e.Stones? {
        SequentialMeans(Record(h, e, from), log[1..], from);
        assert AllSamples(log) == AllSamples(log[1..]);
      } else {
        ApplyAllMeans(h, e.samples, from);
        SequentialMeans(ApplyAll(h, e.samples, from), log[1..], from);
        RefsGrow(h.refs, log[1..]);
        hide Replayed, ApplyAll;
        ReplayedThen(h, ApplyAll(h, e.samples, from), g, e.samples, AllSamples(log[1..]), from);
      }
    }
  }

  lemma {:induction false} NotApplied(c: seq<Sample>, xs: seq<RefSample>, r: nat, from: int64)
    requires forall x :: x in xs ==> x.ref != r
    ensures Applied(c, xs, r, from) == c
  {
    if xs != [] {
      NotApplied(c, xs[1..], r, from);
    }
  }

  lemma SameEffective(xs: seq<RefSample>, known: set<nat>, more: set<nat>, from: int64)
    requires known <= more && forall x :: x in xs ==> x.ref in known || x.ref !in more
    ensures forall x :: Effective(x, xs, known, from) <==> Effective(x, xs, more, from)
  {
  }
}
