/** Invariants of the replay ring over all its runs, and its result. */
module ReplayRuns {
  import opened Samples
  import opened Labelling
  import opened Tombstones
  import opened Replay
  import opened ReplayMeaning
  import Seqs

  /** The same state with nothing left in the log. */
  function Cut(s: State): State { s.(log := []) }

  /** Registration of series is where sequential replay of the log will take it. */
  ghost predicate Registering(s: State, f: map<Labels, nat>) {
    && s.head.series.Keys == s.head.refs.Values
    && WellOrdered(s.head.refs, s.log) && FinalRefs(s.head.refs, s.log) == f
  }

  /** Samples in the ring belong to series that are registered or never will be. */
  ghost predicate Travelling(s: State, n: nat, f: map<Labels, nat>)
    requires Shape(s, n)
  {
    forall i, x :: 0 <= i < n && x in Pending(Cut(s), i) ==> x.ref in s.head.refs.Values || x.ref !in f.Values
  }

  /** Every series will end up with the same samples. */
  ghost predicate Conserved(s: State, n: nat, h: Head, xs: seq<RefSample>, f: map<Labels, nat>, from: int64)
    requires Shape(s, n)
  {
    forall r :: r in f.Values ==>
      Applied(SeriesOf(s.head, r), Pending(s, r % n), r, from) == Applied(SeriesOf(h, r), xs, r, from)
  }

  /** Deleted ranges are added where sequential replay of the log will add them. */
  ghost predicate Collecting(s: State, stones: map<nat, seq<Interval>>, from: int64) {
    FinalStones(s.head.stones, s.log, from) == stones
  }

  lemma CollectingStep(s: State, n: nat, a: Actor, stones: map<nat, seq<Interval>>, from: int64)
    requires Shape(s, n) && Enabled(s, n, a) && Collecting(s, stones, from)
    ensures Collecting(Step(s, n, a, from), stones, from)
  {
    hide AddStones, Accept, Min, Max;
    if a.TheReader? {
      if s.reader.Reading? && s.log != [] && s.log[0].Samples? {
        var t := ReaderStep(s, n, from);
        assert s.log[0].samples != [] ==> t.log[1..] == s.log[1..];
      }
    } else {
      WorkerLeaves(s, n, a.i, from);
    }
  }

  lemma WorkerLeaves(s: State, n: nat, i: nat, from: int64)
    requires Shape(s, n) && Enabled(s, n, TheWorker(i))
    ensures var t := WorkerStep(s, n, i, from); t.head.stones == s.head.stones && t.log == s.log
  {
    hide Accept, Min, Max;
  }

  lemma RegisteringReader(s: State, n: nat, f: map<Labels, nat>, from: int64)
    requires Shape(s, n) && Enabled(s, n, TheReader) && Registering(s, f)
    ensures Registering(ReaderStep(s, n, from), f)
  {
    var t := ReaderStep(s, n, from);
    if s.reader.Reading? && s.log != [] {
      if s.log[0].Series? {
        RegisterValues(s.head.refs, s.log[0]);
      } else if s.log[0].Samples? && s.log[0].samples != [] {
        assert t.log[1..] == s.log[1..];
        assert forall x :: x in t.log[0].samples ==> x in s.log[0].samples;
      }
    }
  }

  lemma {:induction false} UpstreamAdds(s: State, t: State, n: nat, i: nat, b: Batch)
    requires Shape(s, n) && Shape(t, n) && i <= n
    requires AtReader(t) == AtReader(s) + b && t.workers == s.workers
    requires forall j :: 0 <= j <= i ==> s.chans[j] == t.chans[j]
    ensures Upstream(t, i) == Upstream(s, i) + b
  {
    hide AtReader;
    if i > 0 {
      UpstreamAdds(s, t, n, i - 1, b);
    }
  }

  lemma TravellingReader(s: State, n: nat, f: map<Labels, nat>, from: int64)
    requires Shape(s, n) && Enabled(s, n, TheReader) && Registering(s, f) && Travelling(s, n, f)
    ensures var t := ReaderStep(s, n, from); Shape(t, n) && Travelling(t, n, f)
  {
    var t := ReaderStep(s, n, from);
    forall i, x | 0 <= i < n && x in Pending(Cut(t), i) ensures x.ref in t.head.refs.Values || x.ref !in f.Values {
      if s.reader.Reading? && s.log != [] && s.log[0].Samples? && s.log[0].samples != [] {
        UpstreamAdds(Cut(s), Cut(t), n, i, t.reader.batch);
        assert x in Pending(Cut(s), i) || x in s.log[0].samples;
      } else {
        if s.reader.Holding? {
          PendingReader(Cut(s), n, i, from);
          assert Cut(t) == ReaderStep(Cut(s), n, from);
        } else {
          UpstreamSame(Cut(s), Cut(t), n, i);
        }
        assert x in Pending(Cut(s), i);
        if s.reader.Reading? && s.log != [] && s.log[0].Series? {
          RegisterValues(s.head.refs, s.log[0]);
        }
      }
    }
  }

  lemma SeriesReader(s: State, n: nat, f: map<Labels, nat>, from: int64, r: nat)
    requires Shape(s, n) && Enabled(s, n, TheReader) && Registering(s, f)
    ensures SeriesOf(ReaderStep(s, n, from).head, r) == SeriesOf(s.head, r)
  {
  }

  lemma ConservedReader(s: State, n: nat, h: Head, xs: seq<RefSample>, f: map<Labels, nat>, from: int64)
    requires Shape(s, n) && Enabled(s, n, TheReader) && Registering(s, f) && Conserved(s, n, h, xs, f, from)
    ensures var t := ReaderStep(s, n, from); Shape(t, n) && Conserved(t, n, h, xs, f, from)
  {
    hide ReaderStep, Pending, Applied, SeriesOf, Registering;
    PendingReader(s, n, 0, from);
    forall r | r in f.Values
      ensures var t := ReaderStep(s, n, from);
              Applied(SeriesOf(t.head, r), Pending(t, r % n), r, from) == Applied(SeriesOf(h, r), xs, r, from)
    {
      PendingReader(s, n, r % n, from);
      SeriesReader(s, n, f, from, r);
    }
  }

  /** A worker does not look at the log. */
  lemma TravellingWorker(s: State, n: nat, i: nat, f: map<Labels, nat>, from: int64)
    requires Shape(s, n) && Enabled(s, n, TheWorker(i)) && Registering(s, f) && Travelling(s, n, f)
    ensures var t := WorkerStep(s, n, i, from); Shape(t, n) && Travelling(t, n, f) && Registering(t, f)
  {
    hide Accept, Min, Max;
    var t := WorkerStep(s, n, i, from);
    assert WorkerStep(Cut(s), n, i, from) == Cut(t);
    assert t.head.refs == s.head.refs && t.head.series.Keys == s.head.series.Keys && t.log == s.log;
    WorkerMoves(s, n, i, from);
    forall j | 0 <= j < n ensures forall x :: x in Pending(Cut(t), j) ==> x in Pending(Cut(s), j) {
      PendingWorker(Cut(s), n, i, j, from);
    }
  }

  /** Only the worker in charge of a series changes it, with its next sample. */
  lemma SeriesWorker(s: State, n: nat, i: nat, f: map<Labels, nat>, from: int64, r: nat)
    requires Shape(s, n) && Enabled(s, n, TheWorker(i)) && Registering(s, f) && Travelling(s, n, f) && r in f.Values
    ensures var w, c := s.workers[i].phase, SeriesOf(s.head, r);
            SeriesOf(WorkerStep(s, n, i, from).head, r) ==
            if w.Working? && w.k < |w.batch| && r % n == i && w.batch[w.k].ref == r && w.batch[w.k].s.t >= from
            then Accept(c, w.batch[w.k].s) else c
  {
    hide Accept, Min, Max, WellOrdered, FinalRefs;
    var w := s.workers[i].phase;
    if w.Working? && w.k < |w.batch| {
      assert w.batch[w.k] in Rest(s.workers[i]) && w.batch[w.k] in Pending(Cut(s), i);
    }
  }

  lemma ConservedWorker(s: State, n: nat, i: nat, h: Head, xs: seq<RefSample>, f: map<Labels, nat>, from: int64)
    requires Shape(s, n) && Enabled(s, n, TheWorker(i)) && Registering(s, f) && Travelling(s, n, f)
    requires Conserved(s, n, h, xs, f, from)
    ensures var t := WorkerStep(s, n, i, from); Shape(t, n) && Conserved(t, n, h, xs, f, from)
  {
    hide Accept, WorkerStep, Pending, SeriesOf, Registering, Travelling, Enabled;
    PendingWorker(s, n, i, i, from);
    var t, w := WorkerStep(s, n, i, from), s.workers[i].phase;
    forall r | r in f.Values
      ensures Applied(SeriesOf(t.head, r), Pending(t, r % n), r, from) == Applied(SeriesOf(h, r), xs, r, from)
    {
      PendingWorker(s, n, i, r % n, from);
      SeriesWorker(s, n, i, f, from, r);
      if w.Working? && w.k < |w.batch| && r % n == i {
        AppliedNext(SeriesOf(s.head, r), w.batch[w.k], Pending(t, i), r, from);
      }
    }
  }

  lemma AppliedNext(c: seq<Sample>, x: RefSample, ys: seq<RefSample>, r: nat, from: int64)
    ensures var d := if x.ref == r && x.s.t >= from then Accept(c, x.s) else c;
            Applied(c, [x] + ys, r, from) == Applied(d, ys, r, from)
  {
    assert ([x] + ys)[1..] == ys;
  }

  /* The times of the head */

  /** Every sample that counts for the minimum is still to come, or has been counted
      by its worker; and a worker that has passed on its minimum is done with it. */
  ghost predicate MinKept(s: State, n: nat, init: int64, xs: seq<RefSample>, known: set<nat>, from: int64)
    requires Shape(s, n)
  {
    && s.head.minT <= init
    && (s.head.minT == init || exists x :: Effective(x, xs, known, from) && x.s.t == s.head.minT)
    && (forall i :: 0 <= i < n ==> MinOf(s.workers[i], s.head.minT, xs, known, from))
    && (forall x :: Effective(x, xs, known, from) ==> x in Pending(s, x.ref % n) || s.workers[x.ref % n].mint <= x.s.t)
  }

  ghost predicate MinOf(w: Worker, minT: int64, xs: seq<RefSample>, known: set<nat>, from: int64) {
    && (w.mint == MAX || exists x :: Effective(x, xs, known, from) && x.s.t == w.mint)
    && (w.phase.SwapMin? ==> w.mint < w.phase.seen)
    && (w.phase.LoadMax? || w.phase.SwapMax? || w.phase.Stopped? ==> minT <= w.mint)
  }

  ghost predicate MaxKept(s: State, n: nat, init: int64, xs: seq<RefSample>, known: set<nat>, from: int64)
    requires Shape(s, n)
  {
    && s.head.maxT >= init
    && (s.head.maxT == init || exists x :: Effective(x, xs, known, from) && x.s.t == s.head.maxT)
    && (forall i :: 0 <= i < n ==> MaxOf(s.workers[i], s.head.maxT, xs, known, from))
    && (forall x :: Effective(x, xs, known, from) ==> x in Pending(s, x.ref % n) || s.workers[x.ref % n].maxt >= x.s.t)
  }

  ghost predicate MaxOf(w: Worker, maxT: int64, xs: seq<RefSample>, known: set<nat>, from: int64) {
    && (w.maxt == MIN || exists x :: Effective(x, xs, known, from) && x.s.t == w.maxt)
    && (w.phase.SwapMax? ==> w.maxt > w.phase.seen)
    && (w.phase.Stopped? ==> maxT >= w.maxt)
  }

  ghost predicate Within(s: State, n: nat, xs: seq<RefSample>)
    requires Shape(s, n)
  {
    forall i, x :: 0 <= i < n && x in Pending(s, i) ==> x in xs
  }

  lemma TimesReader(s: State, n: nat, h: Head, xs: seq<RefSample>, known: set<nat>, from: int64)
    requires Shape(s, n) && Enabled(s, n, TheReader) && Within(s, n, xs)
    requires MinKept(s, n, h.minT, xs, known, from) && MaxKept(s, n, h.maxT, xs, known, from)
    ensures var t := ReaderStep(s, n, from);
            && Shape(t, n) && Within(t, n, xs)
            && MinKept(t, n, h.minT, xs, known, from) && MaxKept(t, n, h.maxT, xs, known, from)
  {
    ReaderLeaves(s, n, from);
    hide ReaderStep, Pending, MinKept, MaxKept, Within;
    MinSame(s, ReaderStep(s, n, from), n, h.minT, xs, known, from);
    MaxSame(s, ReaderStep(s, n, from), n, h.maxT, xs, known, from);
  }

  lemma ReaderLeaves(s: State, n: nat, from: int64)
    requires Shape(s, n) && Enabled(s, n, TheReader)
    ensures var t := ReaderStep(s, n, from);
            && Shape(t, n) && t.head.minT == s.head.minT && t.head.maxT == s.head.maxT && t.workers == s.workers
            && forall i :: 0 <= i < n ==> Pending(t, i) == Pending(s, i)
  {
    var t := ReaderStep(s, n, from);
    assert t.head.minT == s.head.minT && t.head.maxT == s.head.maxT && t.workers == s.workers;
    hide ReaderStep, Pending;
    PendingReader(s, n, 0, from);
    forall i | 0 <= i < n ensures Pending(t, i) == Pending(s, i) {
      PendingReader(s, n, i, from);
    }
  }

  lemma MinSame(s: State, t: State, n: nat, init: int64, xs: seq<RefSample>, known: set<nat>, from: int64)
    requires Shape(s, n) && Shape(t, n) && t.head.minT == s.head.minT && t.workers == s.workers
    requires (forall i :: 0 <= i < n ==> Pending(t, i) == Pending(s, i)) && MinKept(s, n, init, xs, known, from)
    requires Within(s, n, xs)
    ensures MinKept(t, n, init, xs, known, from) && Within(t, n, xs)
  {
    hide Pending, Effective, MinOf;
  }

  lemma MaxSame(s: State, t: State, n: nat, init: int64, xs: seq<RefSample>, known: set<nat>, from: int64)
    requires Shape(s, n) && Shape(t, n) && t.head.maxT == s.head.maxT && t.workers == s.workers
    requires (forall i :: 0 <= i < n ==> Pending(t, i) == Pending(s, i)) && MaxKept(s, n, init, xs, known, from)
    ensures MaxKept(t, n, init, xs, known, from)
  {
    hide Pending, Effective, MaxOf;
  }

  /** How worker i's step changes the times. */
  ghost predicate Timed(s: State, t: State, n: nat, i: nat, from: int64)
    requires Shape(s, n) && Shape(t, n) && i < n
  {
    var w, v := s.workers[i], t.workers[i];
    && t.workers == s.workers[i := v]
    && ((v.mint == w.mint && v.maxt == w.maxt) || Counts(s, n, i, from))
    && (Counts(s, n, i, from) ==>
          var x := w.phase.batch[w.phase.k].s.t;
          v.phase.Working? && v.mint == Min(w.mint, x) && v.maxt == Max(w.maxt, x))
    && (t.head.minT == s.head.minT || (w.phase.SwapMin? && w.phase.seen == s.head.minT && t.head.minT == w.mint))
    && (t.head.maxT == s.head.maxT || (w.phase.SwapMax? && w.phase.seen == s.head.maxT && t.head.maxT == w.maxt))
    && (v.phase.SwapMin? ==> w.mint < v.phase.seen) && (v.phase.SwapMax? ==> w.maxt > v.phase.seen)
    && (v.phase.LoadMax? || v.phase.SwapMax? || v.phase.Stopped? ==>
          t.head.minT <= v.mint || w.phase.LoadMax? || w.phase.SwapMax? || w.phase.Stopped?)
    && (v.phase.Stopped? ==> t.head.maxT >= v.maxt)
  }

  /** Worker i is about to count the sample it looks at. */
  ghost predicate Counts(s: State, n: nat, i: nat, from: int64)
    requires Shape(s, n) && i < n
  {
    var w := s.workers[i].phase;
    && w.Working? && w.k < |w.batch|
    && w.batch[w.k].s.t >= from && w.batch[w.k].ref % n == i && w.batch[w.k].ref in s.head.series
  }

  lemma WorkerTimes(s: State, n: nat, i: nat, from: int64)
    requires Shape(s, n) && Enabled(s, n, TheWorker(i))
    ensures var t := WorkerStep(s, n, i, from); Shape(t, n) && Timed(s, t, n, i, from)
  {
    hide Accept, Min, Max;
  }

  /** The sample that worker i looks at, and what its passing means. */
  lemma Passing(s: State, n: nat, i: nat, xs: seq<RefSample>, f: map<Labels, nat>, from: int64)
    requires Shape(s, n) && Enabled(s, n, TheWorker(i)) && Within(s, n, xs) && Registering(s, f) && Travelling(s, n, f)
    ensures var t := WorkerStep(s, n, i, from); Shape(t, n) && Within(t, n, xs)
    ensures Counts(s, n, i, from) ==> Effective(s.workers[i].phase.batch[s.workers[i].phase.k], xs, f.Values, from)
    ensures forall x :: Effective(x, xs, f.Values, from) && x in Pending(s, x.ref % n) ==>
              x in Pending(WorkerStep(s, n, i, from), x.ref % n)
              || (Counts(s, n, i, from) && x == s.workers[i].phase.batch[s.workers[i].phase.k])
  {
    var t, w := WorkerStep(s, n, i, from), s.workers[i].phase;
    RefsGrow(s.head.refs, s.log);
    hide WorkerStep, Enabled, FinalRefs, WellOrdered;
    if w.Working? && w.k < |w.batch| {
      assert w.batch[w.k] in Rest(s.workers[i]) && w.batch[w.k] in Pending(Cut(s), i) && w.batch[w.k] in Pending(s, i);
    }
    hide Pending, Rest;
    PendingWorker(s, n, i, i, from);
    forall j | 0 <= j < n ensures forall x :: x in Pending(t, j) ==> x in Pending(s, j) {
      PendingWorker(s, n, i, j, from);
    }
    forall x | Effective(x, xs, f.Values, from) && x in Pending(s, x.ref % n)
      ensures x in Pending(t, x.ref % n) || (Counts(s, n, i, from) && x == w.batch[w.k])
    {
      PendingWorker(s, n, i, x.ref % n, from);
    }
  }

  lemma MinWorker(s: State, n: nat, i: nat, init: int64, xs: seq<RefSample>, f: map<Labels, nat>, from: int64)
    requires Shape(s, n) && Enabled(s, n, TheWorker(i)) && Within(s, n, xs) && Registering(s, f) && Travelling(s, n, f)
    requires MinKept(s, n, init, xs, f.Values, from)
    ensures var t := WorkerStep(s, n, i, from); Shape(t, n) && MinKept(t, n, init, xs, f.Values, from)
  {
    hide WorkerStep, Enabled, Pending, Effective, Registering, Travelling, Within;
    WorkerTimes(s, n, i, from);
    Passing(s, n, i, xs, f, from);
    var t := WorkerStep(s, n, i, from);
    assert MinOf(s.workers[i], s.head.minT, xs, f.Values, from);
    assert t.head.minT <= s.head.minT;
    forall j | 0 <= j < n ensures MinOf(t.workers[j], t.head.minT, xs, f.Values, from) {
      assert MinOf(s.workers[j], s.head.minT, xs, f.Values, from);
    }
    hide MinOf;
    assert forall j :: 0 <= j < n ==> t.workers[j].mint <= s.workers[j].mint;
    forall x | Effective(x, xs, f.Values, from)
      ensures x in Pending(t, x.ref % n) || t.workers[x.ref % n].mint <= x.s.t {
      assert x in Pending(s, x.ref % n) || s.workers[x.ref % n].mint <= x.s.t;
    }
  }

  lemma MaxWorker(s: State, n: nat, i: nat, init: int64, xs: seq<RefSample>, f: map<Labels, nat>, from: int64)
    requires Shape(s, n) && Enabled(s, n, TheWorker(i)) && Within(s, n, xs) && Registering(s, f) && Travelling(s, n, f)
    requires MaxKept(s, n, init, xs, f.Values, from)
    ensures var t := WorkerStep(s, n, i, from); Shape(t, n) && MaxKept(t, n, init, xs, f.Values, from)
  {
    hide WorkerStep, Enabled, Pending, Effective, Registering, Travelling, Within;
    WorkerTimes(s, n, i, from);
    Passing(s, n, i, xs, f, from);
    var t := WorkerStep(s, n, i, from);
    assert MaxOf(s.workers[i], s.head.maxT, xs, f.Values, from);
    assert t.head.maxT >= s.head.maxT;
    forall j | 0 <= j < n ensures MaxOf(t.workers[j], t.head.maxT, xs, f.Values, from) {
      assert MaxOf(s.workers[j], s.head.maxT, xs, f.Values, from);
    }
    hide MaxOf;
    assert forall j :: 0 <= j < n ==> t.workers[j].maxt >= s.workers[j].maxt;
    forall x | Effective(x, xs, f.Values, from)
      ensures x in Pending(t, x.ref % n) || t.workers[x.ref % n].maxt >= x.s.t {
      assert x in Pending(s, x.ref % n) || s.workers[x.ref % n].maxt >= x.s.t;
    }
  }

  /* Whole runs */

  /** What every run keeps, from head h and log on. */
  ghost predicate Invariant(s: State, n: nat, h: Head, log: seq<Event>, from: int64) {
    var f, xs := FinalRefs(h.refs, log), AllSamples(log);
    && Shape(s, n) && Bounded(s, n) && Closing(s, n)
    && Registering(s, f) && Collecting(s, FinalStones(h.stones, log, from), from)
    && Travelling(s, n, f) && Conserved(s, n, h, xs, f, from) && Within(s, n, xs)
    && MinKept(s, n, h.minT, xs, f.Values, from) && MaxKept(s, n, h.maxT, xs, f.Values, from)
  }

  lemma InvariantStep(s: State, n: nat, a: Actor, h: Head, log: seq<Event>, from: int64)
    requires Invariant(s, n, h, log, from) && Enabled(s, n, a)
    ensures Invariant(Step(s, n, a, from), n, h, log, from)
  {
    hide Bounded, Closing, Registering, Travelling, Conserved, Within, MinKept, MaxKept, Enabled, ReaderStep,
         WorkerStep, FinalRefs, FinalStones, Collecting;
    var f, xs := FinalRefs(h.refs, log), AllSamples(log);
    BoundedStep(s, n, a, from);
    CollectingStep(s, n, a, FinalStones(h.stones, log, from), from);
    ClosingStep(s, n, a, from);
    if a.TheReader? {
      RegisteringReader(s, n, f, from);
      TravellingReader(s, n, f, from);
      ConservedReader(s, n, h, xs, f, from);
      TimesReader(s, n, h, xs, f.Values, from);
    } else {
      TravellingWorker(s, n, a.i, f, from);
      ConservedWorker(s, n, a.i, h, xs, f, from);
      Passing(s, n, a.i, xs, f, from);
      MinWorker(s, n, a.i, h.minT, xs, f, from);
      MaxWorker(s, n, a.i, h.maxT, xs, f, from);
    }
  }

  lemma {:induction false} UpstreamInitial(h: Head, log: seq<Event>, n: nat, i: nat)
    requires i <= n
    ensures Upstream(Initial(h, log, n), i) == AllSamples(log)
  {
    hide AllSamples, Flat;
    FlatNothing();
    Seqs.Nothing(AllSamples(log));
    if i > 0 {
      UpstreamInitial(h, log, n, i - 1);
    }
  }

  lemma InvariantInitial(h: Head, log: seq<Event>, n: nat, from: int64)
    requires n > 0 && h.series.Keys == h.refs.Values && WellOrdered(h.refs, log)
    ensures Invariant(Initial(h, log, n), n, h, log, from)
  {
    hide FinalRefs, WellOrdered, Bounded, Closing, Pending, Applied, AllSamples;
    var s := Initial(h, log, n);
    InitialRing(h, log, n);
    InitialRing(h, [], n);
    assert Cut(s) == Initial(h, [], n);
    forall i | 0 <= i < n ensures Pending(s, i) == AllSamples(log) && Pending(Cut(s), i) == [] {
      InitialPending(h, log, n, i);
      InitialPending(h, [], n, i);
    }
  }

  lemma InitialPending(h: Head, log: seq<Event>, n: nat, i: nat)
    requires i < n
    ensures Pending(Initial(h, log, n), i) == AllSamples(log) && AllSamples([]) == []
  {
    UpstreamInitial(h, log, n, i);
  }

  lemma InitialRing(h: Head, log: seq<Event>, n: nat)
    requires n > 0
    ensures var s := Initial(h, log, n); Shape(s, n) && Bounded(s, n) && Closing(s, n)
  {
    NothingQueued(n + 1);
    NobodyBusy(n);
  }

  lemma {:induction false} NothingQueued(m: nat)
    ensures Queued(seq(m, _ => [])) == 0
  {
    if m > 0 {
      NothingQueued(m - 1);
      var q: seq<seq<Batch>> := seq(m, _ => []);
      assert q[1..] == seq(m - 1, _ => []);
    }
  }

  lemma {:induction false} NobodyBusy(m: nat)
    ensures Busy(seq(m, _ => Worker(Receiving, MAX, MIN))) == 0
  {
    if m > 0 {
      NobodyBusy(m - 1);
      assert seq(m, _ => Worker(Receiving, MAX, MIN))[1..] == seq(m - 1, _ => Worker(Receiving, MAX, MIN));
    }
  }

  /** When the reader has finished, nothing is pending anywhere. */
  lemma {:induction false} NothingLeft(s: State, n: nat, m: nat)
    requires Shape(s, n) && Closing(s, n) && m <= n && s.closed[m] && s.chans[m] == []
    ensures Upstream(s, m) == [] && s.log == [] && !s.reader.Holding? && !s.reader.Reading?
    ensures forall i :: 0 <= i < m ==> s.workers[i].phase.Stopped? && Pending(s, i) == []
  {
    hide Upstream, Pending;
    if m == 0 {
      NothingAtReader(s, n);
    } else {
      assert s.workers[m - 1].phase.Stopped? && Past(s.workers[m - 1]);
      NothingLeft(s, n, m - 1);
      hide Closing;
      NothingBehind(s, n, m);
    }
  }

  lemma NothingAtReader(s: State, n: nat)
    requires Shape(s, n) && Closing(s, n) && s.closed[0] && s.chans[0] == []
    ensures Upstream(s, 0) == [] && s.log == [] && !s.reader.Holding? && !s.reader.Reading?
  {
    FlatNothing();
    hide Flat, AllSamples;
  }

  lemma NothingBehind(s: State, n: nat, m: nat)
    requires Shape(s, n) && 0 < m <= n && s.chans[m] == [] && s.workers[m - 1].phase.Stopped?
    requires Upstream(s, m - 1) == []
    ensures Upstream(s, m) == [] && Pending(s, m - 1) == []
  {
    FlatNothing();
    hide Flat;
  }

  lemma FlatNothing()
    ensures Flat([]) == [] && AllSamples([]) == []
  {
  }

  /** The states that a schedule leads through. */
  ghost predicate Runs(s: State, n: nat, schedule: seq<Actor>, t: State, from: int64)
    decreases |schedule|
  {
    if schedule == [] then s == t
    else Shape(s, n) && Enabled(s, n, schedule[0]) && Runs(Step(s, n, schedule[0], from), n, schedule[1..], t, from)
  }

  lemma {:induction false} InvariantRun(s: State, n: nat, schedule: seq<Actor>, t: State, h: Head, log: seq<Event>,
      from: int64)
    requires Invariant(s, n, h, log, from) && Runs(s, n, schedule, t, from)
    ensures Invariant(t, n, h, log, from)
    decreases |schedule|
  {
    hide Invariant, Step, Enabled;
    if schedule != [] {
      InvariantStep(s, n, schedule[0], h, log, from);
      InvariantRun(Step(s, n, schedule[0], from), n, schedule[1..], t, h, log, from);
    }
  }

  lemma FinishedIsReplayed(t: State, n: nat, h: Head, log: seq<Event>, from: int64)
    requires Shape(t, n) && Conserved(t, n, h, AllSamples(log), FinalRefs(h.refs, log), from)
    requires MinKept(t, n, h.minT, AllSamples(log), FinalRefs(h.refs, log).Values, from)
    requires MaxKept(t, n, h.maxT, AllSamples(log), FinalRefs(h.refs, log).Values, from)
    requires forall i :: 0 <= i < n ==> t.workers[i].phase.Stopped? && Pending(t, i) == []
    requires t.head.series.Keys == FinalRefs(h.refs, log).Values
    ensures Replayed(h, t.head, AllSamples(log), from)
  {
    hide Pending, AllSamples, Applied, Effective, FinalRefs;
    var f, xs := FinalRefs(h.refs, log), AllSamples(log);
    forall r | r in f.Values ensures t.head.series[r] == Applied(SeriesOf(h, r), xs, r, from) {
      AppliedNone(t.head.series[r], r, from);
      assert Pending(t, r % n) == [];
    }
    hide Conserved, MinKept, MaxKept, IsMin, IsMax;
    FinishedTimes(t, n, h, xs, f.Values, from);
  }

  lemma FinishedTimes(t: State, n: nat, h: Head, xs: seq<RefSample>, known: set<nat>, from: int64)
    requires Shape(t, n) && MinKept(t, n, h.minT, xs, known, from) && MaxKept(t, n, h.maxT, xs, known, from)
    requires forall i :: 0 <= i < n ==> t.workers[i].phase.Stopped? && Pending(t, i) == []
    ensures IsMin(t.head.minT, h.minT, xs, known, from) && IsMax(t.head.maxT, h.maxT, xs, known, from)
  {
    hide Pending, Effective;
    forall i | 0 <= i < n ensures t.head.minT <= t.workers[i].mint && t.head.maxT >= t.workers[i].maxt {
      assert MinOf(t.workers[i], t.head.minT, xs, known, from);
      assert MaxOf(t.workers[i], t.head.maxT, xs, known, from);
    }
    hide MinOf, MaxOf;
    forall x | Effective(x, xs, known, from) ensures t.head.minT <= x.s.t <= t.head.maxT {
      assert Pending(t, x.ref % n) == [];
    }
  }

  lemma FinishedIsSequential(t: State, n: nat, h: Head, log: seq<Event>, from: int64)
    requires h.series.Keys == h.refs.Values && WellOrdered(h.refs, log)
    requires Invariant(t, n, h, log, from) && t.reader.Finished?
    ensures t.head == Sequential(h, log, from)
  {
    hide Pending, Upstream, AllSamples, Sequential, Replayed, Bounded, Within, Travelling, Conserved, MinKept, MaxKept;
    NothingLeft(t, n, n);
    FinishedIsReplayed(t, n, h, log, from);
    SequentialMeans(h, log, from);
    ReplayedOnce(h, t.head, Sequential(h, log, from), AllSamples(log), from);
  }

  lemma AppliedNone(c: seq<Sample>, r: nat, from: int64)
    ensures Applied(c, [], r, from) == c
  {
  }

  /** Every run of the ring, however reader and workers are interleaved: until the
      reader has finished some actor can go on, and once it has finished the head
      holds the same series, in the same order, and the same times as after
      replaying the log sequentially. */
  lemma RunIsSequential(h: Head, log: seq<Event>, n: nat, schedule: seq<Actor>, t: State, from: int64)
    requires n > 0 && h.series.Keys == h.refs.Values && WellOrdered(h.refs, log)
    requires Runs(Initial(h, log, n), n, schedule, t, from)
    ensures Shape(t, n) && (t.reader.Finished? || exists a :: Enabled(t, n, a))
    ensures t.reader.Finished? ==> t.head == Sequential(h, log, from)
  {
    InvariantInitial(h, log, n, from);
    InvariantRun(Initial(h, log, n), n, schedule, t, h, log, from);
    if t.reader.Finished? {
      FinishedIsSequential(t, n, h, log, from);
    } else {
      Progress(t, n);
    }
  }
}
