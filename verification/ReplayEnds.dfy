/** Every run of the replay ring ends: a measure that falls with every step, also with
    those in which an atomic update has to be tried again. */
module ReplayEnds {
  import opened Samples
  import opened Replay
  import opened ReplayMeaning
  import opened ReplayRuns
  import Seqs

  /** The steps that a batch of m samples still takes with d workers ahead of it: each
      receives it, goes through it and sends it on; then the reader takes it back. */
  function BatchWeight(d: nat, m: nat): (w: nat)
    ensures w > 0
  {
    if d == 0 then 1 else m + 2 + BatchWeight(d - 1, m)
  }

  function QueueWeight(q: seq<Batch>, d: nat): nat {
    if q == [] then 0 else BatchWeight(d, |q[0]|) + QueueWeight(q[1..], d)
  }

  function ChansWeight(chans: seq<seq<Batch>>): nat {
    if chans == [] then 0 else QueueWeight(chans[0], |chans| - 1) + ChansWeight(chans[1..])
  }

  function LogWeight(log: seq<Event>, n: nat): nat {
    if log == [] then 0
    else 1 + (if log[0].Samples? then (3 * n + 4) * |log[0].samples| else 0) + LogWeight(log[1..], n)
  }

  function ReaderWeight(r: Reader, n: nat): nat {
    match r
    case Reading => 2
    case Holding(b) => 3 + BatchWeight(n, |b|)
    case Draining => 1
    case Finished => 0
  }

  /** An update that must fail, because the value has changed since it was loaded, is
      followed by another attempt. Each worker changes a value only once, which pays for
      the attempts of all others. */
  function PhaseWeight(p: Phase, d: nat, n: nat, minT: int64, maxT: int64): nat
    requires p.Working? ==> p.k <= |p.batch|
  {
    match p
    case Receiving => 4 * n + 8
    case Working(b, k) => 4 * n + 9 + (|b| - k) + BatchWeight(d, |b|)
    case LoadMin => 4 * n + 6
    case SwapMin(seen) => 4 * n + if seen == minT then 5 else 7
    case LoadMax => 2 * n + 2
    case SwapMax(seen) => 2 * n + if seen == maxT then 1 else 3
    case Stopped => 0
  }

  ghost predicate Counts(ws: seq<Worker>) {
    forall i :: 0 <= i < |ws| && ws[i].phase.Working? ==> ws[i].phase.k <= |ws[i].phase.batch|
  }

  ghost function WorkersWeight(ws: seq<Worker>, n: nat, minT: int64, maxT: int64): nat
    requires Counts(ws)
  {
    if ws == [] then 0
    else PhaseWeight(ws[0].phase, |ws| - 1, n, minT, maxT) + WorkersWeight(ws[1..], n, minT, maxT)
  }

  ghost function Measure(s: State, n: nat): nat
    requires Shape(s, n)
  {
    LogWeight(s.log, n) + ReaderWeight(s.reader, n) + ChansWeight(s.chans)
    + WorkersWeight(s.workers, n, s.head.minT, s.head.maxT)
  }

  lemma {:induction false} QueueSnoc(q: seq<Batch>, b: Batch, d: nat)
    ensures QueueWeight(q + [b], d) == QueueWeight(q, d) + BatchWeight(d, |b|)
  {
    hide BatchWeight;
    if q != [] {
      Seqs.Tail(q, [b]);
      QueueSnoc(q[1..], b, d);
    } else {
      Seqs.Nothing([b]);
    }
  }

  lemma {:induction false} ChansUpdate(c: seq<seq<Batch>>, i: nat, q: seq<Batch>)
    requires i < |c|
    ensures ChansWeight(c[i := q]) == ChansWeight(c) - QueueWeight(c[i], |c| - 1 - i) + QueueWeight(q, |c| - 1 - i)
  {
    hide QueueWeight;
    if i > 0 {
      ChansUpdate(c[1..], i - 1, q);
      assert c[i := q][1..] == c[1..][i - 1 := q];
    } else {
      assert c[0 := q][1..] == c[1..];
    }
  }

  lemma {:induction false} WorkersUpdate(ws: seq<Worker>, i: nat, w: Worker, n: nat, minT: int64, maxT: int64)
    requires i < |ws| && Counts(ws) && Counts(ws[i := w]) && (w.phase.Working? ==> w.phase.k <= |w.phase.batch|)
    ensures WorkersWeight(ws[i := w], n, minT, maxT)
         == WorkersWeight(ws, n, minT, maxT) - PhaseWeight(ws[i].phase, |ws| - 1 - i, n, minT, maxT)
            + PhaseWeight(w.phase, |ws| - 1 - i, n, minT, maxT)
  {
    hide PhaseWeight;
    if i > 0 {
      assert ws[i := w][1..] == ws[1..][i - 1 := w];
      assert Counts(ws[1..]) && Counts(ws[i := w][1..]);
      WorkersUpdate(ws[1..], i - 1, w, n, minT, maxT);
    } else {
      assert ws[0 := w][1..] == ws[1..];
    }
  }

  /** Changing one of the times makes each worker try once more at most. */
  lemma {:induction false} TimesChange(ws: seq<Worker>, n: nat, minT: int64, maxT: int64, lo: int64, hi: int64)
    requires Counts(ws) && (lo == minT || hi == maxT)
    ensures WorkersWeight(ws, n, lo, hi) <= WorkersWeight(ws, n, minT, maxT) + 2 * |ws|
  {
    hide BatchWeight;
    if ws != [] {
      TimesChange(ws[1..], n, minT, maxT, lo, hi);
    }
  }

  lemma {:induction false} CutWeight(n: nat, m: nat)
    requires m > 0
    ensures BatchWeight(n, m) + 1 < (3 * n + 4) * m
  {
    if n > 0 {
      CutWeight(n - 1, m);
      assert (3 * n + 4) * m == (3 * (n - 1) + 4) * m + 3 * m;
    } else {
      assert (3 * n + 4) * m == 4 * m;
    }
  }

  lemma ReaderFalls(s: State, n: nat, from: int64)
    requires Shape(s, n) && Enabled(s, n, TheReader)
    ensures Shape(ReaderStep(s, n, from), n) && Measure(ReaderStep(s, n, from), n) < Measure(s, n)
  {
    hide BatchWeight, QueueWeight, ChansWeight, WorkersWeight;
    match s.reader
    case Reading => ReadingFalls(s, n, from);
    case Holding(b) =>
      ChansUpdate(s.chans, 0, s.chans[0] + [b]);
      QueueSnoc(s.chans[0], b, n);
    case Draining =>
      if s.chans[n] != [] {
        TakeFirst(s.chans, n);
      }
  }

  lemma TakeFirst(c: seq<seq<Batch>>, i: nat)
    requires i < |c| && c[i] != []
    ensures ChansWeight(c[i := c[i][1..]]) == ChansWeight(c) - BatchWeight(|c| - 1 - i, |c[i][0]|)
  {
    hide BatchWeight;
    ChansUpdate(c, i, c[i][1..]);
  }

  lemma RecordKeepsTimes(h: Head, e: Event, from: int64)
    requires !e.Samples?
    ensures Record(h, e, from).minT == h.minT && Record(h, e, from).maxT == h.maxT
  {
  }

  lemma ReadingFalls(s: State, n: nat, from: int64)
    requires Shape(s, n) && s.reader.Reading?
    ensures Shape(ReaderStep(s, n, from), n) && Measure(ReaderStep(s, n, from), n) < Measure(s, n)
  {
    hide BatchWeight, QueueWeight, ChansWeight, WorkersWeight, Record;
    if s.log != [] {
      var e := s.log[0];
      if !e.Samples? {
        RecordKeepsTimes(s.head, e, from);
      } else if e.samples != [] {
        var xs := e.samples;
        var m := if |xs| < BATCH then |xs| else BATCH;
        CutWeight(n, m);
        Distribute(3 * n + 4, |xs|, m);
        LogCut(xs, m, s.log[1..], n);
        if s.chans[n] != [] {
          TakeFirst(s.chans, n);
        }
      }
    }
  }

  lemma Distribute(k: nat, a: nat, b: nat)
    requires b <= a
    ensures k * a == k * b + k * (a - b)
  {
  }

  lemma LogCut(xs: seq<RefSample>, m: nat, rest: seq<Event>, n: nat)
    requires m <= |xs|
    ensures LogWeight([Samples(xs[m..])] + rest, n) == 1 + (3 * n + 4) * (|xs| - m) + LogWeight(rest, n)
  {
    Seqs.Cons(Samples(xs[m..]), rest);
  }

  /** What a worker does to the weights of its phase, the channels and the times. */
  lemma WorkerFalls(s: State, n: nat, i: nat, from: int64)
    requires Shape(s, n) && Enabled(s, n, TheWorker(i))
    ensures Shape(WorkerStep(s, n, i, from), n) && Measure(WorkerStep(s, n, i, from), n) < Measure(s, n)
  {
    hide BatchWeight, QueueWeight, ChansWeight, WorkersWeight, LogWeight, ReaderWeight, Accept, Min, Max;
    var w, t := s.workers[i], WorkerStep(s, n, i, from);
    var lo, hi := s.head.minT, s.head.maxT;
    assert t.workers == s.workers[i := t.workers[i]];
    WorkersUpdate(s.workers, i, t.workers[i], n, lo, hi);
    TimesChange(t.workers, n, lo, hi, t.head.minT, t.head.maxT);
    if w.phase.Receiving? && s.chans[i] != [] {
      TakeFirst(s.chans, i);
      OneWorker(n - i, |s.chans[i][0]|);
    } else if w.phase.Working? && w.phase.k == |w.phase.batch| {
      ChansUpdate(s.chans, i + 1, s.chans[i + 1] + [w.phase.batch]);
      QueueSnoc(s.chans[i + 1], w.phase.batch, n - i - 1);
    } else {
      assert t.chans == s.chans;
    }
  }

  lemma OneWorker(d: nat, m: nat)
    requires d > 0
    ensures BatchWeight(d, m) == m + 2 + BatchWeight(d - 1, m)
  {
  }

  lemma StepFalls(s: State, n: nat, a: Actor, from: int64)
    requires Shape(s, n) && Enabled(s, n, a)
    ensures Shape(Step(s, n, a, from), n) && Measure(Step(s, n, a, from), n) < Measure(s, n)
  {
    if a.TheReader? {
      ReaderFalls(s, n, from);
    } else {
      WorkerFalls(s, n, a.i, from);
    }
  }

  /** However reader and workers are interleaved, a run has no more steps than the measure
      of its first state. */
  lemma {:induction false} RunIsBounded(s: State, n: nat, schedule: seq<Actor>, t: State, from: int64)
    requires Shape(s, n) && Runs(s, n, schedule, t, from)
    ensures Shape(t, n) && |schedule| + Measure(t, n) <= Measure(s, n)
    decreases |schedule|
  {
    hide Enabled, Step, Measure;
    if schedule != [] {
      StepFalls(s, n, schedule[0], from);
      RunIsBounded(Step(s, n, schedule[0], from), n, schedule[1..], t, from);
    }
  }

  /** So every run comes to an end, and where nothing can go on any more the log has been
      replayed. */
  lemma EveryRunEnds(h: Head, log: seq<Event>, n: nat, schedule: seq<Actor>, t: State, from: int64)
    requires n > 0 && h.series.Keys == h.refs.Values && WellOrdered(h.refs, log)
    requires Runs(Initial(h, log, n), n, schedule, t, from)
    ensures Shape(Initial(h, log, n), n) && |schedule| <= Measure(Initial(h, log, n), n)
    ensures Shape(t, n) && ((forall a :: !Enabled(t, n, a)) ==> t.head == Sequential(h, log, from))
  {
    RunIsBounded(Initial(h, log, n), n, schedule, t, from);
    RunIsSequential(h, log, n, schedule, t, from);
  }

  /* Logs that end in an error */

  /** As long as the first channel is not closed, no worker gets to the head's times. */
  ghost predicate Waiting(s: State, n: nat, minT: int64, maxT: int64)
    requires Shape(s, n)
  {
    !s.closed[0] ==>
      && (forall i :: 0 <= i <= n ==> !s.closed[i])
      && (forall i :: 0 <= i < n ==> s.workers[i].phase.Receiving? || s.workers[i].phase.Working?)
      && s.head.minT == minT && s.head.maxT == maxT
  }

  lemma WaitingStep(s: State, n: nat, a: Actor, minT: int64, maxT: int64, from: int64)
    requires Shape(s, n) && Enabled(s, n, a) && Waiting(s, n, minT, maxT)
    ensures Shape(Step(s, n, a, from), n) && Waiting(Step(s, n, a, from), n, minT, maxT)
  {
    hide Record, Accept, Min, Max;
    if a.TheReader? && s.reader.Reading? && s.log != [] && !s.log[0].Samples? {
      RecordKeepsTimes(s.head, s.log[0], from);
    }
  }

  lemma {:induction false} WaitingRun(s: State, n: nat, schedule: seq<Actor>, t: State, minT: int64, maxT: int64,
      from: int64)
    requires Shape(s, n) && Waiting(s, n, minT, maxT) && Runs(s, n, schedule, t, from)
    ensures Shape(t, n) && Waiting(t, n, minT, maxT)
    decreases |schedule|
  {
    hide Enabled, Step, Waiting;
    if schedule != [] {
      WaitingStep(s, n, schedule[0], minT, maxT, from);
      WaitingRun(Step(s, n, schedule[0], from), n, schedule[1..], t, minT, maxT, from);
    }
  }

  /** When reading the log fails, the reader leaves without closing the first channel.
      From then on the workers go on with what they have, but the head's times stay those
      from before the replay, whatever samples have been added to its series. */
  lemma FailedLoadKeepsTimes(h: Head, log: seq<Event>, n: nat, schedule: seq<Actor>, t: State, from: int64)
    requires n > 0 && Runs(Initial(h, log, n), n, schedule, t, from)
    ensures Shape(t, n) && (!t.closed[0] ==> t.head.minT == h.minT && t.head.maxT == h.maxT)
  {
    WaitingRun(Initial(h, log, n), n, schedule, t, h.minT, h.maxT, from);
  }

  lemma Starts(s: State, n: nat, a: Actor, m: State, rest: seq<Actor>, t: State, from: int64)
    requires Shape(s, n) && Enabled(s, n, a) && Step(s, n, a, from) == m && Runs(m, n, rest, t, from)
    ensures Runs(s, n, [a] + rest, t, from)
  {
    hide Shape, Enabled, Step;
    Seqs.Cons(a, rest);
  }

  const X: Sample := Sample(7, 1)

  function OneSeries(xs: seq<Sample>): Head { Head(map[[] := 0], map[0 := xs], map[], MAX, MIN) }

  /** A ring of one worker. */
  function Ring(log: seq<Event>, r: Reader, queue: seq<Batch>, w: Worker, xs: seq<Sample>): State {
    State(OneSeries(xs), log, r, [queue, []], [false, false], [w])
  }

  const IDLE: Worker := Worker(Receiving, MAX, MIN)

  /** For instance, the only worker has added a sample at 7 to a head without times. */
  lemma FailedLoadMisleads()
    ensures var batch := [RefSample(0, X)];
            var t := Ring([], Reading, [], Worker(Working(batch, 1), 7, 7), [X]);
            Runs(Initial(OneSeries([]), [Samples(batch)], 1), 1,
                 [TheReader] + ([TheReader] + ([TheReader] + ([TheWorker(0)] + ([TheWorker(0)] + [])))), t, 0)
            && t.log == [] && !t.closed[0] && t.head.series[0] == [X] && t.head.minT == MAX && t.head.maxT == MIN
  {
    var batch, none := [RefSample(0, X)], [Samples([])];
    var s := Initial(OneSeries([]), [Samples(batch)], 1);
    assert s == Ring([Samples(batch)], Reading, [], IDLE, []);
    var s1 := Ring(none, Holding(batch), [], IDLE, []);
    assert Step(s, 1, TheReader, 0) == s1 by {
      assert batch[..1] == batch && batch[1..] == [];
    }
    var s2, s3 := Ring(none, Reading, [batch], IDLE, []), Ring([], Reading, [batch], IDLE, []);
    assert Step(s1, 1, TheReader, 0) == s2 by {
      Seqs.Nothing([batch]);
      assert s1.chans[0 := [batch]] == s2.chans;
    }
    assert Step(s2, 1, TheReader, 0) == s3 by {
      assert none[1..] == [];
    }
    var s4 := Ring([], Reading, [], Worker(Working(batch, 0), MAX, MIN), []);
    assert Step(s3, 1, TheWorker(0), 0) == s4 by {
      assert [batch][1..] == [] && s3.chans[0 := []] == s4.chans;
      assert [IDLE][0 := s4.workers[0]] == s4.workers;
    }
    var t := Ring([], Reading, [], Worker(Working(batch, 1), 7, 7), [X]);
    assert Step(s4, 1, TheWorker(0), 0) == t by {
      assert s4.workers[0 := t.workers[0]] == t.workers;
      assert batch[0].ref % 1 == 0 && Accept([], X) == [X];
      assert s4.head.series[0 := [X]] == t.head.series;
    }
    assert Runs(t, 1, [], t, 0);
    hide Step, Initial, Runs;
    Starts(s4, 1, TheWorker(0), t, [], t, 0);
    Starts(s3, 1, TheWorker(0), s4, [TheWorker(0)] + [], t, 0);
    Starts(s2, 1, TheReader, s3, [TheWorker(0)] + ([TheWorker(0)] + []), t, 0);
    Starts(s1, 1, TheReader, s2, [TheReader] + ([TheWorker(0)] + ([TheWorker(0)] + [])), t, 0);
    Starts(s, 1, TheReader, s1, [TheReader] + ([TheReader] + ([TheWorker(0)] + ([TheWorker(0)] + []))), t, 0);
  }
}
