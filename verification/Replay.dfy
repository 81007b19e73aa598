/** Replaying the log into the head (loadWAL and processWALSamples in head.go).
    A reader passes batches of samples around a ring of workers, connected by
    bounded channels; each worker applies the samples of its own series. */
module Replay {
  import opened Samples
  import opened Labelling
  import opened Tombstones

  datatype RefSample = RefSample(ref: nat, s: Sample)

  /** A deleted range of a series. */
  datatype Stone = Stone(ref: nat, itv: Interval)

  datatype Event =
    | Series(ref: nat, lset: Labels)
    | Samples(samples: seq<RefSample>)
    | Stones(stones: seq<Stone>)

  const CAPACITY := 300
  const BATCH := 5000

  type Batch = seq<RefSample>

  /* Sequential replay, the meaning of a log */

  datatype Head = Head(
    refs: map<Labels, nat>, series: map<nat, seq<Sample>>,
    stones: map<nat, seq<Interval>>,
    minT: int64, maxT: int64)

  /** A sample is kept if it is newer than the last one; see MemSeries.Append. */
  function Accept(c: seq<Sample>, s: Sample): seq<Sample> {
    if c == [] || c[|c| - 1].t < s.t then c + [s] else c
  }

  function Register(refs: map<Labels, nat>, e: Event): map<Labels, nat>
    requires e.Series?
  {
    if e.lset in refs then refs else refs[e.lset := e.ref]
  }

  function Create(h: Head, e: Event): Head
    requires e.Series?
  {
    if e.lset in h.refs then h
    else h.(refs := Register(h.refs, e), series := h.series[e.ref := []])
  }

  function Min(a: int64, b: int64): int64 { if a < b then a else b }

  function Max(a: int64, b: int64): int64 { if a > b then a else b }

  /** Older samples, and samples of unknown series, have no effect. */
  function Apply(h: Head, x: RefSample, from: int64): Head {
    if x.s.t < from || x.ref !in h.series then h
    else h.(series := h.series[x.ref := Accept(h.series[x.ref], x.s)],
            minT := Min(h.minT, x.s.t), maxT := Max(h.maxT, x.s.t))
  }

  function ApplyAll(h: Head, xs: seq<RefSample>, from: int64): Head
    decreases |xs|
  {
    if xs == [] then h else ApplyAll(Apply(h, xs[0], from), xs[1..], from)
  }

  /** Ranges that end before the samples that count have no effect. */
  function AddStone(stones: map<nat, seq<Interval>>, st: Stone, from: int64): map<nat, seq<Interval>> {
    if st.itv.maxt < from then stones
    else stones[st.ref := Added(if st.ref in stones then stones[st.ref] else [], st.itv)]
  }

  function AddStones(stones: map<nat, seq<Interval>>, sts: seq<Stone>, from: int64): map<nat, seq<Interval>>
    decreases |sts|
  {
    if sts == [] then stones else AddStones(AddStone(stones, sts[0], from), sts[1..], from)
  }

  /** The effect of one record. */
  function Record(h: Head, e: Event, from: int64): Head {
    match e
    case Series(_, _) => Create(h, e)
    case Samples(xs) => ApplyAll(h, xs, from)
    case Stones(sts) => h.(stones := AddStones(h.stones, sts, from))
  }

  function Sequential(h: Head, log: seq<Event>, from: int64): Head
    decreases |log|
  {
    if log == [] then h
    else Sequential(Record(h, log[0], from), log[1..], from)
  }

  /* The ring */

  datatype Reader = Reading | Holding(batch: Batch) | Draining | Finished

  datatype Phase =
    | Receiving
    | Working(batch: Batch, k: nat)       // k samples done; then to be sent on
    | LoadMin | SwapMin(seen: int64) | LoadMax | SwapMax(seen: int64)
    | Stopped

  datatype Worker = Worker(phase: Phase, mint: int64, maxt: int64)

  datatype State = State(
    head: Head,
    log: seq<Event>,
    reader: Reader,
    chans: seq<seq<Batch>>,   // chans[i] is the input of worker i; the last one leads back to the reader
    closed: seq<bool>,
    workers: seq<Worker>)

  datatype Actor = TheReader | TheWorker(i: nat)

  ghost predicate Shape(s: State, n: nat) {
    && n > 0 && |s.workers| == n && |s.chans| == n + 1 && |s.closed| == n + 1
    && forall i :: 0 <= i < n && s.workers[i].phase.Working? ==> s.workers[i].phase.k <= |s.workers[i].phase.batch|
  }

  ghost predicate Enabled(s: State, n: nat, a: Actor)
    requires Shape(s, n)
    ensures Enabled(s, n, a) && a.TheWorker? ==> a.i < n
  {
    match a
    case TheReader =>
      (match s.reader
       case Reading => true
       case Holding(_) => |s.chans[0]| < CAPACITY
       case Draining => s.chans[n] != [] || s.closed[n]
       case Finished => false)
    case TheWorker(i) =>
      i < n && match s.workers[i].phase
               case Receiving => s.chans[i] != [] || s.closed[i]
               case Working(b, k) => k < |b| || |s.chans[i + 1]| < CAPACITY
               case Stopped => false
               case _ => true
  }

  /** The reader's next step: it registers series and adds deleted ranges itself; a
      sample record is cut into batches, each in a returned buffer if there is one, else in a new one. */
  function ReaderStep(s: State, n: nat, from: int64): State
    requires |s.chans| == n + 1 && |s.closed| == n + 1
  {
    match s.reader
    case Reading =>
      if s.log == [] then
        s.(closed := s.closed[0 := true], reader := Draining)
      else if !s.log[0].Samples? then
        s.(head := Record(s.head, s.log[0], from), log := s.log[1..])
      else if s.log[0].samples == [] then
        s.(log := s.log[1..])
      else
        var xs := s.log[0].samples;
        var m := if |xs| < BATCH then |xs| else BATCH;
        s.(reader := Holding(xs[..m]),
           log := [Samples(xs[m..])] + s.log[1..],
           chans := if s.chans[n] == [] then s.chans else s.chans[n := s.chans[n][1..]])
    case Holding(b) =>
      s.(chans := s.chans[0 := s.chans[0] + [b]], reader := Reading)
    case Draining =>
      if s.chans[n] != [] then s.(chans := s.chans[n := s.chans[n][1..]]) else s.(reader := Finished)
    case Finished => s
  }

  function Put(s: State, i: nat, w: Worker): State
    requires i < |s.workers|
  {
    s.(workers := s.workers[i := w])
  }

  /** The next step of worker i of n. */
  function WorkerStep(s: State, n: nat, i: nat, from: int64): State
    requires |s.workers| == n && |s.chans| == n + 1 && |s.closed| == n + 1 && i < n
  {
    var w := s.workers[i];
    match w.phase
    case Receiving =>
      if s.chans[i] == [] then Put(s, i, w.(phase := LoadMin))
      else Put(s, i, w.(phase := Working(s.chans[i][0], 0))).(chans := s.chans[i := s.chans[i][1..]])
    case Working(b, k) =>
      if k < |b| then
        var x := b[k];
        var own := x.s.t >= from && x.ref % n == i && x.ref in s.head.series;
        var done := w.(phase := Working(b, k + 1));
        if own then
          Put(s, i, done.(mint := Min(w.mint, x.s.t), maxt := Max(w.maxt, x.s.t)))
          .(head := s.head.(series := s.head.series[x.ref := Accept(s.head.series[x.ref], x.s)]))
        else
          Put(s, i, done)
      else
        Put(s, i, w.(phase := Receiving)).(chans := s.chans[i + 1 := s.chans[i + 1] + [b]])
    case LoadMin =>
      Put(s, i, w.(phase := if w.mint >= s.head.minT then LoadMax else SwapMin(s.head.minT)))
    case SwapMin(seen) =>
      if s.head.minT == seen then Put(s, i, w.(phase := LoadMax)).(head := s.head.(minT := w.mint))
      else Put(s, i, w.(phase := LoadMin))
    case LoadMax =>
      if w.maxt <= s.head.maxT then Stop(s, n, i) else Put(s, i, w.(phase := SwapMax(s.head.maxT)))
    case SwapMax(seen) =>
      if s.head.maxT == seen then Stop(s, n, i).(head := s.head.(maxT := w.maxt))
      else Put(s, i, w.(phase := LoadMax))
    case Stopped => s
  }

  /** A worker that ends closes its output. */
  function Stop(s: State, n: nat, i: nat): State
    requires |s.workers| == n && |s.closed| == n + 1 && i < n
  {
    Put(s, i, s.workers[i].(phase := Stopped)).(closed := s.closed[i + 1 := true])
  }

  function Step(s: State, n: nat, a: Actor, from: int64): State
    requires |s.workers| == n && |s.chans| == n + 1 && |s.closed| == n + 1
    requires a.TheWorker? ==> a.i < n
  {
    match a
    case TheReader => ReaderStep(s, n, from)
    case TheWorker(i) => WorkerStep(s, n, i, from)
  }

  function Initial(h: Head, log: seq<Event>, n: nat): State {
    State(h, log, Reading, seq(n + 1, _ => []), seq(n + 1, _ => false), seq(n, _ => Worker(Receiving, MAX, MIN)))
  }

  /* No deadlock */

  function Queued(chans: seq<seq<Batch>>): nat {
    if chans == [] then 0 else |chans[0]| + Queued(chans[1..])
  }

  function Busy(ws: seq<Worker>): nat {
    if ws == [] then 0 else (if ws[0].phase.Working? then 1 else 0) + Busy(ws[1..])
  }

  /** The batches that exist: in channels, at workers, and at the reader. */
  function InFlight(s: State): nat {
    Queued(s.chans) + Busy(s.workers) + if s.reader.Holding? then 1 else 0
  }

  lemma {:induction false} QueuedUpdate(c: seq<seq<Batch>>, i: nat, x: seq<Batch>)
    requires i < |c|
    ensures Queued(c[i := x]) == Queued(c) - |c[i]| + |x|
  {
    if i > 0 {
      QueuedUpdate(c[1..], i - 1, x);
      assert c[i := x][1..] == c[1..][i - 1 := x];
    } else {
      assert c[0 := x][1..] == c[1..];
    }
  }

  lemma {:induction false} BusyUpdate(ws: seq<Worker>, i: nat, w: Worker)
    requires i < |ws|
    ensures Busy(ws[i := w]) == Busy(ws) - (if ws[i].phase.Working? then 1 else 0) + if w.phase.Working? then 1 else 0
  {
    if i > 0 {
      BusyUpdate(ws[1..], i - 1, w);
      assert ws[i := w][1..] == ws[1..][i - 1 := w];
    } else {
      assert ws[0 := w][1..] == ws[1..];
    }
  }

  lemma {:induction false} QueuedBounds(c: seq<seq<Batch>>)
    ensures (forall i :: 0 <= i < |c| ==> |c[i]| <= CAPACITY) ==> Queued(c) <= CAPACITY * |c|
    ensures (forall i :: 0 <= i < |c| ==> |c[i]| >= CAPACITY) ==> Queued(c) >= CAPACITY * |c|
  {
    if c != [] {
      QueuedBounds(c[1..]);
    }
  }

  lemma {:induction false} BusyBounds(ws: seq<Worker>)
    ensures Busy(ws) <= |ws|
    ensures (forall i :: 0 <= i < |ws| ==> ws[i].phase.Working?) ==> Busy(ws) == |ws|
  {
    if ws != [] {
      BusyBounds(ws[1..]);
    }
  }

  /** New batches are only made when the last channel was found empty. */
  ghost predicate Bounded(s: State, n: nat)
    requires Shape(s, n)
  {
    && (forall i :: 0 <= i <= n ==> |s.chans[i]| <= CAPACITY)
    && InFlight(s) <= (CAPACITY + 1) * n + 1
  }

  ghost predicate Past(w: Worker) {
    !w.phase.Receiving? && !w.phase.Working?
  }

  /** Channels are closed one after the other, and only when nothing more comes. */
  ghost predicate Closing(s: State, n: nat)
    requires Shape(s, n)
  {
    && (s.closed[0] <==> s.reader.Draining? || s.reader.Finished?)
    && (s.closed[0] ==> s.log == [])
    && (forall i :: 0 <= i < n ==> (s.closed[i + 1] <==> s.workers[i].phase.Stopped?))
    && (forall i :: 0 <= i < n && Past(s.workers[i]) ==> s.closed[i] && s.chans[i] == [])
    && (s.reader.Finished? ==> s.closed[n] && s.chans[n] == [])
  }

  lemma BoundedStep(s: State, n: nat, a: Actor, from: int64)
    requires Shape(s, n) && Bounded(s, n) && Enabled(s, n, a)
    ensures Shape(Step(s, n, a, from), n) && Bounded(Step(s, n, a, from), n)
  {
    if a.TheReader? {
      BoundedReader(s, n, from);
    } else {
      BoundedWorker(s, n, a.i, from);
    }
  }

  lemma BoundedReader(s: State, n: nat, from: int64)
    requires Shape(s, n) && Bounded(s, n) && Enabled(s, n, TheReader)
    ensures Shape(ReaderStep(s, n, from), n) && Bounded(ReaderStep(s, n, from), n)
  {
    hide Record, Queued, Busy;
    if s.reader.Holding? {
      QueuedUpdate(s.chans, 0, s.chans[0] + [s.reader.batch]);
    } else if s.chans[n] != [] {
      QueuedUpdate(s.chans, n, s.chans[n][1..]);
    } else {
      QueuedBounds(s.chans[..n]);
      BusyBounds(s.workers);
      QueuedInit(s.chans);
    }
  }

  lemma BoundedWorker(s: State, n: nat, i: nat, from: int64)
    requires Shape(s, n) && Bounded(s, n) && Enabled(s, n, TheWorker(i))
    ensures Shape(WorkerStep(s, n, i, from), n) && Bounded(WorkerStep(s, n, i, from), n)
  {
    hide Accept, Queued, Busy, Min, Max;
    var w, t := s.workers[i], WorkerStep(s, n, i, from);
    BusyUpdate(s.workers, i, t.workers[i]);
    if w.phase.Receiving? && s.chans[i] != [] {
      QueuedUpdate(s.chans, i, s.chans[i][1..]);
    } else if w.phase.Working? && w.phase.k == |w.phase.batch| {
      QueuedUpdate(s.chans, i + 1, s.chans[i + 1] + [w.phase.batch]);
    } else {
      assert t.chans == s.chans;
    }
    assert t.workers == s.workers[i := t.workers[i]];
  }

  lemma {:induction false} QueuedInit(c: seq<seq<Batch>>)
    requires |c| > 0
    ensures Queued(c) == Queued(c[..|c| - 1]) + |c[|c| - 1]|
  {
    if |c| > 1 {
      QueuedInit(c[1..]);
      assert c[..|c| - 1][1..] == c[1..][..|c| - 2];
    }
  }

  lemma ClosingStep(s: State, n: nat, a: Actor, from: int64)
    requires Shape(s, n) && Closing(s, n) && Enabled(s, n, a)
    ensures Shape(Step(s, n, a, from), n) && Closing(Step(s, n, a, from), n)
  {
    hide Record, Accept, Min, Max;
    if a.TheReader? {
      ClosingReader(s, n, from);
    } else {
      ClosingWorker(s, n, a.i, from);
    }
  }

  lemma ClosingReader(s: State, n: nat, from: int64)
    requires Shape(s, n) && Closing(s, n) && Enabled(s, n, TheReader)
    ensures Shape(ReaderStep(s, n, from), n) && Closing(ReaderStep(s, n, from), n)
  {
    hide Record;
  }

  /** What a worker's step does apart from the samples. */
  ghost predicate Moved(s: State, t: State, n: nat, i: nat)
    requires Shape(s, n) && i < n
  {
    && Shape(t, n) && t.reader == s.reader && t.log == s.log
    && !s.workers[i].phase.Stopped? && t.workers == s.workers[i := t.workers[i]]
    && t.closed == (if t.workers[i].phase.Stopped? then s.closed[i + 1 := true] else s.closed)
    && (Past(t.workers[i]) ==> t.chans == s.chans && (Past(s.workers[i]) || (s.chans[i] == [] && s.closed[i])))
    && (forall j :: 0 <= j <= n && s.chans[j] == [] && (j == i + 1 ==> Past(s.workers[i])) ==> t.chans[j] == [])
  }

  lemma WorkerMoves(s: State, n: nat, i: nat, from: int64)
    requires Shape(s, n) && Enabled(s, n, TheWorker(i))
    ensures Moved(s, WorkerStep(s, n, i, from), n, i)
  {
    hide Accept, Min, Max;
  }

  lemma ClosingWorker(s: State, n: nat, i: nat, from: int64)
    requires Shape(s, n) && Closing(s, n) && Enabled(s, n, TheWorker(i))
    ensures Shape(WorkerStep(s, n, i, from), n) && Closing(WorkerStep(s, n, i, from), n)
  {
    WorkerMoves(s, n, i, from);
    hide WorkerStep, Enabled;
  }

  /** As long as the reader has not finished, some actor can go on. */
  lemma Progress(s: State, n: nat)
    requires Shape(s, n) && Bounded(s, n) && Closing(s, n) && !s.reader.Finished?
    ensures exists a :: Enabled(s, n, a)
  {
    if forall a :: !Enabled(s, n, a) {
      assert !Enabled(s, n, TheReader);
      if s.reader.Holding? {
        AllFull(s, n, n);
        QueuedBounds(s.chans);
        BusyBounds(s.workers);
        assert false;
      } else {
        NoneEnds(s, n, n);
        assert false;
      }
    }
  }

  /** If the reader cannot send, every channel is full and every worker busy. */
  lemma {:induction false} AllFull(s: State, n: nat, m: nat)
    requires Shape(s, n) && Bounded(s, n) && Closing(s, n) && m <= n
    requires s.reader.Holding? && forall a :: !Enabled(s, n, a)
    ensures forall i :: 0 <= i <= m ==> |s.chans[i]| == CAPACITY
    ensures forall i :: 0 <= i < m ==> s.workers[i].phase.Working?
  {
    assert !Enabled(s, n, TheReader);
    if m > 0 {
      AllFull(s, n, m - 1);
      assert !Enabled(s, n, TheWorker(m - 1));
      hide InFlight, Past;
    }
  }

  /** If the last channel stays empty and open, so do all before it. */
  lemma {:induction false} NoneEnds(s: State, n: nat, m: nat)
    requires Shape(s, n) && Closing(s, n) && m <= n
    requires s.reader.Draining? && (forall a :: !Enabled(s, n, a))
    requires s.chans[m] == [] && !s.closed[m]
    ensures false
  {
    if m > 0 {
      assert !Enabled(s, n, TheWorker(m - 1));
      NoneEnds(s, n, m - 1);
    }
  }
}
