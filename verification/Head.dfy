/** The head block and its appenders (head.go), with the series as objects. */
module Heads {
  import opened Samples
  import opened HeadSeries
  import opened HeadStates
  import opened HeadRuns
  import Replay
  import Seqs

  class Head {
    const chunkRange: int64
    var minTime: int64
    var maxTime: int64
    var series: map<nat, MemSeries>

    ghost function SeriesStates(): (m: map<nat, SeriesState>)
      reads this`series, series.Values
      ensures m.Keys == series.Keys
    {
      map ref | ref in series :: series[ref].State()
    }

    ghost function State(): HeadState
      reads this, series.Values
    {
      HeadState(minTime, maxTime, SeriesStates())
    }

    /** Series are valid objects, listed by their references. */
    ghost predicate Objects()
      reads this`series, series.Values
    {
      && IsWidth(chunkRange)
      && forall ref :: ref in series ==>
           var s := series[ref]; s.Valid() && s.chunkRange == chunkRange && s.ref == ref
    }

    ghost predicate Valid()
      reads this, series.Values
    {
      Objects() && HeadOk(State(), chunkRange)
    }

    constructor (chunkRange: int64)
      requires IsWidth(chunkRange)
      ensures Valid() && this.chunkRange == chunkRange && State() == HeadState(MAX, MIN, map[])
    {
      this.chunkRange, minTime, maxTime, series := chunkRange, MAX, MIN, map[];
    }

    method UpdateMinMaxTime(mint: int64, maxt: int64)
      modifies this`minTime, this`maxTime
      ensures State() == Widened(old(State()), mint, maxt)
    {
      if mint < minTime {
        minTime := mint;
      }
      if maxt > maxTime {
        maxTime := maxt;
      }
    }

    method InitTime(t: int64) returns (initialized: bool)
      modifies this`minTime, this`maxTime
      ensures State() == Initialized(old(State()), t) && (initialized <==> old(minTime) == MAX)
      ensures minTime == if initialized then t else old(minTime)
    {
      if minTime != MAX {
        return false;
      }
      minTime := t;
      if maxTime == MIN {
        maxTime := t;
      }
      return true;
    }

    /** The series of a reference, created if there is none. */
    method GetOrCreate(ref: nat) returns (s: MemSeries, created: bool)
      requires Objects()
      modifies this`series
      ensures Objects() && ref in series && series[ref] == s && (created <==> ref !in old(series))
      ensures State() == Created(old(State()), ref)
      ensures forall k :: k in old(series) ==> k in series && series[k] == old(series)[k]
      ensures created ==> fresh(s)
      ensures series.Values <= old(series.Values) + {s}
    {
      hide MemSeries.Valid;
      if ref in series {
        return series[ref], false;
      }
      ghost var was := SeriesStates();
      s := new MemSeries(ref, chunkRange);
      series := series[ref := s];
      created := true;
      assert forall k :: k in series && k != ref ==> series[k] == old(series)[k];
      assert SeriesStates()[ref] == NEW_SERIES;
      Inserted(was, SeriesStates(), ref);
    }

    /** Drops what ends before mint. */
    method Truncate(mint: int64)
      requires Objects()
      modifies this`minTime, this`maxTime, series.Values
      ensures Objects() && State() == Truncated(old(State()), mint)
    {
      hide MemSeries.Valid, AllDropped, SeriesState.Ok;
      ghost var was := State();
      var initialize := minTime == MAX;
      if minTime >= mint && !initialize {
        return;
      }
      minTime := mint;
      if maxTime < mint {
        maxTime := mint;
      }
      if initialize {
        return;
      }
      ghost var states := SeriesStates();
      assert states == was.series;
      GC(mint);
      assert State() == HeadState(mint, if was.maxTime < mint then mint else was.maxTime, AllDropped(was.series, mint));
    }

    method GC(mint: int64)
      requires Objects()
      modifies series.Values
      ensures Objects() && SeriesStates() == AllDropped(old(SeriesStates()), mint)
    {
      hide MemSeries.Valid, Dropped;
      var refs := series.Keys;
      ghost var was := SeriesStates();
      while refs != {}
        invariant refs <= series.Keys && Objects()
        invariant forall ref :: ref in series ==>
                    series[ref].State() == if ref in refs then was[ref] else Dropped(was[ref], mint)
        decreases refs
      {
        var ref :| ref in refs;
        TruncateSeries(series[ref], mint);
        refs := refs - {ref};
      }
    }

    static method TruncateSeries(s: MemSeries, mint: int64)
      requires s.Valid()
      modifies s
      ensures s.Valid() && s.State() == Dropped(old(s.State()), mint)
    {
      hide MemSeries.Valid, ChunksValid, MemChunk.Valid;
      ghost var cs := s.chunks;
      var k := s.TruncateChunksBefore(mint);
      OneCutoff(cs, k, Leading(cs, mint), mint);
    }
  }

  lemma OneCutoff(cs: seq<MemChunk>, j: nat, k: nat, mint: int64)
    requires Cutoff(cs, j, mint) && Cutoff(cs, k, mint)
    ensures j == k
  {
  }

  lemma Inserted<K, V>(m: map<K, V>, n: map<K, V>, k: K)
    requires n.Keys == m.Keys + {k} && k !in m && forall j :: j in m ==> n[j] == m[j]
    ensures n == m[k := n[k]]
  {
  }

  class HeadAppender {
    const head: Head
    const minValidTime: int64
    var mint: int64
    var maxt: int64
    var samples: seq<RefSample>

    ghost function State(): Appender
      reads this
    {
      Appender(minValidTime, mint, maxt, samples)
    }

    /** Head.appender. */
    constructor (head: Head)
      requires head.Objects() && 0 <= head.maxTime
      ensures this.head == head && State() == Fresh(head.State(), head.chunkRange)
    {
      this.head := head;
      minValidTime := head.maxTime - head.chunkRange / 2;
      mint, maxt, samples := MAX, MIN, [];
    }

    method AddFast(ref: nat, t: int64, v: nat) returns (r: Answer)
      requires head.Objects()
      modifies this
      ensures (r, State()) == AddedFast(head.State(), old(State()), ref, Sample(t, v), head.chunkRange)
    {
      if t < minValidTime {
        return OutOfBounds;
      }
      if ref !in head.series {
        return UnknownSeries;
      }
      var s := head.series[ref];
      r := Appendable(s, t, v);
      if r != Taken {
        return;
      }
      if t < mint {
        mint := t;
      }
      if t > maxt {
        maxt := t;
      }
      samples := samples + [Replay.RefSample(ref, Sample(t, v))];
    }

    static method Appendable(s: MemSeries, t: int64, v: nat) returns (r: Answer)
      requires s.Valid() && IsWidth(s.chunkRange)
      ensures r == Checked(s.State(), Sample(t, v), s.chunkRange)
    {
      hide RangeForTimestamp, ChunksValid, MemChunk.Valid, Buffered;
      if s.chunks != [] {
        LastBounds(s.State(), s.chunkRange);
      }
      r := match s.CheckAppend(t, v)
           case Appendable => Taken
           case Refused(OutOfOrderSample) => OutOfOrder
           case Refused(AmendSample) => Amended;
    }

    method Add(ref: nat, t: int64, v: nat) returns (r: Answer)
      requires head.Valid() && TimeOk(t, head.chunkRange) && head.minTime != MAX
      modifies this, head`series
      ensures head.Objects()
      ensures (r, head.State(), State()) == Added(old(head.State()), old(State()), ref, Sample(t, v), head.chunkRange)
    {
      hide MemSeries.Valid, SeriesState.Ok, Created, AddedFast, Bounded;
      if t < minValidTime {
        return OutOfBounds;
      }
      ghost var h, a := head.State(), State();
      r := AddTo(ref, t, v);
      assert (r, head.State(), State()) == Added(h, a, ref, Sample(t, v), head.chunkRange);
    }

    method AddTo(ref: nat, t: int64, v: nat) returns (r: Answer)
      requires head.Objects()
      modifies this, head`series
      ensures head.Objects() && head.State() == Created(old(head.State()), ref)
      ensures (r, State()) == AddedFast(head.State(), old(State()), ref, Sample(t, v), head.chunkRange)
    {
      hide MemSeries.Valid, SeriesState.Ok, Created, AddedFast;
      var s, created := head.GetOrCreate(ref);
      r := AddFast(ref, t, v);
    }

    /** Adds the samples to their series; those that have become too old meanwhile are
        left out. */
    method Commit()
      requires head.Valid() && CanAll(head.State().series, samples, head.chunkRange)
      modifies head`minTime, head`maxTime, head.series.Values
      ensures head.Objects() && head.State() == Committed(old(head.State()), State(), head.chunkRange)
    {
      hide MemSeries.Valid, SeriesState.Ok, CanAll, StepAll;
      ghost var was := head.State();
      AppendAll();
      head.UpdateMinMaxTime(mint, maxt);
      assert head.State() == Widened(was.(series := StepAll(was.series, samples, head.chunkRange)), mint, maxt);
    }

    method AppendAll()
      requires head.Objects() && AllOk(head.SeriesStates(), head.chunkRange)
      requires CanAll(head.SeriesStates(), samples, head.chunkRange)
      modifies head.series.Values
      ensures head.Objects() && head.SeriesStates() == StepAll(old(head.SeriesStates()), samples, head.chunkRange)
    {
      hide MemSeries.Valid, SeriesState.Ok, Can, Step;
      ghost var all := StepAll(head.SeriesStates(), samples, head.chunkRange);
      Seqs.Parts(samples, 0);
      for i := 0 to |samples|
        invariant head.Objects() && AllOk(head.SeriesStates(), head.chunkRange)
        invariant CanAll(head.SeriesStates(), samples[i..], head.chunkRange)
        invariant StepAll(head.SeriesStates(), samples[i..], head.chunkRange) == all
      {
        Seqs.Onwards(samples, i);
        AppendTo(head, samples[i]);
      }
      Seqs.Parts(samples, |samples|);
    }

    static method AppendTo(head: Head, x: RefSample)
      requires head.Objects() && AllOk(head.SeriesStates(), head.chunkRange)
      requires Can(head.SeriesStates(), x, head.chunkRange)
      modifies head.series.Values
      ensures head.Objects() && head.SeriesStates() == Step(old(head.SeriesStates()), x, head.chunkRange)
    {
      hide MemSeries.Valid, SeriesState.Ok, SeriesState.Appended, SeriesState.DueAt, SeriesState.HasRoom, Extended,
           Flat;
      ghost var was := head.SeriesStates();
      var s := head.series[x.ref];
      var _, _ := s.Append(x.s.t, x.s.v);
      Replaced(was, head.SeriesStates(), x.ref);
    }
  }

  lemma Replaced<K, V>(m: map<K, V>, n: map<K, V>, k: K)
    requires n.Keys == m.Keys && k in m && forall j :: j in m && j != k ==> n[j] == m[j]
    ensures n == m[k := n[k]]
  {
  }
}
