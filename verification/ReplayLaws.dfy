/** What replaying a log does to deleted ranges and to samples, said of the log alone:
    which times of a series end up deleted, and which of its samples are kept. */
module ReplayLaws {
  import opened Samples
  import opened Labelling
  import opened Tombstones
  import opened Replay
  import opened ReplayMeaning
  import Seqs

  /* Deleted ranges */

  function ListOf(stones: map<nat, seq<Interval>>, ref: nat): seq<Interval> {
    if ref in stones then stones[ref] else []
  }

  /** A range that is recorded for a series and does not end too early. */
  predicate Counts(st: Stone, ref: nat, from: int64) { st.ref == ref && st.itv.maxt >= from }

  function RangesOf(sts: seq<Stone>, ref: nat, from: int64): seq<Interval> {
    if sts == [] then [] else (if Counts(sts[0], ref, from) then [sts[0].itv] else []) + RangesOf(sts[1..], ref, from)
  }

  /** The ranges that a log records for a series, in order. */
  function LoggedRanges(log: seq<Event>, ref: nat, from: int64): seq<Interval> {
    if log == [] then []
    else (if log[0].Stones? then RangesOf(log[0].stones, ref, from) else []) + LoggedRanges(log[1..], ref, from)
  }

  lemma {:induction false} AddAllConcat(s: seq<Interval>, a: seq<Interval>, b: seq<Interval>)
    ensures AddAll(s, a + b) == AddAll(AddAll(s, a), b)
    decreases |a|
  {
    hide Added;
    if a == [] {
      Seqs.Nothing(b);
    } else {
      Seqs.Tail(a, b);
      AddAllConcat(Added(s, a[0]), a[1..], b);
    }
  }

  lemma AddStoneIs(stones: map<nat, seq<Interval>>, st: Stone, ref: nat, from: int64)
    ensures var m := AddStone(stones, st, from);
            var ns := if Counts(st, ref, from) then [st.itv] else [];
            && ListOf(m, ref) == AddAll(ListOf(stones, ref), ns)
            && (ref in m <==> ref in stones || ns != [])
  {
    AddOne(ListOf(stones, ref), st.itv);
    hide Added;
  }

  lemma {:induction false} AddStonesAre(stones: map<nat, seq<Interval>>, sts: seq<Stone>, ref: nat, from: int64)
    ensures var m, ns := AddStones(stones, sts, from), RangesOf(sts, ref, from);
            && ListOf(m, ref) == AddAll(ListOf(stones, ref), ns)
            && (ref in m <==> ref in stones || ns != [])
    decreases |sts|
  {
    hide Added, AddStone, Counts, ListOf;
    if sts != [] {
      var more := if Counts(sts[0], ref, from) then [sts[0].itv] else [];
      AddStoneIs(stones, sts[0], ref, from);
      AddStonesAre(AddStone(stones, sts[0], from), sts[1..], ref, from);
      AddAllConcat(ListOf(stones, ref), more, RangesOf(sts[1..], ref, from));
    }
  }

  /** The list of a series is what the ranges recorded for it make of the list from
      before, one after the other; other series have no part in it. */
  lemma {:induction false} StonesReplayed(h: Head, log: seq<Event>, ref: nat, from: int64)
    ensures var g, ns := Sequential(h, log, from), LoggedRanges(log, ref, from);
            && ListOf(g.stones, ref) == AddAll(ListOf(h.stones, ref), ns)
            && (ref in g.stones <==> ref in h.stones || ns != [])
    decreases |log|
  {
    hide AddStones, AddAll, ListOf, RangesOf, Replayed;
    if log == [] {
      AddNothing(ListOf(h.stones, ref));
    } else {
      var e, rest := log[0], LoggedRanges(log[1..], ref, from);
      StonesReplayed(Record(h, e, from), log[1..], ref, from);
      match e
      case Series(_, _) => Seqs.Nothing(rest);
      case Samples(xs) =>
        ApplyAllMeans(h, xs, from);
        Seqs.Nothing(rest);
      case Stones(sts) =>
        AddStonesAre(h.stones, sts, ref, from);
        AddAllConcat(ListOf(h.stones, ref), RangesOf(sts, ref, from), rest);
    }
  }

  lemma AddNothing(s: seq<Interval>)
    ensures AddAll(s, []) == s
  {
  }

  /** Some record says that a time of a series is deleted. */
  ghost predicate Deleted(log: seq<Event>, ref: nat, t: int64, from: int64) {
    exists i, k :: && 0 <= i < |log| && log[i].Stones? && 0 <= k < |log[i].stones|
                   && log[i].stones[k].ref == ref && log[i].stones[k].itv.maxt >= from
                   && log[i].stones[k].itv.InBounds(t)
  }

  ghost predicate StonesValid(log: seq<Event>) {
    forall i, k :: 0 <= i < |log| && log[i].Stones? && 0 <= k < |log[i].stones| ==>
      log[i].stones[k].itv.mint <= log[i].stones[k].itv.maxt
  }

  lemma CoversConcat(a: seq<Interval>, b: seq<Interval>, t: int64)
    ensures Covers(a + b, t) <==> Covers(a, t) || Covers(b, t)
  {
    if Covers(a, t) {
      var i :| 0 <= i < |a| && a[i].InBounds(t);
      assert (a + b)[i].InBounds(t);
    }
    if Covers(b, t) {
      var i :| 0 <= i < |b| && b[i].InBounds(t);
      assert (a + b)[|a| + i].InBounds(t);
    }
  }

  lemma {:induction false} RangesCover(sts: seq<Stone>, ref: nat, t: int64, from: int64)
    ensures Covers(RangesOf(sts, ref, from), t) <==>
              exists k :: 0 <= k < |sts| && sts[k].ref == ref && sts[k].itv.maxt >= from && sts[k].itv.InBounds(t)
    ensures (forall k :: 0 <= k < |sts| ==> sts[k].itv.mint <= sts[k].itv.maxt)
        ==> forall j :: 0 <= j < |RangesOf(sts, ref, from)| ==>
              RangesOf(sts, ref, from)[j].mint <= RangesOf(sts, ref, from)[j].maxt
  {
    if sts == [] {
      assert !Covers([], t);
    } else {
      var one := if Counts(sts[0], ref, from) then [sts[0].itv] else [];
      RangesCover(sts[1..], ref, t, from);
      CoversConcat(one, RangesOf(sts[1..], ref, from), t);
      assert Covers(one, t) <==> one != [] && one[0].InBounds(t);
      hide Covers;
      assert forall k :: 0 < k < |sts| ==> sts[k] == sts[1..][k - 1];
      if Covers(RangesOf(sts[1..], ref, from), t) {
        var k :| 0 <= k < |sts| - 1 && sts[1..][k].ref == ref && sts[1..][k].itv.maxt >= from
                 && sts[1..][k].itv.InBounds(t);
        assert sts[k + 1] == sts[1..][k];
      }
    }
  }

  lemma {:induction false} LoggedCover(log: seq<Event>, ref: nat, t: int64, from: int64)
    requires StonesValid(log)
    ensures Covers(LoggedRanges(log, ref, from), t) <==> Deleted(log, ref, t, from)
    ensures var ns := LoggedRanges(log, ref, from); forall j :: 0 <= j < |ns| ==> ns[j].mint <= ns[j].maxt
  {
    if log == [] {
      assert !Covers([], t);
    } else {
      var rest := log[1..];
      assert forall i :: 0 < i < |log| ==> log[i] == rest[i - 1];
      LoggedCover(rest, ref, t, from);
      var one := if log[0].Stones? then RangesOf(log[0].stones, ref, from) else [];
      CoversConcat(one, LoggedRanges(rest, ref, from), t);
      if log[0].Stones? {
        RangesCover(log[0].stones, ref, t, from);
      } else {
        assert !Covers([], t);
      }
      hide Covers, RangesOf, LoggedRanges;
      DeletedCons(log, ref, t, from);
    }
  }

  lemma DeletedCons(log: seq<Event>, ref: nat, t: int64, from: int64)
    requires log != []
    ensures Deleted(log, ref, t, from) <==>
              || (log[0].Stones? && exists k :: && 0 <= k < |log[0].stones| && log[0].stones[k].ref == ref
                                                && log[0].stones[k].itv.maxt >= from
                                                && log[0].stones[k].itv.InBounds(t))
              || Deleted(log[1..], ref, t, from)
  {
    var rest := log[1..];
    if Deleted(log, ref, t, from) {
      var i, k :| && 0 <= i < |log| && log[i].Stones? && 0 <= k < |log[i].stones|
                  && log[i].stones[k].ref == ref && log[i].stones[k].itv.maxt >= from
                  && log[i].stones[k].itv.InBounds(t);
      if i > 0 {
        assert rest[i - 1] == log[i];
      }
    }
    if Deleted(rest, ref, t, from) {
      var i, k :| && 0 <= i < |rest| && rest[i].Stones? && 0 <= k < |rest[i].stones|
                  && rest[i].stones[k].ref == ref && rest[i].stones[k].itv.maxt >= from
                  && rest[i].stones[k].itv.InBounds(t);
      assert log[i + 1] == rest[i];
    }
  }

  /** After replay a time of a series is deleted exactly if it was before, or if some
      record says so whose range does not end before the times that count. This holds at
      every point of the log if and only if no addition loses times; the list is sorted
      in any case, and without such records it stays as it was. */
  lemma DeletedExactly(h: Head, log: seq<Event>, ref: nat, from: int64)
    requires Sorted(ListOf(h.stones, ref)) && StonesValid(log)
    ensures var g, init, ns := Sequential(h, log, from), ListOf(h.stones, ref), LoggedRanges(log, ref, from);
            var list := ListOf(g.stones, ref);
            && Sorted(list)
            && (AllKeep(init, ns) <==> AtAllPoints(init, ns))
            && (AllKeep(init, ns) ==> forall t :: Covers(list, t) <==> Covers(init, t) || Deleted(log, ref, t, from))
            && (ns == [] ==> list == init && (ref in g.stones <==> ref in h.stones))
  {
    hide Sequential, AddAll, Covers, Sorted, AllKeep, AtAllPoints, Deleted, LoggedRanges, ListOf;
    var init, ns := ListOf(h.stones, ref), LoggedRanges(log, ref, from);
    StonesReplayed(h, log, ref, from);
    LoggedCover(log, ref, 0, from);
    RunExactly(init, ns);
    AddNothing(init);
    if AllKeep(init, ns) {
      forall t
        ensures Covers(AddAll(init, ns), t) <==> Covers(init, t) || Deleted(log, ref, t, from)
      {
        LoggedCover(log, ref, t, from);
        RunIsUnion(init, ns, t);
      }
    }
  }

  /* Samples */

  /** A sample of the series that counts. */
  predicate Relevant(x: RefSample, r: nat, from: int64) { x.ref == r && x.s.t >= from }

  /** The n-th sample is newer than all samples from before and all earlier ones. */
  ghost predicate Newest(c: seq<Sample>, xs: seq<RefSample>, n: nat, r: nat, from: int64)
    requires n < |xs|
  {
    && Relevant(xs[n], r, from)
    && (forall i :: 0 <= i < |c| ==> c[i].t < xs[n].s.t)
    && forall j :: 0 <= j < n && Relevant(xs[j], r, from) ==> xs[j].s.t < xs[n].s.t
  }

  ghost function Records(c: seq<Sample>, xs: seq<RefSample>, n: nat, r: nat, from: int64): seq<Sample>
    requires n <= |xs|
  {
    if n == 0 then []
    else Records(c, xs, n - 1, r, from) + if Newest(c, xs, n - 1, r, from) then [xs[n - 1].s] else []
  }

  /** The last sample held is the newest of all that have come in. */
  ghost predicate Highest(a: seq<Sample>, c: seq<Sample>, xs: seq<RefSample>, n: nat, r: nat, from: int64)
    requires n <= |xs|
  {
    if a == [] then c == [] && forall j :: 0 <= j < n ==> !Relevant(xs[j], r, from)
    else
      var t := a[|a| - 1].t;
      && (forall i :: 0 <= i < |c| ==> c[i].t <= t)
      && (forall j :: 0 <= j < n && Relevant(xs[j], r, from) ==> xs[j].s.t <= t)
      && ((exists i :: 0 <= i < |c| && c[i].t == t)
          || exists j :: 0 <= j < n && Relevant(xs[j], r, from) && xs[j].s.t == t)
  }

  lemma HighestNext(a: seq<Sample>, c: seq<Sample>, xs: seq<RefSample>, n: nat, r: nat, from: int64)
    requires n < |xs| && Highest(a, c, xs, n, r, from)
    ensures var b := if Relevant(xs[n], r, from) then Accept(a, xs[n].s) else a;
            && Highest(b, c, xs, n + 1, r, from)
            && b == a + if Newest(c, xs, n, r, from) then [xs[n].s] else []
  {
  }

  /** Replay keeps of a series what it had, and then exactly the samples that are newer
      than everything before them. */
  lemma {:induction false} AppliedExactly(c: seq<Sample>, xs: seq<RefSample>, n: nat, r: nat, from: int64)
    requires Ordered(c) && n <= |xs|
    ensures var a := Applied(c, xs[..n], r, from);
            a == c + Records(c, xs, n, r, from) && Highest(a, c, xs, n, r, from)
  {
    hide Applied, Accept, Newest, Relevant, Highest, Ordered, Records;
    RecordsNext(c, xs, n, r, from);
    if n == 0 {
      Seqs.Nothing(c);
      assert xs[..0] == [];
      AppliedNothing(c, r, from);
      StartsHighest(c, xs, r, from);
    } else {
      var m := n - 1;
      var a := Applied(c, xs[..m], r, from);
      AppliedExactly(c, xs, m, r, from);
      Seqs.Prefix(xs, m);
      AppliedConcat(c, xs[..m], [xs[m]], r, from);
      NextApplied(a, xs[m], r, from);
      HighestNext(a, c, xs, m, r, from);
      Seqs.Associate(c, Records(c, xs, m, r, from), if Newest(c, xs, m, r, from) then [xs[m].s] else []);
    }
  }

  lemma RecordsNext(c: seq<Sample>, xs: seq<RefSample>, n: nat, r: nat, from: int64)
    requires n <= |xs|
    ensures Records(c, xs, n, r, from) ==
            if n == 0 then [] else
              Records(c, xs, n - 1, r, from) + if Newest(c, xs, n - 1, r, from) then [xs[n - 1].s] else []
  {
    hide Newest;
  }

  lemma AppliedNothing(c: seq<Sample>, r: nat, from: int64)
    ensures Applied(c, [], r, from) == c
  {
  }

  lemma NextApplied(c: seq<Sample>, x: RefSample, r: nat, from: int64)
    ensures Applied(c, [x], r, from) == if Relevant(x, r, from) then Accept(c, x.s) else c
  {
    AppliedOne(c, x, r, from);
  }

  lemma StartsHighest(c: seq<Sample>, xs: seq<RefSample>, r: nat, from: int64)
    requires Ordered(c)
    ensures Highest(c, c, xs, 0, r, from)
  {
  }

  /** A series after replay: what it had, and of its samples in the log exactly those that
      are newer than everything before them. */
  lemma SamplesExactly(h: Head, log: seq<Event>, r: nat, from: int64)
    requires h.series.Keys == h.refs.Values && WellOrdered(h.refs, log) && Ordered(SeriesOf(h, r))
    ensures var g, xs := Sequential(h, log, from), AllSamples(log);
            r in g.series ==> g.series[r] == SeriesOf(h, r) + Records(SeriesOf(h, r), xs, |xs|, r, from)
  {
    hide Sequential, AllSamples, WellOrdered, Applied, Records, Ordered;
    var xs := AllSamples(log);
    SequentialMeans(h, log, from);
    AppliedExactly(SeriesOf(h, r), xs, |xs|, r, from);
    assert xs[..|xs|] == xs;
  }
}
