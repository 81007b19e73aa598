/** Compacting several blocks preserves their meaning: each series of the new block
    has exactly the samples that are not deleted, block after block. */
module Populating {
  import opened Options
  import opened Samples
  import opened Labelling
  import opened Tombstones
  import opened Merging
  import Seqs

  /** The series of a block, whose times lie from lo on and before hi. */
  datatype Block = Block(rows: seq<Entry>, lo: int64, hi: int64)

  ghost predicate Inside(d: seq<Interval>, lo: int64, hi: int64) {
    forall i :: 0 <= i < |d| ==> lo <= d[i].mint && d[i].maxt < hi
  }

  ghost predicate ChunksInside(cs: seq<Chunk>, lo: int64, hi: int64) {
    forall i :: 0 <= i < |cs| ==> Bounds(cs[i]) && lo <= cs[i].mint && cs[i].maxt < hi
  }

  /** Lists of ranges for which judging a chunk by the first and the last one is right.
      They may overlap. */
  ghost predicate Ranges(d: seq<Interval>) {
    Sorted(d) && LastIsFurthest(d)
  }

  ghost predicate EntryOk(e: Entry, lo: int64, hi: int64) {
    Ranges(e.dranges) && ChunksInside(e.chks, lo, hi)
  }

  /** Deleted ranges do not reach beyond the block, as those of the head may. */
  ghost predicate Within(b: Block) {
    forall i :: 0 <= i < |b.rows| ==> Inside(b.rows[i].dranges, b.lo, b.hi)
  }

  ghost predicate AllWithin(bs: seq<Block>) {
    forall i :: 0 <= i < |bs| ==> Within(bs[i])
  }

  ghost predicate BlockOk(b: Block) {
    b.lo <= b.hi && Strict(b.rows) && forall i :: 0 <= i < |b.rows| ==> EntryOk(b.rows[i], b.lo, b.hi)
  }

  /** Blocks in time order. Only of several blocks must each keep to its own times. */
  ghost predicate Consecutive(bs: seq<Block>) {
    && (forall i :: 0 <= i < |bs| ==> BlockOk(bs[i]))
    && (|bs| > 1 ==> AllWithin(bs))
    && forall i, j :: 0 <= i < j < |bs| ==> bs[i].hi <= bs[j].lo
  }

  function Survivors(rows: seq<Entry>): seq<Entry> {
    if rows == [] then [] else [Survived(rows[0])] + Survivors(rows[1..])
  }

  /** What the chain of mergers delivers. */
  function MergedAll(bs: seq<Block>): seq<Entry> {
    if bs == [] then [] else Merge(MergedAll(bs[..|bs| - 1]), Survivors(bs[|bs| - 1].rows))
  }

  function ChksAt(b: Block, l: Labels): seq<Chunk> {
    if At(b.rows, l).None? then [] else At(b.rows, l).value.chks
  }

  function DrangesAt(b: Block, l: Labels): seq<Interval> {
    if At(b.rows, l).None? then [] else At(b.rows, l).value.dranges
  }

  /** The samples of a series that are not deleted, one block after the other. */
  ghost function Wanted(bs: seq<Block>, l: Labels): seq<Sample> {
    if bs == [] then []
    else Wanted(bs[..|bs| - 1], l) + Kept(Flat(ChksAt(bs[|bs| - 1], l)), DrangesAt(bs[|bs| - 1], l))
  }

  function AllSurviving(bs: seq<Block>, l: Labels): seq<Chunk> {
    if bs == [] then []
    else AllSurviving(bs[..|bs| - 1], l) + Surviving(ChksAt(bs[|bs| - 1], l), DrangesAt(bs[|bs| - 1], l))
  }

  ghost predicate CoveredBy(bs: seq<Block>, l: Labels, t: int64) {
    exists i :: 0 <= i < |bs| && Covers(DrangesAt(bs[i], l), t)
  }

  lemma {:induction false} SurvivorsAt(rows: seq<Entry>, l: Labels)
    requires Strict(rows)
    ensures Strict(Survivors(rows)) && |Survivors(rows)| == |rows|
    ensures forall i :: 0 <= i < |rows| ==> Survivors(rows)[i] == Survived(rows[i])
    ensures At(Survivors(rows), l) == if At(rows, l).None? then None else Some(Survived(At(rows, l).value))
  {
    if rows != [] {
      StrictTail(rows);
      SurvivorsAt(rows[1..], l);
      AtCons(Survived(rows[0]), Survivors(rows[1..]), l);
      StrictCons(Survived(rows[0]), Survivors(rows[1..]));
    }
  }

  lemma {:induction false} FoundOk(rows: seq<Entry>, l: Labels, lo: int64, hi: int64)
    requires (forall i :: 0 <= i < |rows| ==> EntryOk(rows[i], lo, hi)) && At(rows, l).Some?
    ensures EntryOk(At(rows, l).value, lo, hi)
  {
    hide EntryOk;
    if rows[0].lset != l {
      FoundOk(rows[1..], l, lo, hi);
    }
  }

  lemma BlockAt(b: Block, l: Labels)
    requires BlockOk(b)
    ensures Ranges(DrangesAt(b, l)) && ChunksInside(ChksAt(b, l), b.lo, b.hi)
    ensures Within(b) ==> Inside(DrangesAt(b, l), b.lo, b.hi)
  {
    hide Strict;
    if At(b.rows, l).Some? {
      FoundOk(b.rows, l, b.lo, b.hi);
      FoundAt(b.rows, l);
    }
  }

  lemma {:induction false} FoundAt(rows: seq<Entry>, l: Labels)
    requires At(rows, l).Some?
    ensures exists i :: 0 <= i < |rows| && rows[i] == At(rows, l).value
  {
    if rows[0].lset != l {
      FoundAt(rows[1..], l);
      var i :| 0 <= i < |rows| - 1 && rows[1..][i] == At(rows, l).value;
      assert rows[i + 1] == At(rows, l).value;
    }
  }

  ghost predicate EndsBefore(d: seq<Interval>, hi: int64) {
    forall i :: 0 <= i < |d| ==> d[i].maxt < hi
  }

  /** No range starts behind t. */
  ghost predicate StartsBy(d: seq<Interval>, t: int64) {
    forall i :: 0 <= i < |d| ==> d[i].mint <= t
  }

  /** A range that starts last is put at the end or merged with all it touches. */
  lemma {:induction false} AddedLast(s: seq<Interval>, n: Interval, hi: int64)
    requires Ranges(s) && StartsBy(s, n.mint) && EndsBefore(s, hi) && n.mint <= n.maxt < hi
    ensures Keeps(s, n) && Ranges(Added(s, n)) && StartsBy(Added(s, n), n.mint) && EndsBefore(Added(s, n), hi)
    ensures Added(s, n) != [] && n.maxt <= Added(s, n)[|Added(s, n)| - 1].maxt
  {
    StaysSorted(s, n);
    if s != [] {
      var r, tail := s[0], s[1..];
      TailOf(s, n.mint, hi);
      if r.InBounds(Before(n.mint)) || r.InBounds(n.mint) {
        MergedLast(r, tail, n);
      } else {
        assert r.maxt < n.mint;
        hide Keeps, Added, Sorted;
        AddedLast(tail, n, hi);
        AddedSkip(s, n);
        PutInFront(r, Added(tail, n), n);
      }
    }
  }

  lemma TailOf(s: seq<Interval>, t: int64, hi: int64)
    requires Ranges(s) && StartsBy(s, t) && EndsBefore(s, hi) && s != []
    ensures Ranges(s[1..]) && StartsBy(s[1..], t) && EndsBefore(s[1..], hi)
    ensures s == [s[0]] + s[1..] && s[0].mint <= s[0].maxt && s[0].mint <= t
  {
    SortedTail(s);
    hide Sorted;
    var tail := s[1..];
    assert forall i :: 0 <= i < |tail| ==> tail[i] == s[i + 1];
  }

  lemma AddedSkip(s: seq<Interval>, n: Interval)
    requires s != [] && s[0].mint <= s[0].maxt < n.mint <= n.maxt && !s[0].InBounds(Before(n.mint)) && n.maxt < MAX
    ensures Added(s, n) == [s[0]] + Added(s[1..], n) && (Keeps(s[1..], n) ==> Keeps(s, n))
  {
    hide Extend;
  }

  lemma PutInFront(r: Interval, d: seq<Interval>, n: Interval)
    requires d != [] && LastIsFurthest(d) && r.maxt < n.mint <= n.maxt <= d[|d| - 1].maxt
    ensures LastIsFurthest([r] + d) && ([r] + d)[|d|] == d[|d| - 1]
  {
  }

  lemma MergedLast(r: Interval, tail: seq<Interval>, n: Interval)
    requires Sorted([r] + tail) && LastIsFurthest([r] + tail) && StartsBy(tail, n.mint) && n.mint <= n.maxt
    ensures ExtendKeeps(r, tail, n)
    ensures var m := Extend(r, tail, n);
            && |m| == 1 && m[0].mint == r.mint && n.maxt <= m[0].maxt
            && (m[0].maxt == n.maxt || m[0].maxt == ([r] + tail)[|tail|].maxt)
  {
    var j, s := StartedBy(tail, n.maxt), [r] + tail;
    assert j == |tail|;
    ExtendParts(r, tail, n);
    assert forall i :: 0 <= i < |tail| ==> tail[i] == s[i + 1];
    assert s[0] == r && s[|s| - 1] == if tail == [] then r else tail[|tail| - 1];
  }

  lemma {:induction false} AllAddedLast(s: seq<Interval>, ns: seq<Interval>, hi: int64)
    requires Ranges(s) && Sorted(ns) && EndsBefore(s, hi) && EndsBefore(ns, hi)
    requires ns != [] ==> StartsBy(s, ns[0].mint)
    ensures AllKeep(s, ns) && Ranges(AddAll(s, ns)) && EndsBefore(AddAll(s, ns), hi)
    decreases |ns|
  {
    hide Keeps, Added, Ranges;
    if ns != [] {
      AddedLast(s, ns[0], hi);
      SortedTail(ns);
      AllAddedLast(Added(s, ns[0]), ns[1..], hi);
    }
  }

  /** Chaining the ranges of a later block to those of the earlier ones. */
  lemma ChainedRanges(s: seq<Interval>, ns: seq<Interval>, lo: int64, hi: int64)
    requires Ranges(s) && Ranges(ns) && Inside(ns, lo, hi) && lo <= hi && EndsBefore(s, lo)
    ensures Ranges(AddAll(s, ns)) && EndsBefore(AddAll(s, ns), hi)
    ensures forall t :: Covers(AddAll(s, ns), t) <==> Covers(s, t) || Covers(ns, t)
  {
    AllAddedLast(s, ns, hi);
    hide AllKeep, AddAll, Covers;
    forall t ensures Covers(AddAll(s, ns), t) <==> Covers(s, t) || Covers(ns, t) {
      RunIsUnion(s, ns, t);
    }
  }

  lemma ConsecutiveInit(bs: seq<Block>)
    requires Consecutive(bs) && bs != []
    ensures Consecutive(bs[..|bs| - 1]) && BlockOk(bs[|bs| - 1])
    ensures |bs| > 1 ==> bs[|bs| - 2].hi <= bs[|bs| - 1].lo && AllWithin(bs) && Within(bs[|bs| - 1])
    ensures AllWithin(bs) ==> AllWithin(bs[..|bs| - 1]) && Within(bs[|bs| - 1])
  {
  }

  /** What is known of a row of the merged sets. */
  ghost predicate RowOk(r: Entry, bs: seq<Block>, l: Labels) {
    && r.chks == AllSurviving(bs, l) && Ranges(r.dranges)
    && (bs != [] && AllWithin(bs) ==> EndsBefore(r.dranges, bs[|bs| - 1].hi))
    && forall t :: Covers(r.dranges, t) <==> CoveredBy(bs, l, t)
  }

  lemma CoveredNext(bs: seq<Block>, l: Labels, t: int64)
    requires bs != []
    ensures CoveredBy(bs, l, t) <==> CoveredBy(bs[..|bs| - 1], l, t) || Covers(DrangesAt(bs[|bs| - 1], l), t)
  {
    var init := bs[..|bs| - 1];
    if CoveredBy(init, l, t) {
      var i :| 0 <= i < |init| && Covers(DrangesAt(init[i], l), t);
      assert Covers(DrangesAt(bs[i], l), t);
    }
  }

  /** What the merged sets of the earlier blocks have for a label set. */
  ghost predicate MergedOk(m: Option<Entry>, bs: seq<Block>, l: Labels) {
    if m.None? then AllSurviving(bs, l) == [] && forall t :: !CoveredBy(bs, l, t) else bs != [] && RowOk(m.value, bs, l)
  }

  lemma OnlyLast(bs: seq<Block>, l: Labels, e: Entry)
    requires Consecutive(bs) && bs != [] && MergedOk(None, bs[..|bs| - 1], l) && At(bs[|bs| - 1].rows, l) == Some(e)
    ensures RowOk(Survived(e), bs, l)
  {
    ConsecutiveInit(bs);
    BlockAt(bs[|bs| - 1], l);
    hide Consecutive, BlockOk, Surviving, Covers, Ranges;
    forall t ensures Covers(e.dranges, t) <==> CoveredBy(bs, l, t) {
      CoveredNext(bs, l, t);
    }
    hide CoveredBy;
    assert [] + Surviving(e.chks, e.dranges) == Surviving(e.chks, e.dranges);
  }

  lemma NotInLast(bs: seq<Block>, l: Labels, m: Option<Entry>)
    requires Consecutive(bs) && bs != [] && MergedOk(m, bs[..|bs| - 1], l) && At(bs[|bs| - 1].rows, l) == None
    ensures MergedOk(m, bs, l)
  {
    ConsecutiveInit(bs);
    hide Consecutive, Surviving, Ranges, Covers, CoveredBy;
    NothingInLast(bs, l);
    var init := bs[..|bs| - 1];
    if init != [] {
      assert init[|init| - 1] == bs[|bs| - 2];
    }
  }

  lemma NothingInLast(bs: seq<Block>, l: Labels)
    requires bs != [] && At(bs[|bs| - 1].rows, l) == None
    ensures AllSurviving(bs, l) == AllSurviving(bs[..|bs| - 1], l)
    ensures forall t :: CoveredBy(bs[..|bs| - 1], l, t) <==> CoveredBy(bs, l, t)
  {
    assert Surviving([], []) == [];
    Seqs.Nothing(AllSurviving(bs[..|bs| - 1], l));
    hide Surviving;
    forall t ensures CoveredBy(bs[..|bs| - 1], l, t) <==> CoveredBy(bs, l, t) {
      CoveredNext(bs, l, t);
      assert !Covers([], t);
    }
  }

  lemma InBoth(bs: seq<Block>, l: Labels, r: Entry, e: Entry)
    requires Consecutive(bs) && |bs| > 1 && RowOk(r, bs[..|bs| - 1], l) && At(bs[|bs| - 1].rows, l) == Some(e)
    ensures RowOk(Chain(r, Survived(e)), bs, l)
  {
    var b, init := bs[|bs| - 1], bs[..|bs| - 1];
    ConsecutiveInit(bs);
    BlockAt(b, l);
    hide Consecutive, BlockOk, Surviving, AddAll, Covers, Ranges;
    assert init[|init| - 1] == bs[|bs| - 2];
    ChainedRanges(r.dranges, e.dranges, b.lo, b.hi);
    forall t ensures Covers(AddAll(r.dranges, e.dranges), t) <==> CoveredBy(bs, l, t) {
      CoveredNext(bs, l, t);
    }
    hide CoveredBy;
  }

  lemma {:induction false} MergedRow(bs: seq<Block>, l: Labels)
    requires Consecutive(bs)
    ensures Strict(MergedAll(bs)) && MergedOk(At(MergedAll(bs), l), bs, l)
  {
    if bs != [] {
      var b, init := bs[|bs| - 1], bs[..|bs| - 1];
      ConsecutiveInit(bs);
      hide RowOk, Consecutive, CoveredBy, AllSurviving, Merge, Strict;
      MergedRow(init, l);
      SurvivorsAt(b.rows, l) by {
        assert BlockOk(b);
      }
      MergeAt(MergedAll(init), Survivors(b.rows), l);
      var m, e := At(MergedAll(init), l), At(b.rows, l);
      if e.None? {
        NotInLast(bs, l, m);
      } else if m.None? {
        OnlyLast(bs, l, e.value);
      } else {
        InBoth(bs, l, m.value, e.value);
      }
    }
  }

  /** Inside a block's own times, the ranges deleted there are those of the block. */
  ghost predicate Agrees(bs: seq<Block>, l: Labels, d: seq<Interval>) {
    forall i, t :: 0 <= i < |bs| && bs[i].lo <= t < bs[i].hi ==> (Covers(d, t) <==> Covers(DrangesAt(bs[i], l), t))
  }

  lemma RowAgrees(bs: seq<Block>, l: Labels, d: seq<Interval>)
    requires Consecutive(bs) && forall t :: Covers(d, t) <==> CoveredBy(bs, l, t)
    ensures Agrees(bs, l, d)
  {
    forall i, t | 0 <= i < |bs| && bs[i].lo <= t < bs[i].hi ensures Covers(d, t) <==> Covers(DrangesAt(bs[i], l), t) {
      if CoveredBy(bs, l, t) {
        var j :| 0 <= j < |bs| && Covers(DrangesAt(bs[j], l), t);
        BlockAt(bs[j], l);
        assert bs[j].lo <= t < bs[j].hi by {
          hide Consecutive;
        }
        assert i == j;
      }
    }
  }

  lemma LastAgrees(bs: seq<Block>, l: Labels, d: seq<Interval>)
    requires Consecutive(bs) && bs != [] && Agrees(bs, l, d)
    ensures Agrees(bs[..|bs| - 1], l, d)
    ensures var b := bs[|bs| - 1]; var cs := ChksAt(b, l);
            && (forall k :: 0 <= k < |cs| ==> DeletesToo(cs[k], DrangesAt(b, l), d))
            && Kept(Flat(cs), d) == Kept(Flat(cs), DrangesAt(b, l))
  {
    var b := bs[|bs| - 1];
    var cs := ChksAt(b, l);
    BlockAt(b, l);
    hide Consecutive, BlockOk, Covers;
    forall k | 0 <= k < |cs| ensures DeletesToo(cs[k], DrangesAt(b, l), d) {
    }
    FlatInside(cs, b.lo, b.hi);
    KeptSame(Flat(cs), d, DrangesAt(b, l));
  }

  lemma {:induction false} FlatInside(cs: seq<Chunk>, lo: int64, hi: int64)
    requires ChunksInside(cs, lo, hi)
    ensures forall k :: 0 <= k < |Flat(cs)| ==> lo <= Flat(cs)[k].t < hi
  {
    if cs != [] {
      FlatInside(cs[1..], lo, hi);
    }
  }

  lemma {:induction false} FlatConcat(a: seq<Chunk>, b: seq<Chunk>)
    ensures Flat(a + b) == Flat(a) + Flat(b)
  {
    if a == [] {
      Seqs.Nothing(b);
      Seqs.Nothing(Flat(b));
    } else {
      Seqs.Tail(a, b);
      FlatConcat(a[1..], b);
      Seqs.Associate(a[0].samples, Flat(a[1..]), Flat(b));
    }
  }

  /** Whatever ranges agree with the blocks' own ones leave the wanted samples. */
  lemma {:induction false} WantedIsKept(bs: seq<Block>, l: Labels, d: seq<Interval>)
    requires Consecutive(bs) && Agrees(bs, l, d)
    ensures Kept(Flat(AllSurviving(bs, l)), d) == Wanted(bs, l)
  {
    if bs == [] {
      KeptNone(d);
    } else {
      var b, init := bs[|bs| - 1], bs[..|bs| - 1];
      ConsecutiveInit(bs);
      LastAgrees(bs, l, d);
      hide Consecutive, Agrees, Kept, Surviving;
      WantedIsKept(init, l, d);
      var cs := Surviving(ChksAt(b, l), DrangesAt(b, l));
      SurvivingKeeps(ChksAt(b, l), DrangesAt(b, l), d);
      FlatConcat(AllSurviving(init, l), cs);
      KeptConcat(Flat(AllSurviving(init, l)), Flat(cs), d);
    }
  }

  lemma {:induction false} SurvivingBounds(cs: seq<Chunk>, own: seq<Interval>, lo: int64, hi: int64)
    requires ChunksInside(cs, lo, hi)
    ensures ChunksInside(Surviving(cs, own), lo, hi)
  {
    if cs != [] {
      SurvivingBounds(cs[1..], own, lo, hi);
    }
  }

  lemma {:induction false} AllBounds(bs: seq<Block>, l: Labels)
    requires Consecutive(bs) && bs != []
    ensures ChunksInside(AllSurviving(bs, l), bs[0].lo, bs[|bs| - 1].hi)
  {
    var b, init := bs[|bs| - 1], bs[..|bs| - 1];
    ConsecutiveInit(bs);
    BlockAt(b, l);
    assert BlockOk(bs[0]);
    hide BlockOk;
    SurvivingBounds(ChksAt(b, l), DrangesAt(b, l), b.lo, b.hi);
    if init != [] {
      AllBounds(init, l);
      assert init[0] == bs[0] && init[|init| - 1] == bs[|bs| - 2];
    }
  }

  /** The rewritten chunks of a merged row hold exactly the wanted samples. */
  lemma RowHoldsWanted(bs: seq<Block>, l: Labels)
    requires Consecutive(bs)
    ensures var r := At(MergedAll(bs), l);
            if r.None? then Wanted(bs, l) == []
            else
              && Flat(AllRewritten(r.value.chks, r.value.dranges)) == Wanted(bs, l)
              && bs != [] && ChunksInside(r.value.chks, bs[0].lo, bs[|bs| - 1].hi)
  {
    MergedRow(bs, l);
    var r := At(MergedAll(bs), l);
    if r.None? {
      assert forall t :: !Covers([], t);
      RowAgrees(bs, l, []);
      WantedIsKept(bs, l, []);
      KeptNone([]);
    } else {
      RowAgrees(bs, l, r.value.dranges);
      WantedIsKept(bs, l, r.value.dranges);
      AllBounds(bs, l);
      hide Consecutive, Agrees, CoveredBy, MergedAll, AllSurviving;
      AllRewrittenKeeps(r.value.chks, r.value.dranges);
    }
  }

  /* The chunks themselves */

  /** One range holds both ends of the chunk. */
  ghost predicate GoneAtOnce(c: Chunk, own: seq<Interval>) {
    exists k :: && 0 <= k < |own| && own[k].mint <= c.mint <= own[k].maxt
                && own[k].mint <= c.maxt <= own[k].maxt
  }

  /** What becomes of a chunk of a block: it keeps its times and loses its deleted samples. */
  ghost predicate Becomes(c: Chunk, x: Chunk, own: seq<Interval>) {
    x.mint == c.mint && x.maxt == c.maxt && x.samples == Kept(c.samples, own)
  }

  ghost predicate InTime(cs: seq<Chunk>) {
    && (forall i :: 0 <= i < |cs| ==> cs[i].mint <= cs[i].maxt)
    && forall i, j :: 0 <= i < j < |cs| ==> cs[i].maxt < cs[j].mint
  }

  lemma {:induction false} SurvivingAre(cs: seq<Chunk>, own: seq<Interval>)
    ensures forall c :: c in Surviving(cs, own) <==> c in cs && !GoneAtOnce(c, own)
    ensures InTime(cs) ==> InTime(Surviving(cs, own))
  {
    if cs != [] {
      var c, rest := cs[0], Surviving(cs[1..], own);
      SurvivingAre(cs[1..], own);
      Seqs.Uncons(cs);
      assert IsSubrange(c, own) <==> GoneAtOnce(c, own);
      hide IsSubrange, GoneAtOnce;
      if InTime(cs) {
        assert forall k :: 0 < k < |cs| ==> cs[k] == cs[1..][k - 1];
        assert InTime(cs[1..]);
        forall x | x in rest ensures c.maxt < x.mint {
          var k :| 0 <= k < |cs[1..]| && cs[1..][k] == x;
        }
      }
    }
  }

  lemma {:induction false} AllRewrittenAre(cs: seq<Chunk>, d: seq<Interval>)
    ensures |AllRewritten(cs, d)| == |cs|
    ensures forall k :: 0 <= k < |cs| ==> AllRewritten(cs, d)[k] == Rewritten(cs[k], d)
  {
    hide Rewritten;
    if cs != [] {
      AllRewrittenAre(cs[1..], d);
    }
  }

  ghost predicate Stays(bs: seq<Block>, l: Labels, i: int, c: Chunk)
    ensures Stays(bs, l, i, c) ==> 0 <= i < |bs|
  {
    0 <= i < |bs| && c in ChksAt(bs[i], l) && !GoneAtOnce(c, DrangesAt(bs[i], l))
  }

  ghost predicate Survives(bs: seq<Block>, l: Labels, c: Chunk) { exists i :: Stays(bs, l, i, c) }

  lemma {:induction false} AllSurvivingAre(bs: seq<Block>, l: Labels)
    requires Consecutive(bs)
    ensures forall c :: c in AllSurviving(bs, l) <==> Survives(bs, l, c)
    ensures (forall i :: 0 <= i < |bs| ==> InTime(ChksAt(bs[i], l))) ==> InTime(AllSurviving(bs, l))
  {
    if bs != [] {
      var b, init := bs[|bs| - 1], bs[..|bs| - 1];
      ConsecutiveInit(bs);
      BlockAt(b, l);
      SurvivingBounds(ChksAt(b, l), DrangesAt(b, l), b.lo, b.hi);
      if init != [] {
        AllBounds(init, l);
        assert init[|init| - 1] == bs[|bs| - 2];
      }
      hide Consecutive, BlockOk, Surviving, Ranges, Bounds;
      AllSurvivingAre(init, l);
      SurvivingAre(ChksAt(b, l), DrangesAt(b, l));
      hide GoneAtOnce;
      var a, z := AllSurviving(init, l), Surviving(ChksAt(b, l), DrangesAt(b, l));
      forall c ensures c in AllSurviving(bs, l) <==> Survives(bs, l, c) {
        StaysLast(bs, l, c);
      }
      hide Survives;
      if forall i :: 0 <= i < |bs| ==> InTime(ChksAt(bs[i], l)) {
        assert forall i :: 0 <= i < |init| ==> init[i] == bs[i];
        InTimeConcat(a, z);
      }
    }
  }

  lemma StaysLast(bs: seq<Block>, l: Labels, c: Chunk)
    requires bs != []
    ensures Survives(bs, l, c) <==> Survives(bs[..|bs| - 1], l, c) || Stays(bs, l, |bs| - 1, c)
  {
    hide GoneAtOnce;
    var init := bs[..|bs| - 1];
    if Survives(init, l, c) {
      var i :| Stays(init, l, i, c);
      assert Stays(bs, l, i, c);
    }
    if Survives(bs, l, c) {
      var i :| Stays(bs, l, i, c);
      assert i < |bs| - 1 ==> Stays(init, l, i, c);
    }
  }

  lemma InTimeConcat(a: seq<Chunk>, b: seq<Chunk>)
    requires InTime(a) && InTime(b) && forall x, y :: x in a && y in b ==> x.maxt < y.mint
    ensures InTime(a + b)
  {
  }

  /** A surviving chunk is written with its own times and exactly its samples that are not
      deleted. */
  lemma StaysRewritten(bs: seq<Block>, l: Labels, d: seq<Interval>, i: int, c: Chunk)
    requires Consecutive(bs) && Agrees(bs, l, d) && Ranges(d) && Stays(bs, l, i, c)
    ensures Becomes(c, Rewritten(c, d), DrangesAt(bs[i], l)) && Bounds(Rewritten(c, d))
  {
    BlockAt(bs[i], l);
    hide Consecutive, BlockOk, GoneAtOnce, Covers, Sorted, LastIsFurthest;
    var k :| 0 <= k < |ChksAt(bs[i], l)| && ChksAt(bs[i], l)[k] == c;
    RewrittenKeeps(c, d);
    KeptSame(c.samples, d, DrangesAt(bs[i], l));
    KeptBounds(c, d);
  }

  lemma KeptBounds(c: Chunk, d: seq<Interval>)
    requires Bounds(c)
    ensures Bounds(Rewritten(c, d))
  {
    KeptAmong(c.samples, d);
    var kept := Kept(c.samples, d);
    forall i | 0 <= i < |kept| ensures c.mint <= kept[i].t <= c.maxt {
      assert kept[i] in c.samples;
    }
    hide Kept;
  }

  lemma {:induction false} KeptAmong(s: seq<Sample>, d: seq<Interval>)
    requires Ordered(s)
    ensures Ordered(Kept(s, d)) && forall x :: x in Kept(s, d) ==> x in s
  {
    hide Covers;
    if s != [] {
      Seqs.Uncons(s);
      assert forall i :: 0 <= i < |s| - 1 ==> s[1..][i] == s[i + 1];
      KeptAmong(s[1..], d);
      forall x | x in Kept(s[1..], d) ensures s[0].t < x.t {
        var i :| 0 <= i < |s| - 1 && s[1..][i] == x;
      }
    }
  }

  /** A chunk of a block that has become x. */
  ghost predicate FromBlock(bs: seq<Block>, l: Labels, x: Chunk) {
    exists i, c :: Stays(bs, l, i, c) && Becomes(c, x, DrangesAt(bs[i], l))
  }

  ghost predicate Lands(out: seq<Chunk>, c: Chunk, own: seq<Interval>) {
    exists x :: x in out && Becomes(c, x, own)
  }

  /** Every chunk that is written is one of a block, with its times and what is left of its
      samples; and every chunk that no single range of its block takes is written. */
  ghost predicate ChunksStay(bs: seq<Block>, l: Labels, out: seq<Chunk>) {
    && (forall x :: x in out ==> Bounds(x) && FromBlock(bs, l, x))
    && (forall i, c :: Stays(bs, l, i, c) ==> Lands(out, c, DrangesAt(bs[i], l)))
    && ((forall i :: 0 <= i < |bs| ==> InTime(ChksAt(bs[i], l))) ==> InTime(out))
  }

  lemma RewrittenStay(bs: seq<Block>, l: Labels, cs: seq<Chunk>, d: seq<Interval>)
    requires Consecutive(bs) && Agrees(bs, l, d) && Ranges(d) && forall c :: c in cs <==> Survives(bs, l, c)
    ensures var out := AllRewritten(cs, d);
            && (forall x :: x in out ==> Bounds(x) && FromBlock(bs, l, x))
            && (forall i, c :: Stays(bs, l, i, c) ==> Lands(out, c, DrangesAt(bs[i], l)))
  {
    AllRewrittenAre(cs, d);
    hide Consecutive, AllRewritten, Agrees, Ranges, Stays, Bounds, Becomes, Rewritten;
    var out := AllRewritten(cs, d);
    forall x | x in out ensures Bounds(x) && FromBlock(bs, l, x) {
      var k :| 0 <= k < |out| && out[k] == x;
      assert cs[k] in cs;
      var i :| Stays(bs, l, i, cs[k]);
      StaysRewritten(bs, l, d, i, cs[k]);
    }
    forall i, c | Stays(bs, l, i, c) ensures Lands(out, c, DrangesAt(bs[i], l)) {
      assert Survives(bs, l, c);
      var k :| 0 <= k < |cs| && cs[k] == c;
      StaysRewritten(bs, l, d, i, c);
      assert out[k] in out;
    }
  }

  lemma RewrittenInTime(cs: seq<Chunk>, d: seq<Interval>)
    requires InTime(cs)
    ensures InTime(AllRewritten(cs, d))
  {
    AllRewrittenAre(cs, d);
    hide AllRewritten, Kept, Touched;
  }

  lemma MergedChunks(bs: seq<Block>, l: Labels, r: Entry)
    requires Consecutive(bs) && RowOk(r, bs, l)
    ensures ChunksStay(bs, l, AllRewritten(r.chks, r.dranges))
  {
    RowAgrees(bs, l, r.dranges);
    AllSurvivingAre(bs, l);
    hide Consecutive, AllSurviving, AllRewritten, CoveredBy, Covers, Agrees, Ranges, Stays, Survives, Bounds, InTime,
         FromBlock, Lands;
    RewrittenStay(bs, l, r.chks, r.dranges);
    if InTime(r.chks) {
      RewrittenInTime(r.chks, r.dranges);
    }
  }

  lemma NoChunks(bs: seq<Block>, l: Labels)
    requires Consecutive(bs) && AllSurviving(bs, l) == []
    ensures ChunksStay(bs, l, [])
  {
    AllSurvivingAre(bs, l);
    NothingInTime();
    hide Consecutive, AllSurviving, Stays, Bounds, InTime, FromBlock, Lands;
    assert forall i, c :: Stays(bs, l, i, c) ==> Survives(bs, l, c);
  }

  lemma RowChunks(bs: seq<Block>, l: Labels)
    requires Consecutive(bs)
    ensures var r := At(MergedAll(bs), l);
            ChunksStay(bs, l, if r.None? then [] else AllRewritten(r.value.chks, r.value.dranges))
  {
    hide Consecutive, MergedAll, RowOk, AllRewritten, CoveredBy, ChunksStay;
    MergedRow(bs, l);
    var r := At(MergedAll(bs), l);
    if r.None? {
      NoChunks(bs, l);
    } else {
      MergedChunks(bs, l, r.value);
    }
  }

  lemma NothingInTime()
    ensures InTime([])
  {
  }

  lemma RewrittenInside(cs: seq<Chunk>, d: seq<Interval>, lo: int64, hi: int64)
    requires ChunksInside(cs, lo, hi)
    ensures ChunksInside(AllRewritten(cs, d), lo, hi)
  {
    AllRewrittenAre(cs, d);
    hide AllRewritten, Kept;
    forall k | 0 <= k < |cs| ensures Bounds(Rewritten(cs[k], d)) {
      KeptBounds(cs[k], d);
    }
  }
}
