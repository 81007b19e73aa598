/** What a compaction writes (populateBlock, compactionSeriesSet and
    compactionMerger in compact.go): the series of several blocks in label order,
    with deleted samples left out. */
module Merging {
  import opened Options
  import opened Samples
  import opened Labelling
  import opened Tombstones
  import Seqs

  datatype Chunk = Chunk(mint: int64, maxt: int64, samples: seq<Sample>)

  /** A series of a block: its labels, its chunks and its deleted ranges. */
  datatype Entry = Entry(lset: Labels, chks: seq<Chunk>, dranges: seq<Interval>)

  /** In strict label order. */
  ghost predicate Strict(rows: seq<Entry>) {
    forall i, j :: 0 <= i < j < |rows| ==> Compare(rows[i].lset, rows[j].lset) < 0
  }

  function At(rows: seq<Entry>, l: Labels): Option<Entry> {
    if rows == [] then None else if rows[0].lset == l then Some(rows[0]) else At(rows[1..], l)
  }

  /** One series out of two with the same labels. */
  function Chain(a: Entry, b: Entry): Entry {
    Entry(a.lset, a.chks + b.chks, AddAll(a.dranges, b.dranges))
  }

  function Merge(a: seq<Entry>, b: seq<Entry>): seq<Entry>
    decreases |a| + |b|
  {
    if a == [] then b
    else if b == [] then a
    else
      var d := Compare(a[0].lset, b[0].lset);
      if d > 0 then [b[0]] + Merge(a, b[1..])
      else if d < 0 then [a[0]] + Merge(a[1..], b)
      else [Chain(a[0], b[0])] + Merge(a[1..], b[1..])
  }

  function Joined(a: Option<Entry>, b: Option<Entry>): Option<Entry> {
    if a.None? then b else if b.None? then a else Some(Chain(a.value, b.value))
  }

  /** All labels of the rows come after l. */
  ghost predicate Behind(l: Labels, rows: seq<Entry>) {
    forall i :: 0 <= i < |rows| ==> Compare(l, rows[i].lset) < 0
  }

  lemma StrictTail(rows: seq<Entry>)
    requires Strict(rows) && rows != []
    ensures Strict(rows[1..]) && Behind(rows[0].lset, rows[1..])
  {
  }

  lemma StrictCons(e: Entry, rows: seq<Entry>)
    requires Strict(rows) && Behind(e.lset, rows)
    ensures Strict([e] + rows)
  {
  }

  lemma BehindBehind(l: Labels, m: Labels, rows: seq<Entry>)
    requires Compare(l, m) < 0 && Behind(m, rows)
    ensures Behind(l, rows)
  {
    forall i | 0 <= i < |rows| ensures Compare(l, rows[i].lset) < 0 {
      LabelsOrder(l, m, rows[i].lset);
    }
  }

  lemma {:induction false} NotAt(l: Labels, rows: seq<Entry>)
    requires Behind(l, rows)
    ensures At(rows, l) == None
  {
    if rows != [] {
      LabelsOrder(l, rows[0].lset, l);
      NotAt(l, rows[1..]);
    }
  }

  lemma {:induction false} MergeAfter(l: Labels, a: seq<Entry>, b: seq<Entry>)
    requires Behind(l, a) && Behind(l, b)
    ensures Behind(l, Merge(a, b))
    decreases |a| + |b|
  {
    hide Compare;
    if a != [] && b != [] {
      var d := Compare(a[0].lset, b[0].lset);
      MergeAfter(l, if d > 0 then a else a[1..], if d < 0 then b else b[1..]);
    }
  }

  lemma AtCons(e: Entry, rows: seq<Entry>, l: Labels)
    ensures At([e] + rows, l) == if e.lset == l then Some(e) else At(rows, l)
  {
    assert ([e] + rows)[1..] == rows;
  }

  lemma BehindFirst(l: Labels, rows: seq<Entry>)
    requires Strict(rows) && rows != [] && Compare(l, rows[0].lset) < 0
    ensures Behind(l, rows)
  {
    StrictTail(rows);
    BehindBehind(l, rows[0].lset, rows[1..]);
  }

  /** Merging keeps the order, and merges label set by label set. */
  lemma {:induction false} MergeAt(a: seq<Entry>, b: seq<Entry>, l: Labels)
    requires Strict(a) && Strict(b)
    ensures Strict(Merge(a, b)) && At(Merge(a, b), l) == Joined(At(a, l), At(b, l))
    decreases |a| + |b|
  {
    hide Compare, Strict, Behind, Chain;
    if a != [] && b != [] {
      var x, y := a[0], b[0];
      var d := Compare(x.lset, y.lset);
      StrictTail(a);
      StrictTail(b);
      LabelsOrder(x.lset, y.lset, l);
      LabelsOrder(y.lset, x.lset, l);
      var a', b' := if d > 0 then a else a[1..], if d < 0 then b else b[1..];
      var e := if d > 0 then y else if d < 0 then x else Chain(x, y);
      assert e.lset == if d > 0 then y.lset else x.lset by { ChainLabels(x, y); }
      if d > 0 { BehindFirst(y.lset, a); } else if d < 0 { BehindFirst(x.lset, b); }
      MergeAfter(e.lset, a', b');
      MergeAt(a', b', l);
      StrictCons(e, Merge(a', b'));
      AtCons(e, Merge(a', b'), l);
      if e.lset == l {
        NotAt(l, a');
        NotAt(l, b');
      }
    }
  }

  lemma ChainLabels(a: Entry, b: Entry)
    ensures Chain(a, b).lset == a.lset
  {
  }

  /* Deleted samples */

  function Flat(cs: seq<Chunk>): seq<Sample> {
    if cs == [] then [] else cs[0].samples + Flat(cs[1..])
  }

  /** Interval.isSubrange: one of the ranges covers the whole chunk. */
  predicate IsSubrange(c: Chunk, dranges: seq<Interval>) {
    exists i :: 0 <= i < |dranges| && dranges[i].InBounds(c.mint) && dranges[i].InBounds(c.maxt)
  }

  function Surviving(cs: seq<Chunk>, dranges: seq<Interval>): seq<Chunk> {
    if cs == [] then []
    else (if IsSubrange(cs[0], dranges) then [] else [cs[0]]) + Surviving(cs[1..], dranges)
  }

  /** A row as a series set of one block delivers it. */
  function Survived(e: Entry): Entry { Entry(e.lset, Surviving(e.chks, e.dranges), e.dranges) }

  /** Whether a chunk is encoded again, judged by the first and the last range. */
  predicate Touched(c: Chunk, dranges: seq<Interval>) {
    dranges != [] && c.mint <= dranges[|dranges| - 1].maxt && dranges[0].mint <= c.maxt
  }

  ghost function Rewritten(c: Chunk, dranges: seq<Interval>): Chunk {
    if Touched(c, dranges) then c.(samples := Kept(c.samples, dranges)) else c
  }

  ghost function AllRewritten(cs: seq<Chunk>, dranges: seq<Interval>): seq<Chunk> {
    if cs == [] then [] else [Rewritten(cs[0], dranges)] + AllRewritten(cs[1..], dranges)
  }

  /** A chunk's samples are in order, and its times bound them. */
  ghost predicate Bounds(c: Chunk) {
    Ordered(c.samples) && forall i :: 0 <= i < |c.samples| ==> c.mint <= c.samples[i].t <= c.maxt
  }

  lemma {:induction false} KeptSame(s: seq<Sample>, d: seq<Interval>, e: seq<Interval>)
    requires forall i :: 0 <= i < |s| ==> (Covers(d, s[i].t) <==> Covers(e, s[i].t))
    ensures Kept(s, d) == Kept(s, e)
  {
    if s != [] {
      KeptSame(s[1..], d, e);
    }
  }

  lemma {:induction false} KeptWhole(s: seq<Sample>, d: seq<Interval>)
    ensures (forall i :: 0 <= i < |s| ==> !Covers(d, s[i].t)) ==> Kept(s, d) == s
    ensures (forall i :: 0 <= i < |s| ==> Covers(d, s[i].t)) ==> Kept(s, d) == []
  {
    if s != [] {
      KeptWhole(s[1..], d);
      assert s == [s[0]] + s[1..];
    }
  }

  lemma {:induction false} KeptConcat(s: seq<Sample>, t: seq<Sample>, d: seq<Interval>)
    ensures Kept(s + t, d) == Kept(s, d) + Kept(t, d)
  {
    hide Covers;
    if s == [] {
      Seqs.Nothing(t);
      Seqs.Nothing(Kept(t, d));
    } else {
      Seqs.Tail(s, t);
      KeptConcat(s[1..], t, d);
      Seqs.Associate(if Covers(d, s[0].t) then [] else [s[0]], Kept(s[1..], d), Kept(t, d));
    }
  }

  /** The last range reaches as far as any other. */
  predicate LastIsFurthest(d: seq<Interval>) {
    forall k :: 0 <= k < |d| ==> d[k].maxt <= d[|d| - 1].maxt
  }

  /** Judging by the first and the last range is right for every chunk exactly if the
      last range reaches furthest: otherwise some chunk that is not encoded again has
      deleted samples. */
  lemma RewrittenExactly(dranges: seq<Interval>)
    requires Sorted(dranges)
    ensures LastIsFurthest(dranges)
       <==> forall c | Bounds(c) :: Rewritten(c, dranges).samples == Kept(c.samples, dranges)
  {
    if LastIsFurthest(dranges) {
      forall c | Bounds(c) ensures Rewritten(c, dranges).samples == Kept(c.samples, dranges) {
        RewrittenKeeps(c, dranges);
      }
    } else {
      var k :| 0 <= k < |dranges| && dranges[k].maxt > dranges[|dranges| - 1].maxt;
      var m := dranges[k].maxt;
      var c := Chunk(m, m, [Sample(m, 0)]);
      assert dranges[k].InBounds(c.samples[0].t);
      KeptWhole(c.samples, dranges);
      assert Bounds(c) && Rewritten(c, dranges) == c;
    }
  }

  lemma RewrittenKeeps(c: Chunk, dranges: seq<Interval>)
    requires Sorted(dranges) && LastIsFurthest(dranges) && Bounds(c)
    ensures Rewritten(c, dranges).samples == Kept(c.samples, dranges)
  {
    if !Touched(c, dranges) {
      assert forall k :: 0 <= k < |dranges| ==> dranges[0].mint <= dranges[k].mint;
      KeptWhole(c.samples, dranges);
    }
  }

  /** For instance, 9 is deleted here and yet stays, in a chunk that is not dropped. */
  lemma RewritingMissesSome()
    ensures var c, d := Chunk(8, 12, [Sample(9, 0), Sample(12, 0)]), [Interval(1, 10), Interval(3, 4)];
            Sorted(d) && Bounds(c) && !IsSubrange(c, d) && Covers(d, 9) && Rewritten(c, d) == c
  {
    var d := [Interval(1, 10), Interval(3, 4)];
    assert d[0].InBounds(9);
  }

  lemma {:induction false} AllRewrittenKeeps(cs: seq<Chunk>, dranges: seq<Interval>)
    requires Sorted(dranges) && LastIsFurthest(dranges) && forall i :: 0 <= i < |cs| ==> Bounds(cs[i])
    ensures Flat(AllRewritten(cs, dranges)) == Kept(Flat(cs), dranges)
  {
    hide Sorted, LastIsFurthest, Kept, Rewritten, Bounds;
    if cs != [] {
      RewrittenKeeps(cs[0], dranges);
      AllRewrittenKeeps(cs[1..], dranges);
      KeptConcat(cs[0].samples, Flat(cs[1..]), dranges);
      assert ([Rewritten(cs[0], dranges)] + AllRewritten(cs[1..], dranges))[1..] == AllRewritten(cs[1..], dranges);
    } else {
      assert Kept([], dranges) == [] by { KeptNone(dranges); }
    }
  }

  lemma KeptNone(d: seq<Interval>)
    ensures Kept([], d) == []
  {
  }

  /** Where the chunk has samples, what is deleted by the one is deleted by the other. */
  ghost predicate DeletesToo(c: Chunk, own: seq<Interval>, dranges: seq<Interval>) {
    Bounds(c) && forall i :: 0 <= i < |c.samples| && Covers(own, c.samples[i].t) ==> Covers(dranges, c.samples[i].t)
  }

  lemma ChunkGone(c: Chunk, own: seq<Interval>, dranges: seq<Interval>)
    requires IsSubrange(c, own) && DeletesToo(c, own, dranges)
    ensures Kept(c.samples, dranges) == []
  {
    var k :| 0 <= k < |own| && own[k].InBounds(c.mint) && own[k].InBounds(c.maxt);
    assert forall i :: 0 <= i < |c.samples| ==> own[k].InBounds(c.samples[i].t);
    KeptWhole(c.samples, dranges);
  }

  /** Chunks that are dropped as a whole have no samples left anyway. */
  lemma {:induction false} SurvivingKeeps(cs: seq<Chunk>, own: seq<Interval>, dranges: seq<Interval>)
    requires forall i :: 0 <= i < |cs| ==> DeletesToo(cs[i], own, dranges)
    ensures Kept(Flat(Surviving(cs, own)), dranges) == Kept(Flat(cs), dranges)
  {
    hide Kept, IsSubrange, DeletesToo;
    if cs != [] {
      var c, rest := cs[0], Surviving(cs[1..], own);
      SurvivingKeeps(cs[1..], own, dranges);
      KeptConcat(c.samples, Flat(cs[1..]), dranges);
      if IsSubrange(c, own) {
        ChunkGone(c, own, dranges);
        assert Surviving(cs, own) == [] + rest == rest;
        assert [] + Kept(Flat(cs[1..]), dranges) == Kept(Flat(cs[1..]), dranges);
      } else {
        assert ([c] + rest)[1..] == rest;
        KeptConcat(c.samples, Flat(rest), dranges);
      }
    }
  }
}
