/** Planning of compactions (plan, selectDirs and splitByRange in compact.go) and
    what one compaction does to the layout of blocks. */
module Compaction {
  import opened Words
  import Seqs

  datatype Meta = Meta(
    ulid: nat, mint: int, maxt: int,
    level: nat, sources: set<nat>, parents: set<nat>, failed: bool,
    numTombstones: nat, numSeries: nat)

  type Range = r: int | r > 0 witness 1

  /** Blocks in time order that do not overlap. */
  ghost predicate Layout(ds: seq<Meta>) {
    && (forall i :: 0 <= i < |ds| ==> ds[i].mint < ds[i].maxt)
    && forall i, j :: 0 <= i < j < |ds| ==> ds[i].maxt <= ds[j].mint
  }

  /** The start of the aligned range of the given size around a time. */
  function Start(t: int, tr: int): int
    requires tr > 0
  {
    if t >= 0 then tr * Quotient(t, tr) else tr * Quotient(t - tr + 1, tr)
  }

  lemma StartIsAligned(t: int, tr: int)
    requires tr > 0
    ensures Start(t, tr) <= t < Start(t, tr) + tr
  {
    StartIsFloor(t, tr);
  }

  lemma StartIsFloor(t: int, tr: int)
    requires tr > 0
    ensures Start(t, tr) <= t < Start(t, tr) + tr && Start(t, tr) == tr * (t / tr)
  {
    assert t == tr * (t / tr) + t % tr;
    if t < 0 {
      var a := -(t - tr + 1);
      assert a == tr * -(t / tr) + (tr - 1 - t % tr);
      DivUnique(a, tr, -(t / tr), tr - 1 - t % tr);
    }
  }

  /** Being inside the aligned range that starts at t0. */
  predicate Fits(m: Meta, t0: int, tr: int) {
    t0 <= m.mint && m.maxt <= t0 + tr
  }

  function FitCount(ds: seq<Meta>, t0: int, tr: int): (n: nat)
    ensures n <= |ds| && (forall k :: 0 <= k < n ==> Fits(ds[k], t0, tr)) && (n < |ds| ==> !Fits(ds[n], t0, tr))
  {
    if ds == [] || !Fits(ds[0], t0, tr) then 0 else 1 + FitCount(ds[1..], t0, tr)
  }

  /** The runs of blocks that share an aligned range; blocks that reach beyond
      their range are left out. */
  function Split(ds: seq<Meta>, tr: int): seq<seq<Meta>>
    requires tr > 0
  {
    if ds == [] then []
    else
      var t0 := Start(ds[0].mint, tr);
      var n := FitCount(ds, t0, tr);
      if n == 0 then Split(ds[1..], tr) else [ds[..n]] + Split(ds[n..], tr)
  }

  method SplitByRange(ds: seq<Meta>, tr: int) returns (splitDirs: seq<seq<Meta>>)
    requires tr > 0
    ensures splitDirs == Split(ds, tr)
  {
    hide Split;
    splitDirs := [];
    var i := 0;
    SplitEnds(ds, tr);
    while i < |ds|
      invariant i <= |ds| && Split(ds, tr) == splitDirs + Split(ds[i..], tr)
    {
      var groups, next := NextGroup(ds, i, tr);
      Seqs.Associate(splitDirs, groups, Split(ds[next..], tr));
      splitDirs := splitDirs + groups;
      i := next;
    }
  }

  /** The group that starts at the i-th block, if it fits its range. */
  method NextGroup(ds: seq<Meta>, i: nat, tr: int) returns (groups: seq<seq<Meta>>, next: nat)
    requires tr > 0 && i < |ds|
    ensures i < next <= |ds| && Split(ds[i..], tr) == groups + Split(ds[next..], tr)
  {
    hide Split, FitCount, Start;
    var m := ds[i];
    var t0 := Start(m.mint, tr);
    SplitNext(ds, i, tr);
    if m.mint < t0 || m.maxt > t0 + tr {
      Seqs.Nothing(Split(ds[i + 1..], tr));
      return [], i + 1;
    }
    var group;
    group, next := TakeGroup(ds, i, t0, tr);
    groups := if |group| > 0 then [group] else [];
  }

  lemma SplitEnds(ds: seq<Meta>, tr: int)
    requires tr > 0
    ensures Split(ds, tr) == [] + Split(ds[0..], tr)
    ensures forall r: seq<seq<Meta>> :: r + Split(ds[|ds|..], tr) == r
  {
    assert ds[0..] == ds && ds[|ds|..] == [];
    SplitNothing(tr);
  }

  lemma SplitNothing(tr: int)
    requires tr > 0
    ensures Split([], tr) == []
  {
  }

  lemma SplitNext(ds: seq<Meta>, i: nat, tr: int)
    requires tr > 0 && i < |ds|
    ensures var t0 := Start(ds[i].mint, tr); var n := FitCount(ds[i..], t0, tr);
            && (n == 0 <==> !Fits(ds[i], t0, tr))
            && Split(ds[i..], tr) == if n == 0 then Split(ds[i + 1..], tr) else [ds[i..i + n]] + Split(ds[i + n..], tr)
  {
    hide Start, Fits, Split, FitCount;
    var rest, n := ds[i..], FitCount(ds[i..], Start(ds[i].mint, tr), tr);
    SplitUnfold(rest, tr);
    RestOfRest(ds, i, 1);
    RestOfRest(ds, i, n);
  }

  lemma RestOfRest(ds: seq<Meta>, i: nat, n: nat)
    requires i <= |ds| && n <= |ds| - i
    ensures ds[i..][..n] == ds[i..i + n] && ds[i..][n..] == ds[i + n..]
  {
  }

  lemma SplitUnfold(ds: seq<Meta>, tr: int)
    requires tr > 0 && ds != []
    ensures var n := FitCount(ds, Start(ds[0].mint, tr), tr);
            && (n == 0 <==> !Fits(ds[0], Start(ds[0].mint, tr), tr))
            && Split(ds, tr) == if n == 0 then Split(ds[1..], tr) else [ds[..n]] + Split(ds[n..], tr)
  {
    hide Start, Fits;
  }

  /** The blocks from the i-th on that lie inside the range from t0. */
  method TakeGroup(ds: seq<Meta>, i: nat, t0: int, tr: int) returns (group: seq<Meta>, next: nat)
    requires i <= |ds|
    ensures next == i + FitCount(ds[i..], t0, tr) && next <= |ds| && group == ds[i..next]
  {
    group, next := [], i;
    while next < |ds| && !(ds[next].mint < t0 || ds[next].maxt > t0 + tr)
      invariant i <= next <= |ds| && group == ds[i..next]
      invariant FitCount(ds[i..], t0, tr) == next - i + FitCount(ds[next..], t0, tr)
    {
      assert ds[next..][1..] == ds[next + 1..];
      group := group + [ds[next]];
      next := next + 1;
    }
  }

  ghost predicate Segment(g: seq<Meta>, ds: seq<Meta>, i: nat, j: nat) {
    i < j <= |ds| && g == ds[i..j]
  }

  /** All blocks of the list that lie in one aligned range, and no others. */
  ghost predicate Whole(g: seq<Meta>, ds: seq<Meta>, tr: int)
    requires tr > 0
  {
    && g != [] && (exists i: nat, j: nat :: Segment(g, ds, i, j))
    && forall m :: m in g <==> m in ds && Start(g[0].mint, tr) <= m.mint && m.maxt <= Start(g[0].mint, tr) + tr
  }

  /** Each group of the split is one whole aligned range; and each block that fits
      its own range is in a group. */
  lemma FitsOwn(m: Meta, t: int, tr: int)
    requires tr > 0 && m.mint < m.maxt && Fits(m, Start(t, tr), tr)
    ensures Start(m.mint, tr) == Start(t, tr)
  {
    StartIsFloor(t, tr);
    StartIsFloor(m.mint, tr);
    DivUnique(m.mint, tr, t / tr, m.mint - tr * (t / tr));
  }

  lemma LayoutFrom(ds: seq<Meta>, k: nat)
    requires Layout(ds) && k <= |ds|
    ensures Layout(ds[k..]) && Layout(ds[..k]) && forall m :: m in ds ==> m.mint < m.maxt
    ensures forall x, y :: x in ds[..k] && y in ds[k..] ==> x.maxt <= y.mint
  {
    assert forall i :: 0 <= i < |ds| - k ==> ds[k..][i] == ds[i + k];
  }

  /** The first blocks of the split share a range that no later block lies in. */
  lemma FirstGroup(ds: seq<Meta>, tr: int, n: nat, k: nat)
    requires tr > 0 && Layout(ds) && ds != []
    requires n == FitCount(ds, Start(ds[0].mint, tr), tr) && k == if n == 0 then 1 else n
    ensures n > 0 ==> Whole(ds[..n], ds, tr)
    ensures forall m :: m in ds[k..] ==> !Fits(m, Start(ds[0].mint, tr), tr)
    ensures forall m :: m in ds[..k] ==> Start(m.mint, tr) == Start(ds[0].mint, tr)
  {
    var t0 := Start(ds[0].mint, tr);
    StartIsAligned(ds[0].mint, tr);
    hide Start, FitCount;
    LaterDoNotFit(ds, t0, tr, n, k);
    LayoutFrom(ds, k);
    hide Layout;
    forall m | m in ds[..k] ensures Start(m.mint, tr) == t0 {
      if n > 0 {
        FitsOwn(m, ds[0].mint, tr);
      }
    }
    if n > 0 {
      hide Fits, Whole;
      FirstIsWhole(ds, tr, n);
    }
  }

  lemma FirstIsWhole(ds: seq<Meta>, tr: int, n: nat)
    requires tr > 0 && 0 < n <= |ds|
    requires forall i :: 0 <= i < n ==> Fits(ds[i], Start(ds[0].mint, tr), tr)
    requires forall m :: m in ds[n..] ==> !Fits(m, Start(ds[0].mint, tr), tr)
    ensures Whole(ds[..n], ds, tr)
  {
    hide Start;
    assert Segment(ds[..n], ds, 0, n);
    InParts(ds, n);
  }

  lemma LaterDoNotFit(ds: seq<Meta>, t0: int, tr: int, n: nat, k: nat)
    requires tr > 0 && Layout(ds) && ds != [] && t0 <= ds[0].mint && n <= k == (if n == 0 then 1 else n) <= |ds|
    requires n < |ds| ==> !Fits(ds[n], t0, tr)
    ensures forall m :: m in ds[k..] ==> !Fits(m, t0, tr)
  {
    forall m | m in ds[k..] ensures !Fits(m, t0, tr) {
      var i :| k <= i < |ds| && ds[i] == m;
      if n < i {
        assert ds[n].maxt <= ds[i].mint;
      }
      assert 0 < n ==> ds[0].maxt <= ds[n].mint;
    }
  }

  lemma WholeInRest(g: seq<Meta>, ds: seq<Meta>, k: nat, t0: int, tr: int)
    requires tr > 0 && Layout(ds) && k <= |ds| && Whole(g, ds[k..], tr)
    requires forall m :: m in ds[k..] ==> !Fits(m, t0, tr)
    requires forall m :: m in ds[..k] ==> Start(m.mint, tr) == t0
    ensures Whole(g, ds, tr)
  {
    hide Start;
    var i: nat, j: nat :| Segment(g, ds[k..], i, j);
    assert Segment(g, ds, i + k, j + k);
    InParts(ds, k);
    assert g[0] in g;
    NotBefore(ds, k, g[0], t0, tr);
  }

  /** What belongs to an earlier range does not fit into the range of something that lies behind it. */
  lemma NotBefore(ds: seq<Meta>, k: nat, first: Meta, t0: int, tr: int)
    requires tr > 0 && k <= |ds|
    requires Fits(first, Start(first.mint, tr), tr) && !Fits(first, t0, tr)
    requires forall m :: m in ds[..k] ==> Start(m.mint, tr) == t0 && m.mint < m.maxt
    ensures forall m :: m in ds[..k] ==> !Fits(m, Start(first.mint, tr), tr)
  {
    hide Start;
    forall m | m in ds[..k] && Fits(m, Start(first.mint, tr), tr) ensures false {
      FitsOwn(m, first.mint, tr);
    }
  }

  lemma SplitUnfolds(ds: seq<Meta>, tr: int, n: nat, k: nat)
    requires tr > 0 && ds != [] && n == FitCount(ds, Start(ds[0].mint, tr), tr) && k == if n == 0 then 1 else n
    ensures k <= |ds|
    ensures forall g :: g in Split(ds, tr) <==> (n > 0 && g == ds[..n]) || g in Split(ds[k..], tr)
  {
    hide Start, FitCount;
  }

  lemma {:induction false} SplitIsWhole(ds: seq<Meta>, tr: int)
    requires tr > 0 && Layout(ds)
    ensures forall g :: g in Split(ds, tr) ==> Whole(g, ds, tr)
    ensures forall m :: m in ds && Fits(m, Start(m.mint, tr), tr) ==> exists g :: g in Split(ds, tr) && m in g
    decreases |ds|
  {
    if ds != [] {
      var t0 := Start(ds[0].mint, tr);
      var n := FitCount(ds, t0, tr);
      var k := if n == 0 then 1 else n;
      var rest := ds[k..];
      hide Start, Layout, Whole, Split;
      LayoutFrom(ds, k);
      FirstGroup(ds, tr, n, k);
      SplitUnfolds(ds, tr, n, k);
      hide FitCount, Fits;
      SplitIsWhole(rest, tr);
      forall g | g in Split(rest, tr) ensures Whole(g, ds, tr) {
        WholeInRest(g, ds, k, t0, tr);
      }
      InParts(ds, k);
      forall m | m in ds && Fits(m, Start(m.mint, tr), tr) ensures exists g :: g in Split(ds, tr) && m in g {
        if m in rest {
          var g :| g in Split(rest, tr) && m in g;
        } else {
          assert n > 0 && ds[..n] in Split(ds, tr);
        }
      }
    } else {
      assert Split(ds, tr) == [];
    }
  }

  lemma InParts(ds: seq<Meta>, k: nat)
    requires k <= |ds|
    ensures ds == ds[..k] + ds[k..] && forall m :: m in ds <==> m in ds[..k] || m in ds[k..]
    ensures k == 1 ==> ds[..1] == [ds[0]]
  {
    assert ds == ds[..k] + ds[k..];
  }

  /* Selecting what to compact */

  /** A group worth compacting: of several blocks, none of which failed before, that
      spans its whole range or lies before the most recent block. */
  predicate Worthwhile(p: seq<Meta>, iv: int, highTime: int) {
    && |p| > 1 && (forall m :: m in p ==> !m.failed)
    && (p[|p| - 1].maxt - p[0].mint == iv || p[|p| - 1].maxt <= highTime)
  }

  /** The first worthwhile group of the smallest range that has one. */
  ghost predicate Selected(ranges: seq<Range>, ds: seq<Meta>, k: nat, a: nat, p: seq<Meta>)
    requires ds != []
  {
    1 <= k < |ranges| && a < |Split(ds, ranges[k])|
    && p == Split(ds, ranges[k])[a] && Worthwhile(p, ranges[k], ds[|ds| - 1].mint)
    && (forall b :: 0 <= b < a ==> !Worthwhile(Split(ds, ranges[k])[b], ranges[k], ds[|ds| - 1].mint))
    && NoneBefore(ranges, ds, k)
  }

  ghost predicate NoneBefore(ranges: seq<Range>, ds: seq<Meta>, k: nat)
    requires ds != []
  {
    forall l, g :: 1 <= l < k && l < |ranges| && g in Split(ds, ranges[l]) ==>
      !Worthwhile(g, ranges[l], ds[|ds| - 1].mint)
  }

  method SelectDirs(ranges: seq<Range>, ds: seq<Meta>) returns (res: seq<Meta>)
    ensures ds == [] ==> res == []
    ensures ds != [] && res == [] ==> NoneBefore(ranges, ds, |ranges|)
    ensures ds != [] && res != [] ==> exists k: nat, a: nat :: Selected(ranges, ds, k, a, res)
  {
    hide Worthwhile, Split, NoneBefore;
    if |ds| >= 1 {
      NoneAtFirst(ranges, ds);
    }
    if |ranges| < 2 || |ds| < 1 {
      return [];
    }
    for k := 1 to |ranges|
      invariant NoneBefore(ranges, ds, k)
    {
      ghost var a;
      res, a := SelectAt(ranges, ds, k);
      if |res| > 0 {
        assert Selected(ranges, ds, k, a, res);
        return;
      }
    }
    return [];
  }

  lemma NoneAtFirst(ranges: seq<Range>, ds: seq<Meta>)
    requires ds != []
    ensures NoneBefore(ranges, ds, 1) && (|ranges| < 2 ==> NoneBefore(ranges, ds, |ranges|))
  {
  }

  /** The first worthwhile group of the k-th range, if any. */
  method SelectAt(ranges: seq<Range>, ds: seq<Meta>, k: nat) returns (res: seq<Meta>, ghost a: nat)
    requires 1 <= k < |ranges| && ds != [] && NoneBefore(ranges, ds, k)
    ensures if res == [] then NoneBefore(ranges, ds, k + 1) else Selected(ranges, ds, k, a, res)
  {
    var highTime := ds[|ds| - 1].mint;
    var parts := SplitByRange(ds, ranges[k]);
    hide Worthwhile, Split;
    a := 0;
    for i := 0 to |parts|
      invariant forall b :: 0 <= b < i ==> !Worthwhile(parts[b], ranges[k], highTime)
    {
      var good := IsWorthwhile(parts[i], ranges[k], highTime);
      if good {
        return parts[i], i;
      }
    }
    return [], 0;
  }

  method IsWorthwhile(p: seq<Meta>, iv: int, highTime: int) returns (good: bool)
    ensures good <==> Worthwhile(p, iv, highTime)
    ensures good ==> p != []
  {
    for i := 0 to |p|
      invariant forall j :: 0 <= j < i ==> !p[j].failed
    {
      if p[i].failed {
        return false;
      }
    }
    if |p| == 0 {
      return false;
    }
    var mint, maxt := p[0].mint, p[|p| - 1].maxt;
    good := (maxt - mint == iv || maxt <= highTime) && |p| > 1;
  }

  /** Several blocks that are to be compacted now: all of one aligned range, none of which
      failed before, that span the whole range or are followed by another block. */
  ghost predicate Ripe(g: seq<Meta>, ds: seq<Meta>, tr: Range) {
    && Whole(g, ds, tr) && |g| > 1 && (forall m :: m in g ==> !m.failed)
    && (g[|g| - 1].maxt - g[0].mint == tr || exists m :: m in ds && g[|g| - 1].maxt <= m.mint)
  }

  /** The group's range ends by a time, so that no block from then on can lie in it. */
  ghost predicate NoneToCome(g: seq<Meta>, tr: Range, from: int)
    requires g != []
  {
    Start(g[0].mint, tr) + tr <= from
  }

  /** Two whole groups of one range are the same. */
  lemma SameGroup(g: seq<Meta>, h: seq<Meta>, ds: seq<Meta>, tr: Range)
    requires Layout(ds) && Whole(g, ds, tr) && Whole(h, ds, tr) && g[0] in h
    ensures g == h
  {
    SameBlocks(g, h, ds, tr);
    var i: nat, j: nat := SegmentOf(g, ds, tr);
    var k: nat, l: nat := SegmentOf(h, ds, tr);
    hide Layout, Whole, Start;
    SameSegment(ds, i, j, k, l);
  }

  lemma SameBlocks(g: seq<Meta>, h: seq<Meta>, ds: seq<Meta>, tr: Range)
    requires Layout(ds) && Whole(g, ds, tr) && Whole(h, ds, tr) && g[0] in h
    ensures forall m :: m in g <==> m in h
  {
    hide Start;
    assert g[0] in ds && g[0].mint < g[0].maxt;
    FitsOwn(g[0], h[0].mint, tr);
  }

  lemma SameSegment(ds: seq<Meta>, i: nat, j: nat, k: nat, l: nat)
    requires Layout(ds) && i < j <= |ds| && k < l <= |ds| && forall m :: m in ds[i..j] <==> m in ds[k..l]
    ensures i == k && j == l
  {
    assert ds[i] in ds[i..j] && ds[j - 1] in ds[i..j] && ds[k] in ds[k..l] && ds[l - 1] in ds[k..l];
    hide Layout;
    InSegment(ds, k, l, i);
    InSegment(ds, k, l, j - 1);
    InSegment(ds, i, j, k);
    InSegment(ds, i, j, l - 1);
  }

  lemma SegmentOf(g: seq<Meta>, ds: seq<Meta>, tr: Range) returns (i: nat, j: nat)
    requires Whole(g, ds, tr)
    ensures Segment(g, ds, i, j)
  {
    i, j :| Segment(g, ds, i, j);
  }

  lemma InSegment(ds: seq<Meta>, i: nat, j: nat, k: nat)
    requires Layout(ds) && i < j <= |ds| && k < |ds| && ds[k] in ds[i..j]
    ensures i <= k < j
  {
    var p :| 0 <= p < j - i && ds[i..j][p] == ds[k];
    assert ds[i + p] == ds[k];
  }

  /** The split consists of exactly the whole groups. */
  lemma SplitExactly(g: seq<Meta>, ds: seq<Meta>, tr: Range)
    requires Layout(ds)
    ensures g in Split(ds, tr) <==> Whole(g, ds, tr)
  {
    SplitIsWhole(ds, tr);
    hide Split, Layout, Start;
    if Whole(g, ds, tr) {
      assert g[0] in g;
      var h :| h in Split(ds, tr) && g[0] in h;
      SameGroup(g, h, ds, tr);
    }
  }

  /** Exactly the worthwhile groups of the split are ripe. */
  lemma RipeIsWorthwhile(g: seq<Meta>, ds: seq<Meta>, tr: Range)
    requires Layout(ds) && ds != []
    ensures Ripe(g, ds, tr) <==> g in Split(ds, tr) && Worthwhile(g, tr, ds[|ds| - 1].mint)
  {
    SplitExactly(g, ds, tr);
    if g != [] {
      LastStartsLast(ds, g[|g| - 1].maxt);
    }
    hide Split, Layout, Whole;
  }

  lemma LastStartsLast(ds: seq<Meta>, t: int)
    requires Layout(ds) && ds != []
    ensures t <= ds[|ds| - 1].mint <==> exists m :: m in ds && t <= m.mint
  {
    assert ds[|ds| - 1] in ds;
    forall m | m in ds ensures m.mint <= ds[|ds| - 1].mint {
      var i :| 0 <= i < |ds| && ds[i] == m;
      assert ds[i].mint < ds[i].maxt;
    }
  }

  ghost predicate NoneRipe(ranges: seq<Range>, ds: seq<Meta>, k: nat) {
    forall l, g :: 1 <= l < k && l < |ranges| ==> !Ripe(g, ds, ranges[l])
  }

  lemma NoneRipeBefore(ranges: seq<Range>, ds: seq<Meta>, k: nat)
    requires Layout(ds) && ds != []
    ensures NoneBefore(ranges, ds, k) <==> NoneRipe(ranges, ds, k)
  {
    forall l, g | 1 <= l < k && l < |ranges|
      ensures Ripe(g, ds, ranges[l]) <==> g in Split(ds, ranges[l]) && Worthwhile(g, ranges[l], ds[|ds| - 1].mint)
    {
      RipeIsWorthwhile(g, ds, ranges[l]);
    }
    hide Ripe, Split, Worthwhile, Layout;
  }

  /** A ripe group is not compacted too early: nothing that starts with the most recent
      block or later can still belong to its range. */
  lemma RipeIsFinal(g: seq<Meta>, dms: seq<Meta>, tr: Range)
    requires Layout(dms) && dms != [] && Ripe(g, dms[..|dms| - 1], tr)
    ensures NoneToCome(g, tr, dms[|dms| - 1].mint)
  {
    BeforeLast(dms);
    hide Start, Layout, Ripe;
    RipeEnds(g, dms[..|dms| - 1], tr, dms[|dms| - 1].mint);
  }

  lemma BeforeLast(dms: seq<Meta>)
    requires Layout(dms) && dms != []
    ensures Layout(dms[..|dms| - 1]) && forall x :: x in dms[..|dms| - 1] ==> x.maxt <= dms[|dms| - 1].mint
  {
  }

  lemma RipeEnds(g: seq<Meta>, ds: seq<Meta>, tr: Range, y: int)
    requires Layout(ds) && Ripe(g, ds, tr) && forall x :: x in ds ==> x.maxt <= y
    ensures g != [] && Start(g[0].mint, tr) + tr <= y
  {
    EndsAreInside(g, ds, tr);
    hide Start, Layout, Whole;
    if g[|g| - 1].maxt - g[0].mint != tr {
      var x :| x in ds && g[|g| - 1].maxt <= x.mint;
      LaterIsOutside(g, ds, tr, x);
    }
  }

  lemma EndsAreInside(g: seq<Meta>, ds: seq<Meta>, tr: Range)
    requires Whole(g, ds, tr)
    ensures var t0 := Start(g[0].mint, tr);
            t0 <= g[0].mint && g[|g| - 1].maxt <= t0 + tr && g[0] in ds && g[|g| - 1] in ds
  {
    assert g[0] in g && g[|g| - 1] in g;
    hide Start;
  }

  /** A block behind the group starts in its range at most, and ends behind it. */
  lemma LaterIsOutside(g: seq<Meta>, ds: seq<Meta>, tr: Range, x: Meta)
    requires Layout(ds) && Whole(g, ds, tr) && x in ds && g[|g| - 1].maxt <= x.mint
    ensures Start(g[0].mint, tr) + tr < x.maxt
  {
    EndsAreInside(g, ds, tr);
    GroupEnds(g, ds, tr);
    hide Start;
    assert x !in g;
    assert !Fits(x, Start(g[0].mint, tr), tr);
    assert g[0].mint < g[0].maxt <= g[|g| - 1].maxt;
  }

  lemma GroupEnds(g: seq<Meta>, ds: seq<Meta>, tr: Range)
    requires Layout(ds) && Whole(g, ds, tr)
    ensures forall m :: m in g ==> m.mint < m.maxt <= g[|g| - 1].maxt
  {
    hide Layout, Whole;
    var i: nat, j: nat := SegmentOf(g, ds, tr);
    SegmentEnds(ds, i, j);
  }

  lemma SegmentEnds(ds: seq<Meta>, i: nat, j: nat)
    requires Layout(ds) && i < j <= |ds|
    ensures forall m :: m in ds[i..j] ==> m.mint < m.maxt <= ds[i..j][j - i - 1].maxt
  {
    assert ds[i..j][j - i - 1] == ds[j - 1] && ds[j - 1].mint < ds[j - 1].maxt;
    forall m | m in ds[i..j] ensures m.mint < m.maxt <= ds[j - 1].maxt {
      var k :| 0 <= k < j - i && ds[i..j][k] == m;
      assert ds[i + k] == m;
    }
  }

  /** A large block, more than one in twenty of whose series have tombstones. */
  predicate Cluttered(m: Meta, size: int) {
    m.maxt - m.mint >= size && m.numTombstones as real / (m.numSeries + 1) as real > 0.05
  }

  lemma ClutteredExactly(m: Meta, size: int)
    ensures Cluttered(m, size) <==> m.maxt - m.mint >= size && 20 * m.numTombstones > m.numSeries + 1
  {
    Ratio(m.numTombstones as real, (m.numSeries + 1) as real);
  }

  lemma Ratio(a: real, n: real)
    requires n > 0.0
    ensures a / n > 0.05 <==> a > 0.05 * n
  {
    var q := a / n;
    assert q * n == a;
    Scaled(q, 0.05, n);
  }

  lemma Scaled(a: real, b: real, n: real)
    requires n > 0.0
    ensures a > b <==> a * n > b * n
  {
  }

  /** What may be planned: nothing, several adjacent blocks that together lie in one
      aligned range, or one cluttered block; never the most recent one. */
  ghost predicate Planned(ranges: seq<Range>, ds: seq<Meta>, p: seq<Meta>)
  {
    || p == []
    || (ranges != [] && exists i: nat :: i < |ds| - 1 && p == [ds[i]] && Cluttered(ds[i], ranges[|ranges| / 2]))
    || (|p| > 1 && exists k: nat, i: nat, j: nat ::
          k < |ranges| && j < |ds| && Segment(p, ds, i, j) && Within(p, ranges[k]))
  }

  /** The blocks lie in one aligned range, and none of them failed before. */
  ghost predicate Within(p: seq<Meta>, tr: int)
    requires tr > 0
  {
    p != [] && forall m :: m in p ==> Fits(m, Start(p[0].mint, tr), tr) && !m.failed
  }

  /** Blocks in any order that do not overlap. */
  ghost predicate Disjoint(ms: seq<Meta>) {
    && (forall i :: 0 <= i < |ms| ==> ms[i].mint < ms[i].maxt)
    && forall i, j :: 0 <= i < j < |ms| ==> ms[i].maxt <= ms[j].mint || ms[j].maxt <= ms[i].mint
  }

  function InsertBlock(m: Meta, ds: seq<Meta>): seq<Meta> {
    if ds == [] || m.mint <= ds[0].mint then [m] + ds else [ds[0]] + InsertBlock(m, ds[1..])
  }

  function SortBlocks(ms: seq<Meta>): seq<Meta> {
    if ms == [] then [] else InsertBlock(ms[0], SortBlocks(ms[1..]))
  }

  /** A block lies before or behind each of the others. */
  ghost predicate ApartFrom(m: Meta, ds: seq<Meta>) {
    m.mint < m.maxt && forall x :: x in ds ==> m.maxt <= x.mint || x.maxt <= m.mint
  }

  lemma LayoutCons(m: Meta, ds: seq<Meta>)
    ensures Layout([m] + ds) <==> m.mint < m.maxt && Layout(ds) && forall x :: x in ds ==> m.maxt <= x.mint
  {
    var r := [m] + ds;
    if Layout(r) {
      assert forall i :: 0 <= i < |ds| ==> ds[i] == r[i + 1];
      assert m == r[0];
    }
  }

  lemma {:induction false} InsertedLayout(m: Meta, ds: seq<Meta>)
    requires Layout(ds) && ApartFrom(m, ds)
    ensures Layout(InsertBlock(m, ds)) && multiset(InsertBlock(m, ds)) == multiset{m} + multiset(ds)
  {
    hide Layout;
    if ds == [] {
      LayoutCons(m, []);
      Seqs.Nothing([m]);
    } else {
      Seqs.Uncons(ds);
      LayoutCons(ds[0], ds[1..]);
      if m.mint <= ds[0].mint {
        LayoutCons(m, ds);
      } else {
        var t := InsertBlock(m, ds[1..]);
        InsertedLayout(m, ds[1..]);
        forall x | x in t ensures ds[0].maxt <= x.mint {
          assert x in multiset(t);
        }
        LayoutCons(ds[0], t);
      }
    }
  }

  /** Blocks that do not overlap are sorted into their time order. */
  lemma {:induction false} SortedLayout(ms: seq<Meta>)
    requires Disjoint(ms)
    ensures Layout(SortBlocks(ms)) && multiset(SortBlocks(ms)) == multiset(ms)
  {
    if ms != [] {
      var rest := ms[1..];
      DisjointRest(ms);
      hide Layout, Disjoint, ApartFrom;
      SortedLayout(rest);
      Seqs.Uncons(ms);
      SameElements(SortBlocks(rest), rest);
      StillApart(ms[0], rest, SortBlocks(rest));
      InsertedLayout(ms[0], SortBlocks(rest));
    }
  }

  lemma DisjointRest(ms: seq<Meta>)
    requires Disjoint(ms) && ms != []
    ensures Disjoint(ms[1..]) && ApartFrom(ms[0], ms[1..])
  {
  }

  lemma SameElements(a: seq<Meta>, b: seq<Meta>)
    requires multiset(a) == multiset(b)
    ensures forall x :: x in a <==> x in b
  {
    assert forall x :: x in a <==> x in multiset(a);
    assert forall x :: x in b <==> x in multiset(b);
  }

  lemma StillApart(m: Meta, a: seq<Meta>, b: seq<Meta>)
    requires ApartFrom(m, a) && forall x :: x in b <==> x in a
    ensures ApartFrom(m, b)
  {
  }

  /** They have no other time order. */
  lemma {:induction false} OnlyOrder(ds: seq<Meta>, es: seq<Meta>)
    requires Layout(ds) && Layout(es) && multiset(ds) == multiset(es)
    ensures ds == es
  {
    hide Layout;
    if ds == [] || es == [] {
      assert |multiset(ds)| == |ds| && |multiset(es)| == |es|;
    } else {
      Seqs.Uncons(ds);
      Seqs.Uncons(es);
      LayoutCons(ds[0], ds[1..]);
      LayoutCons(es[0], es[1..]);
      Earliest(ds, es);
      WithoutFirst(ds);
      WithoutFirst(es);
      OnlyOrder(ds[1..], es[1..]);
    }
  }

  lemma WithoutFirst(ds: seq<Meta>)
    requires ds != []
    ensures multiset(ds[1..]) == multiset(ds) - multiset{ds[0]}
  {
    Seqs.Uncons(ds);
    assert multiset(ds) == multiset{ds[0]} + multiset(ds[1..]);
  }

  lemma Earliest(ds: seq<Meta>, es: seq<Meta>)
    requires ds != [] && es != [] && Layout(ds) && Layout(es) && multiset(ds) == multiset(es)
    ensures ds[0] == es[0]
  {
    assert es[0] in multiset(ds) && ds[0] in multiset(es);
    var i :| 0 <= i < |ds| && ds[i] == es[0];
    var j :| 0 <= j < |es| && es[j] == ds[0];
    assert ds[0].mint < ds[0].maxt && es[0].mint < es[0].maxt;
  }

  /** Plans over blocks that do not overlap, in whatever order they are given. */
  method Plan(ranges: seq<Range>, blocks: seq<Meta>) returns (res: seq<Meta>)
    requires ranges != []
    requires blocks != [] && Disjoint(blocks)
    ensures Layout(SortBlocks(blocks)) && multiset(SortBlocks(blocks)) == multiset(blocks)
    ensures (var dms := SortBlocks(blocks);
             && dms != [] && Planned(ranges, dms, res)
             && (|res| > 1 ==> FirstRipe(ranges, dms, res))
             && (|res| <= 1 ==> NoneRipe(ranges, dms[..|dms| - 1], |ranges|))
             && (res == [] ==> NothingCluttered(dms[..|dms| - 1], ranges[|ranges| / 2])))
  {
    hide Layout, Planned, FirstRipe, NoneRipe, NothingCluttered, Disjoint, SortBlocks;
    SortedLayout(blocks);
    assert |multiset(blocks)| == |multiset(SortBlocks(blocks))|;
    res := PlanInOrder(ranges, SortBlocks(blocks));
  }

  /** The same for blocks in time order. */
  method PlanInOrder(ranges: seq<Range>, dms: seq<Meta>) returns (res: seq<Meta>)
    requires ranges != []
    requires dms != [] && Layout(dms)
    ensures Planned(ranges, dms, res)
    ensures |res| > 1 ==> FirstRipe(ranges, dms, res)
    ensures |res| <= 1 ==> NoneRipe(ranges, dms[..|dms| - 1], |ranges|)
    ensures res == [] ==> NothingCluttered(dms[..|dms| - 1], ranges[|ranges| / 2])
  {
    var ds := dms[..|dms| - 1];
    res := SelectDirs(ranges, ds);
    if |res| > 0 {
      ghost var k: nat, a: nat :| Selected(ranges, ds, k, a, res);
      SelectedIsPlanned(ranges, dms, ds, k, a, res);
      SelectedIsRipe(ranges, dms, ds, k, a, res);
      return;
    }
    if ds == [] {
      NothingIsRipe(ranges);
    } else {
      LayoutFrom(dms, |ds|);
      NoneRipeBefore(ranges, ds, |ranges|);
    }
    hide NoneBefore, NoneRipe, FirstRipe, Layout;
    res := FindCluttered(ds, ranges[|ranges| / 2]);
  }

  /** The latest cluttered block before a small one. */
  method FindCluttered(ds: seq<Meta>, size: int) returns (res: seq<Meta>)
    ensures res == [] ==> NothingCluttered(ds, size)
    ensures res != [] ==> exists i: nat :: i < |ds| && res == [ds[i]] && Cluttered(ds[i], size)
  {
    var i: nat := |ds|;
    while i > 0
      invariant i <= |ds| && (forall k :: i <= k < |ds| ==> !Cluttered(ds[k], size)) && Large(ds, i, size)
    {
      var m := ds[i - 1];
      if m.maxt - m.mint < size {
        break;
      }
      i := i - 1;
      if m.numTombstones as real / (m.numSeries + 1) as real > 0.05 {
        return [m];
      }
    }
    assert Quiet(ds, i, size);
    return [];
  }

  /** From the i-th block on, blocks are large but uncluttered; the search has
      stopped there at a small block or at the first one. */
  ghost predicate Quiet(ds: seq<Meta>, i: nat, size: int) {
    && i <= |ds| && Large(ds, i, size) && (forall k :: i <= k < |ds| ==> !Cluttered(ds[k], size))
    && (i > 0 ==> ds[i - 1].maxt - ds[i - 1].mint < size)
  }

  ghost predicate NothingCluttered(ds: seq<Meta>, size: int) { exists i: nat :: Quiet(ds, i, size) }

  ghost predicate Large(ds: seq<Meta>, i: nat, size: int) {
    forall k :: i <= k < |ds| ==> ds[k].maxt - ds[k].mint >= size
  }

  /** A ripe group of the smallest range that has one; nothing that starts with the most
      recent block or later would still belong to it. */
  ghost predicate FirstRipe(ranges: seq<Range>, dms: seq<Meta>, res: seq<Meta>)
    requires dms != [] && res != []
  {
    exists k :: && 1 <= k < |ranges| && Ripe(res, dms[..|dms| - 1], ranges[k])
                && NoneToCome(res, ranges[k], dms[|dms| - 1].mint)
                && NoneRipe(ranges, dms[..|dms| - 1], k)
  }

  lemma SelectedIsRipe(ranges: seq<Range>, dms: seq<Meta>, ds: seq<Meta>, k: nat, a: nat, res: seq<Meta>)
    requires dms != [] && ds == dms[..|dms| - 1] && ds != [] && Layout(dms) && Selected(ranges, ds, k, a, res)
    ensures |res| > 1 && FirstRipe(ranges, dms, res)
  {
    LayoutFrom(dms, |ds|);
    hide Layout, Split, Ripe;
    RipeIsWorthwhile(res, ds, ranges[k]);
    RipeIsFinal(res, dms, ranges[k]);
    NoneRipeBefore(ranges, ds, k);
    hide NoneBefore, NoneRipe, NoneToCome;
  }

  lemma NothingIsRipe(ranges: seq<Range>)
    ensures NoneRipe(ranges, [], |ranges|)
  {
  }

  lemma SelectedIsPlanned(ranges: seq<Range>, dms: seq<Meta>, ds: seq<Meta>, k: nat, a: nat, res: seq<Meta>)
    requires dms != [] && ds == dms[..|dms| - 1] && ds != [] && Layout(dms) && Selected(ranges, ds, k, a, res)
    ensures Planned(ranges, dms, res)
  {
    LayoutFrom(dms, |dms| - 1);
    assert k < |ranges| && |res| > 1;
    WholeIsWithin(ranges[k], ds, res);
    hide Split, Layout, Selected, NoneBefore, Start, Fits, Within, Segment;
    var i: nat, j: nat :| Segment(res, ds, i, j);
    SegmentOfMore(res, dms, i, j);
  }

  lemma WholeIsWithin(tr: Range, ds: seq<Meta>, g: seq<Meta>)
    requires Layout(ds) && g in Split(ds, tr) && forall m :: m in g ==> !m.failed
    ensures Within(g, tr) && exists i: nat, j: nat :: Segment(g, ds, i, j)
  {
    SplitIsWhole(ds, tr);
    hide Split, Layout, Start, Fits;
    assert Whole(g, ds, tr);
  }

  lemma SegmentOfMore(g: seq<Meta>, dms: seq<Meta>, i: nat, j: nat)
    requires dms != [] && Segment(g, dms[..|dms| - 1], i, j)
    ensures j < |dms| && Segment(g, dms, i, j)
  {
    assert dms[..|dms| - 1][i..j] == dms[i..j];
  }

  /* The effect of one compaction */

  function TopLevel(p: seq<Meta>): nat {
    if p == [] then 0 else var l := TopLevel(p[..|p| - 1]); if p[|p| - 1].level > l then p[|p| - 1].level else l
  }

  /** The new block: its extent, its origins and what it replaces. */
  function Compacted(uid: nat, p: seq<Meta>, numSeries: nat): Meta
    requires p != []
  {
    Meta(uid, p[0].mint, p[|p| - 1].maxt, TopLevel(p) + 1,
         set i, s | 0 <= i < |p| && s in p[i].sources :: s, set m | m in p :: m.ulid, false, 0, numSeries)
  }

  lemma {:induction false} TopLevelIs(p: seq<Meta>)
    ensures forall m :: m in p ==> m.level <= TopLevel(p)
    ensures TopLevel(p) == 0 || exists m :: m in p && m.level == TopLevel(p)
  {
    if p != [] {
      var init, last := p[..|p| - 1], p[|p| - 1];
      TopLevelIs(init);
      assert p == init + [last];
      assert last in p && forall m :: m in init ==> m in p;
      forall m | m in p ensures m.level <= TopLevel(p) {
        assert m in init || m == last;
      }
    }
  }

  /** What a compacted block says of itself, told from the blocks that it replaces. */
  lemma CompactedIs(uid: nat, ds: seq<Meta>, i: nat, j: nat, n: nat)
    requires Layout(ds) && i < j <= |ds|
    ensures var p := ds[i..j]; var m := Compacted(uid, p, n);
            && (forall b :: b in p ==> m.mint <= b.mint && b.maxt <= m.maxt && b.level < m.level)
            && (exists b :: b in p && b.mint == m.mint) && (exists b :: b in p && b.maxt == m.maxt)
            && (m.level == 1 || exists b :: b in p && b.level + 1 == m.level)
            && (forall s :: s in m.sources <==> exists b :: b in p && s in b.sources)
            && (forall u :: u in m.parents <==> exists b :: b in p && b.ulid == u)
            && m.ulid == uid && !m.failed && m.numTombstones == 0
  {
    var p := ds[i..j];
    TopLevelIs(p);
    SegmentEnds(ds, i, j);
    SegmentStarts(ds, i, j);
    assert p[0] in p && p[|p| - 1] in p;
    hide TopLevel, Layout;
  }

  lemma SegmentStarts(ds: seq<Meta>, i: nat, j: nat)
    requires Layout(ds) && i < j <= |ds|
    ensures forall m :: m in ds[i..j] ==> ds[i..j][0].mint <= m.mint
  {
    assert ds[i..j][0] == ds[i] && ds[i].mint < ds[i].maxt;
    forall m | m in ds[i..j] ensures ds[i].mint <= m.mint {
      var k :| 0 <= k < j - i && ds[i..j][k] == m;
      assert ds[i + k] == m;
    }
  }

  method CompactBlockMetas(uid: nat, blocks: seq<Meta>, numSeries: nat) returns (res: Meta)
    requires blocks != []
    ensures res == Compacted(uid, blocks, numSeries)
  {
    var level, sources, parents := 0, {}, {};
    for k := 0 to |blocks|
      invariant level == TopLevel(blocks[..k])
      invariant sources == set i, s | 0 <= i < k && s in blocks[i].sources :: s
      invariant parents == set m | m in blocks[..k] :: m.ulid
    {
      var b := blocks[k];
      assert blocks[..k + 1][..k] == blocks[..k] && blocks[..k + 1] == blocks[..k] + [b];
      if b.level > level {
        level := b.level;
      }
      sources := sources + b.sources;
      parents := parents + {b.ulid};
    }
    assert blocks[..|blocks|] == blocks;
    res := Meta(uid, blocks[0].mint, blocks[|blocks| - 1].maxt, level + 1, sources, parents, false, 0, numSeries);
  }

  function Tombstoned(ds: seq<Meta>): nat {
    if ds == [] then 0 else (if ds[0].numTombstones > 0 then 1 else 0) + Tombstoned(ds[1..])
  }

  lemma {:induction false} TombstonedConcat(a: seq<Meta>, b: seq<Meta>)
    ensures Tombstoned(a + b) == Tombstoned(a) + Tombstoned(b)
  {
    if a == [] {
      Seqs.Nothing(b);
    } else {
      Seqs.Tail(a, b);
      TombstonedConcat(a[1..], b);
    }
  }

  /** Blocks, counting those with tombstones twice: falls with every compaction. */
  function Load(ds: seq<Meta>): nat { |ds| + Tombstoned(ds) }

  function Replaced(ds: seq<Meta>, i: nat, j: nat, m: Meta): seq<Meta>
    requires i <= j <= |ds|
  {
    ds[..i] + [m] + ds[j..]
  }

  lemma PlannedSegment(ranges: seq<Range>, ds: seq<Meta>, p: seq<Meta>) returns (i: nat, j: nat)
    requires Planned(ranges, ds, p) && p != []
    ensures j < |ds| && Segment(p, ds, i, j) && (j == i + 1 ==> ds[i].numTombstones > 0)
    ensures |p| > 1 ==> exists k: nat :: k < |ranges| && Within(p, ranges[k])
  {
    if |p| == 1 {
      i :| i < |ds| - 1 && p == [ds[i]] && Cluttered(ds[i], ranges[|ranges| / 2]);
      j := i + 1;
      assert ds[i..j] == p;
    } else {
      var k: nat, i': nat, j': nat :| k < |ranges| && j' < |ds| && Segment(p, ds, i', j') && Within(p, ranges[k]);
      i, j := i', j';
    }
  }

  /** Carrying out a plan: adjacent blocks become one, the layout stays in order and
      without overlaps, the most recent block stays, and the load falls, so that
      planning and compacting in turn comes to an end. */
  lemma PlanKeepsLayout(ranges: seq<Range>, ds: seq<Meta>, p: seq<Meta>, uid: nat, numSeries: nat)
    returns (i: nat, j: nat)
    requires ds != [] && Layout(ds) && Planned(ranges, ds, p) && p != []
    ensures j < |ds| && Segment(p, ds, i, j)
    ensures var ds' := Replaced(ds, i, j, Compacted(uid, p, numSeries));
            Layout(ds') && Load(ds') < Load(ds) && ds'[|ds'| - 1] == ds[|ds| - 1]
    ensures |p| > 1 ==> exists k: nat :: k < |ranges| && InOneRange(Compacted(uid, p, numSeries), ranges[k])
  {
    i, j := PlannedSegment(ranges, ds, p);
    hide Planned, Layout, Load, Fits, Start, Within;
    var m := Compacted(uid, p, numSeries);
    SegmentLayout(ds, i, j, m);
    SegmentLoad(ds, i, j, m);
    if |p| > 1 {
      var k: nat :| k < |ranges| && Within(p, ranges[k]);
      WithinIsOneRange(p, ranges[k], m);
    }
  }

  ghost predicate InOneRange(m: Meta, tr: Range) { Fits(m, Start(m.mint, tr), tr) }

  lemma WithinIsOneRange(p: seq<Meta>, tr: Range, m: Meta)
    requires Within(p, tr) && m.mint == p[0].mint && m.maxt == p[|p| - 1].maxt
    ensures InOneRange(m, tr)
  {
    assert p[0] in p && p[|p| - 1] in p;
    hide Start;
  }

  lemma SegmentLayout(ds: seq<Meta>, i: nat, j: nat, m: Meta)
    requires Layout(ds) && i < j <= |ds| && m.mint == ds[i].mint && m.maxt == ds[j - 1].maxt
    ensures Layout(Replaced(ds, i, j, m))
  {
    var r := Replaced(ds, i, j, m);
    assert ds[i].maxt <= ds[j - 1].maxt by {
      assert i < j - 1 ==> ds[i].maxt <= ds[j - 1].mint;
    }
    assert forall k :: 0 <= k < |r| ==> r[k] == if k < i then ds[k] else if k == i then m else ds[k + j - i - 1];
  }

  lemma SegmentLoad(ds: seq<Meta>, i: nat, j: nat, m: Meta)
    requires i < j <= |ds| && m.numTombstones == 0 && (j == i + 1 ==> ds[i].numTombstones > 0)
    ensures Load(Replaced(ds, i, j, m)) < Load(ds)
  {
    TombstonedConcat(ds[..i] + [m], ds[j..]);
    TombstonedConcat(ds[..i], [m]);
    assert [m][1..] == [];
    assert ds == ds[..i] + ds[i..j] + ds[j..];
    TombstonedConcat(ds[..i] + ds[i..j], ds[j..]);
    TombstonedConcat(ds[..i], ds[i..j]);
    if j == i + 1 {
      assert ds[i..j][1..] == [];
    }
  }
}
