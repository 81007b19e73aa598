/** Deleted time ranges (Intervals in tombstones.go) and the iterator that leaves
    out deleted samples (deletedIterator in querier.go). */
module Tombstones {
  import opened Samples
  import Seqs

  datatype Interval = Interval(mint: int64, maxt: int64)
  {
    predicate InBounds(t: int64) { mint <= t <= maxt }
  }

  /** Subtraction and addition of one wrap around at the ends of the range. */
  function Before(t: int64): int64 { if t == MIN then MAX else t - 1 }

  function After(t: int64): int64 { if t == MAX then MIN else t + 1 }

  ghost predicate Covers(s: seq<Interval>, t: int64) {
    exists i :: 0 <= i < |s| && s[i].InBounds(t)
  }

  ghost predicate Sorted(s: seq<Interval>) {
    && (forall i :: 0 <= i < |s| ==> s[i].mint <= s[i].maxt)
    && forall i, j :: 0 <= i < j < |s| ==> s[i].mint <= s[j].mint
  }

  ghost predicate Disjoint(s: seq<Interval>) {
    && (forall i :: 0 <= i < |s| ==> s[i].mint <= s[i].maxt)
    && forall i, j :: 0 <= i < j < |s| ==> s[i].maxt < s[j].mint
  }

  /** How many of the first intervals start no later than t. */
  function StartedBy(s: seq<Interval>, t: int64): (j: nat)
    ensures j <= |s| && (forall k :: 0 <= k < j ==> s[k].mint <= t) && (j < |s| ==> t < s[j].mint)
  {
    if s == [] || t < s[0].mint then 0 else 1 + StartedBy(s[1..], t)
  }

  /** The first interval extended by n, which starts inside or right behind it;
      intervals that n reaches are merged into it. */
  function Extend(r: Interval, tail: seq<Interval>, n: Interval): seq<Interval> {
    var j := StartedBy(tail, n.maxt);
    var maxt := if j > 0 && tail[j - 1].maxt > n.maxt then tail[j - 1].maxt
                else if n.maxt > r.maxt then n.maxt else r.maxt;
    [Interval(r.mint, maxt)] + tail[j..]
  }

  /** Intervals.add. */
  function Added(s: seq<Interval>, n: Interval): seq<Interval> {
    if s == [] then [n]
    else
      var r := s[0];
      if r.InBounds(Before(n.mint)) || r.InBounds(n.mint) then Extend(r, s[1..], n)
      else if r.InBounds(After(n.maxt)) || r.InBounds(n.maxt) then
        if n.mint < r.maxt then [Interval(n.mint, r.maxt)] + s[1..] else s
      else if n.mint < r.mint then [n] + s
      else [r] + Added(s[1..], n)
  }

  method Add(itvs: seq<Interval>, n: Interval) returns (res: seq<Interval>)
    ensures res == Added(itvs, n)
  {
    hide Extend, Added;
    AddedEnds(itvs, n);
    for i := 0 to |itvs|
      invariant Added(itvs, n) == itvs[..i] + Added(itvs[i..], n)
    {
      var r := itvs[i];
      AddedUnfolds(itvs, i, n);
      if r.InBounds(Before(n.mint)) || r.InBounds(n.mint) {
        res := ExtendAt(itvs, i, n);
        return;
      }
      if r.InBounds(After(n.maxt)) || r.InBounds(n.maxt) {
        if n.mint < r.maxt {
          return itvs[i := Interval(n.mint, r.maxt)];
        }
        return itvs;
      }
      if n.mint < r.mint {
        return itvs[..i] + [n] + itvs[i..];
      }
      AddedSkips(itvs, n, i);
    }
    res := itvs + [n];
  }

  lemma AddedEnds(itvs: seq<Interval>, n: Interval)
    ensures Added(itvs, n) == itvs[..0] + Added(itvs[0..], n)
    ensures itvs[..|itvs|] + Added(itvs[|itvs|..], n) == itvs + [n]
  {
    hide Extend;
    assert itvs[0..] == itvs && itvs[|itvs|..] == [];
  }

  /** What add does at the i-th interval. */
  lemma AddedUnfolds(itvs: seq<Interval>, i: nat, n: Interval)
    requires i < |itvs|
    ensures var r, added := itvs[i], itvs[..i] + Added(itvs[i..], n);
            if r.InBounds(Before(n.mint)) || r.InBounds(n.mint) then added == itvs[..i] + Extend(r, itvs[i + 1..], n)
            else if r.InBounds(After(n.maxt)) || r.InBounds(n.maxt) then
              added == if n.mint < r.maxt then itvs[i := Interval(n.mint, r.maxt)] else itvs
            else if n.mint < r.mint then added == itvs[..i] + [n] + itvs[i..]
            else Added(itvs[i..], n) == [r] + Added(itvs[i + 1..], n)
  {
    hide Extend;
    Seqs.Prefix(itvs, i);
    Seqs.Parts(itvs, i);
    Seqs.Associate(itvs[..i], [n], itvs[i..]);
    assert itvs[i..][1..] == itvs[i + 1..];
  }

  lemma AddedSkips(itvs: seq<Interval>, n: Interval, i: nat)
    requires i < |itvs| && Added(itvs[i..], n) == [itvs[i]] + Added(itvs[i + 1..], n)
    ensures itvs[..i] + Added(itvs[i..], n) == itvs[..i + 1] + Added(itvs[i + 1..], n)
  {
    assert itvs[..i + 1] == itvs[..i] + [itvs[i]];
  }

  lemma Extended(r: Interval, tail: seq<Interval>, n: Interval, maxt: int64)
    requires var j := StartedBy(tail, n.maxt);
             maxt == if j > 0 && tail[j - 1].maxt > n.maxt then tail[j - 1].maxt
                     else if n.maxt > r.maxt then n.maxt else r.maxt
    ensures [Interval(r.mint, maxt)] + tail[StartedBy(tail, n.maxt)..] == Extend(r, tail, n)
  {
  }

  method ExtendAt(itvs: seq<Interval>, i: nat, n: Interval) returns (res: seq<Interval>)
    requires i < |itvs|
    ensures res == itvs[..i] + Extend(itvs[i], itvs[i + 1..], n)
  {
    var r, tail := itvs[i], itvs[i + 1..];
    hide Extend;
    var maxt := if n.maxt > r.maxt then n.maxt else r.maxt;
    var j := 0;
    while j < |tail| && n.maxt >= tail[j].mint
      invariant j <= |tail| && StartedBy(tail, n.maxt) == j + StartedBy(tail[j..], n.maxt)
    {
      assert tail[j..][1..] == tail[j + 1..];
      j := j + 1;
    }
    if j != 0 && tail[j - 1].maxt > n.maxt {
      maxt := tail[j - 1].maxt;
    }
    Extended(r, tail, n, maxt);
    res := itvs[..i] + ([Interval(r.mint, maxt)] + tail[j..]);
  }

  /** The new interval starts before, and ends past, the first interval that does
      not end well before it. */
  predicate Swallows(s: seq<Interval>, n: Interval) {
    s != [] &&
    if s[0].maxt as int < n.mint as int - 1 then Swallows(s[1..], n)
    else n.mint < s[0].mint && s[0].maxt < n.maxt
  }

  /** An end of the new interval wraps around into the first interval. */
  predicate Wraps(s: seq<Interval>, n: Interval) {
    s != [] &&
    ((n.mint == MIN && s[0].maxt == MAX && s[0].mint > MIN) ||
     (n.maxt == MAX && s[0].mint == MIN && n.mint as int > s[0].maxt as int + 1))
  }

  lemma CoversCons(r: Interval, s: seq<Interval>, t: int64)
    ensures Covers([r] + s, t) <==> r.InBounds(t) || Covers(s, t)
  {
    var c := [r] + s;
    if Covers(s, t) {
      var i :| 0 <= i < |s| && s[i].InBounds(t);
      assert c[i + 1].InBounds(t);
    }
    if r.InBounds(t) {
      assert c[0].InBounds(t);
    }
  }

  lemma DisjointTail(s: seq<Interval>)
    requires Disjoint(s) && s != []
    ensures Disjoint(s[1..]) && s == [s[0]] + s[1..]
    ensures forall t :: Covers(s[1..], t) ==> s[0].maxt < t
  {
  }

  lemma ConsDisjoint(r: Interval, s: seq<Interval>)
    requires Disjoint([r] + s)
    ensures r.mint <= r.maxt && Disjoint(s) && forall i :: 0 <= i < |s| ==> r.maxt < s[i].mint
    ensures r.maxt == MAX ==> s == []
  {
    DisjointTail([r] + s);
    assert ([r] + s)[1..] == s;
    assert forall i :: 0 <= i < |s| ==> s[i].InBounds(s[i].mint);
    assert s != [] ==> r.maxt < s[0].mint <= MAX;
  }

  /** Putting an interval in front of later ones. */
  lemma DisjointCons(r: Interval, s: seq<Interval>)
    ensures Disjoint([r] + s) <==> r.mint <= r.maxt && Disjoint(s) && (s != [] ==> r.maxt < s[0].mint)
  {
    var c := [r] + s;
    if Disjoint(c) {
      ConsDisjoint(r, s);
    } else if Disjoint(s) && s != [] {
      assert forall i :: 0 < i < |c| ==> c[i] == s[i - 1] && s[0].mint <= c[i].mint;
    }
  }

  lemma CoversSplit(s: seq<Interval>, j: nat, t: int64)
    requires j <= |s|
    ensures Covers(s, t) <==> Covers(s[..j], t) || Covers(s[j..], t)
  {
    if Covers(s, t) {
      var i :| 0 <= i < |s| && s[i].InBounds(t);
      assert if i < j then s[..j][i] == s[i] else s[j..][i - j] == s[i];
    }
  }

  /** The merged interval reaches as far as the last one it has absorbed. */
  lemma ExtendReach(r: Interval, tail: seq<Interval>, n: Interval)
    requires Disjoint([r] + tail) && n.mint <= n.maxt && r.mint <= n.mint
    ensures var j, e := StartedBy(tail, n.maxt), Extend(r, tail, n);
            && e == [e[0]] + tail[j..] && e[0].mint == r.mint && r.maxt <= e[0].maxt && n.maxt <= e[0].maxt
            && (|| e[0].maxt == r.maxt || e[0].maxt == n.maxt
                || (j > 0 && e[0].maxt == tail[j - 1].maxt && n.maxt >= tail[j - 1].mint))
            && (forall i :: 0 <= i < j ==> r.maxt < tail[i].mint && tail[i].maxt <= e[0].maxt)
            && (j < |tail| ==> e[0].maxt < tail[j].mint)
  {
    hide Disjoint, Extend;
    ConsDisjoint(r, tail);
    ExtendParts(r, tail, n);
    var j, e := StartedBy(tail, n.maxt), Extend(r, tail, n)[0];
    if j > 0 {
      UpToLast(tail, j);
    }
  }

  lemma UpToLast(s: seq<Interval>, j: nat)
    requires Disjoint(s) && 0 < j <= |s|
    ensures forall i :: 0 <= i < j ==> s[i].maxt <= s[j - 1].maxt
    ensures s[j - 1].mint <= s[j - 1].maxt && (j < |s| ==> s[j - 1].maxt < s[j].mint)
  {
    hide Disjoint;
    forall i | 0 <= i < j ensures s[i].maxt <= s[j - 1].maxt {
      UpTo(s, i, j - 1);
    }
    UpTo(s, j - 1, if j < |s| then j else j - 1);
  }

  lemma ExtendParts(r: Interval, tail: seq<Interval>, n: Interval)
    ensures var j, e := StartedBy(tail, n.maxt), Extend(r, tail, n);
            && e == [e[0]] + tail[j..] && e[0].mint == r.mint
            && e[0].maxt == if j > 0 && tail[j - 1].maxt > n.maxt then tail[j - 1].maxt
                            else if n.maxt > r.maxt then n.maxt else r.maxt
  {
  }

  lemma UpTo(s: seq<Interval>, i: nat, k: nat)
    requires Disjoint(s) && i <= k < |s|
    ensures s[i].maxt <= s[k].maxt && (i < k ==> s[i].maxt < s[k].mint) && s[i].mint <= s[i].maxt
  {
  }

  lemma ExtendIsUnion(r: Interval, tail: seq<Interval>, n: Interval, t: int64)
    requires Disjoint([r] + tail) && n.mint <= n.maxt && r.mint <= n.mint && n.mint as int - 1 <= r.maxt as int
    ensures Covers(Extend(r, tail, n), t) <==> Covers([r] + tail, t) || n.InBounds(t)
  {
    ExtendReach(r, tail, n);
    var j, e := StartedBy(tail, n.maxt), Extend(r, tail, n);
    hide Extend, Disjoint;
    CoversCons(e[0], tail[j..], t);
    CoversCons(r, tail, t);
    CoversSplit(tail, j, t);
    if e[0].InBounds(t) && !r.InBounds(t) && !n.InBounds(t) {
      assert j > 0 && tail[..j][j - 1].InBounds(t);
    }
    assert Covers(tail[..j], t) ==> e[0].InBounds(t);
  }

  lemma ExtendIsDisjoint(r: Interval, tail: seq<Interval>, n: Interval)
    requires Disjoint([r] + tail) && n.mint <= n.maxt && r.mint <= n.mint
    ensures Disjoint(Extend(r, tail, n)) && Extend(r, tail, n)[0].mint == r.mint
  {
    ExtendReach(r, tail, n);
    var j, e := StartedBy(tail, n.maxt), Extend(r, tail, n);
    ConsDisjoint(r, tail);
    hide Extend;
    DisjointCons(e[0], tail[j..]);
  }

  /** Adding to a disjoint list: nothing but the new interval's times is added and
      nothing is lost, unless an end wraps around; then the list stays as it is. */
  lemma {:induction false} AddedIsUnion(s: seq<Interval>, n: Interval, t: int64)
    requires Disjoint(s) && n.mint <= n.maxt
    ensures !Wraps(s, n) ==> (Covers(Added(s, n), t) <==> Covers(s, t) || n.InBounds(t))
    ensures Wraps(s, n) ==> Added(s, n) == s
  {
    hide Extend;
    if s == [] {
      CoversCons(n, [], t);
      assert [n] == [n] + [];
    } else {
      var r, tail := s[0], s[1..];
      DisjointTail(s);
      CoversCons(r, tail, t);
      if r.InBounds(Before(n.mint)) || r.InBounds(n.mint) {
        if !Wraps(s, n) {
          ExtendIsUnion(r, tail, n, t);
        } else {
          WrappedExtend(r, tail, n);
        }
      } else if r.InBounds(After(n.maxt)) || r.InBounds(n.maxt) {
        CoversCons(Interval(n.mint, r.maxt), tail, t);
      } else if n.mint < r.mint {
        CoversCons(n, s, t);
      } else {
        AddedIsUnion(tail, n, t);
        CoversCons(r, Added(tail, n), t);
      }
    }
  }

  lemma WrappedExtend(r: Interval, tail: seq<Interval>, n: Interval)
    requires Disjoint([r] + tail) && n.mint == MIN && r.maxt == MAX
    ensures tail == [] && Extend(r, tail, n) == [r] + tail
  {
    ConsDisjoint(r, tail);
  }

  /** The list stays sorted; it stays disjoint unless an interval is swallowed. */
  lemma {:induction false} AddedIsSorted(s: seq<Interval>, n: Interval)
    requires Disjoint(s) && n.mint <= n.maxt && !Wraps(s, n)
    ensures Sorted(Added(s, n)) && (Disjoint(Added(s, n)) <==> !Swallows(s, n))
    ensures Added(s, n)[0].mint == n.mint || (s != [] && Added(s, n)[0].mint == s[0].mint)
  {
    hide Extend;
    if s != [] {
      var r, tail := s[0], s[1..];
      DisjointTail(s);
      DisjointIsSorted(s);
      if r.InBounds(Before(n.mint)) || r.InBounds(n.mint) {
        ExtendIsDisjoint(r, tail, n);
        DisjointIsSorted(Extend(r, tail, n));
      } else if r.InBounds(After(n.maxt)) || r.InBounds(n.maxt) {
        DisjointCons(Interval(n.mint, r.maxt), tail);
        DisjointIsSorted([Interval(n.mint, r.maxt)] + tail);
      } else if n.mint < r.mint {
        hide Sorted, Disjoint;
        SortedCons(n, s);
        DisjointCons(n, s);
      } else {
        hide Sorted, Disjoint;
        AddedIsSorted(tail, n);
        SortedCons(r, Added(tail, n));
        DisjointCons(r, Added(tail, n));
      }
    }
  }

  lemma DisjointIsSorted(s: seq<Interval>)
    requires Disjoint(s)
    ensures Sorted(s)
  {
  }

  lemma SortedCons(r: Interval, s: seq<Interval>)
    requires r.mint <= r.maxt && Sorted(s) && (s != [] ==> r.mint <= s[0].mint)
    ensures Sorted([r] + s)
  {
    var c := [r] + s;
    assert forall i :: 0 < i < |c| ==> c[i] == s[i - 1] && s[0].mint <= c[i].mint;
  }

  /** When exactly adding an interval denotes the union. */
  lemma UnionUnlessWrapped(s: seq<Interval>, n: Interval)
    requires Disjoint(s) && n.mint <= n.maxt
    ensures (forall t :: Covers(Added(s, n), t) <==> Covers(s, t) || n.InBounds(t))
            <==> !Wraps(s, n) || forall t :: n.InBounds(t) ==> Covers(s, t)
  {
    forall t ensures !Wraps(s, n) ==> (Covers(Added(s, n), t) <==> Covers(s, t) || n.InBounds(t)) {
      AddedIsUnion(s, n, t);
    }
    AddedIsUnion(s, n, n.mint);
    hide Added, Covers;
  }

  function AddAll(s: seq<Interval>, ns: seq<Interval>): seq<Interval>
    decreases |ns|
  {
    if ns == [] then s else AddAll(Added(s, ns[0]), ns[1..])
  }

  /* Lists that are sorted, but not disjoint any more */

  /** The list stays sorted whatever is added. */
  lemma {:induction false} StaysSorted(s: seq<Interval>, n: Interval)
    requires Sorted(s) && n.mint <= n.maxt
    ensures Sorted(Added(s, n)) && (s != [] && s[0].mint <= n.mint ==> Added(s, n)[0].mint == s[0].mint)
    ensures Added(s, n) != [] && (s == [] || Added(s, n)[0].mint == s[0].mint || Added(s, n)[0].mint == n.mint)
  {
    hide Extend, Sorted;
    if s == [] {
      OneSorted(n);
    } else {
      var r, tail := s[0], s[1..];
      SortedTail(s);
      if r.InBounds(Before(n.mint)) || r.InBounds(n.mint) {
        ExtendSorted(r, tail, n);
      } else if r.InBounds(After(n.maxt)) || r.InBounds(n.maxt) {
        ReplacedFirst(s, n);
      } else if n.mint < r.mint {
        SortedCons(n, s);
      } else {
        StaysSorted(tail, n);
        SortedCons(r, Added(tail, n));
      }
    }
  }

  lemma OneSorted(n: Interval)
    requires n.mint <= n.maxt
    ensures Sorted([n])
  {
  }

  lemma ReplacedFirst(s: seq<Interval>, n: Interval)
    requires Sorted(s) && s != [] && n.mint <= n.maxt && !s[0].InBounds(n.mint)
    requires s[0].InBounds(After(n.maxt)) || s[0].InBounds(n.maxt)
    ensures n.mint < s[0].maxt ==> n.mint < s[0].mint && Sorted([Interval(n.mint, s[0].maxt)] + s[1..])
  {
    SortedTail(s);
    if n.mint < s[0].maxt {
      SortedCons(Interval(n.mint, s[0].maxt), s[1..]);
    }
  }

  lemma SortedTail(s: seq<Interval>)
    requires Sorted(s) && s != []
    ensures Sorted(s[1..]) && s[0].mint <= s[0].maxt && s == [s[0]] + s[1..]
    ensures forall i :: 0 <= i < |s| - 1 ==> s[0].mint <= s[1..][i].mint
  {
  }

  lemma ExtendSorted(r: Interval, tail: seq<Interval>, n: Interval)
    requires Sorted([r] + tail)
    ensures Extend(r, tail, n) != [] && Sorted(Extend(r, tail, n)) && Extend(r, tail, n)[0].mint == r.mint
  {
    var s, j := [r] + tail, StartedBy(tail, n.maxt);
    SortedTail(s);
    ExtendParts(r, tail, n);
    assert s[0] == r && s[1..] == tail;
    SortedFrom(tail, j);
    SortedCons(Extend(r, tail, n)[0], tail[j..]);
  }

  lemma SortedFrom(s: seq<Interval>, j: nat)
    requires Sorted(s) && j <= |s|
    ensures Sorted(s[j..])
  {
  }

  /** A sorted list covers every time from a to b. */
  predicate Filled(s: seq<Interval>, a: int, b: int) {
    a > b ||
    (s != [] && s[0].mint as int <= a && Filled(s[1..], if s[0].maxt as int >= a then s[0].maxt as int + 1 else a, b))
  }

  lemma {:induction false} FilledMeans(s: seq<Interval>, a: int, b: int)
    requires Sorted(s) && MIN as int <= a && b <= MAX as int
    ensures Filled(s, a, b) ==> forall t: int64 :: a <= t as int <= b ==> Covers(s, t)
    ensures !Filled(s, a, b) ==> exists t: int64 :: a <= t as int <= b && !Covers(s, t)
  {
    if a <= b {
      if s == [] || a < s[0].mint as int {
        var t := a as int64;
        assert forall i :: 0 <= i < |s| ==> t < s[i].mint;
        assert !Covers(s, t);
      } else {
        var r, tail := s[0], s[1..];
        SortedTail(s);
        var a' := if r.maxt as int >= a then r.maxt as int + 1 else a;
        FilledMeans(tail, a', b);
        hide Covers;
        if Filled(s, a, b) {
          forall t: int64 | a <= t as int <= b ensures Covers(s, t) {
            CoversCons(r, tail, t);
          }
        } else {
          var t: int64 :| a' <= t as int <= b && !Covers(tail, t);
          CoversCons(r, tail, t);
        }
      }
    }
  }

  /** How far the first j intervals reach, and at least to m. */
  function Reach(s: seq<Interval>, j: nat, m: int64): (r: int64)
    requires j <= |s|
    ensures m <= r && (forall i :: 0 <= i < j ==> s[i].maxt <= r)
    ensures r == m || exists i :: 0 <= i < j && s[i].maxt == r
  {
    if j == 0 then m else
    var x := Reach(s, j - 1, m);
    if s[j - 1].maxt > x then s[j - 1].maxt else x
  }

  /** Merging loses no time: whatever the merged intervals have reached beyond the new
      end is also covered behind them. */
  predicate ExtendKeeps(r: Interval, tail: seq<Interval>, n: Interval) {
    var j := StartedBy(tail, n.maxt);
    Filled(tail[j..], Extend(r, tail, n)[0].maxt as int + 1, Reach(tail, j, r.maxt) as int)
  }

  /** When adding n denotes the union, for any sorted list. The two ways in which it does
      not: merging sets back an end, or an end of n wraps around. */
  predicate Keeps(s: seq<Interval>, n: Interval) {
    s == [] ||
    var r := s[0];
    if r.InBounds(Before(n.mint)) || r.InBounds(n.mint) then r.mint <= n.mint && ExtendKeeps(r, s[1..], n)
    else if r.InBounds(After(n.maxt)) || r.InBounds(n.maxt) then
      n.mint < r.maxt || Filled(s, n.mint as int, n.maxt as int)
    else n.mint < r.mint || Keeps(s[1..], n)
  }

  ghost predicate Union(added: seq<Interval>, s: seq<Interval>, n: Interval) {
    forall t :: Covers(added, t) <==> Covers(s, t) || n.InBounds(t)
  }

  /** From n.mint on, some time is lost; nowhere is one gained. */
  ghost predicate Lossy(added: seq<Interval>, s: seq<Interval>, n: Interval) {
    && (forall t :: Covers(added, t) ==> Covers(s, t) || n.InBounds(t))
    && exists t :: n.mint <= t && (Covers(s, t) || n.InBounds(t)) && !Covers(added, t)
  }

  /** The times before and after merging. */
  lemma MergedTimes(r: Interval, tail: seq<Interval>, n: Interval, t: int64)
    requires Sorted([r] + tail) && n.mint <= n.maxt && r.mint <= n.mint && n.mint as int - 1 <= r.maxt as int
    ensures var j, e := StartedBy(tail, n.maxt), Extend(r, tail, n);
            && n.maxt <= e[0].maxt && (e[0].maxt <= n.maxt || e[0].maxt <= Reach(tail, j, r.maxt))
            && (Covers(e, t) <==> r.mint <= t <= e[0].maxt || Covers(tail[j..], t))
            && (Covers([r] + tail, t) || n.InBounds(t)
                <==> (r.mint <= t && (t <= n.maxt || t <= Reach(tail, j, r.maxt))) || Covers(tail[j..], t))
  {
    var j := StartedBy(tail, n.maxt);
    ExtendParts(r, tail, n);
    SortedTail([r] + tail);
    assert ([r] + tail)[1..] == tail;
    hide Extend, Sorted;
    CoversCons(Extend(r, tail, n)[0], tail[j..], t);
    CoversCons(r, tail, t);
    CoversSplit(tail, j, t);
    FirstOnes(r, tail, n, t);
  }

  lemma FirstOnes(r: Interval, tail: seq<Interval>, n: Interval, t: int64)
    requires n.mint <= n.maxt && r.mint <= n.mint && n.mint as int - 1 <= r.maxt as int
    requires forall i :: 0 <= i < |tail| ==> r.mint <= tail[i].mint
    ensures var j := StartedBy(tail, n.maxt);
            r.InBounds(t) || n.InBounds(t) || Covers(tail[..j], t)
            <==> r.mint <= t && (t <= n.maxt || t <= Reach(tail, j, r.maxt))
  {
    var j := StartedBy(tail, n.maxt);
    Reached(tail, j, r.maxt, n.maxt, t);
    hide Covers, StartedBy, Reach;
    CoversFrom(tail[..j], r.mint, t);
  }

  lemma CoversFrom(s: seq<Interval>, m: int64, t: int64)
    requires forall i :: 0 <= i < |s| ==> m <= s[i].mint
    ensures Covers(s, t) ==> m <= t
  {
  }

  /** The first j intervals start by n and cover together all times from n to their reach. */
  lemma Reached(s: seq<Interval>, j: nat, m: int64, n: int64, t: int64)
    requires j <= |s| && forall i :: 0 <= i < j ==> s[i].mint <= n
    ensures Covers(s[..j], t) ==> t <= Reach(s, j, m)
    ensures n < t && m < t <= Reach(s, j, m) ==> Covers(s[..j], t)
  {
    var top := Reach(s, j, m);
    if n < t && m < t <= top {
      var i :| 0 <= i < j && s[i].maxt == top;
      assert s[..j][i].InBounds(t);
    }
  }

  lemma ExtendExactly(r: Interval, tail: seq<Interval>, n: Interval)
    requires Sorted([r] + tail) && n.mint <= n.maxt && r.mint <= n.mint && n.mint as int - 1 <= r.maxt as int
    ensures ExtendKeeps(r, tail, n) ==> Union(Extend(r, tail, n), [r] + tail, n)
    ensures !ExtendKeeps(r, tail, n) ==> Lossy(Extend(r, tail, n), [r] + tail, n)
  {
    hide Covers, Extend, Filled, StartedBy, Reach, Sorted;
    var j, e := StartedBy(tail, n.maxt), Extend(r, tail, n);
    ExtendParts(r, tail, n);
    var a, b := e[0].maxt as int + 1, Reach(tail, j, r.maxt) as int;
    SortedTail([r] + tail);
    assert ([r] + tail)[1..] == tail;
    SortedFrom(tail, j);
    FilledMeans(tail[j..], a, b);
    if ExtendKeeps(r, tail, n) {
      forall t: int64 ensures Covers(e, t) <==> Covers([r] + tail, t) || n.InBounds(t) {
        MergedTimes(r, tail, n, t);
      }
    } else {
      forall t: int64 ensures Covers(e, t) ==> Covers([r] + tail, t) || n.InBounds(t) {
        MergedTimes(r, tail, n, t);
      }
      var t: int64 :| a <= t as int <= b && !Covers(tail[j..], t);
      MergedTimes(r, tail, n, t);
      assert n.mint <= t;
    }
  }

  /** One interval in front of what happens behind it. */
  lemma SkippedExactly(r: Interval, added: seq<Interval>, tail: seq<Interval>, n: Interval)
    requires r.maxt < n.mint
    ensures Union(added, tail, n) ==> Union([r] + added, [r] + tail, n)
    ensures Lossy(added, tail, n) ==> Lossy([r] + added, [r] + tail, n)
  {
    forall t
      ensures (Covers([r] + added, t) <==> r.InBounds(t) || Covers(added, t))
              && (Covers([r] + tail, t) <==> r.InBounds(t) || Covers(tail, t))
    {
      CoversCons(r, added, t);
      CoversCons(r, tail, t);
    }
    hide Covers;
  }

  lemma Lowered(r: Interval, tail: seq<Interval>, n: Interval)
    requires r.mint <= r.maxt && n.mint <= n.maxt && n.mint < r.mint
    requires r.mint as int - 1 <= n.maxt as int <= r.maxt as int
    ensures Union([Interval(n.mint, r.maxt)] + tail, [r] + tail, n)
  {
    forall t: int64 ensures Covers([Interval(n.mint, r.maxt)] + tail, t) <==> Covers([r] + tail, t) || n.InBounds(t) {
      CoversCons(r, tail, t);
      CoversCons(Interval(n.mint, r.maxt), tail, t);
    }
  }

  lemma Inserted(s: seq<Interval>, n: Interval)
    ensures Union([n] + s, s, n)
  {
    forall t: int64 ensures Covers([n] + s, t) <==> Covers(s, t) || n.InBounds(t) {
      CoversCons(n, s, t);
    }
  }

  /** An end of n wraps around: the start of n is lost, or the list stays as it is. */
  lemma StartLost(r: Interval, tail: seq<Interval>, n: Interval)
    requires Sorted([r] + tail) && n.mint == MIN < r.mint && n.mint <= n.maxt && r.maxt == MAX
    ensures Lossy(Extend(r, tail, n), [r] + tail, n)
  {
    var j, e := StartedBy(tail, n.maxt), Extend(r, tail, n);
    ExtendSorted(r, tail, n);
    ExtendParts(r, tail, n);
    SortedTail([r] + tail);
    assert ([r] + tail)[1..] == tail;
    forall t ensures Covers(e, t) ==> Covers([r] + tail, t) {
      CoversCons(e[0], tail[j..], t);
      CoversCons(r, tail, t);
      CoversSplit(tail, j, t);
    }
    assert forall i :: 0 <= i < |e| ==> e[i].mint > MIN;
    assert !Covers(e, MIN) && n.InBounds(MIN);
  }

  lemma Unchanged(s: seq<Interval>, n: Interval)
    requires Sorted(s) && n.mint <= n.maxt
    ensures if Filled(s, n.mint as int, n.maxt as int) then Union(s, s, n) else Lossy(s, s, n)
  {
    FilledMeans(s, n.mint as int, n.maxt as int);
    hide Covers, Filled, Sorted;
  }

  /** For any sorted list: exactly if Keeps holds, adding denotes the union; otherwise
      some time is lost. */
  lemma {:induction false} AddedExactly(s: seq<Interval>, n: Interval)
    requires Sorted(s) && n.mint <= n.maxt
    ensures Keeps(s, n) ==> Union(Added(s, n), s, n)
    ensures !Keeps(s, n) ==> Lossy(Added(s, n), s, n) && !Union(Added(s, n), s, n)
  {
    hide Extend, Sorted, Covers, ExtendKeeps, Filled, Union, Lossy;
    NotBoth(Added(s, n), s, n);
    if s == [] {
      Inserted([], n);
      Seqs.Nothing([n]);
    } else {
      var r, tail := s[0], s[1..];
      SortedTail(s);
      if r.InBounds(Before(n.mint)) || r.InBounds(n.mint) {
        if r.mint <= n.mint {
          ExtendExactly(r, tail, n);
        } else {
          StartLost(r, tail, n);
        }
      } else if r.InBounds(After(n.maxt)) || r.InBounds(n.maxt) {
        if n.mint < r.maxt {
          Lowered(r, tail, n);
        } else {
          Unchanged(s, n);
        }
      } else if n.mint < r.mint {
        Inserted(s, n);
      } else {
        AddedExactly(tail, n);
        SkippedExactly(r, Added(tail, n), tail, n);
      }
    }
  }

  lemma NotBoth(added: seq<Interval>, s: seq<Interval>, n: Interval)
    ensures Lossy(added, s, n) ==> !Union(added, s, n)
  {
    hide Covers;
  }

  /** Every step of a run keeps all times. */
  predicate AllKeep(s: seq<Interval>, ns: seq<Interval>)
    decreases |ns|
  {
    ns == [] || (Keeps(s, ns[0]) && AllKeep(Added(s, ns[0]), ns[1..]))
  }

  ghost predicate AllUnion(list: seq<Interval>, s: seq<Interval>, ns: seq<Interval>) {
    forall t :: Covers(list, t) <==> Covers(s, t) || Covers(ns, t)
  }

  /** At every point of a run the list covers exactly what has been added so far, if
      and only if every step keeps all times. The list is sorted in any case. */
  lemma {:induction false} RunExactly(s: seq<Interval>, ns: seq<Interval>)
    requires Sorted(s) && forall i :: 0 <= i < |ns| ==> ns[i].mint <= ns[i].maxt
    ensures Sorted(AddAll(s, ns))
    ensures AllKeep(s, ns) <==> AtAllPoints(s, ns)
    decreases |ns|
  {
    hide Added, Keeps, Covers, Sorted, AllUnion, Union, Lossy;
    NothingAdded(s);
    if ns == [] {
      assert forall k: nat :: k <= 0 ==> ns[..k] == [];
    } else {
      var n, more := ns[0], ns[1..];
      var s' := Added(s, n);
      StaysSorted(s, n);
      AddedExactly(s, n);
      RunExactly(s', more);
      OneAdded(s', s, n);
      assert ns[..1] == [n];
      AddOne(s, n);
      if Keeps(s, n) {
        AllShifted(s, ns);
      }
    }
  }

  ghost predicate AtAllPoints(s: seq<Interval>, ns: seq<Interval>) {
    forall k :: 0 <= k <= |ns| ==> AllUnion(AddAll(s, ns[..k]), s, ns[..k])
  }

  lemma AllShifted(s: seq<Interval>, ns: seq<Interval>)
    requires ns != [] && Union(Added(s, ns[0]), s, ns[0])
    ensures AtAllPoints(s, ns) <==> AtAllPoints(Added(s, ns[0]), ns[1..])
  {
    hide AllUnion, Added, AddAll, Union;
    var s', more := Added(s, ns[0]), ns[1..];
    NothingAdded(s);
    forall k | 0 <= k <= |more|
      ensures AllUnion(AddAll(s, ns[..k + 1]), s, ns[..k + 1]) <==> AllUnion(AddAll(s', more[..k]), s', more[..k])
    {
      FirstAdded(s, ns, k);
      MoreAdded(AddAll(s', more[..k]), s', s, ns[0], more[..k]);
    }
    if AtAllPoints(s', more) {
      forall k | 0 <= k <= |ns| ensures AllUnion(AddAll(s, ns[..k]), s, ns[..k]) {
        if k > 0 {
          var i := k - 1;
          assert AllUnion(AddAll(s', more[..i]), s', more[..i]);
          assert ns[..i + 1] == ns[..k];
        } else {
          assert ns[..0] == [];
        }
      }
    }
  }

  lemma NothingAdded(s: seq<Interval>)
    ensures AllUnion(AddAll(s, []), s, [])
  {
  }

  lemma AddOne(s: seq<Interval>, n: Interval)
    ensures AddAll(s, [n]) == Added(s, n)
  {
    hide Added;
    assert [n][1..] == [];
  }

  lemma OneAdded(s': seq<Interval>, s: seq<Interval>, n: Interval)
    ensures AllUnion(s', s, [n]) <==> Union(s', s, n)
  {
    forall t ensures Covers([n], t) <==> n.InBounds(t) {
      assert [n] == [n] + [];
      CoversCons(n, [], t);
    }
    hide Covers;
  }

  lemma FirstAdded(s: seq<Interval>, ns: seq<Interval>, k: nat)
    requires k < |ns|
    ensures AddAll(s, ns[..k + 1]) == AddAll(Added(s, ns[0]), ns[1..][..k]) && ns[..k + 1] == [ns[0]] + ns[1..][..k]
  {
    hide Added;
    assert ns[..k + 1][1..] == ns[1..][..k];
  }

  lemma MoreAdded(list: seq<Interval>, s': seq<Interval>, s: seq<Interval>, n: Interval, more: seq<Interval>)
    requires Union(s', s, n)
    ensures AllUnion(list, s', more) <==> AllUnion(list, s, [n] + more)
  {
    forall t ensures Covers([n] + more, t) <==> n.InBounds(t) || Covers(more, t) {
      CoversCons(n, more, t);
    }
    hide Covers;
  }

  /** In particular the whole run denotes the union of everything added; the list stays
      disjoint unless a step swallows an interval. */
  lemma {:induction false} RunIsUnion(s: seq<Interval>, ns: seq<Interval>, t: int64)
    requires Sorted(s) && AllKeep(s, ns) && forall i :: 0 <= i < |ns| ==> ns[i].mint <= ns[i].maxt
    ensures Covers(AddAll(s, ns), t) <==> Covers(s, t) || Covers(ns, t)
  {
    hide Covers, AllKeep, AddAll, Sorted;
    RunExactly(s, ns);
    assert ns[..|ns|] == ns;
    assert AllUnion(AddAll(s, ns[..|ns|]), s, ns[..|ns|]);
  }

  /** A step that swallows an interval can make a later one lose times. */
  lemma RunLosesTimes()
    ensures var run := [Interval(3, 4), Interval(1, 10), Interval(2, 3)];
            AddAll([], run) == [Interval(1, 4)] && Covers(run, 10) && !Covers(AddAll([], run), 10)
  {
    var run := [Interval(3, 4), Interval(1, 10), Interval(2, 3)];
    assert Added([], run[0]) == [Interval(3, 4)];
    assert Added([Interval(3, 4)], run[1]) == [Interval(1, 10), Interval(3, 4)];
    assert [Interval(1, 10), Interval(3, 4)][1..] == [Interval(3, 4)];
    assert Extend(Interval(1, 10), [Interval(3, 4)], run[2]) == [Interval(1, 4)];
    assert Added([Interval(1, 10), Interval(3, 4)], run[2]) == [Interval(1, 4)];
    assert run[1..][1..][1..] == [];
    assert run[1].InBounds(10);
  }

  /* Reading around deleted ranges */

  /** The samples outside the intervals. */
  ghost function Kept(s: seq<Sample>, dranges: seq<Interval>): seq<Sample> {
    if s == [] then [] else (if Covers(dranges, s[0].t) then [] else [s[0]]) + Kept(s[1..], dranges)
  }

  class DeletedIterator {
    const it: ChunkIterator
    var intervals: seq<Interval>
    ghost const dranges: seq<Interval>   // all deleted ranges

    /** Ranges that have been dropped end before all samples ahead. */
    ghost predicate Valid()
      reads this, it
    {
      && it.next <= |it.samples| && Ordered(it.samples) && Sorted(dranges)
      && var d := |dranges| - |intervals|;
      && d >= 0 && intervals == dranges[d..]
      && forall i, j :: 0 <= i < d && it.next <= j < |it.samples| ==> dranges[i].maxt < it.samples[j].t
    }

    /** The samples still to be delivered. */
    ghost function Ahead(): seq<Sample>
      reads this, it
      requires it.next <= |it.samples|
    {
      Kept(it.samples[it.next..], dranges)
    }

    constructor (it: ChunkIterator, intervals: seq<Interval>)
      requires it.next == 0 && Ordered(it.samples) && Sorted(intervals)
      ensures Valid() && Ahead() == Kept(it.samples, intervals) && this.it == it
    {
      this.it, this.intervals, dranges := it, intervals, intervals;
      new;
      assert it.samples[0..] == it.samples;
    }

    /** Delivers exactly the samples that are not deleted, in order. */
    method Next() returns (r: bool)
      requires Valid()
      modifies this, it
      ensures Valid()
      ensures r <==> old(Ahead()) != []
      ensures r ==> it.next > 0 && old(Ahead()) == [it.At()] + Ahead()
      ensures !r ==> Ahead() == []
    {
      while true
        invariant Valid() && Ahead() == old(Ahead())
        decreases |it.samples| - it.next
      {
        ghost var next := it.next;
        var more := it.Next();
        if !more {
          assert it.samples[it.next..] == [];
          return false;
        }
        var ts := it.At().t;
        assert it.samples[next..][1..] == it.samples[it.next..];
        var deleted := DropBefore(ts);
        if !deleted {
          return true;
        }
      }
    }

    /** Drops the ranges that end before ts, and tells whether ts is deleted. */
    method DropBefore(ts: int64) returns (deleted: bool)
      requires 0 < it.next <= |it.samples| && ts == it.At().t && Ordered(it.samples) && Sorted(dranges)
      requires |intervals| <= |dranges| && intervals == dranges[|dranges| - |intervals|..]
      requires forall i, j :: 0 <= i < |dranges| - |intervals| && it.next - 1 <= j < |it.samples| ==>
                 dranges[i].maxt < it.samples[j].t
      modifies this`intervals
      ensures Valid() && (deleted <==> Covers(dranges, ts))
    {
      while intervals != []
        invariant |intervals| <= |dranges| && intervals == dranges[|dranges| - |intervals|..]
        invariant forall i, j :: 0 <= i < |dranges| - |intervals| && it.next - 1 <= j < |it.samples| ==>
                    dranges[i].maxt < it.samples[j].t
        decreases |intervals|
      {
        var tr := intervals[0];
        if tr.InBounds(ts) {
          return true;
        }
        if !(ts > tr.maxt) {
          return false;
        }
        intervals := intervals[1..];
      }
      deleted := false;
    }
  }
}
