/** Query planning of querier.go: from label matchers to postings iterators. */
module Matching {
  import opened Labelling
  import opened PostingsLists
  import opened MemIndex
  import Seqs

  /** What an IndexReader offers: ids by label pair, values by label name. */
  datatype Index = Index(postings: map<Label, seq<nat>>, values: map<string, seq<string>>)
  {
    function Ids(l: Label): seq<nat> {
      IdsIn(postings, l)
    }

    function LabelValues(name: string): seq<string> {
      if name in values then values[name] else []
    }
  }

  /** In order and without repetition, as indexes list the values of a label. */
  ghost predicate Sorted(vs: seq<string>) {
    forall i, j :: 0 <= i < j < |vs| ==> Le(vs[i], vs[j]) && vs[i] != vs[j]
  }

  /** The index describes the given series, with ids below w. */
  ghost predicate Consistent(ix: Index, series: map<nat, Labels>, w: nat)
    ensures Consistent(ix, series, w) ==> w > 0
  {
    && w > 0
    && (forall id :: id in series ==> id < w)
    && Listing(ix.postings, series)
    && (forall name :: Sorted(ix.LabelValues(name)))
    && (forall id, l :: id in series && l in series[id] ==> l.value in ix.LabelValues(l.name))
  }

  /** The ids of the series that a matcher accepts. */
  ghost function Accepted(series: map<nat, Labels>, m: Matcher): set<nat> {
    set id | id in series && m.Matches(Get(series[id], m.Name()))
  }

  /** The values of a list that a matcher accepts, or rejects. */
  function Kept(vs: seq<string>, m: Matcher, yes: bool): seq<string> {
    if vs == [] then []
    else (if m.Matches(vs[0]) == yes then [vs[0]] else []) + Kept(vs[1..], m, yes)
  }

  lemma {:induction false} KeptElements(vs: seq<string>, m: Matcher, yes: bool)
    ensures forall v :: v in Kept(vs, m, yes) <==> v in vs && m.Matches(v) == yes
  {
    if vs != [] {
      KeptElements(vs[1..], m, yes);
      assert vs == [vs[0]] + vs[1..];
    }
  }

  lemma {:induction false} KeptConcat(vs: seq<string>, ws: seq<string>, m: Matcher, yes: bool)
    ensures Kept(vs + ws, m, yes) == Kept(vs, m, yes) + Kept(ws, m, yes)
  {
    if vs == [] {
      Seqs.Nothing(ws);
      Seqs.Nothing(Kept(ws, m, yes));
    } else {
      Seqs.Tail(vs, ws);
      KeptConcat(vs[1..], ws, m, yes);
      Seqs.Associate(if m.Matches(vs[0]) == yes then [vs[0]] else [], Kept(vs[1..], m, yes), Kept(ws, m, yes));
    }
  }

  /** The comparison made by the binary search. Tuples have one entry, so that a
      prefix of one character is compared with the first character of the value,
      and a longer one with the whole value. */
  predicate Reached(val: string, prefix: string)
    requires |prefix| == 1 ==> val != ""
  {
    var l := if |prefix| > 1 then |val| else |prefix|;
    Le(prefix, val[..l])
  }

  lemma ReachedIsLe(val: string, prefix: string)
    requires |prefix| == 1 ==> val != ""
    ensures Reached(val, prefix) <==> Le(prefix, val)
  {
    if |prefix| > 1 {
      assert val[..|val|] == val;
    } else if |prefix| == 1 {
      assert prefix[1..] == [] && val[..1][0] == val[0];
      assert Le(prefix[1..], val[1..]) && Le(prefix[1..], val[..1][1..]);
    }
  }

  /** The binary search takes the first character of an empty value, which panics: the
      empty value is the first one, and either the only one or followed by a value from
      the prefix on. */
  predicate Slices(prefix: string, ts: seq<string>) {
    |prefix| == 1 && ts != [] && ts[0] == "" && (|ts| == 1 || Le(prefix, ts[1]))
  }

  method TuplesByPrefix(m: Matcher, ts: seq<string>) returns (panicked: bool, matches: seq<string>)
    requires m.Prefix? && Sorted(ts)
    ensures panicked <==> Slices(m.prefix, ts)
    ensures !panicked ==> matches == Kept(ts, m, true)
  {
    var first;
    panicked, first := FirstReached(m.prefix, ts);
    if panicked {
      return true, [];
    }
    forall j | 0 <= j < first ensures !HasPrefix(ts[j], m.prefix) {
      PrefixesComeFirst(m.prefix, ts[j], []);
    }
    matches := TakeMatches(m, ts, first);
  }

  /** Beyond the first one, no value is empty. */
  lemma NotEmpty(ts: seq<string>, j: nat)
    requires Sorted(ts) && 0 < j < |ts|
    ensures ts[j] != ""
  {
    assert Le(ts[0], ts[j]);
  }

  lemma UpFrom(p: string, ts: seq<string>, h: nat)
    requires Sorted(ts) && h < |ts|
    ensures Le(p, ts[h]) ==> forall j :: h <= j < |ts| ==> Le(p, ts[j])
    ensures !Le(p, ts[h]) ==> forall j :: 0 <= j <= h ==> !Le(p, ts[j])
  {
    forall j, k | 0 <= j <= k < |ts| && Le(p, ts[j]) ensures Le(p, ts[k]) {
      if j < k {
        LeTransitive(p, ts[j], ts[k]);
      }
    }
  }

  /** The binary search finds the first value from the prefix on. */
  method FirstReached(p: string, ts: seq<string>) returns (panicked: bool, i: nat)
    requires Sorted(ts)
    ensures panicked <==> Slices(p, ts)
    ensures !panicked ==>
              i <= |ts| && (forall j :: 0 <= j < i ==> !Le(p, ts[j])) && (forall j :: i <= j < |ts| ==> Le(p, ts[j]))
  {
    var lo, hi := 0, |ts|;
    while lo < hi
      invariant 0 <= lo <= hi <= |ts|
      invariant forall j :: 0 <= j < lo ==> !Le(p, ts[j])
      invariant forall j :: hi <= j < |ts| ==> Le(p, ts[j])
      invariant lo == 1 || (hi == 0 && ts != []) ==> |p| != 1 || ts[0] != ""
    {
      var h := (lo + hi) / 2;
      if |p| == 1 && ts[h] == "" {
        if h > 0 {
          NotEmpty(ts, h);
        }
        return true, 0;
      }
      ReachedIsLe(ts[h], p);
      UpFrom(p, ts, h);
      if !Reached(ts[h], p) {
        lo := h + 1;
      } else {
        hi := h;
      }
    }
    return false, lo;
  }

  method TakeMatches(m: Matcher, ts: seq<string>, first: nat) returns (matches: seq<string>)
    requires m.Prefix? && Sorted(ts) && first <= |ts|
    requires forall j :: 0 <= j < first ==> !HasPrefix(ts[j], m.prefix)
    requires forall j :: first <= j < |ts| ==> Le(m.prefix, ts[j])
    ensures matches == Kept(ts, m, true)
  {
    hide Le, Kept;
    NoneKept(ts[..first], m);
    matches := [];
    var i := first;
    while i < |ts|
      invariant first <= i <= |ts| && matches == Kept(ts[..i], m, true)
    {
      if !m.Matches(ts[i]) {
        forall j | i <= j < |ts| ensures !HasPrefix(ts[j], m.prefix) {
          if i < j {
            PrefixesComeFirst(m.prefix, ts[i], ts[j]);
          }
        }
        NoneKept(ts[i..], m);
        KeptConcat(ts[..i], ts[i..], m, true);
        assert ts == ts[..i] + ts[i..];
        return;
      }
      KeptNext(ts, i, m, true);
      matches := matches + [ts[i]];
      i := i + 1;
    }
    assert ts[..i] == ts;
  }

  lemma {:induction false} NoneKept(vs: seq<string>, m: Matcher)
    requires forall j :: 0 <= j < |vs| ==> !m.Matches(vs[j])
    ensures Kept(vs, m, true) == []
  {
    if vs != [] {
      NoneKept(vs[1..], m);
    }
  }

  lemma KeptNext(vs: seq<string>, i: nat, m: Matcher, yes: bool)
    requires i < |vs|
    ensures Kept(vs[..i + 1], m, yes) == Kept(vs[..i], m, yes) + if m.Matches(vs[i]) == yes then [vs[i]] else []
  {
    assert vs[..i + 1] == vs[..i] + [vs[i]];
    KeptConcat(vs[..i], [vs[i]], m, yes);
    assert [vs[i]][1..] == [];
  }

  /** The ids of the series that Selector.Matches accepts. */
  ghost function Selection(series: map<nat, Labels>, ms: seq<Matcher>): set<nat> {
    set id | id in series && Selects(ms, series[id])
  }

  lemma AcceptedByAll(series: map<nat, Labels>, ms: seq<Matcher>, rs: seq<set<nat>>)
    requires |rs| == |ms| && forall i :: 0 <= i < |ms| ==> rs[i] == Accepted(series, ms[i])
    ensures InAll(rs) == if ms == [] then {} else Selection(series, ms)
  {
    if ms != [] {
      forall id | id in InAll(rs) ensures id in Selection(series, ms) {
        forall i | 0 <= i < |ms| ensures ms[i].Matches(Get(series[id], ms[i].Name())) {
          assert id in rs[i];
        }
      }
    }
  }

  /** Lists of ids, one for each of the values vs of one label. */
  ghost predicate ByValue(ix: Index, name: string, vs: seq<string>, rs: seq<set<nat>>) {
    |rs| == |vs| && forall i :: 0 <= i < |vs| ==> rs[i] == Elements(ix.Ids(Label(name, vs[i])))
  }

  /** The ids listed for non-empty values are those of the series with these values. */
  lemma ValuesInAny(ix: Index, series: map<nat, Labels>, name: string, vs: seq<string>, rs: seq<set<nat>>, w: nat,
      id: nat)
    requires Consistent(ix, series, w) && ByValue(ix, name, vs, rs) && "" !in vs
    ensures id in InAny(rs) <==> id in series && Get(series[id], name) in vs
  {
    if id in series {
      var v := Get(series[id], name);
      forall i | 0 <= i < |vs| ensures id in rs[i] <==> v == vs[i] {
        assert vs[i] in vs;
        GetIs(series[id], name, vs[i]);
      }
      if v in vs {
        var i :| 0 <= i < |vs| && vs[i] == v;
        assert id in rs[i];
      }
    } else {
      forall i | 0 <= i < |rs| ensures id !in rs[i] {
        assert vs[i] in vs;
        assert rs[i] == Bearing(series, Label(name, vs[i]));
      }
    }
  }

  /** A series whose label has a non-empty value is found in the value list. */
  lemma ValueIsListed(ix: Index, series: map<nat, Labels>, w: nat, id: nat, name: string)
    requires Consistent(ix, series, w) && id in series
    ensures var v := Get(series[id], name); v == "" || v in ix.LabelValues(name)
  {
    var v := Get(series[id], name);
    if v != "" {
      GetIs(series[id], name, v);
      assert Label(name, v) in series[id];
    }
  }

  lemma AcceptedByValue(ix: Index, series: map<nat, Labels>, m: Matcher, vs: seq<string>, rs: seq<set<nat>>, w: nat)
    requires Consistent(ix, series, w) && ByValue(ix, m.Name(), vs, rs) && !m.Matches("")
    requires forall v :: v in vs ==> m.Matches(v)
    requires forall v :: v in ix.LabelValues(m.Name()) && m.Matches(v) ==> v in vs
    ensures InAny(rs) == Accepted(series, m)
  {
    forall id ensures id in InAny(rs) <==> id in Accepted(series, m) {
      ValuesInAny(ix, series, m.Name(), vs, rs, w, id);
      if id in series {
        ValueIsListed(ix, series, w, id, m.Name());
      }
    }
  }

  lemma AcceptedUnlessRejected(ix: Index, series: map<nat, Labels>, m: Matcher, vs: seq<string>, rs: seq<set<nat>>,
      w: nat)
    requires Consistent(ix, series, w) && ByValue(ix, m.Name(), vs, rs) && m.Matches("")
    requires forall v :: v in vs <==> v in ix.LabelValues(m.Name()) && !m.Matches(v)
    ensures series.Keys - InAny(rs) == Accepted(series, m)
  {
    forall id ensures id in series.Keys - InAny(rs) <==> id in Accepted(series, m) {
      ValuesInAny(ix, series, m.Name(), vs, rs, w, id);
      if id in series {
        ValueIsListed(ix, series, w, id, m.Name());
      }
    }
  }

  /** The guard that the selection needs: without matchers nothing is selected,
      although every series satisfies the empty selector. */
  lemma SelectionIsExact(series: map<nat, Labels>, ms: seq<Matcher>)
    ensures (if ms == [] then {} else Selection(series, ms)) == Selection(series, ms) <==> ms != [] || series == map[]
  {
    if ms == [] {
      assert Selection(series, ms) == series.Keys;
    }
  }

  lemma Single(r: set<nat>)
    ensures InAny([r]) == r && InAny([]) == {}
  {
    assert r == [r][0];
  }

  lemma Bounded(ix: Index, series: map<nat, Labels>, w: nat, l: Label)
    requires Consistent(ix, series, w)
    ensures Increasing(ix.Ids(l), 0) && forall x :: x in ix.Ids(l) ==> x < w
  {
    forall x | x in ix.Ids(l) ensures x < w {
      assert x in Elements(ix.Ids(l));
      assert l != ALL ==> x in Bearing(series, l);
    }
  }

  lemma BoundedLists(ix: Index, series: map<nat, Labels>, w: nat)
    requires Consistent(ix, series, w)
    ensures forall l :: Increasing(ix.Ids(l), 0) && forall x :: x in ix.Ids(l) ==> x < w
  {
    forall l ensures Increasing(ix.Ids(l), 0) && forall x :: x in ix.Ids(l) ==> x < w {
      Bounded(ix, series, w, l);
    }
  }

  lemma OneMore(its: seq<Postings>, rs: seq<set<nat>>, it: Postings, r: set<nat>, w: nat)
    requires AllReady(its, rs, w) && Ready(it, r, w) && it.Repr !! Footprint(its)
    ensures AllReady(its + [it], rs + [r], w) && Footprint(its + [it]) == Footprint(its) + it.Repr
  {
    var s := its + [it];
    forall o | o in Footprint(its) + it.Repr ensures o in Footprint(s) {
      if o in it.Repr {
        assert s[|its|] == it;
      } else {
        var i :| 0 <= i < |its| && o in its[i].Repr;
        assert s[i] == its[i];
      }
    }
  }

  /** Iterators over the ids of some values of one label. */
  method PostingsOf(ix: Index, name: string, vs: seq<string>, ghost w: nat)
    returns (its: seq<Postings>, ghost rs: seq<set<nat>>)
    requires w > 0
    requires forall v :: v in vs ==>
      Increasing(ix.Ids(Label(name, v)), 0) && forall x :: x in ix.Ids(Label(name, v)) ==> x < w
    ensures AllReady(its, rs, w) && fresh(Footprint(its)) && ByValue(ix, name, vs, rs)
  {
    hide Postings.Valid, AllReady, Ready, Increasing, Elements;
    its, rs := [], [];
    NoneReady(w);
    for k := 0 to |vs|
      invariant AllReady(its, rs, w) && fresh(Footprint(its))
      invariant |rs| == k && forall i :: 0 <= i < k ==> rs[i] == Elements(ix.Ids(Label(name, vs[i])))
    {
      var l := Label(name, vs[k]);
      assert vs[k] in vs;
      var it := Lookup(ix, l, w);
      OneMore(its, rs, it, Elements(ix.Ids(l)), w);
      its, rs := its + [it], rs + [Elements(ix.Ids(l))];
    }
  }

  lemma NoneReady(w: nat)
    requires w > 0
    ensures AllReady([], [], w) && Footprint([]) == {}
  {
  }

  method Lookup(ix: Index, l: Label, ghost w: nat) returns (p: Postings)
    requires w > 0 && Increasing(ix.Ids(l), 0) && forall x :: x in ix.Ids(l) ==> x < w
    ensures Ready(p, Elements(ix.Ids(l)), w) && fresh(p.Repr)
  {
    p := new Postings.OfList(List, ix.Ids(l), w);
  }

  predicate Panics(ix: Index, m: Matcher) {
    m.Prefix? && Slices(m.prefix, ix.LabelValues(m.name))
  }

  /** The ids selected by one matcher; null stands for a panic. */
  method PostingsForMatcher(ix: Index, m: Matcher, ghost series: map<nat, Labels>, ghost w: nat) returns (p: Postings?)
    requires Consistent(ix, series, w)
    ensures p == null <==> Panics(ix, m)
    ensures p != null ==> Ready(p, Accepted(series, m), w) && fresh(p.Repr)
  {
    BoundedLists(ix, series, w);
    hide Consistent, Increasing, Elements, InAny, Kept, Ready, AllReady, Accepted;
    if m.Matches("") {
      p := PostingsForUnsetLabel(ix, m, series, w);
      return;
    }
    if m.Equal? {
      ghost var r := Elements(ix.Ids(Label(m.name, m.value)));
      AcceptedByValue(ix, series, m, [m.value], [r], w);
      Single(r);
      p := Lookup(ix, Label(m.name, m.value), w);
      return;
    }
    var ts := ix.LabelValues(m.Name());
    var res;
    if m.Prefix? {
      var panicked;
      panicked, res := TuplesByPrefix(m, ts);
      if panicked {
        return null;
      }
    } else {
      res := KeptByScan(ts, m, true);
    }
    KeptElements(ts, m, true);
    if |res| == 0 {
      Single({});
      AcceptedByValue(ix, series, m, res, [], w);
      p := Empty(w);
      return;
    }
    var its, rs := PostingsOf(ix, m.Name(), res, w);
    AcceptedByValue(ix, series, m, res, rs, w);
    p := Merge(its, rs, w);
  }

  /** A matcher that accepts the empty value selects also the series without the
      label: all series except those with a value that it rejects. */
  method PostingsForUnsetLabel(ix: Index, m: Matcher, ghost series: map<nat, Labels>, ghost w: nat)
    returns (p: Postings)
    requires Consistent(ix, series, w) && m.Matches("")
    ensures Ready(p, Accepted(series, m), w) && fresh(p.Repr)
  {
    BoundedLists(ix, series, w);
    assert Elements(ix.Ids(ALL)) == series.Keys;
    hide Consistent, Increasing, Elements, InAny, Kept, Ready, AllReady, Accepted;
    var ts := ix.LabelValues(m.Name());
    var res := KeptByScan(ts, m, false);
    KeptElements(ts, m, false);
    var its, rs := PostingsOf(ix, m.Name(), res, w);
    AcceptedUnlessRejected(ix, series, m, res, rs, w);
    var all := Lookup(ix, ALL, w);
    var drop := Merge(its, rs, w);
    p := Without(all, drop, series.Keys, InAny(rs), w);
  }

  method KeptByScan(ts: seq<string>, m: Matcher, yes: bool) returns (res: seq<string>)
    ensures res == Kept(ts, m, yes)
  {
    res := [];
    for i := 0 to |ts|
      invariant res == Kept(ts[..i], m, yes)
    {
      KeptNext(ts, i, m, yes);
      if m.Matches(ts[i]) == yes {
        res := res + [ts[i]];
      }
    }
    assert ts[..|ts|] == ts;
  }

  /** The ids selected by all matchers, as an iterator. */
  method PostingsForMatchers(ix: Index, ms: seq<Matcher>, ghost series: map<nat, Labels>, ghost w: nat)
    returns (p: Postings?)
    requires Consistent(ix, series, w)
    ensures p == null <==> exists i :: 0 <= i < |ms| && Panics(ix, ms[i])
    ensures p != null ==> Ready(p, if ms == [] then {} else Selection(series, ms), w) && fresh(p.Repr)
  {
    var its: seq<Postings> := [];
    ghost var rs: seq<set<nat>> := [];
    hide Postings.Valid, AllReady, Ready, Consistent, Accepted, Panics;
    NoneReady(w);
    for k := 0 to |ms|
      invariant AllReady(its, rs, w) && fresh(Footprint(its))
      invariant |rs| == k && forall i :: 0 <= i < k ==> rs[i] == Accepted(series, ms[i])
      invariant forall i :: 0 <= i < k ==> !Panics(ix, ms[i])
    {
      var it := PostingsForMatcher(ix, ms[k], series, w);
      if it == null {
        return null;
      }
      OneMore(its, rs, it, Accepted(series, ms[k]), w);
      its := its + [it];
      rs := rs + [Accepted(series, ms[k])];
    }
    p := Intersect(its, rs, w);
    AcceptedByAll(series, ms, rs);
  }
}
