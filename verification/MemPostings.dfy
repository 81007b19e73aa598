/** The in-memory postings of the head block (MemPostings in index/postings.go):
    sorted id lists by label pair, kept up to date as series come and go. */
module MemIndex {
  import opened Labelling
  import opened PostingsLists
  import Seqs

  /** The key under which the ids of all series are listed. */
  const ALL: Label := Label("", "")

  function IdsIn(m: map<Label, seq<nat>>, l: Label): seq<nat> {
    if l in m then m[l] else []
  }

  ghost function Bearing(series: map<nat, Labels>, l: Label): set<nat> {
    set id | id in series && l in series[id]
  }

  /** The lists hold exactly the ids of the given series. */
  ghost predicate Listing(m: map<Label, seq<nat>>, series: map<nat, Labels>) {
    && (forall id :: id in series ==> id > 0 && UniqueNames(series[id]))
    && (forall l :: Increasing(IdsIn(m, l), 0) && (l != ALL ==> Elements(IdsIn(m, l)) == Bearing(series, l)))
    && Elements(IdsIn(m, ALL)) == series.Keys
  }

  /** An id put into its place between smaller and larger ones. */
  lemma Placed(s: seq<nat>, i: nat, id: nat)
    requires Increasing(s, 0) && i <= |s| && id > 0
    requires forall k :: 0 <= k < i ==> s[k] < id
    requires forall k :: i <= k < |s| ==> id < s[k]
    ensures Increasing(s[..i] + [id] + s[i..], 0)
    ensures Elements(s[..i] + [id] + s[i..]) == Elements(s) + {id}
  {
    var t := s[..i] + [id] + s[i..];
    forall x | x in Elements(s) + {id} ensures x in t {
      if x != id {
        var k :| 0 <= k < |s| && s[k] == x;
        assert t[if k < i then k else k + 1] == x;
      } else {
        assert t[i] == id;
      }
    }
  }

  function Purged(s: seq<nat>, deleted: set<nat>): seq<nat> {
    if s == [] then [] else (if s[0] in deleted then [] else [s[0]]) + Purged(s[1..], deleted)
  }

  lemma {:induction false} PurgedElements(s: seq<nat>, deleted: set<nat>, p: nat)
    requires Increasing(s, p)
    ensures Increasing(Purged(s, deleted), p) && Elements(Purged(s, deleted)) == Elements(s) - deleted
  {
    if s != [] {
      var t := s[1..];
      Seqs.Uncons(s);
      FirstAndRest(s[0], t, p);
      hide Increasing, Elements;
      PurgedElements(t, deleted, s[0]);
      FirstAndRest(s[0], Purged(t, deleted), p);
      Seqs.Nothing(Purged(t, deleted));
    }
  }

  lemma FirstAndRest(x: nat, t: seq<nat>, p: nat)
    ensures Elements([x] + t) == {x} + Elements(t)
    ensures Increasing([x] + t, p) <==> p < x && Increasing(t, x)
    ensures p < x && Increasing(t, x) ==> Increasing(t, p)
  {
    var s := [x] + t;
    Seqs.Cons(x, t);
    ElementsCons(s);
    IncreasingCons(s, p);
  }

  lemma ElementsCons(s: seq<nat>)
    requires s != []
    ensures Elements(s) == {s[0]} + Elements(s[1..])
  {
  }

  lemma IncreasingCons(s: seq<nat>, p: nat)
    requires s != []
    ensures Increasing(s, p) <==> p < s[0] && Increasing(s[1..], s[0])
    ensures p < s[0] && Increasing(s[1..], s[0]) ==> Increasing(s[1..], p)
  {
    var t := s[1..];
    assert forall i :: 0 <= i < |t| ==> t[i] == s[i + 1];
    if p < s[0] && Increasing(t, s[0]) {
      forall i, j | 0 <= i < j < |s| ensures s[i] < s[j] {
        assert s[j] == t[j - 1] && (i > 0 ==> s[i] == t[i - 1]);
      }
    }
  }

  lemma {:induction false} PurgedNext(s: seq<nat>, k: nat, deleted: set<nat>)
    requires k < |s|
    ensures Purged(s[..k + 1], deleted) == Purged(s[..k], deleted) + if s[k] in deleted then [] else [s[k]]
  {
    if k > 0 {
      PurgedNext(s[1..], k - 1, deleted);
      assert s[1..][..k] == s[..k + 1][1..] && s[1..][..k - 1] == s[..k][1..];
    } else {
      assert s[..1][1..] == [];
    }
  }

  lemma ListingAdded(was: map<Label, seq<nat>>, m: map<Label, seq<nat>>, series: map<nat, Labels>, id: nat,
      lset: Labels)
    requires Listing(was, series) && id > 0 && id !in series && UniqueNames(lset) && ALL !in lset
    requires forall l :: Increasing(IdsIn(m, l), 0)
    requires forall l :: Elements(IdsIn(m, l)) == Elements(IdsIn(was, l)) + if l in lset || l == ALL then {id} else {}
    ensures Listing(m, series[id := lset])
  {
    hide Increasing, Elements;
    forall l | l != ALL ensures Elements(IdsIn(m, l)) == Bearing(series[id := lset], l) {
    }
  }

  lemma ListingRemoved(was: map<Label, seq<nat>>, m: map<Label, seq<nat>>, series: map<nat, Labels>, deleted: set<nat>)
    requires Listing(was, series)
    requires forall l :: Increasing(IdsIn(m, l), 0) && Elements(IdsIn(m, l)) == Elements(IdsIn(was, l)) - deleted
    ensures Listing(m, series - deleted)
  {
    hide Increasing, Elements;
    forall l | l != ALL ensures Elements(IdsIn(m, l)) == Bearing(series - deleted, l) {
    }
  }

  /** Appends an id and moves it down to its place. */
  method Placing(was: seq<nat>, id: nat) returns (list: seq<nat>)
    requires id > 0 && Increasing(was, 0) && id !in was
    ensures Increasing(list, 0) && Elements(list) == Elements(was) + {id}
  {
    hide Elements;
    list := was + [id];
    var i := |list| - 1;
    while i >= 1 && list[i] < list[i - 1]
      invariant 0 <= i <= |was| && list == was[..i] + [id] + was[i..]
      invariant forall k :: i <= k < |was| ==> id < was[k]
    {
      Exchange(was, i, id);
      list := list[i := list[i - 1]][i - 1 := list[i]];
      i := i - 1;
    }
    assert i > 0 ==> list[i - 1] == was[i - 1];
    Placed(was, i, id);
  }

  lemma Exchange(was: seq<nat>, i: nat, id: nat)
    requires 0 < i <= |was|
    ensures var list := was[..i] + [id] + was[i..];
            list[i - 1] == was[i - 1] && list[i] == id
            && list[i := list[i - 1]][i - 1 := list[i]] == was[..i - 1] + [id] + was[i - 1..]
  {
  }

  class MemPostings {
    var m: map<Label, seq<nat>>

    constructor ()
      ensures m == map[] && Listing(m, map[])
    {
      m := map[];
    }

    method AddFor(id: nat, l: Label)
      requires id > 0 && Increasing(IdsIn(m, l), 0) && id !in IdsIn(m, l)
      modifies this
      ensures Increasing(IdsIn(m, l), 0) && Elements(IdsIn(m, l)) == Elements(old(IdsIn(m, l))) + {id}
      ensures forall k :: k != l ==> IdsIn(m, k) == old(IdsIn(m, k))
    {
      ghost var was := IdsIn(m, l);
      var list := Placing(IdsIn(m, l), id);
      m := m[l := list];
    }

    /** A new series enters the list of each of its labels, and that of all series. */
    method Add(id: nat, lset: Labels, ghost series: map<nat, Labels>)
      requires Listing(m, series) && id > 0 && id !in series && UniqueNames(lset) && ALL !in lset
      modifies this
      ensures Listing(m, series[id := lset])
    {
      ghost var was := m;
      Unlisted(m, series, id);
      hide Increasing, Elements, Listing;
      for k := 0 to |lset|
        invariant forall l :: Increasing(IdsIn(m, l), 0)
        invariant forall l :: Elements(IdsIn(m, l)) == Elements(IdsIn(was, l)) + if l in lset[..k] then {id} else {}
      {
        assert lset[k] !in lset[..k];
        NotListed(IdsIn(m, lset[k]), id);
        AddFor(id, lset[k]);
        Seqs.Prefix(lset, k);
      }
      Seqs.Parts(lset, |lset|);
      NotListed(IdsIn(m, ALL), id);
      AddFor(id, ALL);
      ListingAdded(was, m, series, id, lset);
    }

    static lemma NotListed(s: seq<nat>, id: nat)
      requires id !in Elements(s)
      ensures id !in s
    {
    }

    static lemma Unlisted(m: map<Label, seq<nat>>, series: map<nat, Labels>, id: nat)
      requires Listing(m, series) && id !in series
      ensures forall l :: Increasing(IdsIn(m, l), 0) && id !in Elements(IdsIn(m, l))
    {
      hide Increasing, Elements;
      forall l ensures id !in Elements(IdsIn(m, l)) {
        assert l != ALL ==> id !in Bearing(series, l);
      }
    }

    /** Removes ids from every list, and the lists that become empty. */
    method Delete(deleted: set<nat>, ghost series: map<nat, Labels>)
      requires Listing(m, series)
      modifies this
      ensures Listing(m, series - deleted)
    {
      hide Increasing, Elements, Purged;
      ghost var was := m;
      assert forall l :: Increasing(IdsIn(was, l), 0);
      var keys := m.Keys;
      while keys != {}
        invariant forall l :: IdsIn(m, l) == if l in was && l !in keys then Purged(was[l], deleted) else IdsIn(was, l)
        decreases keys
      {
        var l :| l in keys;
        DeleteFrom(l, deleted);
        keys := keys - {l};
      }
      forall l ensures Increasing(IdsIn(m, l), 0) && Elements(IdsIn(m, l)) == Elements(IdsIn(was, l)) - deleted {
        PurgedElements(IdsIn(was, l), deleted, 0);
        NothingPurged(deleted);
      }
      ListingRemoved(was, m, series, deleted);
    }

    static lemma NothingPurged(deleted: set<nat>)
      ensures Purged([], deleted) == []
    {
    }

    method DeleteFrom(l: Label, deleted: set<nat>)
      modifies this
      ensures IdsIn(m, l) == Purged(old(IdsIn(m, l)), deleted)
      ensures forall k :: k != l ==> IdsIn(m, k) == old(IdsIn(m, k))
    {
      var list := IdsIn(m, l);
      var found := false;
      var n := 0;
      while n < |list| && !found
        invariant m == old(m) && 0 <= n <= |list| && (!found ==> Purged(list[..n], deleted) == list[..n])
      {
        PurgedNext(list, n, deleted);
        Seqs.Prefix(list, n);
        Seqs.Nothing(list[..n]);
        found := list[n] in deleted;
        n := n + 1;
      }
      if !found {
        assert list[..n] == list;
        return;
      }
      var repl := [];
      for k := 0 to |list|
        invariant m == old(m) && repl == Purged(list[..k], deleted)
      {
        PurgedNext(list, k, deleted);
        if list[k] !in deleted {
          repl := repl + [list[k]];
        }
      }
      assert list[..|list|] == list;
      m := if |repl| > 0 then m[l := repl] else m - {l};
    }
  }
}
