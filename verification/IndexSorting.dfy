/** The orders in which an index is written: sorted symbols and values, and sorted
    positions of series. */
module IndexSorting {
  import opened ByteBuffers
  import opened Labelling
  import opened PostingsLists
  import opened IndexFormat
  import opened IndexTables
  import opened MemIndex
  import Seqs

  function InsertString(s: string, ss: seq<string>): seq<string> {
    if ss == [] || CompareStrings(s, ss[0]) <= 0 then [s] + ss else [ss[0]] + InsertString(s, ss[1..])
  }

  /** sort.Strings. */
  function SortStrings(ss: seq<string>): seq<string> {
    if ss == [] then [] else InsertString(ss[0], SortStrings(ss[1..]))
  }

  ghost predicate InOrder(ss: seq<string>) {
    forall i, j :: 0 <= i < j < |ss| ==> CompareStrings(ss[i], ss[j]) <= 0
  }

  lemma {:induction false} InsertedInOrder(s: string, ss: seq<string>)
    requires InOrder(ss)
    ensures InOrder(InsertString(s, ss)) && multiset(InsertString(s, ss)) == multiset(ss) + multiset{s}
  {
    hide CompareStrings;
    if ss == [] {
    } else if CompareStrings(s, ss[0]) <= 0 {
      InFront(s, ss);
    } else {
      var t := ss[1..];
      Seqs.Uncons(ss);
      InsertedInOrder(s, t);
      StringsOrder(s, ss[0], []);
      FirstBelow(s, ss, InsertString(s, t));
      OneMore(ss[0], InsertString(s, t));
    }
  }

  lemma FirstBelow(s: string, ss: seq<string>, r: seq<string>)
    requires InOrder(ss) && ss != [] && CompareStrings(ss[0], s) <= 0
    requires multiset(r) == multiset(ss[1..]) + multiset{s}
    ensures forall i :: 0 <= i < |r| ==> CompareStrings(ss[0], r[i]) <= 0
  {
    hide CompareStrings;
    forall i | 0 <= i < |r| ensures CompareStrings(ss[0], r[i]) <= 0 {
      assert r[i] in multiset(r);
      if r[i] != s {
        assert r[i] in multiset(ss[1..]);
      }
    }
  }

  lemma OneMore(x: string, r: seq<string>)
    requires InOrder(r) && forall i :: 0 <= i < |r| ==> CompareStrings(x, r[i]) <= 0
    ensures InOrder([x] + r) && multiset([x] + r) == multiset{x} + multiset(r)
  {
    hide CompareStrings;
  }

  lemma InFront(s: string, ss: seq<string>)
    requires InOrder(ss) && ss != [] && CompareStrings(s, ss[0]) <= 0
    ensures InOrder([s] + ss) && multiset([s] + ss) == multiset(ss) + multiset{s}
  {
    hide CompareStrings;
    forall i | 0 <= i < |ss| ensures CompareStrings(s, ss[i]) <= 0 {
      StringsOrder(s, ss[0], ss[i]);
      StringsOrder(s, ss[i], []);
      StringsOrder(ss[0], ss[i], []);
    }
    OneMore(s, ss);
  }

  lemma {:induction false} SortedStrings(ss: seq<string>)
    ensures InOrder(SortStrings(ss)) && multiset(SortStrings(ss)) == multiset(ss)
  {
    if ss != [] {
      SortedStrings(ss[1..]);
      InsertedInOrder(ss[0], SortStrings(ss[1..]));
      Seqs.Uncons(ss);
    }
  }

  /* Numbers of symbols */

  /** Positions as 32-bit words. */
  function NumbersOf(ss: seq<string>): (m: map<string, nat>)
    ensures Numbers(m)
  {
    if ss == [] then map[] else NumbersOf(ss[..|ss| - 1])[ss[|ss| - 1] := (|ss| - 1) % LIMIT32]
  }

  lemma {:induction false} NumbersKnow(ss: seq<string>)
    ensures forall s :: s in NumbersOf(ss) <==> s in ss
    ensures |ss| <= LIMIT32 ==> forall s :: s in NumbersOf(ss) ==> Stands(NumbersOf(ss), ss, s)
  {
    if ss != [] {
      var t := ss[..|ss| - 1];
      NumbersKnow(t);
      assert ss == t + [ss[|ss| - 1]];
    }
  }

  ghost predicate Distinct(ss: seq<string>) { forall i, j :: 0 <= i < j < |ss| ==> ss[i] != ss[j] }

  /** All symbols with numbers stand in a table where these say. */
  ghost predicate AllNumbersStand(m: map<string, nat>, table: seq<string>) {
    forall s :: s in m ==> Stands(m, table, s)
  }

  /** The number of a string in a list of different strings is its position. */
  lemma NumberIsPosition(ss: seq<string>, i: nat)
    requires Distinct(ss) && |ss| <= LIMIT32 && i < |ss|
    ensures ss[i] in NumbersOf(ss) && NumbersOf(ss)[ss[i]] == i
  {
    hide NumbersOf;
    NumbersKnow(ss);
    assert ss[i] in ss;
    assert Stands(NumbersOf(ss), ss, ss[i]);
  }

  lemma StandingIsPrefix(ss: seq<string>, table: seq<string>)
    requires Distinct(ss) && |ss| <= LIMIT32 && AllNumbersStand(NumbersOf(ss), table)
    ensures ss <= table
  {
    hide NumbersOf;
    forall i | 0 <= i < |ss| ensures i < |table| && table[i] == ss[i] {
      NumberIsPosition(ss, i);
      assert Stands(NumbersOf(ss), table, ss[i]);
    }
    if ss != [] {
      NumberIsPosition(ss, |ss| - 1);
      assert Stands(NumbersOf(ss), table, ss[|ss| - 1]);
    }
  }

  lemma PrefixStands(ss: seq<string>, table: seq<string>)
    requires Distinct(ss) && |ss| <= LIMIT32 && ss <= table
    ensures AllNumbersStand(NumbersOf(ss), table)
  {
    hide NumbersOf;
    NumbersKnow(ss);
    forall s | s in NumbersOf(ss) ensures Stands(NumbersOf(ss), table, s) {
      assert Stands(NumbersOf(ss), ss, s);
    }
  }

  /** Numbers taken from one list are right for another table exactly if the list is
      a prefix of the table. */
  lemma AgreesExactly(ss: seq<string>, table: seq<string>)
    requires Distinct(ss) && |ss| <= LIMIT32
    ensures AllNumbersStand(NumbersOf(ss), table) <==> ss <= table
  {
    hide NumbersOf, AllNumbersStand, Distinct;
    if AllNumbersStand(NumbersOf(ss), table) {
      StandingIsPrefix(ss, table);
    }
    if ss <= table {
      PrefixStands(ss, table);
    }
  }

  /** Sorting different strings leaves them different. */
  lemma SortedKeys(ss: seq<string>)
    requires Distinct(ss)
    ensures InOrder(SortStrings(ss)) && Distinct(SortStrings(ss)) && forall s :: s in SortStrings(ss) <==> s in ss
  {
    hide SortStrings, InOrder;
    SortedStrings(ss);
    var t := SortStrings(ss);
    OnlyOnce(ss);
    forall s ensures s in t <==> s in ss {
      assert s in multiset(t) <==> s in multiset(ss);
    }
    forall i, j | 0 <= i < j < |t| ensures t[i] != t[j] {
      Twice(t, i, j);
    }
  }

  lemma {:induction false} OnlyOnce(ss: seq<string>)
    requires Distinct(ss)
    ensures forall s :: multiset(ss)[s] <= 1
  {
    if ss != [] {
      OnlyOnce(ss[1..]);
      Seqs.Uncons(ss);
      assert ss[0] !in ss[1..];
      assert multiset(ss) == multiset{ss[0]} + multiset(ss[1..]);
    }
  }

  lemma Twice(t: seq<string>, i: nat, j: nat)
    requires i < j < |t| && forall s :: multiset(t)[s] <= 1
    ensures t[i] != t[j]
  {
    Seqs.Parts(t, j);
    assert multiset(t) == multiset(t[..j]) + multiset(t[j..]);
    var x, y := t[..j][i], t[j..][0];
    assert x in multiset(t[..j]) && y in multiset(t[j..]);
    assert multiset(t)[x] == multiset(t[..j])[x] + multiset(t[j..])[x];
  }

  /* Positions of series */

  function InsertNumber(n: nat, ns: seq<nat>): seq<nat> {
    if ns == [] || n <= ns[0] then [n] + ns else [ns[0]] + InsertNumber(n, ns[1..])
  }

  function SortNumbers(ns: seq<nat>): seq<nat> {
    if ns == [] then [] else InsertNumber(ns[0], SortNumbers(ns[1..]))
  }

  lemma {:induction false} InsertedNumber(n: nat, ns: seq<nat>, p: nat)
    requires Increasing(ns, p) && p < n && n !in ns
    ensures Increasing(InsertNumber(n, ns), p) && Elements(InsertNumber(n, ns)) == Elements(ns) + {n}
  {
    hide Increasing, Elements;
    if ns == [] {
      FirstAndRest(n, [], p);
      Ordered(n);
    } else {
      Seqs.Uncons(ns);
      FirstAndRest(ns[0], ns[1..], p);
      if n <= ns[0] {
        FirstAndRest(n, ns, p);
        FirstAndRest(ns[0], ns[1..], n);
      } else {
        InsertedNumber(n, ns[1..], ns[0]);
        FirstAndRest(ns[0], InsertNumber(n, ns[1..]), p);
      }
    }
  }

  lemma Ordered(n: nat)
    ensures Increasing([], n) && Elements([]) == {}
  {
  }

  /** Different positive numbers are sorted into a strictly increasing list of them. */
  lemma {:induction false} SortedNumbers(ns: seq<nat>)
    requires forall i :: 0 <= i < |ns| ==> ns[i] > 0
    requires forall i, j :: 0 <= i < j < |ns| ==> ns[i] != ns[j]
    ensures Increasing(SortNumbers(ns), 0) && Elements(SortNumbers(ns)) == Elements(ns)
  {
    if ns != [] {
      hide Increasing, Elements;
      SortedNumbers(ns[1..]);
      Seqs.Uncons(ns);
      FirstAndRest(ns[0], ns[1..], 0);
      Elsewhere(ns, SortNumbers(ns[1..]));
      InsertedNumber(ns[0], SortNumbers(ns[1..]), 0);
    }
  }

  lemma Elsewhere(ns: seq<nat>, t: seq<nat>)
    requires ns != [] && Elements(t) == Elements(ns[1..])
    requires forall i, j :: 0 <= i < j < |ns| ==> ns[i] != ns[j]
    ensures ns[0] !in t
  {
    assert forall i :: 0 <= i < |ns| - 1 ==> ns[1..][i] == ns[i + 1];
    assert ns[0] !in Elements(ns[1..]);
  }

  lemma {:induction false} SortedSmall(ns: seq<nat>)
    requires Small(ns)
    ensures Small(SortNumbers(ns))
  {
    if ns != [] {
      SortedSmall(ns[1..]);
      InsertedSmall(ns[0], SortNumbers(ns[1..]));
    }
  }

  lemma {:induction false} InsertedSmall(n: nat, ns: seq<nat>)
    requires Small(ns) && n < LIMIT32
    ensures Small(InsertNumber(n, ns))
  {
    if ns != [] {
      InsertedSmall(n, ns[1..]);
    }
  }
}
