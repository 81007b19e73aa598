/** Label sets, their order and the matchers of labels/selector.go. */
module Labelling {

  datatype Label = Label(name: string, value: string)

  type Labels = seq<Label>

  /** The value of a label, empty when the label is not set. */
  function Get(ls: Labels, name: string): string {
    if ls == [] then "" else if ls[0].name == name then ls[0].value else Get(ls[1..], name)
  }

  ghost predicate UniqueNames(ls: Labels) {
    forall i, j :: 0 <= i < j < |ls| ==> ls[i].name != ls[j].name
  }

  lemma {:induction false} GetIs(ls: Labels, name: string, v: string)
    requires UniqueNames(ls) && v != ""
    ensures Get(ls, name) == v <==> Label(name, v) in ls
  {
    if ls != [] {
      var t := ls[1..];
      assert UniqueNames(t) by {
        assert forall i :: 0 <= i < |t| ==> t[i] == ls[i + 1];
      }
      GetIs(t, name, v);
      assert forall l :: l in ls <==> l == ls[0] || l in t;
    }
  }

  /** The order of strings as bytes. */
  predicate Le(a: string, b: string) {
    a == [] || (b != [] && (a[0] < b[0] || (a[0] == b[0] && Le(a[1..], b[1..]))))
  }

  lemma {:induction false} LeTransitive(a: string, b: string, c: string)
    requires Le(a, b) && Le(b, c)
    ensures Le(a, c)
  {
    if a != [] && b[0] == a[0] && c[0] == b[0] {
      LeTransitive(a[1..], b[1..], c[1..]);
    }
  }

  predicate HasPrefix(v: string, p: string) { p <= v }

  /** Among the strings from p on, those with prefix p come first. */
  lemma {:induction false} PrefixesComeFirst(p: string, v: string, w: string)
    ensures HasPrefix(v, p) ==> Le(p, v)
    ensures Le(p, v) && Le(v, w) && HasPrefix(w, p) ==> HasPrefix(v, p)
  {
    if p != [] && v != [] {
      assert HasPrefix(v, p) <==> v[0] == p[0] && HasPrefix(v[1..], p[1..]) by {
        if v[0] == p[0] && HasPrefix(v[1..], p[1..]) {
          assert v == [v[0]] + v[1..] && p == [p[0]] + p[1..];
        }
      }
      if w != [] {
        assert HasPrefix(w, p) ==> w[0] == p[0] && HasPrefix(w[1..], p[1..]);
        PrefixesComeFirst(p[1..], v[1..], w[1..]);
      } else {
        PrefixesComeFirst(p[1..], v[1..], w);
      }
    }
  }

  datatype Matcher =
    | Equal(name: string, value: string)
    | Prefix(name: string, prefix: string)
    | Regexp(name: string, re: string -> bool)
    | Not(matcher: Matcher)
  {
    function Name(): string {
      if Not? then matcher.Name() else name
    }

    predicate Matches(v: string) {
      match this
      case Equal(_, x) => v == x
      case Prefix(_, p) => HasPrefix(v, p)
      case Regexp(_, re) => re(v)
      case Not(m) => !m.Matches(v)
    }
  }

  /** Selector.Matches: every matcher accepts the value of its label. */
  predicate Selects(ms: seq<Matcher>, ls: Labels) {
    forall i :: 0 <= i < |ms| ==> ms[i].Matches(Get(ls, ms[i].Name()))
  }

  /* The order of label sets */

  function CompareStrings(a: string, b: string): int {
    if a == [] then (if b == [] then 0 else -1)
    else if b == [] then 1
    else if a[0] < b[0] then -1
    else if a[0] > b[0] then 1
    else CompareStrings(a[1..], b[1..])
  }

  /** Name and value of one label after the other; then the shorter set first. */
  function Compare(a: Labels, b: Labels): int {
    if a == [] || b == [] then |a| - |b|
    else
      var d := CompareStrings(a[0].name, b[0].name);
      if d != 0 then d
      else
        var e := CompareStrings(a[0].value, b[0].value);
        if e != 0 then e else Compare(a[1..], b[1..])
  }

  lemma {:induction false} StringsOrder(a: string, b: string, c: string)
    ensures CompareStrings(a, b) == 0 <==> a == b
    ensures CompareStrings(a, b) == -CompareStrings(b, a)
    ensures CompareStrings(a, b) <= 0 && CompareStrings(b, c) < 0 ==> CompareStrings(a, c) < 0
    ensures CompareStrings(a, b) < 0 && CompareStrings(b, c) <= 0 ==> CompareStrings(a, c) < 0
    decreases |a| + |b| + |c|
  {
    if a != [] && b != [] {
      StringsOrder(a[1..], b[1..], if c == [] then [] else c[1..]);
      assert a == [a[0]] + a[1..] && b == [b[0]] + b[1..];
    }
  }

  /** Strings are ordered by the first character in which they differ, and a string comes
      before those that it begins. */
  lemma {:induction false} FirstCharacterDecides(a: string, b: string, i: nat)
    requires i <= |a| && i <= |b| && a[..i] == b[..i]
    ensures i < |a| && i < |b| && a[i] < b[i] ==> CompareStrings(a, b) < 0 && Le(a, b) && !Le(b, a)
    ensures i == |a| < |b| ==> CompareStrings(a, b) < 0 && Le(a, b) && !Le(b, a)
    ensures i == |a| == |b| ==> CompareStrings(a, b) == 0 && Le(a, b)
  {
    if i > 0 {
      assert a[0] == a[..i][0] && b[0] == b[..i][0];
      assert a[1..][..i - 1] == a[..i][1..] && b[1..][..i - 1] == b[..i][1..];
      FirstCharacterDecides(a[1..], b[1..], i - 1);
    }
  }

  /** Label sets are ordered by the first label in which they differ, there by its name and
      then by its value, and a set comes before those that it begins. */
  lemma {:induction false} FirstLabelDecides(a: Labels, b: Labels, i: nat)
    requires i <= |a| && i <= |b| && a[..i] == b[..i]
    ensures i < |a| && i < |b| && CompareStrings(a[i].name, b[i].name) < 0 ==> Compare(a, b) < 0
    ensures i < |a| && i < |b| && a[i].name == b[i].name && CompareStrings(a[i].value, b[i].value) < 0
        ==> Compare(a, b) < 0
    ensures i == |a| < |b| ==> Compare(a, b) < 0
  {
    hide CompareStrings;
    if i > 0 {
      assert a[0] == a[..i][0] && b[0] == b[..i][0];
      assert a[1..][..i - 1] == a[..i][1..] && b[1..][..i - 1] == b[..i][1..];
      StringsOrder(a[0].name, b[0].name, []);
      StringsOrder(a[0].value, b[0].value, []);
      FirstLabelDecides(a[1..], b[1..], i - 1);
    } else if a != [] && b != [] {
      StringsOrder(a[0].name, b[0].name, []);
    }
  }

  /** Compare is a strict total order of label sets. */
  lemma {:induction false} LabelsOrder(a: Labels, b: Labels, c: Labels)
    ensures Compare(a, b) == 0 <==> a == b
    ensures Compare(a, b) < 0 <==> Compare(b, a) > 0
    ensures Compare(a, b) < 0 && Compare(b, c) < 0 ==> Compare(a, c) < 0
    decreases |a| + |b| + |c|
  {
    hide CompareStrings;
    if a != [] && b != [] {
      StringsOrder(a[0].name, b[0].name, []);
      StringsOrder(a[0].value, b[0].value, []);
      LabelsOrder(a[1..], b[1..], if c == [] then [] else c[1..]);
      assert a == [a[0]] + a[1..] && b == [b[0]] + b[1..];
      if c != [] {
        StringsOrder(a[0].name, b[0].name, c[0].name);
        StringsOrder(a[0].value, b[0].value, c[0].value);
      }
    }
  }
}
