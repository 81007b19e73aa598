/** Facts about sequences that proofs cite where they would otherwise compare
    sequences element by element. */
module Seqs {

  lemma Tail<T>(a: seq<T>, b: seq<T>)
    requires a != []
    ensures (a + b)[0] == a[0] && (a + b)[1..] == a[1..] + b
  {
  }

  lemma Cons<T>(x: T, a: seq<T>)
    ensures ([x] + a)[0] == x && ([x] + a)[1..] == a
  {
  }

  lemma Uncons<T>(s: seq<T>)
    requires s != []
    ensures s == [s[0]] + s[1..]
  {
  }

  lemma Within<T>(s: seq<T>, i: nat, j: nat)
    requires i < j <= |s|
    ensures s[i] in s[..j] && s[i] in s
  {
  }

  lemma Snoc<T>(a: seq<T>, x: T)
    ensures (a + [x])[..|a|] == a && (a + [x])[|a|] == x
  {
  }

  lemma Nothing<T>(a: seq<T>)
    ensures a + [] == a && [] + a == a
  {
  }

  lemma Associate<T>(a: seq<T>, b: seq<T>, c: seq<T>)
    ensures a + (b + c) == a + b + c
  {
  }

  lemma Join<T>(s: seq<T>, i: nat, j: nat, k: nat)
    requires i <= j <= k <= |s|
    ensures s[i..k] == s[i..j] + s[j..k]
  {
  }

  lemma Prefix<T>(s: seq<T>, i: nat)
    requires i < |s|
    ensures s[..i + 1] == s[..i] + [s[i]] && s[i..] == [s[i]] + s[i + 1..] && s[..i + 1][..i] == s[..i]
  {
  }

  lemma Shift<T>(a: seq<T>, s: seq<T>, i: nat, j: nat)
    requires i <= j <= |s|
    ensures (a + s)[|a| + i..|a| + j] == s[i..j]
  {
  }

  lemma Parts<T>(s: seq<T>, i: nat)
    requires i <= |s|
    ensures s == s[..i] + s[i..] && (i == |s| ==> s[..i] == s && s[i..] == [])
  {
  }

  lemma Slice<T>(s: seq<T>, a: nat, b: nat, i: nat, j: nat)
    requires a <= b <= |s| && i <= j <= b - a
    ensures s[a..b][i..j] == s[a + i..a + j]
  {
    var t := s[a..b];
    assert forall k :: i <= k < j ==> t[k] == s[a + k];
  }

  lemma Onwards<T>(s: seq<T>, i: nat)
    requires i <= |s|
    ensures i < |s| <==> s[i..] != []
    ensures i < |s| ==> s[i..][0] == s[i] && s[i..][1..] == s[i + 1..]
  {
  }

  lemma Regroup<T>(a: seq<T>, f: seq<T>, g: seq<T>, t: seq<T>)
    ensures a + ((f + g) + t) == a + (f + (g + t)) == (a + f) + (g + t)
  {
  }

  lemma FourParts<T>(a: seq<T>, b: seq<T>, c: seq<T>, d: seq<T>)
    ensures a + b + c + d == a + (b + (c + d))
  {
  }
}
