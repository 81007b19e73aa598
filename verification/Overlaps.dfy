/** Detection of overlapping blocks (OverlappingBlocks in db.go). */
module Overlaps {
  import opened Samples
  import Seqs

  datatype Block = Block(ulid: nat, mint: int64, maxt: int64)

  datatype TimeRange = TimeRange(min: int64, max: int64)

  ghost predicate Overlap(a: Block, b: Block) { a.mint < b.maxt && b.mint < a.maxt }

  /** As the blocks are given: by start, each with some extent. */
  ghost predicate ByStart(bm: seq<Block>) {
    && (forall i :: 0 <= i < |bm| ==> bm[i].mint < bm[i].maxt)
    && forall i, j :: 0 <= i < j < |bm| ==> bm[i].mint <= bm[j].mint
  }

  /** The blocks that go on after a time. */
  function Running(s: seq<Block>, t: int64): seq<Block> {
    if s == [] then [] else Running(s[..|s| - 1], t) + if t < s[|s| - 1].maxt then [s[|s| - 1]] else []
  }

  lemma {:induction false} RunningIs(s: seq<Block>, t: int64, x: Block)
    ensures x in Running(s, t) <==> x in s && t < x.maxt
  {
    if s != [] {
      RunningIs(s[..|s| - 1], t, x);
      assert s == s[..|s| - 1] + [s[|s| - 1]];
    }
  }

  /** Blocks up to the i-th that have not ended when the i-th starts. */
  function Pending(bm: seq<Block>, i: nat): seq<Block>
    requires i < |bm|
  {
    (if i == 0 then [] else Running(Pending(bm, i - 1), bm[i].mint)) + [bm[i]]
  }

  lemma {:induction false} PendingIs(bm: seq<Block>, i: nat, x: Block)
    requires ByStart(bm) && i < |bm|
    ensures x in Pending(bm, i) <==> x in bm[..i + 1] && bm[i].mint < x.maxt
  {
    hide ByStart, Running;
    Starts(bm, i);
    LastIn(bm, i, x);
    if i > 0 {
      RunningIs(Pending(bm, i - 1), bm[i].mint, x);
      PendingIs(bm, i - 1, x);
    }
  }

  lemma Starts(bm: seq<Block>, i: nat)
    requires ByStart(bm) && i < |bm|
    ensures bm[i].mint < bm[i].maxt && (i > 0 ==> bm[i - 1].mint <= bm[i].mint)
  {
  }

  lemma LastIn(bm: seq<Block>, i: nat, x: Block)
    requires i < |bm|
    ensures x in bm[..i + 1] <==> x in bm[..i] || x == bm[i]
    ensures i > 0 ==> bm[..i - 1 + 1] == bm[..i]
    ensures i == 0 ==> bm[..i] == []
  {
    assert bm[..i + 1] == bm[..i] + [bm[i]];
  }

  /** At least two blocks, each pair of them overlapping. */
  ghost predicate Group(g: seq<Block>) {
    |g| >= 2 && forall x, y :: x in g && y in g ==> Overlap(x, y)
  }

  /** Blocks that are pending together all contain the start of the last one. */
  lemma PendingOverlap(bm: seq<Block>, i: nat)
    requires ByStart(bm) && i < |bm|
    ensures forall x, y :: x in Pending(bm, i) && y in Pending(bm, i) ==> Overlap(x, y)
  {
    forall x | x in Pending(bm, i) ensures x.mint <= bm[i].mint < x.maxt {
      PendingIs(bm, i, x);
    }
  }

  function Cap(g: seq<Block>): int64 {
    if g == [] then MAX else var c := Cap(g[..|g| - 1]); if c > g[|g| - 1].maxt then g[|g| - 1].maxt else c
  }

  lemma {:induction false} CapIs(g: seq<Block>)
    ensures forall x :: x in g ==> Cap(g) <= x.maxt
    ensures g != [] ==> exists x :: x in g && Cap(g) == x.maxt
  {
    if g != [] {
      CapIs(g[..|g| - 1]);
      assert g == g[..|g| - 1] + [g[|g| - 1]];
      assert g[|g| - 1] in g;
    }
  }

  /** The latest start in a group, but no time before zero. */
  function Latest(g: seq<Block>): int64 {
    if g == [] then 0 else var m := Latest(g[..|g| - 1]); if m < g[|g| - 1].mint then g[|g| - 1].mint else m
  }

  /** The range that the blocks of a group have in common. */
  function Critical(g: seq<Block>): TimeRange { TimeRange(Latest(g), Cap(g)) }

  method CriticalOf(g: seq<Block>) returns (r: TimeRange)
    ensures r == Critical(g)
  {
    r := TimeRange(0, MAX);
    for k := 0 to |g|
      invariant r == Critical(g[..k])
    {
      assert g[..k + 1][..k] == g[..k];
      if r.max > g[k].maxt {
        r := r.(max := g[k].maxt);
      }
      if r.min < g[k].mint {
        r := r.(min := g[k].mint);
      }
    }
    assert g[..|g|] == g;
  }

  method StillRunning(pending: seq<Block>, t: int64) returns (s: seq<Block>, ended: bool)
    ensures s == Running(pending, t) && (ended <==> exists p :: p in pending && p.maxt <= t)
    ensures !ended ==> s == pending
  {
    s, ended := [], false;
    for k := 0 to |pending|
      invariant s == Running(pending[..k], t) && (ended <==> exists p :: p in pending[..k] && p.maxt <= t)
      invariant !ended ==> s == pending[..k]
    {
      var p := pending[k];
      assert pending[..k + 1] == pending[..k] + [p];
      if t >= p.maxt {
        ended := true;
      } else {
        s := s + [p];
      }
    }
    assert pending[..|pending|] == pending;
  }

  /** Every set of simultaneously pending blocks is inside one of the groups, and
      there are no groups without such blocks. */
  ghost predicate Grouped(bm: seq<Block>, i: nat, groups: seq<seq<Block>>)
    requires i < |bm|
  {
    && (forall j :: 0 <= j <= i && |Pending(bm, j)| >= 2 ==>
          exists a :: 0 <= a < |groups| && Inside(Pending(bm, j), groups[a]))
    && (groups != [] ==> exists j :: 0 <= j <= i && |Pending(bm, j)| >= 2)
  }

  ghost predicate Inside(s: seq<Block>, g: seq<Block>) { forall x :: x in s ==> x in g }

  /** The groups end one after the other; only the last may be going on. */
  ghost predicate Successive(groups: seq<seq<Block>>, t: int64, going: bool) {
    && (forall a :: 0 <= a < |groups| && (a + 1 < |groups| || !going) ==> Cap(groups[a]) <= t)
    && forall a, b :: 0 <= a < b < |groups| ==> Cap(groups[a]) < Cap(groups[b])
  }

  /** What is known after the i-th block; going tells that no block of the last
      group has ended, which then consists of all pending blocks. */
  ghost predicate Tracked(bm: seq<Block>, i: nat, groups: seq<seq<Block>>, going: bool)
    requires i < |bm|
  {
    && (going && groups != [] ==> groups[|groups| - 1] == Pending(bm, i))
    && (forall a :: 0 <= a < |groups| ==> Group(groups[a]) && Inside(groups[a], bm))
    && Grouped(bm, i, groups)
    && Successive(groups, bm[i].mint, going)
  }

  /** The previous groups once the i-th block starts, and some block has ended. */
  lemma GroupsEnd(bm: seq<Block>, i: nat, groups: seq<seq<Block>>, going: bool, ended: bool)
    requires ByStart(bm) && 0 < i < |bm| && Tracked(bm, i - 1, groups, going)
    requires ended <==> exists p :: p in Pending(bm, i - 1) && p.maxt <= bm[i].mint
    ensures Successive(groups, bm[i].mint, going && !ended)
    ensures groups == [] ==> Successive(groups, bm[i].mint, false)
  {
    hide Pending, Group, Inside, Grouped;
    if groups != [] && going && ended {
      CapIs(groups[|groups| - 1]);
    }
    assert bm[i - 1].mint <= bm[i].mint;
    hide ByStart, Cap;
  }

  lemma PendingGroup(bm: seq<Block>, i: nat)
    requires ByStart(bm) && i < |bm|
    ensures |Pending(bm, i)| >= 2 ==> Group(Pending(bm, i))
    ensures Inside(Pending(bm, i), bm) && bm[i].mint < Cap(Pending(bm, i))
  {
    PendingOverlap(bm, i);
    CapIs(Pending(bm, i));
    forall x | x in Pending(bm, i) ensures x in bm && bm[i].mint < x.maxt {
      PendingIs(bm, i, x);
    }
    assert Pending(bm, i) != [];
  }

  lemma GroupsSkip(bm: seq<Block>, i: nat, groups: seq<seq<Block>>, going: bool)
    requires ByStart(bm) && 0 < i < |bm| && Grouped(bm, i - 1, groups) && Pending(bm, i) == [bm[i]]
    requires forall a :: 0 <= a < |groups| ==> Group(groups[a]) && Inside(groups[a], bm)
    requires Successive(groups, bm[i].mint, going) && !going
    ensures Tracked(bm, i, groups, false)
  {
    hide Pending, Inside, Successive, Group;
  }

  lemma GroupsGrow(bm: seq<Block>, i: nat, groups: seq<seq<Block>>, grown: seq<seq<Block>>)
    requires ByStart(bm) && 0 < i < |bm| && Grouped(bm, i - 1, groups)
    requires |Pending(bm, i)| >= 2 && |groups| <= |grown| && grown != [] && grown[|grown| - 1] == Pending(bm, i)
    requires forall a :: 0 <= a < |groups| ==> Inside(groups[a], grown[a])
    ensures Grouped(bm, i, grown)
  {
    hide Pending;
    forall j | 0 <= j <= i && |Pending(bm, j)| >= 2
      ensures exists a :: 0 <= a < |grown| && Inside(Pending(bm, j), grown[a])
    {
      if j == i {
        assert Inside(Pending(bm, j), grown[|grown| - 1]);
      } else {
        var a :| 0 <= a < |groups| && Inside(Pending(bm, j), groups[a]);
        assert Inside(Pending(bm, j), grown[a]);
      }
    }
  }

  /** The i-th block joins the last group, or is in a new one. */
  lemma GroupsTrack(bm: seq<Block>, i: nat, groups: seq<seq<Block>>, grown: seq<seq<Block>>)
    requires ByStart(bm) && 0 < i < |bm| && |Pending(bm, i)| >= 2 && Grouped(bm, i - 1, groups)
    requires forall a :: 0 <= a < |groups| ==> Group(groups[a]) && Inside(groups[a], bm)
    requires if |grown| == |groups| then
               && groups != [] && Inside(groups[|groups| - 1], Pending(bm, i))
               && Successive(groups, bm[i].mint, true)
             else |grown| == |groups| + 1 && Successive(groups, bm[i].mint, false)
    requires forall a :: 0 <= a < |grown| - 1 ==> grown[a] == groups[a]
    requires grown[|grown| - 1] == Pending(bm, i)
    ensures Tracked(bm, i, grown, true)
  {
    hide Pending, Cap, Group, ByStart, Grouped, Inside;
    PendingGroup(bm, i);
    assert forall a :: 0 <= a < |groups| ==> Inside(groups[a], grown[a]) by {
      forall a | 0 <= a < |groups| ensures Inside(groups[a], grown[a]) {
        InsideItself(groups[a]);
      }
    }
    GroupsGrow(bm, i, groups, grown);
  }

  lemma TrackedFirst(bm: seq<Block>)
    requires ByStart(bm) && bm != []
    ensures Tracked(bm, 0, [], true) && Pending(bm, 0) == [bm[0]]
  {
  }

  /** Unless some block has ended, there is still one running. */
  lemma RunningKeeps(s: seq<Block>, t: int64)
    ensures s != [] && Running(s, t) == [] ==> exists p :: p in s && p.maxt <= t
  {
    if s != [] {
      RunningIs(s, t, s[0]);
    }
  }

  lemma InsideItself(s: seq<Block>)
    ensures Inside(s, s)
  {
  }

  method FindGroups(bm: seq<Block>) returns (groups: seq<seq<Block>>)
    requires ByStart(bm) && |bm| > 0
    ensures Tracked(bm, |bm| - 1, groups, true) || Tracked(bm, |bm| - 1, groups, false)
  {
    hide ByStart, Tracked, Pending;
    TrackedFirst(bm);
    groups := [];
    var pending, continuous := [bm[0]], true;
    for i := 1 to |bm|
      invariant pending == Pending(bm, i - 1) && Tracked(bm, i - 1, groups, continuous)
    {
      pending, groups, continuous := AddBlock(bm, i, pending, groups, continuous);
    }
  }

  /** The next block joins the pending ones that have not ended before it. */
  method AddBlock(bm: seq<Block>, i: nat, pending: seq<Block>, groups: seq<seq<Block>>, going: bool)
    returns (pending': seq<Block>, groups': seq<seq<Block>>, going': bool)
    requires ByStart(bm) && 0 < i < |bm| && pending == Pending(bm, i - 1) && Tracked(bm, i - 1, groups, going)
    ensures pending' == Pending(bm, i) && Tracked(bm, i, groups', going')
  {
    hide ByStart, Running, Group, Inside, Grouped, Successive;
    var b := bm[i];
    var still, ended := StillRunning(pending, b.mint);
    GroupsEnd(bm, i, groups, going, ended);
    RunningKeeps(pending, b.mint);
    pending' := still + [b];
    assert pending' == Pending(bm, i);
    if |still| == 0 {
      GroupsSkip(bm, i, groups, false);
      return pending', groups, false;
    }
    if going && !ended && |groups| > 0 {
      groups' := groups[|groups| - 1 := groups[|groups| - 1] + [b]];
      InsideMore(groups[|groups| - 1], b);
    } else {
      groups' := groups + [still + [b]];
    }
    GroupsTrack(bm, i, groups, groups');
    going' := true;
  }

  lemma InsideMore(s: seq<Block>, b: Block)
    ensures Inside(s, s + [b])
  {
  }

  /** Several blocks of the list, each pair of them overlapping. */
  ghost predicate Together(s: seq<Block>, bm: seq<Block>) {
    Inside(s, bm) && Group(s) && exists x, y :: x in s && y in s && x != y
  }

  /** Some block of s is the last one in the list. */
  lemma {:induction false} LastOf(s: seq<Block>, bm: seq<Block>, n: nat) returns (j: nat)
    requires s != [] && 0 < n <= |bm| && Inside(s, bm[..n])
    ensures j < n && bm[j] in s && Inside(s, bm[..j + 1])
  {
    if bm[n - 1] in s {
      j := n - 1;
    } else {
      assert bm[..n] == bm[..n - 1] + [bm[n - 1]];
      assert s[0] in s && s[0] in bm[..n - 1];
      j := LastOf(s, bm, n - 1);
    }
  }

  lemma TogetherPending(s: seq<Block>, bm: seq<Block>) returns (j: nat)
    requires ByStart(bm) && Together(s, bm)
    ensures j < |bm| && Inside(s, Pending(bm, j)) && |Pending(bm, j)| >= 2
  {
    assert bm[..|bm|] == bm;
    assert s[0] in s;
    j := LastOf(s, bm, |bm|);
    forall x | x in s ensures x in Pending(bm, j) {
      assert Overlap(bm[j], x);
      PendingIs(bm, j, x);
    }
  }

  lemma PairPending(bm: seq<Block>, i: nat, j: nat)
    requires ByStart(bm) && i < j < |bm| && Overlap(bm[i], bm[j])
    ensures bm[i] in Pending(bm, j) && bm[j] in Pending(bm, j) && |Pending(bm, j)| >= 2
  {
    hide ByStart, Running, Pending;
    Seqs.Within(bm, i, j + 1);
    Seqs.Within(bm, i, j - 1 + 1);
    Starts(bm, j);
    InOrder(bm, i, j);
    PendingSplit(bm, j);
    PendingIs(bm, j, bm[i]);
    LastIn(bm, j, bm[j]);
    PendingIs(bm, j, bm[j]);
    PendingIs(bm, j - 1, bm[i]);
    RunningIs(Pending(bm, j - 1), bm[j].mint, bm[i]);
  }

  lemma PendingSplit(bm: seq<Block>, j: nat)
    requires 0 < j < |bm|
    ensures Pending(bm, j) == Running(Pending(bm, j - 1), bm[j].mint) + [bm[j]]
  {
  }

  /** A pending block besides the last one overlaps it. */
  lemma PendingPair(bm: seq<Block>, j: nat) returns (i: nat)
    requires ByStart(bm) && j < |bm| && |Pending(bm, j)| >= 2
    ensures i < j && Overlap(bm[i], bm[j])
  {
    hide ByStart, Running;
    PendingParts(bm, j);
    hide Pending;
    var x := Running(Pending(bm, j - 1), bm[j].mint)[0];
    RunningIs(Pending(bm, j - 1), bm[j].mint, x);
    PendingIs(bm, j - 1, x);
    i := EarlierOverlap(bm, j, x);
  }

  lemma PendingParts(bm: seq<Block>, j: nat)
    requires j < |bm| && |Pending(bm, j)| >= 2
    ensures j > 0 && |Running(Pending(bm, j - 1), bm[j].mint)| >= 1
  {
  }

  lemma EarlierOverlap(bm: seq<Block>, j: nat, x: Block) returns (i: nat)
    requires ByStart(bm) && 0 < j < |bm| && x in bm[..j - 1 + 1] && bm[j].mint < x.maxt
    ensures i < j && Overlap(bm[i], bm[j])
  {
    i :| 0 <= i < j && bm[i] == x;
    Starts(bm, j);
    InOrder(bm, i, j);
  }

  lemma InOrder(bm: seq<Block>, i: nat, j: nat)
    requires ByStart(bm) && i < j < |bm|
    ensures bm[i].mint <= bm[j].mint
  {
  }

  /** The result holds exactly the groups: their common ranges differ. */
  ghost predicate Collected(overlaps: map<TimeRange, seq<Block>>, groups: seq<seq<Block>>) {
    && (forall a :: 0 <= a < |groups| ==> Critical(groups[a]) in overlaps && overlaps[Critical(groups[a])] == groups[a])
    && (forall r :: r in overlaps ==> exists a :: 0 <= a < |groups| && r == Critical(groups[a]))
  }

  method Collect(groups: seq<seq<Block>>) returns (overlaps: map<TimeRange, seq<Block>>)
    requires forall a, b :: 0 <= a < b < |groups| ==> Cap(groups[a]) < Cap(groups[b])
    ensures Collected(overlaps, groups)
  {
    overlaps := map[];
    for k := 0 to |groups|
      invariant Collected(overlaps, groups[..k])
    {
      var r := CriticalOf(groups[k]);
      hide Latest, Cap;
      overlaps := overlaps[r := groups[k]];
      assert groups[..k + 1] == groups[..k] + [groups[k]];
    }
    assert groups[..|groups|] == groups;
  }

  lemma Alone(bm: seq<Block>)
    requires |bm| <= 1
    ensures forall s: seq<Block> :: !Together(s, bm)
  {
  }

  /** The groups of overlapping blocks, by the time range they have in common. */
  method OverlappingBlocks(bm: seq<Block>) returns (overlaps: map<TimeRange, seq<Block>>)
    requires ByStart(bm)
    ensures forall r :: r in overlaps ==> Group(overlaps[r]) && Inside(overlaps[r], bm) && r == Critical(overlaps[r])
    ensures forall s: seq<Block> :: Together(s, bm) ==> exists r :: r in overlaps && Inside(s, overlaps[r])
    ensures forall i, j :: 0 <= i < j < |bm| && Overlap(bm[i], bm[j]) ==>
              exists r :: r in overlaps && bm[i] in overlaps[r] && bm[j] in overlaps[r]
    ensures overlaps == map[] || exists i, j :: 0 <= i < j < |bm| && Overlap(bm[i], bm[j])
  {
    if |bm| <= 1 {
      Alone(bm);
      return map[];
    }
    hide ByStart, Pending, Critical, Group, Inside, Grouped, Collected;
    var groups := FindGroups(bm);
    overlaps := Collect(groups);
    Complete(bm, groups, overlaps);
    Sound(bm, groups, overlaps);
  }

  lemma Complete(bm: seq<Block>, groups: seq<seq<Block>>, overlaps: map<TimeRange, seq<Block>>)
    requires ByStart(bm) && bm != [] && Grouped(bm, |bm| - 1, groups) && Collected(overlaps, groups)
    ensures forall s: seq<Block> :: Together(s, bm) ==> exists r :: r in overlaps && Inside(s, overlaps[r])
    ensures forall i, j :: 0 <= i < j < |bm| && Overlap(bm[i], bm[j]) ==>
              exists r :: r in overlaps && bm[i] in overlaps[r] && bm[j] in overlaps[r]
  {
    hide ByStart, Pending, Critical;
    forall s: seq<Block> | Together(s, bm) ensures exists r :: r in overlaps && Inside(s, overlaps[r]) {
      var j := TogetherPending(s, bm);
      var a :| 0 <= a < |groups| && Inside(Pending(bm, j), groups[a]);
      assert Inside(s, overlaps[Critical(groups[a])]);
    }
    forall i, j | 0 <= i < j < |bm| && Overlap(bm[i], bm[j])
      ensures exists r :: r in overlaps && bm[i] in overlaps[r] && bm[j] in overlaps[r] {
      PairPending(bm, i, j);
      var a :| 0 <= a < |groups| && Inside(Pending(bm, j), groups[a]);
      assert bm[i] in overlaps[Critical(groups[a])];
    }
  }

  lemma Sound(bm: seq<Block>, groups: seq<seq<Block>>, overlaps: map<TimeRange, seq<Block>>)
    requires ByStart(bm) && bm != [] && Grouped(bm, |bm| - 1, groups) && Collected(overlaps, groups)
    requires forall a :: 0 <= a < |groups| ==> Group(groups[a]) && Inside(groups[a], bm)
    ensures forall r :: r in overlaps ==> Group(overlaps[r]) && Inside(overlaps[r], bm) && r == Critical(overlaps[r])
    ensures overlaps == map[] || exists i, j :: 0 <= i < j < |bm| && Overlap(bm[i], bm[j])
  {
    hide ByStart, Pending, Critical, Group, Inside;
    if overlaps != map[] {
      var j :| 0 <= j < |bm| && |Pending(bm, j)| >= 2;
      var i := PendingPair(bm, j);
    }
  }
}
