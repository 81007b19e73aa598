/** Checkpoints of the log (checkpoint.go): what is dropped makes no difference to
    replay. */
module Checkpointing {
  import opened Samples
  import opened Labelling
  import opened Tombstones
  import opened Replay
  import Seqs
  import opened ReplayMeaning

  function Recent(xs: seq<RefSample>, mint: int64): seq<RefSample> {
    if xs == [] then [] else (if xs[0].s.t >= mint then [xs[0]] else []) + Recent(xs[1..], mint)
  }

  function RecentStones(sts: seq<Stone>, mint: int64): seq<Stone> {
    if sts == [] then [] else (if sts[0].itv.maxt >= mint then [sts[0]] else []) + RecentStones(sts[1..], mint)
  }

  /** What a checkpoint keeps of one record; nothing if nothing in it is relevant. */
  function KeptOf(e: Event, keep: nat -> bool, mint: int64): seq<Event> {
    match e
    case Series(ref, _) => if keep(ref) then [e] else []
    case Samples(xs) => var ys := Recent(xs, mint); if ys == [] then [] else [Samples(ys)]
    case Stones(sts) => var ts := RecentStones(sts, mint); if ts == [] then [] else [Stones(ts)]
  }

  function KeptOfAll(log: seq<Event>, keep: nat -> bool, mint: int64): seq<Event> {
    if log == [] then [] else KeptOf(log[0], keep, mint) + KeptOfAll(log[1..], keep, mint)
  }

  /** The ids for which there is a series record. */
  function RefsOf(log: seq<Event>): set<nat> {
    if log == [] then {} else (if log[0].Series? then {log[0].ref} else {}) + RefsOf(log[1..])
  }

  function Grow(known: set<nat>, e: Event): set<nat> {
    if e.Series? then known + {e.ref} else known
  }

  /** A series with a new id, or samples of ids that are known or never will be. */
  ghost predicate Fits(known: set<nat>, e: Event, later: seq<Event>) {
    match e
    case Series(r, _) => r !in known
    case Samples(xs) => forall x :: x in xs ==> x.ref in known || x.ref !in RefsOf(later)
    case Stones(_) => true
  }

  /** Each series record comes before the samples of its series. */
  ghost predicate Preceded(known: set<nat>, log: seq<Event>)
    decreases |log|
  {
    log == [] || (Fits(known, log[0], log[1..]) && Preceded(Grow(known, log[0]), log[1..]))
  }

  lemma PrecededCons(known: set<nat>, e: Event, log: seq<Event>)
    ensures Preceded(known, [e] + log) <==> Fits(known, e, log) && Preceded(Grow(known, e), log)
  {
    assert ([e] + log)[1..] == log;
  }

  lemma {:induction false} RefsConcat(a: seq<Event>, b: seq<Event>)
    ensures RefsOf(a + b) == RefsOf(a) + RefsOf(b)
    ensures AllSamples(a + b) == AllSamples(a) + AllSamples(b)
  {
    if a == [] {
      Seqs.Nothing(b);
      Seqs.Nothing(AllSamples(b));
    } else {
      Seqs.Tail(a, b);
      RefsConcat(a[1..], b);
      Seqs.Associate(if a[0].Samples? then a[0].samples else [], AllSamples(a[1..]), AllSamples(b));
    }
  }

  /** Ids are recorded once. */
  lemma {:induction false} RecordedOnce(known: set<nat>, log: seq<Event>)
    requires Preceded(known, log)
    ensures RefsOf(log) !! known
    decreases |log|
  {
    if log != [] {
      RecordedOnce(Grow(known, log[0]), log[1..]);
    }
  }

  lemma {:induction false} PrecededRest(known: set<nat>, a: seq<Event>, b: seq<Event>)
    requires Preceded(known, a + b)
    ensures Preceded(known + RefsOf(a), b) && RefsOf(a) !! RefsOf(b)
    decreases |a|
  {
    hide Fits;
    if a == [] {
      Seqs.Nothing(b);
      assert known + {} == known;
    } else {
      Seqs.Tail(a, b);
      PrecededRest(Grow(known, a[0]), a[1..], b);
      assert Grow(known, a[0]) + RefsOf(a[1..]) == known + RefsOf(a);
    }
    RecordedOnce(known + RefsOf(a), b);
  }

  lemma {:induction false} FinalRefsAmong(refs: map<Labels, nat>, log: seq<Event>)
    ensures FinalRefs(refs, log).Values <= refs.Values + RefsOf(log)
    decreases |log|
  {
    if log != [] {
      FinalRefsAmong(if log[0].Series? then Register(refs, log[0]) else refs, log[1..]);
    }
  }

  /** A label set that is recorded again keeps its first id. */
  lemma {:induction false} PrecededIsWellOrdered(refs: map<Labels, nat>, known: set<nat>, log: seq<Event>)
    requires refs.Values <= known && Preceded(known, log)
    ensures WellOrdered(refs, log)
    decreases |log|
  {
    if log != [] {
      if log[0].Series? {
        PrecededIsWellOrdered(Register(refs, log[0]), Grow(known, log[0]), log[1..]);
      } else {
        RecordedOnce(known, log[1..]);
        FinalRefsAmong(refs, log[1..]);
        PrecededIsWellOrdered(refs, known, log[1..]);
      }
    }
  }

  lemma {:induction false} RecentIs(xs: seq<RefSample>, mint: int64)
    ensures forall x :: x in Recent(xs, mint) <==> x in xs && x.s.t >= mint
  {
    if xs != [] {
      RecentIs(xs[1..], mint);
      assert xs == [xs[0]] + xs[1..];
    }
  }

  /** Of deleted ranges, exactly those are kept that do not end too early, in order. */
  lemma {:induction false} RecentStonesIs(sts: seq<Stone>, mint: int64)
    ensures forall st :: st in RecentStones(sts, mint) <==> st in sts && st.itv.maxt >= mint
    ensures multiset(RecentStones(sts, mint)) <= multiset(sts)
    ensures (forall st :: st in sts ==> st.itv.maxt >= mint) ==> RecentStones(sts, mint) == sts
  {
    if sts != [] {
      var rest := RecentStones(sts[1..], mint);
      RecentStonesIs(sts[1..], mint);
      Seqs.Uncons(sts);
      assert multiset(sts) == multiset{sts[0]} + multiset(sts[1..]);
      assert multiset([sts[0]] + rest) == multiset{sts[0]} + multiset(rest);
    }
  }

  lemma {:induction false} RecentConcat(a: seq<RefSample>, b: seq<RefSample>, mint: int64)
    ensures Recent(a + b, mint) == Recent(a, mint) + Recent(b, mint)
  {
    if a == [] {
      Seqs.Nothing(b);
      Seqs.Nothing(Recent(b, mint));
    } else {
      Seqs.Tail(a, b);
      RecentConcat(a[1..], b, mint);
      Seqs.Associate([a[0]], Recent(a[1..], mint), Recent(b, mint));
      Seqs.Associate([], Recent(a[1..], mint), Recent(b, mint));
    }
  }

  /** The effect of the filter on the samples of a log, and on its series. */
  lemma {:induction false} KeptSamples(log: seq<Event>, keep: nat -> bool, mint: int64)
    ensures AllSamples(KeptOfAll(log, keep, mint)) == Recent(AllSamples(log), mint)
  {
    hide KeptOf, Recent, RefsOf;
    if log != [] {
      var e, rest := log[0], KeptOfAll(log[1..], keep, mint);
      KeptSamples(log[1..], keep, mint);
      RefsConcat(KeptOf(e, keep, mint), rest);
      OneKept(e, keep, mint, rest);
      RecentConcat(if e.Samples? then e.samples else [], AllSamples(log[1..]), mint);
      NoRecent(mint);
    } else {
      NoRecent(mint);
    }
  }

  lemma NoRecent(mint: int64)
    ensures Recent([], mint) == []
  {
  }

  lemma {:induction false} KeptRefs(log: seq<Event>, keep: nat -> bool, mint: int64)
    ensures var k := KeptOfAll(log, keep, mint);
            RefsOf(k) == set r | r in RefsOf(log) && keep(r)
  {
    hide KeptOf, AllSamples;
    if log != [] {
      var e, rest := log[0], KeptOfAll(log[1..], keep, mint);
      KeptRefs(log[1..], keep, mint);
      RefsConcat(KeptOf(e, keep, mint), rest);
      OneKept(e, keep, mint, rest);
    }
  }

  lemma OneKept(e: Event, keep: nat -> bool, mint: int64, rest: seq<Event>)
    ensures var k := KeptOf(e, keep, mint);
            && RefsOf(k) == (if e.Series? && keep(e.ref) then {e.ref} else {})
            && AllSamples(k) == (if e.Samples? then Recent(e.samples, mint) else [])
            && |k| <= 1
            && (k == [] ==> k + rest == rest)
            && (k != [] ==> (k + rest)[1..] == rest && (k + rest)[0] == k[0])
            && (k != [] && k[0].Series? ==> k[0] == e)
  {
    var k := KeptOf(e, keep, mint);
    assert k != [] ==> k[1..] == [];
  }

  /** The series of the checkpointed part that the filter drops. */
  function Dropped(pre: seq<Event>, keep: nat -> bool): set<nat> {
    set r | r in RefsOf(pre) && !keep(r)
  }

  /** One record more in front, before and after filtering. */
  lemma KeptCons(pre: seq<Event>, post: seq<Event>, keep: nat -> bool, mint: int64)
    requires pre != []
    ensures var k, rest := KeptOf(pre[0], keep, mint), KeptOfAll(pre[1..], keep, mint) + post;
            |k| <= 1 && KeptOfAll(pre, keep, mint) + post == if k == [] then rest else [k[0]] + rest
    ensures pre + post == [pre[0]] + (pre[1..] + post)
  {
    hide KeptOf;
    KeptAtMostOne(pre[0], keep, mint);
    AtMostOne(KeptOf(pre[0], keep, mint), KeptOfAll(pre[1..], keep, mint), post);
    AtMostOne([pre[0]], pre[1..], post);
    assert [pre[0]] + pre[1..] == pre;
  }

  lemma KeptAtMostOne(e: Event, keep: nat -> bool, mint: int64)
    ensures |KeptOf(e, keep, mint)| <= 1
  {
  }

  lemma AtMostOne(k: seq<Event>, rest: seq<Event>, post: seq<Event>)
    requires |k| <= 1
    ensures k + rest + post == if k == [] then rest + post else [k[0]] + (rest + post)
  {
  }

  lemma {:induction false} PrecededWithout(known: set<nat>, d: set<nat>, log: seq<Event>)
    requires Preceded(known, log) && d !! RefsOf(log)
    ensures Preceded(known - d, log)
    decreases |log|
  {
    if log != [] {
      assert log[0].Series? ==> Grow(known, log[0]) - d == Grow(known - d, log[0]);
      PrecededWithout(Grow(known, log[0]), d, log[1..]);
    }
  }

  /** Series records still precede the samples that are left. */
  lemma {:induction false} KeptIsPreceded(known: set<nat>, d: set<nat>, pre: seq<Event>, post: seq<Event>,
      keep: nat -> bool, mint: int64)
    requires Preceded(known, pre + post) && d !! RefsOf(post)
    requires forall r :: r in RefsOf(pre) ==> (r in d <==> !keep(r))
    requires forall x :: x in AllSamples(pre) && x.s.t >= mint ==> x.ref !in d
    ensures Preceded(known - d, KeptOfAll(pre, keep, mint) + post)
    decreases |pre|
  {
    if pre == [] {
      assert pre + post == post && KeptOfAll(pre, keep, mint) + post == post;
      PrecededWithout(known, d, post);
    } else {
      var e, tail := pre[0], pre[1..];
      PreWithout(pre, d, keep, mint);
      hide Preceded, Fits, KeptOf, KeptOfAll, AllSamples, RefsOf;
      KeptCons(pre, post, keep, mint);
      PrecededCons(known, e, tail + post);
      KeptIsPreceded(Grow(known, e), d, tail, post, keep, mint);
      KeptFits(known, d, e, tail, post, keep, mint);
      var k, rest := KeptOf(e, keep, mint), KeptOfAll(tail, keep, mint) + post;
      if k != [] {
        PrecededCons(known - d, k[0], rest);
      }
    }
  }

  lemma PreWithout(pre: seq<Event>, d: set<nat>, keep: nat -> bool, mint: int64)
    requires pre != []
    requires forall r :: r in RefsOf(pre) ==> (r in d <==> !keep(r))
    requires forall x :: x in AllSamples(pre) && x.s.t >= mint ==> x.ref !in d
    ensures forall r :: r in RefsOf(pre[1..]) ==> (r in d <==> !keep(r))
    ensures forall x :: x in AllSamples(pre[1..]) && x.s.t >= mint ==> x.ref !in d
    ensures pre[0].Series? ==> (pre[0].ref in d <==> !keep(pre[0].ref))
    ensures pre[0].Samples? ==> forall x :: x in pre[0].samples && x.s.t >= mint ==> x.ref !in d
  {
    assert AllSamples(pre) == (if pre[0].Samples? then pre[0].samples else []) + AllSamples(pre[1..]);
  }

  lemma KeptFits(known: set<nat>, d: set<nat>, e: Event, tail: seq<Event>, post: seq<Event>, keep: nat -> bool,
      mint: int64)
    requires Fits(known, e, tail + post)
    requires e.Series? ==> (e.ref in d <==> !keep(e.ref))
    requires e.Samples? ==> forall x :: x in e.samples && x.s.t >= mint ==> x.ref !in d
    ensures var k := KeptOf(e, keep, mint);
            if k == [] then Grow(known, e) - d == known - d
            else
              && Fits(known - d, k[0], KeptOfAll(tail, keep, mint) + post)
              && Grow(known - d, k[0]) == Grow(known, e) - d
  {
    var k, rest := KeptOf(e, keep, mint), KeptOfAll(tail, keep, mint);
    if e.Samples? {
      LaterRefs(tail, post, keep, mint);
      RecentIs(e.samples, mint);
    }
    hide KeptOfAll, RefsOf, Recent, RecentStones;
    if e.Series? {
      assert k == [] ==> known + {e.ref} - d == known - d;
      assert k != [] ==> known + {e.ref} - d == known - d + {e.ref};
    }
  }

  lemma LaterRefs(tail: seq<Event>, post: seq<Event>, keep: nat -> bool, mint: int64)
    ensures RefsOf(KeptOfAll(tail, keep, mint) + post) <= RefsOf(tail + post)
  {
    hide KeptOfAll, AllSamples;
    KeptRefs(tail, keep, mint);
    RefsConcat(tail, post);
    RefsConcat(KeptOfAll(tail, keep, mint), post);
  }

  lemma {:induction false} AddRecentStones(stones: map<nat, seq<Interval>>, sts: seq<Stone>, mint: int64, from: int64)
    requires mint <= from
    ensures AddStones(stones, RecentStones(sts, mint), from) == AddStones(stones, sts, from)
    decreases |sts|
  {
    hide Added;
    if sts != [] {
      var rest := RecentStones(sts[1..], mint);
      AddRecentStones(AddStone(stones, sts[0], from), sts[1..], mint, from);
      assert [] + rest == rest && ([sts[0]] + rest)[1..] == rest;
    }
  }

  function NextStones(stones: map<nat, seq<Interval>>, e: Event, from: int64): map<nat, seq<Interval>> {
    if e.Stones? then AddStones(stones, e.stones, from) else stones
  }

  lemma FinalStonesCons(stones: map<nat, seq<Interval>>, e: Event, log: seq<Event>, from: int64)
    ensures FinalStones(stones, [e] + log, from) == FinalStones(NextStones(stones, e, from), log, from)
  {
    assert ([e] + log)[1..] == log;
  }

  lemma KeptNextStones(stones: map<nat, seq<Interval>>, e: Event, keep: nat -> bool, mint: int64, from: int64)
    requires mint <= from
    ensures var k := KeptOf(e, keep, mint);
            |k| <= 1 && NextStones(stones, e, from) == if k == [] then stones else NextStones(stones, k[0], from)
  {
    if e.Stones? {
      AddRecentStones(stones, e.stones, mint, from);
    }
    AddNoStones(stones, from);
    hide AddStones;
  }

  lemma {:induction false} KeptStones(stones: map<nat, seq<Interval>>, pre: seq<Event>, post: seq<Event>,
      keep: nat -> bool, mint: int64, from: int64)
    requires mint <= from
    ensures FinalStones(stones, KeptOfAll(pre, keep, mint) + post, from) == FinalStones(stones, pre + post, from)
    decreases |pre|
  {
    if pre == [] {
      assert pre + post == post && KeptOfAll(pre, keep, mint) + post == post;
    } else {
      hide FinalStones, KeptOfAll, KeptOf, NextStones;
      var e, k, rest := pre[0], KeptOf(pre[0], keep, mint), KeptOfAll(pre[1..], keep, mint) + post;
      KeptCons(pre, post, keep, mint);
      FinalStonesCons(stones, e, pre[1..] + post, from);
      KeptStones(NextStones(stones, e, from), pre[1..], post, keep, mint, from);
      KeptNextStones(stones, e, keep, mint, from);
      if k != [] {
        FinalStonesCons(stones, k[0], rest, from);
      }
    }
  }

  lemma AddNoStones(stones: map<nat, seq<Interval>>, from: int64)
    ensures AddStones(stones, [], from) == stones
  {
  }

  lemma {:induction false} AppliedRecent(c: seq<Sample>, xs: seq<RefSample>, r: nat, mint: int64, from: int64)
    requires mint <= from
    ensures Applied(c, Recent(xs, mint), r, from) == Applied(c, xs, r, from)
    decreases |xs|
  {
    hide Accept;
    if xs != [] {
      var next := if xs[0].ref == r && xs[0].s.t >= from then Accept(c, xs[0].s) else c;
      AppliedRecent(next, xs[1..], r, mint, from);
      var rest := Recent(xs[1..], mint);
      assert [] + rest == rest && ([xs[0]] + rest)[1..] == rest;
    }
  }

  lemma {:induction false} AppliedOld(xs: seq<RefSample>, r: nat, from: int64)
    requires forall x :: x in xs && x.ref == r ==> x.s.t < from
    ensures Applied([], xs, r, from) == []
  {
    if xs != [] {
      AppliedOld(xs[1..], r, from);
    }
  }

  /** What the log of a head looks like. A label set may be recorded again under another
      id, as it is when its series was dropped and came back. */
  ghost predicate Regular(log: seq<Event>) { Preceded({}, log) }

  /** No sample from mint on belongs to a series that the filter drops. */
  ghost predicate Irrelevant(pre: seq<Event>, post: seq<Event>, keep: nat -> bool, mint: int64) {
    forall x :: x in AllSamples(pre) + AllSamples(post) && x.s.t >= mint ==> x.ref !in Dropped(pre, keep)
  }

  lemma KeptIsRegular(pre: seq<Event>, post: seq<Event>, keep: nat -> bool, mint: int64)
    requires Regular(pre + post) && Irrelevant(pre, post, keep, mint)
    ensures Regular(KeptOfAll(pre, keep, mint) + post)
    ensures RefsOf(KeptOfAll(pre, keep, mint) + post) == RefsOf(pre + post) - Dropped(pre, keep)
  {
    var d, k := Dropped(pre, keep), KeptOfAll(pre, keep, mint);
    PrecededRest({}, pre, post);
    KeptRefs(pre, keep, mint);
    RefsConcat(pre, post);
    RefsConcat(k, post);
    hide AllSamples, KeptOfAll, Preceded;
    KeptIsPreceded({}, d, pre, post, keep, mint);
    assert {} - d == {};
  }

  /* Label sets that are recorded again */

  /** The ids under which replay finds the label sets. */
  function Firsts(log: seq<Event>): map<Labels, nat> { FinalRefs(map[], log) }

  /** A label set that still has a record after filtering has not lost its first id. */
  ghost predicate FirstsStay(pre: seq<Event>, post: seq<Event>, keep: nat -> bool, mint: int64) {
    forall l :: l in Firsts(KeptOfAll(pre, keep, mint) + post) ==>
      l in Firsts(pre + post) && Firsts(pre + post)[l] !in Dropped(pre, keep)
  }

  /** The ids with and without dropping d. */
  ghost predicate Filtered(refs: map<Labels, nat>, some: map<Labels, nat>, d: set<nat>, known: set<nat>) {
    && refs.Values <= known && some.Values <= known - d && some.Keys <= refs.Keys
    && (forall l :: l in refs && refs[l] !in d ==> l in some && some[l] == refs[l])
    && forall l :: l in some && some[l] != refs[l] ==> some[l] !in refs.Values
  }

  function Registered(refs: map<Labels, nat>, e: Event): map<Labels, nat> {
    if e.Series? then Register(refs, e) else refs
  }

  lemma FinalRefsCons(refs: map<Labels, nat>, e: Event, log: seq<Event>)
    ensures FinalRefs(refs, [e] + log) == FinalRefs(Registered(refs, e), log)
  {
    Seqs.Cons(e, log);
  }

  lemma FilteredStep(refs: map<Labels, nat>, some: map<Labels, nat>, d: set<nat>, known: set<nat>, e: Event)
    requires Filtered(refs, some, d, known) && (e.Series? ==> e.ref !in known)
    ensures Filtered(Registered(refs, e), if e.Series? && e.ref in d then some else Registered(some, e), d,
                     Grow(known, e))
  {
    if e.Series? {
      RegisterValues(refs, e);
      RegisterValues(some, e);
    }
  }

  lemma {:induction false} FilteredBehind(refs: map<Labels, nat>, some: map<Labels, nat>, d: set<nat>,
      known: set<nat>, post: seq<Event>)
    requires Filtered(refs, some, d, known) && Preceded(known, post) && d !! RefsOf(post)
    ensures Filtered(FinalRefs(refs, post), FinalRefs(some, post), d, known + RefsOf(post))
    decreases |post|
  {
    hide Filtered;
    if post == [] {
      assert known + {} == known;
    } else {
      FilteredStep(refs, some, d, known, post[0]);
      FilteredBehind(Registered(refs, post[0]), Registered(some, post[0]), d, Grow(known, post[0]), post[1..]);
      assert Grow(known, post[0]) + RefsOf(post[1..]) == known + RefsOf(post);
    }
  }

  lemma {:induction false} FilteredAll(refs: map<Labels, nat>, some: map<Labels, nat>, d: set<nat>, known: set<nat>,
      pre: seq<Event>, post: seq<Event>, keep: nat -> bool, mint: int64)
    requires Filtered(refs, some, d, known) && Preceded(known, pre + post) && d !! RefsOf(post)
    requires forall r :: r in RefsOf(pre) ==> (r in d <==> !keep(r))
    ensures Filtered(FinalRefs(refs, pre + post), FinalRefs(some, KeptOfAll(pre, keep, mint) + post), d,
                     known + RefsOf(pre + post))
    decreases |pre|
  {
    hide Filtered, FinalRefs;
    if pre == [] {
      Seqs.Nothing(post);
      FilteredBehind(refs, some, d, known, post);
    } else {
      var e, tail := pre[0], pre[1..];
      var k, rest := KeptOf(e, keep, mint), KeptOfAll(tail, keep, mint) + post;
      hide KeptOfAll;
      KeptCons(pre, post, keep, mint);
      FinalRefsCons(refs, e, tail + post);
      Seqs.Cons(e, tail + post);
      FilteredStep(refs, some, d, known, e);
      if k == [] {
        FilteredAll(Registered(refs, e), some, d, Grow(known, e), tail, post, keep, mint);
      } else {
        FinalRefsCons(some, k[0], rest);
        FilteredAll(Registered(refs, e), Registered(some, e), d, Grow(known, e), tail, post, keep, mint);
      }
      assert Grow(known, e) + RefsOf(tail + post) == known + RefsOf(pre + post);
    }
  }

  /** Filtering brings no other ids to light if and only if first ids stay. */
  lemma FirstsExactly(pre: seq<Event>, post: seq<Event>, keep: nat -> bool, mint: int64)
    requires Regular(pre + post)
    ensures var all, some := Firsts(pre + post).Values, Firsts(KeptOfAll(pre, keep, mint) + post).Values;
            && (FirstsStay(pre, post, keep, mint) <==> some <= all)
            && (FirstsStay(pre, post, keep, mint) ==> some == all - Dropped(pre, keep))
  {
    var d := Dropped(pre, keep);
    PrecededRest({}, pre, post);
    FilteredAll(map[], map[], d, {}, pre, post, keep, mint);
    hide FinalRefs, KeptOfAll, RefsOf;
    var refs, some := Firsts(pre + post), Firsts(KeptOfAll(pre, keep, mint) + post);
    assert Filtered(refs, some, d, {} + RefsOf(pre + post));
    forall l | l in some && refs[l] in d ensures some[l] !in refs.Values {
    }
    forall v | v in refs.Values && v !in d ensures v in some.Values {
      var l :| l in refs && refs[l] == v;
    }
    if FirstsStay(pre, post, keep, mint) {
      forall v | v in some.Values ensures v in refs.Values {
        var l :| l in some && some[l] == v;
      }
    }
  }

  /** The one head has all that the other has, and besides only empty series. */
  ghost predicate AllBut(f: Head, g: Head) {
    && f.series.Keys <= g.series.Keys
    && (forall r :: r in g.series ==> g.series[r] == if r in f.series then f.series[r] else [])
    && f.stones == g.stones && f.minT == g.minT && f.maxT == g.maxT
  }

  ghost predicate Fresh(h: Head) { h.refs == map[] && h.series == map[] }

  lemma ReplayOfRegular(h: Head, log: seq<Event>, from: int64)
    requires Fresh(h) && Regular(log)
    ensures var g := Sequential(h, log, from);
            && g.series.Keys == Firsts(log).Values && Replayed(h, g, AllSamples(log), from)
            && g.stones == FinalStones(h.stones, log, from)
  {
    hide Sequential, Replayed;
    assert h.refs.Values == {};
    PrecededIsWellOrdered(h.refs, {}, log);
    SequentialMeans(h, log, from);
  }

  /** The samples that count are the same before and after filtering. */
  lemma SameEffect(pre: seq<Event>, post: seq<Event>, keep: nat -> bool, mint: int64, from: int64,
      all: set<nat>)
    requires mint <= from && Irrelevant(pre, post, keep, mint)
    ensures var xs, ys := AllSamples(pre + post), AllSamples(KeptOfAll(pre, keep, mint) + post);
            && (forall r :: Applied([], ys, r, from) == Applied([], xs, r, from))
            && (forall r :: r in Dropped(pre, keep) ==> Applied([], xs, r, from) == [])
            && forall x :: Effective(x, ys, all - Dropped(pre, keep), from) <==> Effective(x, xs, all, from)
  {
    var a, b, k := AllSamples(pre), AllSamples(post), KeptOfAll(pre, keep, mint);
    RefsConcat(pre, post);
    RefsConcat(k, post);
    KeptSamples(pre, keep, mint);
    RecentIs(a, mint);
    hide AllSamples, KeptOfAll, RefsOf, Applied, Recent;
    forall r ensures Applied([], Recent(a, mint) + b, r, from) == Applied([], a + b, r, from) {
      AppliedConcat([], a, b, r, from);
      AppliedConcat([], Recent(a, mint), b, r, from);
      AppliedRecent([], a, r, mint, from);
    }
    forall r | r in Dropped(pre, keep) ensures Applied([], a + b, r, from) == [] {
      AppliedOld(a + b, r, from);
    }
  }

  /** Replaying a checkpoint and the rest of the log: the kept series have the same
      samples, in the same order, and the deleted ranges and the head's times are the
      same; a dropped series had nothing left. This holds exactly if no label set that
      still has a record has lost its first id: otherwise a second id, which replay
      ignored before, comes to light. */
  lemma CheckpointPreservesReplay(h: Head, pre: seq<Event>, post: seq<Event>, keep: nat -> bool, mint: int64,
      from: int64)
    requires Fresh(h) && Regular(pre + post) && mint <= from && Irrelevant(pre, post, keep, mint)
    ensures var cp := KeptOfAll(pre, keep, mint) + post;
            && Regular(cp)
            && (AllBut(Sequential(h, cp, from), Sequential(h, pre + post, from))
                <==> FirstsStay(pre, post, keep, mint))
  {
    var cp := KeptOfAll(pre, keep, mint) + post;
    KeptIsRegular(pre, post, keep, mint);
    FirstsExactly(pre, post, keep, mint);
    hide Regular, Sequential, KeptOfAll, AllSamples, RefsOf, Effective, Applied, FinalStones, Firsts, FirstsStay,
         Irrelevant;
    ReplayOfRegular(h, pre + post, from);
    ReplayOfRegular(h, cp, from);
    var f, g := Sequential(h, cp, from), Sequential(h, pre + post, from);
    SameEffect(pre, post, keep, mint, from, g.series.Keys);
    KeptStones(h.stones, pre, post, keep, mint, from);
    if FirstsStay(pre, post, keep, mint) {
      SameTimes(f.minT, g.minT, f.maxT, g.maxT, h, AllSamples(cp), AllSamples(pre + post), f.series.Keys,
                g.series.Keys, from);
    }
  }

  lemma SameTimes(m: int64, m': int64, n: int64, n': int64, h: Head, ys: seq<RefSample>, xs: seq<RefSample>,
      some: set<nat>, all: set<nat>, from: int64)
    requires IsMin(m, h.minT, ys, some, from) && IsMin(m', h.minT, xs, all, from)
    requires IsMax(n, h.maxT, ys, some, from) && IsMax(n', h.maxT, xs, all, from)
    requires forall x :: Effective(x, ys, some, from) <==> Effective(x, xs, all, from)
    ensures m == m' && n == n'
  {
    hide Effective;
  }

  /* Any number of checkpoints */

  /** A checkpoint of the first n records of the log as it is then. */
  datatype Round = Round(n: nat, keep: nat -> bool, mint: int64)

  function Checkpointed(log: seq<Event>, r: Round): seq<Event>
    requires r.n <= |log|
  {
    KeptOfAll(log[..r.n], r.keep, r.mint) + log[r.n..]
  }

  ghost predicate Allowed(log: seq<Event>, rounds: seq<Round>, from: int64)
    decreases |rounds|
  {
    rounds == [] ||
    var r := rounds[0];
    && r.n <= |log| && r.mint <= from && Irrelevant(log[..r.n], log[r.n..], r.keep, r.mint)
    && FirstsStay(log[..r.n], log[r.n..], r.keep, r.mint)
    && Allowed(Checkpointed(log, r), rounds[1..], from)
  }

  ghost function AfterAll(log: seq<Event>, rounds: seq<Round>, from: int64): seq<Event>
    requires Allowed(log, rounds, from)
    decreases |rounds|
  {
    if rounds == [] then log else AfterAll(Checkpointed(log, rounds[0]), rounds[1..], from)
  }

  lemma {:induction false} CheckpointsPreserveReplay(h: Head, log: seq<Event>, rounds: seq<Round>, from: int64)
    requires Fresh(h) && Regular(log) && Allowed(log, rounds, from)
    ensures AllBut(Sequential(h, AfterAll(log, rounds, from), from), Sequential(h, log, from))
    decreases |rounds|
  {
    hide Sequential, Regular, Irrelevant, FirstsStay;
    if rounds != [] {
      var r := rounds[0];
      assert log == log[..r.n] + log[r.n..];
      CheckpointPreservesReplay(h, log[..r.n], log[r.n..], r.keep, r.mint, from);
      CheckpointsPreserveReplay(h, Checkpointed(log, r), rounds[1..], from);
    }
  }

  /* What replay ignores */

  /** The record of an id comes first among those of its label set. */
  ghost predicate IsFirst(seen: set<Labels>, log: seq<Event>, r: nat) {
    exists i :: && 0 <= i < |log| && log[i].Series? && log[i].ref == r && log[i].lset !in seen
                && forall j :: 0 <= j < i && log[j].Series? ==> log[j].lset != log[i].lset
  }

  lemma IsFirstCons(seen: set<Labels>, log: seq<Event>, r: nat)
    requires log != []
    ensures var e := log[0];
            IsFirst(seen, log, r) <==>
              || (e.Series? && e.ref == r && e.lset !in seen)
              || IsFirst(if e.Series? then seen + {e.lset} else seen, log[1..], r)
  {
    var e, next := log[0], if log[0].Series? then seen + {log[0].lset} else seen;
    if IsFirst(seen, log, r) {
      var i :| && 0 <= i < |log| && log[i].Series? && log[i].ref == r && log[i].lset !in seen
               && forall j :: 0 <= j < i && log[j].Series? ==> log[j].lset != log[i].lset;
      if i > 0 {
        assert log[1..][i - 1] == log[i];
        assert forall j :: 0 <= j < i - 1 ==> log[1..][j] == log[j + 1];
      }
    }
    if IsFirst(next, log[1..], r) {
      var i :| && 0 <= i < |log[1..]| && log[1..][i].Series? && log[1..][i].ref == r && log[1..][i].lset !in next
               && forall j :: 0 <= j < i && log[1..][j].Series? ==> log[1..][j].lset != log[1..][i].lset;
      assert log[i + 1] == log[1..][i];
      assert forall j :: 0 < j < i + 1 ==> log[j] == log[1..][j - 1];
    }
  }

  lemma NoneFirst(seen: set<Labels>, r: nat)
    ensures !IsFirst(seen, [], r)
  {
  }

  lemma {:induction false} FinalRefsAre(refs: map<Labels, nat>, known: set<nat>, log: seq<Event>, r: nat)
    requires refs.Values <= known && Preceded(known, log)
    ensures r in FinalRefs(refs, log).Values <==> r in refs.Values || IsFirst(refs.Keys, log, r)
    decreases |log|
  {
    hide IsFirst, Fits;
    if log == [] {
      NoneFirst(refs.Keys, r);
    } else {
      var e := log[0];
      IsFirstCons(refs.Keys, log, r);
      FinalRefsAre(Registered(refs, e), Grow(known, e), log[1..], r);
      if e.Series? {
        RegisterValues(refs, e);
        assert Register(refs, e).Keys == refs.Keys + {e.lset};
      }
    }
  }

  /** Exactly the samples of first ids come back: those of another id for the same label
      set, which a series has after it was dropped and created again, are lost as long as
      the old record is in the log. */
  lemma ReplayedExactly(h: Head, log: seq<Event>, from: int64, r: nat)
    requires Fresh(h) && Regular(log)
    ensures var g := Sequential(h, log, from);
            && (r in g.series <==> IsFirst({}, log, r))
            && (r in g.series ==> g.series[r] == Applied([], AllSamples(log), r, from))
  {
    hide IsFirst, Sequential, AllSamples, Applied;
    ReplayOfRegular(h, log, from);
    var none: map<Labels, nat> := map[];
    assert none.Keys == {} && none.Values == {};
    FinalRefsAre(none, {}, log, r);
  }

  /** For instance, a series got the id 1, was dropped, and came back with the id 2. */
  lemma RecreatedIsLost(l: Labels)
    ensures var log := [Series(1, l), Series(2, l), Samples([RefSample(2, Sample(5, 7))])];
            var g := Sequential(Head(map[], map[], map[], MAX, MIN), log, 0);
            && Regular(log) && g.series == map[1 := []] && g.minT == MAX
  {
    var h, x := Head(map[], map[], map[], MAX, MIN), RefSample(2, Sample(5, 7));
    var e1, e2, e3 := Series(1, l), Series(2, l), Samples([x]);
    var log := [e1, e2, e3];
    assert log[1..] == [e2, e3] && [e2, e3][1..] == [e3] && [e3][1..] == [];
    assert Grow({}, e1) == {1} && Grow({1}, e2) == {1, 2};
    assert Preceded({1, 2}, [e3]) && Preceded({1}, [e2, e3]);
    var g := Create(h, e1);
    assert g.series == map[1 := []] && Create(g, e2) == g;
    assert [x][1..] == [];
    assert ApplyAll(g, [x], 0) == ApplyAll(Apply(g, x, 0), [], 0) == g;
    assert Sequential(g, [e3], 0) == Sequential(g, [], 0) == g;
    assert Sequential(g, [e2, e3], 0) == g;
  }

  /** A checkpoint without the record of id 1 brings the id 2 to light. */
  lemma RecreatedComesBack(l: Labels)
    ensures var pre, post := [Series(1, l)], [Series(2, l)];
            Regular(pre + post) && !FirstsStay(pre, post, r => r != 1, 0)
  {
    var e1, e2, keep := Series(1, l), Series(2, l), r => r != 1;
    var log := [e1] + [e2];
    assert log[1..] == [e2] && [e2][1..] == [] && [e1][1..] == [] && log[0] == e1;
    assert Grow({}, e1) == {1};
    assert Preceded({1}, [e2]);
    assert KeptOf(e1, keep, 0) == [] && KeptOfAll([e1], keep, 0) == [] && [] + [e2] == [e2];
    var none: map<Labels, nat> := map[];
    assert FinalRefs(map[l := 1], [e2]) == map[l := 1];
    assert FinalRefs(none, log) == FinalRefs(none[l := 1], [e2]);
    assert FinalRefs(none, [e2]) == FinalRefs(none[l := 2], []) == map[l := 2];
    assert l in Firsts([e2]) && Firsts(log)[l] == 1 && 1 in Dropped([e1], keep);
  }
}
