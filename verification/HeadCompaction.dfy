/** Runs of the head with any number of appenders, while its oldest windows are written
    to blocks and dropped: no sample is lost or doubled. */
module HeadCompaction {
  import opened Options
  import opened Samples
  import opened HeadSeries
  import opened HeadStates
  import opened HeadRuns
  import Replay
  import Seqs

  /** A window that has been written to a block and not yet been dropped. */
  datatype Window = Window(maxt: int64, block: map<nat, seq<Sample>>)

  /** For the theorems the state also tells which samples the blocks hold, all samples
      that the series have ever taken, and where the last window ends that was dropped. */
  datatype State = State(
    head: HeadState,
    apps: map<nat, Appender>,
    window: Option<Window>,
    persisted: map<nat, seq<Sample>>,
    accepted: map<nat, seq<Sample>>,
    last: int64)

  /** Single steps: appenders are opened, add, and end; and a compaction of the head
      writes a block and, when the block has been loaded, truncates the head. After a
      crash there are no appenders, and the head is what the log and the blocks yield. */
  datatype Event =
    | Open(id: nat)
    | Add(id: nat, ref: nat, x: Sample)
    | AddFast(id: nat, ref: nat, x: Sample)
    | Commit(id: nat)
    | Rollback(id: nat)
    | Persist
    | Truncate
    | Restart(head: HeadState)

  /** Up to where blocks have been written. */
  function End(s: State): int64 { if s.window.Some? then s.window.value.maxt else s.last }

  /** What replaying an intact log yields: from the end of the last block on the same
      samples, and the same newest time or a later one. */
  ghost predicate Replays(s: State, h: HeadState, width: int64) {
    && HeadOk(h, width) && End(s) <= h.minTime && (End(s) == MIN || s.head.maxTime <= h.maxTime)
    && forall ref :: var held := Held(s.head.series, ref);
         Held(h.series, ref) == if s.window.Some? then From(held, End(s)) else held
  }

  ghost predicate Possible(s: State, e: Event, width: int64)
    requires HeadOk(s.head, width)
  {
    match e
    case Open(id) => id !in s.apps
    case Add(id, _, x) => id in s.apps && TimeOk(x.t, width)
    case AddFast(id, _, x) => id in s.apps && TimeOk(x.t, width)
    case Commit(id) => id in s.apps && (s.apps[id].Appender? ==> CanAll(s.head.series, s.apps[id].samples, width))
    case Rollback(id) => id in s.apps
    case Persist => s.window.None? && Compactable(s.head, width)
    case Truncate => s.window.Some?
    case Restart(h) => Replays(s, h, width)
  }

  /** For each series, more samples. */
  ghost function Increased(m: map<nat, seq<Sample>>, more: map<nat, seq<Sample>>): map<nat, seq<Sample>> {
    map ref | ref in m.Keys + more.Keys :: In(m, ref) + In(more, ref)
  }

  ghost function AllGained(h: HeadState, a: Appender, width: int64): map<nat, seq<Sample>>
    requires HeadOk(h, width) && (a.Appender? ==> CanAll(h.series, a.samples, width))
  {
    if a.Unset? then map[] else map ref | ref in h.series :: Gained(h.series, a.samples, ref, width)
  }

  ghost function Next(s: State, e: Event, width: int64): State
    requires HeadOk(s.head, width) && Possible(s, e, width)
  {
    match e
    case Open(id) => s.(apps := s.apps[id := Opened(s.head, width)])
    case Add(id, ref, x) =>
      var (_, h, a) := Added(s.head, s.apps[id], ref, x, width);
      s.(head := h, apps := s.apps[id := a])
    case AddFast(id, ref, x) => s.(apps := s.apps[id := AddedFast(s.head, s.apps[id], ref, x, width).1])
    case Commit(id) =>
      s.(head := Committed(s.head, s.apps[id], width), apps := s.apps - {id},
         accepted := Increased(s.accepted, AllGained(s.head, s.apps[id], width)))
    case Rollback(id) => s.(apps := s.apps - {id})
    case Persist =>
      var (mint, maxt) := RangeForTimestamp(s.head.minTime, width);
      WindowBounds(s.head, width);
      s.(window := Some(Window(maxt, BlockOf(s.head, mint, maxt))))
    case Truncate =>
      var w := s.window.value;
      s.(head := Truncated(s.head, w.maxt), window := None, persisted := Increased(s.persisted, w.block),
         last := w.maxt)
    case Restart(h) =>
      State(h, map[], None, if s.window.Some? then Increased(s.persisted, s.window.value.block) else s.persisted,
            s.accepted, End(s))
  }

  /** Blocks and head hold every accepted sample once. */
  ghost predicate Conserved(s: State) {
    forall ref :: In(s.accepted, ref) == In(s.persisted, ref) + Held(s.head.series, ref)
  }

  ghost predicate AppendersOk(s: State, width: int64)
    requires IsWidth(width)
  {
    forall id :: id in s.apps ==> AppenderOk(s.apps[id], width) && After(s.apps[id], s.head)
  }

  /** The times of a window that has been written. */
  predicate WindowOk(w: Window, h: HeadState, width: int64)
    requires IsWidth(width)
  {
    && TimeOk(w.maxt, width) && w.maxt as int % width as int == 0
    && h.minTime < w.maxt && 0 <= h.maxTime && w.maxt <= h.maxTime - width / 2
  }

  predicate LastTimes(last: int64, h: HeadState, width: int64)
    requires IsWidth(width)
  {
    last == MIN ||
    (TimeOk(last, width) && last as int % width as int == 0 && 0 <= h.maxTime && last <= h.maxTime - width / 2)
  }

  /** The block holds what truncation is going to remove. */
  ghost predicate Exact(w: Window, h: HeadState) {
    forall ref :: In(w.block, ref) == Below(Held(h.series, ref), w.maxt)
  }

  /** No appender takes samples before a time. */
  ghost predicate Quiet(apps: map<nat, Appender>, maxt: int64) {
    forall id :: id in apps && apps[id].Appender? ==> maxt <= apps[id].minValid
  }

  /** What every step keeps. */
  ghost predicate Sound(s: State, width: int64) {
    && HeadOk(s.head, width) && AppendersOk(s, width)
    && (s.window.Some? ==> WindowOk(s.window.value, s.head, width))
    && LastTimes(s.last, s.head, width)
  }

  ghost predicate Inv(s: State, width: int64) {
    && Sound(s, width) && Conserved(s)
    && (s.window.Some? ==> Exact(s.window.value, s.head) && Quiet(s.apps, s.window.value.maxt))
    && s.last <= s.head.minTime && Quiet(s.apps, s.last)
  }

  lemma OpenSound(s: State, id: nat, width: int64)
    requires Sound(s, width) && id !in s.apps
    ensures Sound(Next(s, Open(id), width), width)
    ensures Opened(s.head, width).Appender? ==> Opened(s.head, width).minValid == s.head.maxTime - width / 2
  {
    OpenKeeps(s.head, width);
    hide HeadOk, AppenderOk;
  }

  lemma AddSound(s: State, id: nat, ref: nat, x: Sample, width: int64)
    requires Sound(s, width) && Possible(s, Add(id, ref, x), width)
    ensures var t := Next(s, Add(id, ref, x), width);
            && Sound(t, width) && (forall k :: Held(t.head.series, k) == Held(s.head.series, k))
            && (forall k :: k != id && k in t.apps ==> k in s.apps && t.apps[k] == s.apps[k]) && t.apps[id].Appender?
            && (s.apps[id].Appender? ==> t.apps[id].minValid == s.apps[id].minValid)
            && (s.apps[id].Unset? ==> t.apps[id].minValid == t.head.maxTime - width / 2)
            && t.accepted == s.accepted && t.persisted == s.persisted && t.window == s.window
  {
    AddKeeps(s.head, s.apps[id], ref, x, width);
    AddedTimes(s.head, s.apps[id], ref, x, width);
    hide HeadOk, AppenderOk, Added, Held;
  }

  /** The minimum time moves only when it is set for the first time. */
  lemma AddedTimes(h: HeadState, a: Appender, ref: nat, x: Sample, width: int64)
    requires HeadOk(h, width) && TimeOk(x.t, width)
    ensures h.minTime != MAX ==> Added(h, a, ref, x, width).1.minTime == h.minTime
  {
    hide AddedFast, AllOk;
  }

  lemma AddFastSound(s: State, id: nat, ref: nat, x: Sample, width: int64)
    requires Sound(s, width) && Possible(s, AddFast(id, ref, x), width)
    ensures var t := Next(s, AddFast(id, ref, x), width);
            && Sound(t, width)
            && (forall k :: k != id && k in t.apps ==> k in s.apps && t.apps[k] == s.apps[k])
            && (t.apps[id].Appender? ==> s.apps[id].Appender? && t.apps[id].minValid == s.apps[id].minValid)
  {
    assert AppenderOk(s.apps[id], width);
    hide AppenderOk, AddedFast, WindowOk, LastTimes;
    AddFastKeeps(s.head, s.apps[id], ref, x, width);
    hide HeadOk;
  }

  lemma CommitSound(s: State, id: nat, width: int64)
    requires Sound(s, width) && Possible(s, Commit(id), width)
    ensures Sound(Next(s, Commit(id), width), width)
  {
    var a := s.apps[id];
    CommitKeeps(s.head, a, width);
    CommitTimes(s.head, a, width);
    hide HeadOk, AppenderOk, Committed;
    TimesStay(s, Committed(s.head, a, width), width);
    hide WindowOk, LastTimes;
  }

  /** A head whose times have been widened. */
  lemma TimesStay(s: State, g: HeadState, width: int64)
    requires Sound(s, width) && g.minTime <= s.head.minTime && s.head.maxTime <= g.maxTime
    ensures s.window.Some? ==> WindowOk(s.window.value, g, width)
    ensures LastTimes(s.last, g, width)
  {
    hide HeadOk, AppendersOk;
  }

  lemma CommitTimes(h: HeadState, a: Appender, width: int64)
    requires HeadOk(h, width) && (a.Appender? ==> CanAll(h.series, a.samples, width)) && After(a, h)
    ensures var g := Committed(h, a, width); g.minTime <= h.minTime && h.maxTime <= g.maxTime
  {
    hide AllOk;
  }

  /** A commit adds what the series take of it, to them and to what has been accepted. */
  lemma CommitConserves(s: State, id: nat, width: int64)
    requires Sound(s, width) && Possible(s, Commit(id), width) && Conserved(s)
    ensures var t := Next(s, Commit(id), width); var more := AllGained(s.head, s.apps[id], width);
            && Conserved(t)
            && forall ref :: Held(t.head.series, ref) == Held(s.head.series, ref) + In(more, ref)
  {
    hide HeadOk, AppendersOk, Held;
    var t, more := Next(s, Commit(id), width), AllGained(s.head, s.apps[id], width);
    forall ref ensures Held(t.head.series, ref) == Held(s.head.series, ref) + In(more, ref) {
      Committing(s.head, s.apps[id], ref, width);
    }
    forall ref ensures In(t.accepted, ref) == In(t.persisted, ref) + Held(t.head.series, ref) {
      InIncreased(s.accepted, more, ref);
      Seqs.Associate(In(s.persisted, ref), Held(s.head.series, ref), In(more, ref));
    }
  }

  lemma Committing(h: HeadState, a: Appender, ref: nat, width: int64)
    requires HeadOk(h, width) && (a.Appender? ==> CanAll(h.series, a.samples, width))
    ensures Held(Committed(h, a, width).series, ref) == Held(h.series, ref) + In(AllGained(h, a, width), ref)
  {
    if a.Unset? {
      Seqs.Nothing(Held(h.series, ref));
    } else {
      CommitHolds(h.series, a.samples, ref, width);
      if ref !in h.series {
        NothingHeld(0);
        assert StepAll(h.series, a.samples, width).Keys == h.series.Keys;
        assert Held(h.series, ref) == [];
      }
      hide AllOk, CanAll, StepAll, Gained;
    }
  }

  lemma InIncreased(m: map<nat, seq<Sample>>, more: map<nat, seq<Sample>>, ref: nat)
    ensures In(Increased(m, more), ref) == In(m, ref) + In(more, ref)
  {
  }

  /** Writing a block: it holds the window's samples, all of the head's below its end. */
  lemma PersistExact(s: State, width: int64)
    requires Sound(s, width) && s.window.None? && Compactable(s.head, width)
    ensures var t := Next(s, Persist, width); var (mint, maxt) := RangeForTimestamp(s.head.minTime, width);
            && Sound(t, width) && Exact(t.window.value, t.head) && t.window.value.maxt == maxt
            && forall ref, x :: x in In(t.window.value.block, ref) ==> mint <= x.t < maxt
  {
    var (mint, maxt) := RangeForTimestamp(s.head.minTime, width);
    WindowBounds(s.head, width);
    BlockIsBelow(s.head, mint, maxt, width);
    hide RangeForTimestamp, Held, Below, BlockOf, HeadOk, AppenderOk;
  }

  lemma BlockIsBelow(h: HeadState, mint: int64, maxt: int64, width: int64)
    requires HeadOk(h, width) && mint <= h.minTime && TimeOk(maxt, width) && maxt as int % width as int == 0
    ensures forall ref :: In(BlockOf(h, mint, maxt), ref) == Below(Held(h.series, ref), maxt)
    ensures forall ref, x :: x in In(BlockOf(h, mint, maxt), ref) ==> mint <= x.t < maxt
  {
    hide SeriesState.Ok, Bounded, Visible, Below;
    var block := BlockOf(h, mint, maxt);
    NothingHeld(maxt);
    forall ref
      ensures In(block, ref) == Below(Held(h.series, ref), maxt)
      ensures forall x :: x in In(block, ref) ==> mint <= x.t < maxt
    {
      if ref in h.series {
        VisibleIsBelow(h.series[ref], mint, h.minTime, h.maxTime, maxt, width);
      }
    }
  }

  lemma SamePrefix(a: seq<Sample>, x: seq<Sample>, y: seq<Sample>, b: seq<Sample>)
    ensures a + x + b == a + y + b <==> x == y
  {
    if a + x + b == a + y + b {
      var u, v := a + x + b, a + y + b;
      assert |x| == |y|;
      assert u[|a|..|a| + |x|] == x && v[|a|..|a| + |y|] == y;
      assert u[|a|..|a| + |x|] == v[|a|..|a| + |y|];
    }
  }

  /** Dropping a window keeps the samples if and only if its block is exact. */
  lemma TruncateExactly(s: State, width: int64)
    requires Sound(s, width) && s.window.Some? && Conserved(s)
    ensures Sound(Next(s, Truncate, width), width)
    ensures Conserved(Next(s, Truncate, width)) <==> Exact(s.window.value, s.head)
  {
    TruncateSound(s, width);
    hide HeadOk, AppendersOk, Held, Below, From, Truncated;
    var t, w := Next(s, Truncate, width), s.window.value;
    TruncateKeeps(s.head, w.maxt, width);
    forall ref
      ensures In(t.accepted, ref) == In(t.persisted, ref) + Held(t.head.series, ref)
         <==> In(w.block, ref) == Below(Held(s.head.series, ref), w.maxt)
    {
      var held := Held(s.head.series, ref);
      InIncreased(s.persisted, w.block, ref);
      Seqs.Associate(In(s.persisted, ref), Below(held, w.maxt), From(held, w.maxt));
      SamePrefix(In(s.persisted, ref), In(w.block, ref), Below(held, w.maxt), From(held, w.maxt));
    }
  }

  lemma TruncateSound(s: State, width: int64)
    requires Sound(s, width) && s.window.Some?
    ensures Sound(Next(s, Truncate, width), width)
  {
    hide HeadOk, Held, Below, From, Truncated, AppenderOk;
    TruncateKeeps(s.head, s.window.value.maxt, width);
  }

  /** What a commit in between does to the exactness of a block: it stays exact if and
      only if no series takes a sample before its end. */
  lemma CommitInWindow(s: State, id: nat, width: int64)
    requires Sound(s, width) && Possible(s, Commit(id), width) && Conserved(s)
    requires s.window.Some? && Exact(s.window.value, s.head)
    ensures Exact(s.window.value, Next(s, Commit(id), width).head)
       <==> forall ref, x :: x in In(AllGained(s.head, s.apps[id], width), ref) ==> s.window.value.maxt <= x.t
  {
    hide HeadOk, AppendersOk, WindowOk, Conserved, Held, Below, AllGained, Committed, CanAll;
    var t, more, w := Next(s, Commit(id), width), AllGained(s.head, s.apps[id], width), s.window.value;
    CommitConserves(s, id, width);
    forall ref
      ensures Below(Held(t.head.series, ref), w.maxt) == In(w.block, ref)
         <==> forall x :: x in In(more, ref) ==> w.maxt <= x.t
    {
      BelowConcat(Held(s.head.series, ref), In(more, ref), w.maxt);
      AllOnOneSide(In(more, ref), w.maxt);
      NoMore(Below(Held(s.head.series, ref), w.maxt), Below(In(more, ref), w.maxt));
    }
  }

  lemma NoMore(a: seq<Sample>, b: seq<Sample>)
    ensures a + b == a <==> b == []
  {
    if a + b == a {
      assert |b| == 0;
    }
  }

  /** Appenders that take nothing before the window's end commit nothing before it. */
  lemma QuietCommit(s: State, id: nat, width: int64)
    requires Sound(s, width) && Possible(s, Commit(id), width) && s.window.Some? && Quiet(s.apps, s.window.value.maxt)
    ensures forall ref, x :: x in In(AllGained(s.head, s.apps[id], width), ref) ==> s.window.value.maxt <= x.t
  {
    var a, more := s.apps[id], AllGained(s.head, s.apps[id], width);
    forall ref, x | x in In(more, ref) ensures s.window.value.maxt <= x.t {
      if a.Appender? && ref in s.head.series {
        GainedAmong(s.head.series, a.samples, ref, width);
        var i :| 0 <= i < |a.samples| && a.samples[i] == Replay.RefSample(ref, x);
        assert a.samples[i].s.t == x.t;
      }
    }
  }

  /** Every step keeps the invariant, if a block is written only when no appender is open
      that would still take samples before the block's end. */
  lemma StepKeeps(s: State, e: Event, width: int64)
    requires Inv(s, width) && Possible(s, e, width)
    requires e.Persist? ==> Quiet(s.apps, Next(s, e, width).window.value.maxt)
    ensures Inv(Next(s, e, width), width)
  {
    hide HeadOk, AppendersOk, WindowOk, Conserved, Exact, AllGained, AppenderOk;
    match e
    case Open(id) => OpenStep(s, id, width);
    case Add(id, ref, x) => AddStep(s, id, ref, x, width);
    case AddFast(id, ref, x) => AddFastStep(s, id, ref, x, width);
    case Commit(id) => CommitStep(s, id, width);
    case Rollback(id) => RollbackStep(s, id, width);
    case Persist => PersistStep(s, width);
    case Truncate => TruncateExactly(s, width);
    case Restart(h) => RestartStep(s, h, width);
  }

  lemma CommitStep(s: State, id: nat, width: int64)
    requires Inv(s, width) && Possible(s, Commit(id), width)
    ensures Inv(Next(s, Commit(id), width), width)
  {
    assert s.apps[id].Appender? ==> s.last <= s.apps[id].mint;
    hide HeadOk, AppendersOk, WindowOk, LastTimes, Conserved, Exact, AllGained, AppenderOk, CanAll, Committed;
    CommitSound(s, id, width);
    CommitConserves(s, id, width);
    CommitBeforeLast(s, id, width);
    if s.window.Some? {
      CommitInWindow(s, id, width);
      QuietCommit(s, id, width);
    }
  }

  lemma OpenStep(s: State, id: nat, width: int64)
    requires Inv(s, width) && id !in s.apps
    ensures Inv(Next(s, Open(id), width), width)
  {
    OpenSound(s, id, width);
    hide HeadOk, AppendersOk, Held, Below;
  }

  lemma AddFastStep(s: State, id: nat, ref: nat, x: Sample, width: int64)
    requires Inv(s, width) && Possible(s, AddFast(id, ref, x), width)
    ensures Inv(Next(s, AddFast(id, ref, x), width), width)
  {
    AddFastSound(s, id, ref, x, width);
    hide HeadOk, AppendersOk, Held, Below, AddedFast;
  }

  lemma RollbackStep(s: State, id: nat, width: int64)
    requires Inv(s, width) && id in s.apps
    ensures Inv(Next(s, Rollback(id), width), width)
  {
    hide HeadOk, WindowOk, Held, Below, AppenderOk;
  }

  lemma AddStep(s: State, id: nat, ref: nat, x: Sample, width: int64)
    requires Inv(s, width) && Possible(s, Add(id, ref, x), width)
    ensures Inv(Next(s, Add(id, ref, x), width), width)
  {
    AddSound(s, id, ref, x, width);
    hide HeadOk, AppendersOk, Held, Added;
  }

  lemma PersistStep(s: State, width: int64)
    requires Inv(s, width) && Possible(s, Persist, width)
    requires Quiet(s.apps, Next(s, Persist, width).window.value.maxt)
    ensures Inv(Next(s, Persist, width), width)
  {
    PersistExact(s, width);
    hide HeadOk, AppendersOk, WindowOk, Exact, RangeForTimestamp, BlockOf;
  }

  lemma RollbackSound(s: State, id: nat, width: int64)
    requires Sound(s, width) && id in s.apps
    ensures Sound(Next(s, Rollback(id), width), width)
  {
    hide HeadOk, AppenderOk;
  }

  lemma RestartSound(s: State, h: HeadState, width: int64)
    requires Sound(s, width) && Possible(s, Restart(h), width)
    ensures Sound(Next(s, Restart(h), width), width)
  {
    NoAppenders(Next(s, Restart(h), width), width);
    hide HeadOk, AppendersOk, Held;
  }

  lemma RestartStep(s: State, h: HeadState, width: int64)
    requires Inv(s, width) && Possible(s, Restart(h), width)
    ensures Inv(Next(s, Restart(h), width), width)
  {
    var t := Next(s, Restart(h), width);
    RestartSound(s, h, width);
    hide HeadOk, AppendersOk, Held, Below, From;
    forall ref ensures In(t.accepted, ref) == In(t.persisted, ref) + Held(t.head.series, ref) {
      if s.window.Some? {
        var held := Held(s.head.series, ref);
        InIncreased(s.persisted, s.window.value.block, ref);
        Seqs.Associate(In(s.persisted, ref), Below(held, End(s)), From(held, End(s)));
        assert Held(s.head.series, ref) == Below(held, End(s)) + From(held, End(s)) by {
          TruncateKeeps(s.head, End(s), width);
        }
      }
    }
  }

  lemma NoAppenders(s: State, width: int64)
    requires IsWidth(width) && s.apps == map[]
    ensures AppendersOk(s, width)
  {
  }

  /* The order of windows */

  /** The next window to be written lies behind the last one if and only if the head's
      minimum time does. */
  lemma NextWindowExactly(s: State, width: int64)
    requires Sound(s, width) && Compactable(s.head, width)
    ensures s.last <= RangeForTimestamp(s.head.minTime, width).0 <==> s.last <= s.head.minTime
  {
    WindowBounds(s.head, width);
    StartOfWindow(s.head.minTime, width);
    hide HeadOk, AppendersOk, RangeForTimestamp;
    var mint := RangeForTimestamp(s.head.minTime, width).0;
    if s.last != MIN && s.last <= s.head.minTime {
      LastBoundary(s.last as int, s.head.minTime as int, width as int);
    }
  }

  /** A boundary that is not after t is not after the start of t's window. */
  lemma LastBoundary(b: int, t: int, w: int)
    requires w > 0 && b % w == 0 && b <= t
    ensures b <= t / w * w
  {
    var i, j := b / w, t / w;
    assert b == w * i && t == w * j + t % w && j * w == w * j;
    if i > j {
      assert w * i >= w * (j + 1) by {
        Monotone(w, j + 1, i);
      }
      assert false;
    }
    Monotone(w, i, j);
  }

  lemma Monotone(w: int, i: int, j: int)
    requires w > 0 && i <= j
    ensures w * i <= w * j
  {
  }

  /** A commit moves the head back before the last window if and only if it brings a
      sample from before the window's end, whether or not a series takes it. */
  lemma CommitBeforeLast(s: State, id: nat, width: int64)
    requires Sound(s, width) && Possible(s, Commit(id), width) && s.last <= s.head.minTime
    ensures s.last <= Next(s, Commit(id), width).head.minTime
       <==> (s.apps[id].Appender? ==> s.last <= s.apps[id].mint)
  {
    hide HeadOk, CanAll, StepAll;
  }

  /** A run of events, each of them possible where it happens. */
  ghost predicate Runs(s: State, es: seq<Event>, width: int64)
    requires Inv(s, width)
    decreases |es|
  {
    es == [] ||
    (&& Possible(s, es[0], width)
     && (es[0].Persist? ==> Quiet(s.apps, Next(s, es[0], width).window.value.maxt))
     && (StepKeeps(s, es[0], width); Runs(Next(s, es[0], width), es[1..], width)))
  }

  ghost function Reached(s: State, es: seq<Event>, width: int64): (t: State)
    requires Inv(s, width) && Runs(s, es, width)
    ensures Inv(t, width)
    decreases |es|
  {
    if es == [] then s else
      StepKeeps(s, es[0], width);
      Reached(Next(s, es[0], width), es[1..], width)
  }

  function Initially(): State {
    State(HeadState(MAX, MIN, map[]), map[], None, map[], map[], MIN)
  }

  lemma InitiallyFine(width: int64)
    requires IsWidth(width)
    ensures Inv(Initially(), width)
  {
    Seqs.Nothing(Flat([]));
  }

  /** Whatever appenders do, after any run the blocks and the head hold every sample that
      was ever taken, once and in order. */
  lemma RunConserves(es: seq<Event>, ref: nat, width: int64)
    requires IsWidth(width) && Inv(Initially(), width) && Runs(Initially(), es, width)
    ensures var t := Reached(Initially(), es, width);
            && In(t.accepted, ref) == In(t.persisted, ref) + Held(t.head.series, ref)
            && (forall k :: k in t.head.series ==> Bounded(t.head.series[k], t.head.minTime, t.head.maxTime))
            && t.last <= t.head.minTime
  {
    hide Runs, Next, Held;
    var t := Reached(Initially(), es, width);
    assert Inv(t, width);
  }
}
