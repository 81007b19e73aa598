/** Two runs of the head in which an appender is opened before the head can be compacted.
    If it commits while a window is handed over to a block, its sample is lost; if it
    commits afterwards, the window is written a second time. */
module EarlyAppenders {
  import opened Options
  import opened Samples
  import opened HeadSeries
  import opened HeadStates
  import opened HeadRuns
  import opened HeadCompaction
  import Replay
  import HeadBlocks
  import Blocks = Reload
  import Compaction
  import Seqs

  /* Runs as lists of events and states */

  ghost predicate Does(s: State, e: Event, t: State) {
    HeadOk(s.head, 10) && Possible(s, e, 10) && Next(s, e, 10) == t
  }

  ghost predicate Path(ss: seq<State>, es: seq<Event>) {
    |ss| == |es| + 1 && forall i :: 0 <= i < |es| ==> Does(ss[i], es[i], ss[i + 1])
  }

  lemma SoundStep(s: State, e: Event)
    requires Sound(s, 10) && Possible(s, e, 10)
    ensures Sound(Next(s, e, 10), 10)
  {
    hide Sound, Next;
    match e
    case Open(id) => OpenSound(s, id, 10);
    case Add(id, ref, x) => AddSound(s, id, ref, x, 10);
    case AddFast(id, ref, x) => AddFastSound(s, id, ref, x, 10);
    case Commit(id) => CommitSound(s, id, 10);
    case Rollback(id) => RollbackSound(s, id, 10);
    case Persist => PersistExact(s, 10);
    case Truncate => TruncateSound(s, 10);
    case Restart(h) => RestartSound(s, h, 10);
  }

  /** If each step is right for a sound state, the path is. */
  lemma {:induction false} SoundPath(ss: seq<State>, es: seq<Event>, k: nat)
    requires |ss| == |es| + 1 && k <= |es| && Sound(ss[0], 10)
    requires forall i :: 0 <= i < |es| && Sound(ss[i], 10) ==> Does(ss[i], es[i], ss[i + 1])
    ensures forall i :: 0 <= i <= k ==> Sound(ss[i], 10)
    ensures forall i :: 0 <= i < k ==> Does(ss[i], es[i], ss[i + 1])
  {
    hide Sound, Possible, Next;
    if k > 0 {
      SoundPath(ss, es, k - 1);
      assert Sound(ss[k - 1], 10) && Does(ss[k - 1], es[k - 1], ss[k - 1 + 1]);
      SoundStep(ss[k - 1], es[k - 1]);
    }
  }

  /* Steps with a single sample */

  lemma AddDoes(s: State, id: nat, ref: nat, x: Sample, t: State)
    requires HeadOk(s.head, 10) && TimeOk(x.t, 10) && id in s.apps && s.apps[id].Appender?
    requires s.apps[id].minValid <= x.t && Created(s.head, ref).series[ref].Accepts(x)
    requires t == s.(head := Created(s.head, ref), apps := s.apps[id := With(s.apps[id], ref, x)])
    ensures Does(s, Add(id, ref, x), t)
  {
    CreateKeeps(s.head, ref, 10);
    hide SeriesState.Ok, SeriesState.Accepts, With, Bounded;
    Accepted(Created(s.head, ref), s.apps[id], ref, x);
    hide AddedFast, Created;
  }

  lemma Accepted(h: HeadState, a: Appender, ref: nat, x: Sample)
    requires AllOk(h.series, 10) && a.Appender? && a.minValid <= x.t && ref in h.series && h.series[ref].Accepts(x)
    ensures AddedFast(h, a, ref, x, 10) == (Taken, With(a, ref, x))
  {
    hide SeriesState.Ok, SeriesState.Accepts, With;
  }

  function OneMore(series: map<nat, SeriesState>, x: RefSample): map<nat, seq<Sample>> {
    map ref | ref in series :: if ref == x.ref then [x.s] else []
  }

  lemma CommitDoes(s: State, id: nat, x: RefSample, next: SeriesState, t: State)
    requires HeadOk(s.head, 10) && id in s.apps && s.apps[id].Appender? && s.apps[id].samples == [x]
    requires Can(s.head.series, x, 10) && s.head.series[x.ref].Accepts(x.s)
    requires s.head.series[x.ref].Appended(x.s, 10) == next
    requires t.head == Widened(s.head.(series := s.head.series[x.ref := next]), s.apps[id].mint, s.apps[id].maxt)
    requires t.apps == s.apps - {id} && t.accepted == Increased(s.accepted, OneMore(s.head.series, x))
    requires t.window == s.window && t.persisted == s.persisted && t.last == s.last
    ensures Does(s, Commit(id), t)
  {
    hide SeriesState.Ok, SeriesState.HasRoom, SeriesState.Appended, SeriesState.Accepts, Widened, Bounded, Increased;
    var h, a := s.head, s.apps[id];
    forall ref | ref in h.series
      ensures CanAll(h.series, [x], 10) && StepAll(h.series, [x], 10) == Step(h.series, x, 10)
      ensures Gained(h.series, [x], ref, 10) == OneMore(h.series, x)[ref]
    {
      OneStep(h.series, x, ref);
    }
    hide CanAll, StepAll, Gained;
    assert AllGained(h, a, 10) == OneMore(h.series, x);
    hide AllGained, OneMore;
  }

  lemma OneStep(series: map<nat, SeriesState>, x: RefSample, ref: nat)
    requires AllOk(series, 10) && Can(series, x, 10)
    ensures CanAll(series, [x], 10) && StepAll(series, [x], 10) == Step(series, x, 10)
    ensures Gained(series, [x], ref, 10) == Takes(series, x, ref)
  {
    hide AllOk, Can, Step, Takes;
    var next := Step(series, x, 10);
    assert [x][1..] == [];
    assert CanAll(next, [], 10) && StepAll(next, [], 10) == next && Gained(next, [], ref, 10) == [];
    Seqs.Nothing(Takes(series, x, ref));
  }

  /* The samples and series of both runs */

  const OLD: Sample := Sample(0, 0)
  const EARLY: Sample := Sample(5, 0)
  const NEW: Sample := Sample(30, 0)

  const ONE: SeriesState := SeriesState([MemChunk([OLD], 0, 0)], 10)
  const TWO: SeriesState := SeriesState([MemChunk([OLD], 0, 0), MemChunk([NEW], 30, 30)], 40)
  const CUT: SeriesState := SeriesState([MemChunk([NEW], 30, 30)], 40)
  const BACK: SeriesState := SeriesState([MemChunk([EARLY], 5, 5)], 10)
  const GONE: SeriesState := SeriesState([], 10)

  const FRESH: Appender := Appender(-5, MAX, MIN, [])

  function Holding(ref: nat, x: Sample): Appender { Appender(-5, x.t, x.t, [Replay.RefSample(ref, x)]) }

  lemma Windows()
    ensures RangeForTimestamp(0, 10) == RangeForTimestamp(5, 10) == (0, 10) && RangeForTimestamp(30, 10) == (30, 40)
  {
  }

  lemma FirstAppended(x: Sample)
    requires TimeOk(x.t, 10) && RangeForTimestamp(x.t, 10) == (0, 10)
    ensures NEW_SERIES.Ok(10) && NEW_SERIES.HasRoom(x, 10)
    ensures NEW_SERIES.Appended(x, 10) == SeriesState([MemChunk([x], x.t, x.t)], 10)
  {
    EmptyOk(10);
    hide RangeForTimestamp, SeriesState.Ok, SeriesState.DueAt;
  }

  lemma SecondAppended()
    ensures ONE.Ok(10) && ONE.HasRoom(NEW, 10) && ONE.Appended(NEW, 10) == TWO
  {
    Windows();
    hide RangeForTimestamp;
    assert [MemChunk([OLD], 0, 0)][..0] == [];
    assert MemChunk([OLD], 0, 0).Valid(10);
    assert ONE.Ok(10);
    assert ONE.DueAt(10) == 10;
  }

  /* The states */

  function Early(head: HeadState, accepted: map<nat, seq<Sample>>, apps: map<nat, Appender>): State {
    State(head, apps, None, map[], accepted, MIN)
  }

  const FIRST: map<nat, seq<Sample>> := map[1 := [OLD]]
  const BOTH: map<nat, seq<Sample>> := map[1 := [OLD, NEW], 2 := []]
  const ALL: map<nat, seq<Sample>> := map[1 := [OLD, NEW], 2 := [EARLY]]
  const BLOCK: map<nat, seq<Sample>> := map[1 := [OLD], 2 := []]

  /** An appender is opened at time 0 and takes a sample at 5. Another one brings the head
      to 30. Then a block is written for the window up to 10. */
  function Stage(i: nat): State
    requires i < 10
  {
    match i
    case 0 => Initially()
    case 1 => Early(HeadState(MAX, MIN, map[]), map[], map[1 := Unset])
    case 2 => Early(HeadState(0, 0, map[1 := NEW_SERIES]), map[], map[1 := Holding(1, OLD)])
    case 3 => Early(HeadState(0, 0, map[1 := ONE]), FIRST, map[])
    case 4 => Early(HeadState(0, 0, map[1 := ONE]), FIRST, map[7 := FRESH])
    case 5 => Early(HeadState(0, 0, map[1 := ONE, 2 := NEW_SERIES]), FIRST, map[7 := Holding(2, EARLY)])
    case 6 => Early(HeadState(0, 0, map[1 := ONE, 2 := NEW_SERIES]), FIRST, map[7 := Holding(2, EARLY), 8 := FRESH])
    case 7 =>
      Early(HeadState(0, 0, map[1 := ONE, 2 := NEW_SERIES]), FIRST, map[7 := Holding(2, EARLY), 8 := Holding(1, NEW)])
    case 8 => Early(HeadState(0, 30, map[1 := TWO, 2 := NEW_SERIES]), BOTH, map[7 := Holding(2, EARLY)])
    case 9 =>
      State(HeadState(0, 30, map[1 := TWO, 2 := NEW_SERIES]), map[7 := Holding(2, EARLY)],
            Some(Window(10, BLOCK)), map[], BOTH, MIN)
  }

  const CALLS: seq<Event> :=
    [Open(1), Add(1, 1, OLD), Commit(1), Open(7), Add(7, 2, EARLY), Open(8), Add(8, 1, NEW), Commit(8), Persist]

  /* The steps */

  lemma OpenDoes(s: State, id: nat, t: State)
    requires HeadOk(s.head, 10) && id !in s.apps && t == s.(apps := s.apps[id := Opened(s.head, 10)])
    ensures Does(s, Open(id), t)
  {
    hide AllOk;
  }

  lemma FirstAdd()
    requires HeadOk(Stage(1).head, 10)
    ensures Does(Stage(1), Add(1, 1, OLD), Stage(2))
  {
    var s, h := Stage(1), HeadState(0, 0, map[1 := NEW_SERIES]);
    EmptyOk(10);
    hide SeriesState.Ok;
    assert Initialized(s.head, 0) == HeadState(0, 0, map[]) && Fresh(HeadState(0, 0, map[]), 10) == FRESH;
    assert Created(HeadState(0, 0, map[]), 1) == h;
    Accepted(h, FRESH, 1, OLD);
    assert With(FRESH, 1, OLD) == Holding(1, OLD);
    hide AddedFast;
    assert Added(s.head, Unset, 1, OLD, 10) == (Taken, h, Holding(1, OLD));
    assert s.apps[1 := Holding(1, OLD)] == Stage(2).apps;
  }

  /* What the commits add to the samples. */

  lemma FirstAccepted()
    ensures Increased(map[], map[1 := [OLD]]) == FIRST
  {
    Seqs.Nothing([OLD]);
  }

  lemma SecondAccepted()
    ensures Increased(FIRST, map[1 := [NEW], 2 := []]) == BOTH
  {
    var more := map[1 := [NEW], 2 := []];
    assert In(FIRST, 1) + In(more, 1) == [OLD, NEW] && In(FIRST, 2) + In(more, 2) == [];
  }

  lemma EarlyAccepted()
    ensures Increased(BOTH, map[1 := [], 2 := [EARLY]]) == ALL
  {
    var more := map[1 := [], 2 := [EARLY]];
    assert In(BOTH, 1) + In(more, 1) == [OLD, NEW] && In(BOTH, 2) + In(more, 2) == [EARLY];
  }

  lemma BlockPersisted()
    ensures Increased(map[], BLOCK) == BLOCK
  {
    assert In(map[], 1) + In(BLOCK, 1) == [OLD] && In(map[], 2) + In(BLOCK, 2) == [];
  }

  lemma FirstCommit()
    requires HeadOk(Stage(2).head, 10)
    ensures Does(Stage(2), Commit(1), Stage(3))
  {
    var s, x := Stage(2), Replay.RefSample(1, OLD);
    hide SeriesState.Ok, SeriesState.HasRoom, SeriesState.Appended, RangeForTimestamp, HeadOk, Does;
    FirstAppended(OLD) by {
      Windows();
    }
    FirstCommitAdds();
    FirstAccepted();
    hide Increased, OneMore;
    OkOfHead(s.head, 10);
    CommitDoes(s, 1, x, ONE, Stage(3));
  }

  lemma OkOfHead(h: HeadState, width: int64)
    requires HeadOk(h, width)
    ensures AllOk(h.series, width)
  {
  }

  lemma SecondCommit()
    requires HeadOk(Stage(7).head, 10)
    ensures Does(Stage(7), Commit(8), Stage(8))
  {
    hide SeriesState.Ok, SeriesState.HasRoom, SeriesState.Appended, RangeForTimestamp, HeadOk, Does, Stage, Increased,
         OneMore;
    SecondCommitFits();
    SecondCommitAdds();
    SecondAccepted();
    OkOfHead(Stage(7).head, 10);
    SecondAppended();
    CommitDoes(Stage(7), 8, Replay.RefSample(1, NEW), TWO, Stage(8));
  }

  lemma SecondCommitFits()
    ensures var s, t := Stage(7), Stage(8);
            && 8 in s.apps && s.apps[8] == Holding(1, NEW) && 1 in s.head.series && s.head.series[1] == ONE
            && s.head.minTime == 0 && s.head.maxTime == 0 && t.head.minTime == 0 && t.head.maxTime == 30
            && s.accepted == FIRST && t.accepted == BOTH
            && t.window == s.window && t.persisted == s.persisted && t.last == s.last
  {
  }

  lemma FirstCommitAdds()
    ensures var s := Stage(2);
            && OneMore(s.head.series, Replay.RefSample(1, OLD)) == map[1 := [OLD]]
            && s.head.series[1 := ONE] == Stage(3).head.series && s.apps - {1} == map[]
  {
  }

  lemma SecondCommitAdds()
    ensures var s := Stage(7);
            && OneMore(s.head.series, Replay.RefSample(1, NEW)) == map[1 := [NEW], 2 := []]
            && s.head.series[1 := TWO] == Stage(8).head.series && s.apps - {8} == Stage(8).apps
  {
  }

  /** The early appender's commit, before or after the truncation. */
  lemma EarlyCommit(s: State, t: State)
    requires HeadOk(s.head, 10) && 2 in s.head.series && s.head.series[2] == NEW_SERIES
    requires s.head.series.Keys == {1, 2} && s.apps == map[7 := Holding(2, EARLY)] && s.accepted == BOTH
    requires t.head == Widened(s.head.(series := s.head.series[2 := BACK]), 5, 5)
    requires t == s.(head := t.head, apps := map[], accepted := ALL)
    ensures Does(s, Commit(7), t)
  {
    hide SeriesState.Ok, SeriesState.HasRoom, SeriesState.Appended, RangeForTimestamp, HeadOk, Does, Widened, OneMore,
         Increased;
    FirstAppended(EARLY) by {
      Windows();
    }
    EarlyCommitAdds(s);
    EarlyAccepted();
    OkOfHead(s.head, 10);
    CommitDoes(s, 7, Replay.RefSample(2, EARLY), BACK, t);
  }

  lemma EarlyCommitAdds(s: State)
    requires s.head.series.Keys == {1, 2} && s.apps == map[7 := Holding(2, EARLY)]
    ensures OneMore(s.head.series, Replay.RefSample(2, EARLY)) == map[1 := [], 2 := [EARLY]]
    ensures s.apps - {7} == map[]
  {
  }

  lemma Writing()
    requires HeadOk(Stage(8).head, 10)
    ensures Does(Stage(8), Persist, Stage(9))
  {
    hide AllOk, RangeForTimestamp, Visible, Flat;
    Windows();
    Seen();
    assert BlockOf(Stage(8).head, 0, 10) == BLOCK;
    hide BlockOf;
  }

  lemma Seen()
    ensures Flat(Visible(TWO.chunks, 0, 9)) == [OLD] && Flat(Visible(NEW_SERIES.chunks, 0, 9)) == []
  {
    var cs := TWO.chunks;
    assert cs[1..][1..] == [];
    assert !cs[1].OverlapsClosedInterval(0, 9) && cs[1..][0] == cs[1];
    assert Visible(cs[1..][1..], 0, 9) == [];
    assert Visible(cs[1..], 0, 9) == [];
    assert cs[0].OverlapsClosedInterval(0, 9);
    assert Visible(cs, 0, 9) == [cs[0]] + [] == [cs[0]];
    assert [cs[0]][..0] == [];
    assert Flat([]) == [];
    assert Flat([cs[0]]) == [] + [OLD] == [OLD];
  }

  lemma SecondAdd()
    requires HeadOk(Stage(4).head, 10)
    ensures Does(Stage(4), Add(7, 2, EARLY), Stage(5))
  {
    hide HeadOk, Does;
    var s, t := Stage(4), Stage(5);
    assert Created(s.head, 2) == t.head;
    assert With(FRESH, 2, EARLY) == Holding(2, EARLY);
    assert s.apps[7 := Holding(2, EARLY)] == t.apps;
    AddDoes(s, 7, 2, EARLY, t);
  }

  lemma ThirdAdd()
    requires HeadOk(Stage(6).head, 10)
    ensures Does(Stage(6), Add(8, 1, NEW), Stage(7))
  {
    hide HeadOk, Does;
    var s, t := Stage(6), Stage(7);
    assert Created(s.head, 1) == t.head;
    assert With(FRESH, 1, NEW) == Holding(1, NEW);
    assert s.apps[8 := Holding(1, NEW)] == t.apps;
    AddDoes(s, 8, 1, NEW, t);
  }

  lemma Cutting()
    ensures Dropped(TWO, 10) == CUT && Dropped(NEW_SERIES, 10) == NEW_SERIES && Dropped(BACK, 10) == GONE
  {
    var cs := TWO.chunks;
    assert cs[1..][0] == cs[1] && Leading(cs[1..], 10) == 0 && Leading(cs, 10) == 1;
    assert BACK.chunks[1..] == [] && Leading(BACK.chunks, 10) == 1;
  }

  /** Dropping the window. */
  lemma Truncates(s: State, t: State)
    requires HeadOk(s.head, 10) && s.window == Some(Window(10, BLOCK)) && s.persisted == map[]
    requires s.head.minTime == 0 && s.head.maxTime == 30
    requires t.head == HeadState(10, 30, AllDropped(s.head.series, 10))
    requires t == State(t.head, s.apps, None, BLOCK, s.accepted, 10)
    ensures Does(s, Truncate, t)
  {
    hide AllOk, AllDropped, Bounded;
    BlockPersisted();
    hide Increased;
  }

  lemma OpeningStep(i: nat)
    requires i < 9 && HeadOk(Stage(i).head, 10)
    ensures Does(Stage(i), CALLS[i], Stage(i + 1))
  {
    hide HeadOk, Does;
    match i
    case 0 => OpenDoes(Stage(0), 1, Stage(1));
    case 1 => FirstAdd();
    case 2 => FirstCommit();
    case 3 => OpenDoes(Stage(3), 7, Stage(4));
    case 4 => SecondAdd();
    case 5 => OpenDoes(Stage(5), 8, Stage(6));
    case 6 => ThirdAdd();
    case 7 => SecondCommit();
    case 8 => Writing();
  }

  /* Both endings */

  function Stages(): seq<State> { seq(10, i requires 0 <= i < 10 => Stage(i)) }

  lemma Start()
    ensures Stages()[0] == Stage(0) == Initially() && Sound(Stage(0), 10)
  {
    InitiallyFine(10);
    hide Sound;
  }

  lemma Reaches(e: Event, a: State, f: Event, b: State)
    requires HeadOk(Stage(9).head, 10) ==> Does(Stage(9), e, a)
    requires HeadOk(a.head, 10) ==> Does(a, f, b)
    ensures Path(Stages() + [a, b], CALLS + [e, f])
  {
    hide Does, HeadOk, Stage, AppendersOk, WindowOk, LastTimes;
    var ss, es := Stages() + [a, b], CALLS + [e, f];
    Start();
    assert ss[0] == Stage(0);
    forall i | 0 <= i < |es| && Sound(ss[i], 10) ensures Does(ss[i], es[i], ss[i + 1]) {
      if i < 9 {
        OpeningStep(i);
      }
    }
    hide Sound;
    SoundPath(ss, es, |es|);
  }

  /** Committed, and not yet dropped. */
  function Lost1(): State {
    State(HeadState(0, 30, map[1 := TWO, 2 := BACK]), map[], Some(Window(10, BLOCK)), map[], ALL, MIN)
  }

  function Lost2(): State { State(HeadState(10, 30, map[1 := CUT, 2 := GONE]), map[], None, BLOCK, ALL, 10) }

  /** From an empty head: if the appender commits before the head is truncated, neither the
      block nor the head has its sample afterwards. */
  lemma EarlyAppenderLoses()
    ensures Path(Stages() + [Lost1(), Lost2()], CALLS + [Commit(7), Truncate]) && Stages()[0] == Initially()
    ensures var t := Lost2(); In(t.accepted, 2) == [EARLY] && In(t.persisted, 2) + Held(t.head.series, 2) == []
  {
    LostSteps();
    Start();
    hide HeadOk, Does, Stage;
    Reaches(Commit(7), Lost1(), Truncate, Lost2());
  }

  lemma LostSteps()
    ensures HeadOk(Stage(9).head, 10) ==> Does(Stage(9), Commit(7), Lost1())
    ensures HeadOk(Lost1().head, 10) ==> Does(Lost1(), Truncate, Lost2())
  {
    LostHeads();
    hide HeadOk, Does, AllDropped;
    if HeadOk(Stage(9).head, 10) {
      EarlyCommit(Stage(9), Lost1());
    }
    if HeadOk(Lost1().head, 10) {
      Truncates(Lost1(), Lost2());
    }
  }

  lemma LostHeads()
    ensures Stage(9).head.series[2 := BACK] == Lost1().head.series
    ensures AllDropped(Lost1().head.series, 10) == Lost2().head.series
  {
    Cutting();
    hide Dropped;
  }

  function Again1(): State {
    State(HeadState(10, 30, map[1 := CUT, 2 := NEW_SERIES]), map[7 := Holding(2, EARLY)], None, BLOCK, BOTH, 10)
  }

  function Again2(): State { State(HeadState(5, 30, map[1 := CUT, 2 := BACK]), map[], None, BLOCK, ALL, 10) }

  /** If it commits afterwards, the head falls back behind the window that has been written,
      and is to be compacted again for the same window. */
  lemma EarlyAppenderRewrites()
    ensures Path(Stages() + [Again1(), Again2()], CALLS + [Truncate, Commit(7)]) && Stages()[0] == Initially()
    ensures var t := Again2();
            Compactable(t.head, 10) && RangeForTimestamp(t.head.minTime, 10) == (0, 10) && t.last == 10
  {
    Windows();
    AgainSteps();
    Start();
    hide HeadOk, Does, Stage, RangeForTimestamp;
    Reaches(Truncate, Again1(), Commit(7), Again2());
  }

  lemma AgainSteps()
    ensures HeadOk(Stage(9).head, 10) ==> Does(Stage(9), Truncate, Again1())
    ensures HeadOk(Again1().head, 10) ==> Does(Again1(), Commit(7), Again2())
  {
    AgainHeads();
    hide HeadOk, Does, AllDropped;
    if HeadOk(Stage(9).head, 10) {
      Truncates(Stage(9), Again1());
    }
    if HeadOk(Again1().head, 10) {
      EarlyCommit(Again1(), Again2());
    }
  }

  lemma AgainHeads()
    ensures AllDropped(Stage(9).head.series, 10) == Again1().head.series
    ensures Again1().head.series[2 := BACK] == Again2().head.series
  {
    Cutting();
    hide Dropped;
  }

  /** When this block is written beside the first one, reload fails from then on. */
  lemma SecondBlockOverlaps(s: Blocks.State, u: nat, b: Compaction.Meta, ranges: seq<Compaction.Range>)
    requires Blocks.Invariant(s) && s.phase.Ready? && u in s.disk && s.disk[u].mint == 0 && s.disk[u].maxt == 10
    requires b.ulid !in s.used && b.parents == {} && Compactable(Again2().head, 10)
    requires HeadBlocks.OfWindow(b, Again2().head, 10)
    ensures !Blocks.Possible(Blocks.Do(s, Blocks.Persist(b)), Blocks.Load, ranges)
  {
    Windows();
    hide Blocks.Invariant, RangeForTimestamp;
    Blocks.LoadsExactly(s, b, ranges);
    assert !Blocks.Apart(s.disk[u], b);
  }
}
