/** The head and the blocks on disk together (compact and reload in db.go): blocks of the
    head never overlap others, reload truncates the head where its last block ends, and
    no sample is lost or doubled, across crashes. */
module HeadBlocks {
  import opened Options
  import opened Samples
  import opened HeadSeries
  import opened HeadStates
  import opened HeadRuns
  import opened HeadCompaction
  import opened Compaction
  import Blocks = Reload

  /** The head is down from a crash until the log has been replayed. */
  datatype Joint = Joint(head: State, blocks: Blocks.State, up: bool)

  datatype Action =
    | Head(e: Event)                // what appenders do
    | Write(block: Meta)            // a block for the head's oldest window
    | Reload(step: Blocks.Step)     // compactions of blocks, and single steps of reload
    | Finish(maxt: Option<int64>)   // the end of reload: the head is truncated
    | Crash
    | Replay(h: HeadState)          // the log has been replayed

  /** The block that starts last. */
  ghost predicate MostRecent(live: Blocks.Disk, u: nat) {
    u in live && forall v :: v in live ==> live[v].mint <= live[u].mint
  }

  ghost predicate Possible(j: Joint, a: Action, width: int64, ranges: seq<Range>)
    requires HeadOk(j.head.head, width)
  {
    match a
    case Head(e) =>
      j.up && (e.Open? || e.Add? || e.AddFast? || e.Commit? || e.Rollback?) && HeadCompaction.Possible(j.head, e, width)
    case Write(b) =>
      && j.up && j.blocks.phase.Ready? && Compactable(j.head.head, width) && OfWindow(b, j.head.head, width)
      && b.ulid !in j.blocks.used && b.sources == {b.ulid} && b.parents == {}
    case Reload(step) =>
      && (step.Compact? || step.Annotate? ==> j.up)
      && (step.Compact? || step.Annotate? || step.Load? || step.Delete?)
      && Blocks.Possible(j.blocks, step, ranges)
    case Finish(maxt) =>
      Blocks.Possible(j.blocks, Blocks.Finish, ranges) && EndsAt(j.blocks.loaded, maxt)
    case Crash => true
    case Replay(h) => !j.up && j.blocks.phase.Ready? && Replays(j.head, h, width)
  }

  /** A block for the window of the head's oldest time. */
  ghost predicate OfWindow(b: Meta, h: HeadState, width: int64)
    requires IsWidth(width) && TimesOk(h.minTime, h.maxTime, width) && Compactable(h, width)
  {
    WindowBounds(h, width);
    var (mint, maxt) := RangeForTimestamp(h.minTime, width);
    b.mint == mint as int && b.maxt == maxt as int
  }

  /** Where the last of the loaded blocks ends. */
  ghost predicate EndsAt(loaded: Blocks.Disk, maxt: Option<int64>) {
    match maxt
    case None => loaded == map[]
    case Some(t) => exists u :: MostRecent(loaded, u) && loaded[u].maxt == t as int
  }

  /** What the end of reload does to the head. */
  ghost function Truncating(s: State, maxt: Option<int64>): State {
    match maxt
    case None => s
    case Some(t) =>
      if s.window.None? then s.(head := Truncated(s.head, t))
      else
        State(Truncated(s.head, t), s.apps, None, Increased(s.persisted, s.window.value.block), s.accepted, t)
  }

  ghost function Do(j: Joint, a: Action, width: int64, ranges: seq<Range>): Joint
    requires HeadOk(j.head.head, width) && Possible(j, a, width, ranges)
    requires a.Write? ==> j.head.window.None?
  {
    match a
    case Head(e) => j.(head := Next(j.head, e, width))
    case Write(b) =>
      j.(head := Next(j.head, Persist, width), blocks := Blocks.Do(j.blocks, Blocks.Persist(b)))
    case Reload(step) => j.(blocks := Blocks.Do(j.blocks, step))
    case Finish(maxt) =>
      Joint(if j.up then Truncating(j.head, maxt) else j.head, Blocks.Do(j.blocks, Blocks.Finish), j.up)
    case Crash => Joint(j.head, Blocks.Do(j.blocks, Blocks.Crash), false)
    case Replay(h) => Joint(Next(j.head, Restart(h), width), j.blocks, true)
  }

  /** Blocks reach up to where the head has been written. */
  ghost predicate Topped(disk: Blocks.Disk, end: int64) {
    && (forall u :: u in disk ==> disk[u].maxt <= end as int)
    && if disk == map[] then end == MIN
       else end != MIN && exists u :: u in Blocks.Live(disk) && disk[u].maxt == end as int
  }

  ghost predicate Invariant(j: Joint, width: int64) {
    && Inv(j.head, width) && Blocks.Invariant(j.blocks) && Topped(j.blocks.disk, End(j.head))
    && (j.up && j.blocks.phase.Ready? ==> j.head.window.None?)
  }

  /** No appender that still takes samples of the window is open when its block is
      written. */
  ghost predicate Careful(j: Joint, a: Action, width: int64)
    requires HeadOk(j.head.head, width) && (a.Write? ==> Compactable(j.head.head, width))
  {
    a.Write? ==>
      (WindowBounds(j.head.head, width);
       HeadCompaction.Quiet(j.head.apps, RangeForTimestamp(j.head.head.minTime, width).1))
  }

  /* Writing */

  /** The window that is written lies behind all blocks on disk. */
  lemma WriteIsBehind(j: Joint, b: Meta, width: int64, ranges: seq<Range>)
    requires Invariant(j, width) && Possible(j, Write(b), width, ranges)
    ensures b.mint < b.maxt && forall u :: u in j.blocks.disk ==> j.blocks.disk[u].maxt <= b.mint
    ensures Blocks.Possible(j.blocks, Blocks.Persist(b), ranges)
  {
    NextWindowExactly(j.head, width);
    WindowBounds(j.head.head, width);
    hide Sound, Conserved, RangeForTimestamp, Blocks.Invariant, Compactable;
  }

  lemma WriteKeeps(j: Joint, b: Meta, width: int64, ranges: seq<Range>)
    requires Invariant(j, width) && Possible(j, Write(b), width, ranges) && Careful(j, Write(b), width)
    ensures j.head.window.None? && Invariant(Do(j, Write(b), width, ranges), width)
  {
    WriteIsBehind(j, b, width, ranges);
    WindowBounds(j.head.head, width);
    StepKeeps(j.head, Persist, width);
    hide Inv, RangeForTimestamp, Compactable, HeadOk;
    hide Blocks.Invariant, Blocks.Live, Blocks.Superseded, Blocks.Once, Blocks.Separate;
    Blocks.StepKeeps(j.blocks, Blocks.Persist(b), ranges);
    WrittenTopped(j.blocks, b, End(Next(j.head, Persist, width)));
  }

  lemma WrittenTopped(s: Blocks.State, b: Meta, end: int64)
    requires Blocks.Invariant(s) && s.phase.Ready? && b.ulid !in s.used && b.parents == {} && b.mint < b.maxt
    requires end != MIN && b.maxt == end as int && forall u :: u in s.disk ==> s.disk[u].maxt <= b.mint
    ensures Topped(s.disk[b.ulid := b], end)
  {
    Blocks.PersistedDisk(s, b);
    hide Blocks.Invariant, Blocks.Live;
    var disk := s.disk[b.ulid := b];
    assert b.ulid in Blocks.Live(disk) && disk[b.ulid] == b;
  }

  /* Reload, and what else happens to blocks */

  lemma CompactTopped(s: Blocks.State, ds: seq<Meta>, p: seq<Meta>, uid: nat, n: nat, ranges: seq<Range>, end: int64)
    requires Blocks.Invariant(s) && Blocks.Possible(s, Blocks.Compact(ds, p, uid, n), ranges) && Topped(s.disk, end)
    ensures Topped(Blocks.Do(s, Blocks.Compact(ds, p, uid, n)).disk, end)
  {
    hide Planned, Layout, Compacted, Blocks.Superseded, Blocks.Live, Blocks.Once, Blocks.Separate, Blocks.Arranged;
    Blocks.ArrangedHolds(ds, s.disk);
    Blocks.CompactedLive(s, ds, p, uid, n, ranges);
    Blocks.CompactedDisk(s, ds, p, uid, n, ranges);
    Blocks.CompactedId(uid, p, n);
    Blocks.ReadyIsLive(s);
    Blocks.ParentsUsed(s);
    LastOfPlan(ds, p, uid, n, ranges);
    hide Blocks.Invariant;
    MergedTopped(s.disk, p, Compacted(uid, p, n), end);
  }

  lemma MergedTopped(disk: Blocks.Disk, p: seq<Meta>, m: Meta, end: int64)
    requires Topped(disk, end) && Blocks.Live(disk) == disk && p != []
    requires m.maxt == p[|p| - 1].maxt && (forall x :: x in p ==> x.maxt <= m.maxt)
    requires Blocks.Of(p, disk) && m.ulid !in disk
    requires Blocks.Live(disk[m.ulid := m]) == Blocks.Merged(disk, p, m)
    ensures Topped(disk[m.ulid := m], end)
  {
    hide Blocks.Live;
    var t := disk[m.ulid := m];
    assert p[|p| - 1] in p;
    var u :| u in disk && disk[u].maxt == end as int;
    if exists x :: x in p && x.ulid == u {
      assert m.ulid in Blocks.Live(t);
    } else {
      assert u in Blocks.Live(t) && t[u] == disk[u];
    }
  }

  /** The last of the planned blocks ends last. */
  lemma LastOfPlan(ds: seq<Meta>, p: seq<Meta>, uid: nat, n: nat, ranges: seq<Range>)
    requires p != [] && ds != [] && Layout(ds) && Planned(ranges, ds, p)
    ensures forall x :: x in p ==> x.maxt <= p[|p| - 1].maxt
  {
    hide Planned, Layout, Compacted, Segment;
    var i, j := PlanKeepsLayout(ranges, ds, p, uid, n);
    LastOfSegment(ds, p, i, j);
  }

  lemma LastOfSegment(ds: seq<Meta>, p: seq<Meta>, i: nat, j: nat)
    requires p != [] && Layout(ds) && Segment(p, ds, i, j)
    ensures forall x :: x in p ==> x.maxt <= p[|p| - 1].maxt
  {
    forall x | x in p ensures x.maxt <= p[|p| - 1].maxt {
      var k :| 0 <= k < |p| && p[k] == x;
      assert ds[i + k] == x && ds[i + |p| - 1] == p[|p| - 1];
    }
  }

  lemma ReloadKeeps(j: Joint, step: Blocks.Step, width: int64, ranges: seq<Range>)
    requires Invariant(j, width) && Possible(j, Reload(step), width, ranges)
    ensures Invariant(Do(j, Reload(step), width, ranges), width)
  {
    Blocks.StepKeeps(j.blocks, step, ranges);
    hide Inv, Blocks.Invariant;
    match step
    case Compact(ds, p, uid, n) => CompactTopped(j.blocks, ds, p, uid, n, ranges, End(j.head));
    case Annotate(u, failed, n) => AnnotateTopped(j.blocks, u, failed, n, End(j.head));
    case Delete(x) => DeleteTopped(j.blocks, x, ranges, End(j.head));
    case _ =>
  }

  lemma AnnotateTopped(s: Blocks.State, u: nat, failed: bool, n: nat, end: int64)
    requires Blocks.Invariant(s) && s.phase.Ready? && u in s.disk && Topped(s.disk, end)
    ensures Topped(Blocks.Do(s, Blocks.Annotate(u, failed, n)).disk, end)
  {
    Blocks.AnnotatedDisk(s, u, failed, n);
    Blocks.ReadyIsLive(s);
    hide Blocks.Invariant, Blocks.Live;
    var t := Blocks.Do(s, Blocks.Annotate(u, failed, n));
    var v :| v in s.disk && s.disk[v].maxt == end as int;
    assert v in Blocks.Live(t.disk) && t.disk[v].maxt == end as int;
  }

  lemma DeleteTopped(s: Blocks.State, x: nat, ranges: seq<Range>, end: int64)
    requires Blocks.Invariant(s) && Blocks.Possible(s, Blocks.Delete(x), ranges) && Topped(s.disk, end)
    ensures Topped(Blocks.Do(s, Blocks.Delete(x)).disk, end)
  {
    hide Blocks.Superseded, Blocks.Once, Blocks.Separate, Blocks.Live, Topped;
    Blocks.DeleteKeeps(s, x, ranges);
    SmallerTopped(s.disk, x, end);
  }

  lemma SmallerTopped(disk: Blocks.Disk, x: nat, end: int64)
    requires Topped(disk, end) && x in disk && Blocks.Live(disk - {x}) == Blocks.Live(disk)
    ensures Topped(disk - {x}, end)
  {
    LiveOnDisk(disk);
    LiveOnDisk(disk - {x});
    hide Blocks.Live;
    var v :| v in Blocks.Live(disk) && disk[v].maxt == end as int;
    assert v in Blocks.Live(disk - {x});
  }

  lemma LiveOnDisk(disk: Blocks.Disk)
    ensures forall u :: u in Blocks.Live(disk) ==> u in disk && Blocks.Live(disk)[u] == disk[u]
  {
  }

  /** The block that starts last is the one up to whose end the head has been written. */
  lemma MostRecentEnds(s: Blocks.State, maxt: Option<int64>, end: int64)
    requires Blocks.Invariant(s) && s.phase.Deleting? && Topped(s.disk, end) && EndsAt(s.loaded, maxt)
    ensures maxt == if s.disk == map[] then None else Some(end)
  {
    LiveOnDisk(s.disk);
    hide Blocks.Live, Blocks.Superseded, Blocks.Once;
    if s.disk != map[] {
      var v :| v in Blocks.Live(s.disk) && s.disk[v].maxt == end as int;
      var u :| MostRecent(s.loaded, u) && s.loaded[u].maxt == maxt.value as int;
      assert u != v ==> Blocks.Apart(s.loaded[u], s.loaded[v]);
    }
  }

  /** What reload does to the head in the end: if a window has just been written, exactly
      this window is dropped; otherwise nothing happens. */
  lemma FinishTruncates(j: Joint, maxt: Option<int64>, width: int64, ranges: seq<Range>)
    requires Invariant(j, width) && Possible(j, Finish(maxt), width, ranges)
    ensures Truncating(j.head, maxt) == if j.head.window.Some? then Next(j.head, Truncate, width) else j.head
  {
    MostRecentEnds(j.blocks, maxt, End(j.head));
    hide Blocks.Invariant, AllOk, AppendersOk, AllDropped, Conserved, Exact, HeadCompaction.Quiet;
  }

  lemma FinishKeeps(j: Joint, maxt: Option<int64>, width: int64, ranges: seq<Range>)
    requires Invariant(j, width) && Possible(j, Finish(maxt), width, ranges)
    ensures Invariant(Do(j, Finish(maxt), width, ranges), width)
  {
    FinishTruncates(j, maxt, width, ranges);
    Blocks.StepKeeps(j.blocks, Blocks.Finish, ranges);
    if j.head.window.Some? {
      StepKeeps(j.head, Truncate, width);
    }
    hide Inv, Blocks.Invariant, Truncating, HeadOk;
  }

  lemma HeadKeeps(j: Joint, e: Event, width: int64, ranges: seq<Range>)
    requires Invariant(j, width) && Possible(j, Head(e), width, ranges)
    ensures Invariant(Do(j, Head(e), width, ranges), width)
  {
    StepKeeps(j.head, e, width);
    hide Inv, Blocks.Invariant, HeadOk;
  }

  lemma ReplayKeeps(j: Joint, h: HeadState, width: int64, ranges: seq<Range>)
    requires Invariant(j, width) && Possible(j, Replay(h), width, ranges)
    ensures Invariant(Do(j, Replay(h), width, ranges), width)
  {
    StepKeeps(j.head, Restart(h), width);
    hide Inv, Blocks.Invariant, HeadOk;
  }

  lemma CrashKeeps(j: Joint, width: int64, ranges: seq<Range>)
    requires Invariant(j, width)
    ensures Invariant(Do(j, Crash, width, ranges), width)
  {
    Blocks.StepKeeps(j.blocks, Blocks.Crash, ranges);
    hide Inv, Blocks.Invariant, HeadOk;
  }

  lemma ActionKeeps(j: Joint, a: Action, width: int64, ranges: seq<Range>)
    requires Invariant(j, width) && Possible(j, a, width, ranges) && Careful(j, a, width)
    ensures a.Write? ==> j.head.window.None?
    ensures Invariant(Do(j, a, width, ranges), width)
  {
    match a
    case Head(e) => HeadKeeps(j, e, width, ranges);
    case Write(b) => WriteKeeps(j, b, width, ranges);
    case Reload(step) => ReloadKeeps(j, step, width, ranges);
    case Finish(maxt) => FinishKeeps(j, maxt, width, ranges);
    case Crash => CrashKeeps(j, width, ranges);
    case Replay(h) => ReplayKeeps(j, h, width, ranges);
  }

  lemma InvariantHead(j: Joint, width: int64)
    requires Invariant(j, width)
    ensures HeadOk(j.head.head, width)
  {
  }

  /* Runs */

  ghost predicate Runs(j: Joint, actions: seq<Action>, width: int64, ranges: seq<Range>, t: Joint)
    requires Invariant(j, width)
    decreases |actions|
  {
    if actions == [] then j == t
    else
      && Possible(j, actions[0], width, ranges) && Careful(j, actions[0], width)
      && (ActionKeeps(j, actions[0], width, ranges);
          Runs(Do(j, actions[0], width, ranges), actions[1..], width, ranges, t))
  }

  ghost function Empty(): Joint { Joint(Initially(), Blocks.EMPTY, true) }

  lemma EmptyFine(width: int64)
    requires IsWidth(width)
    ensures Invariant(Empty(), width)
  {
    InitiallyFine(width);
    hide Inv;
  }

  lemma {:induction false} RunKeeps(j: Joint, actions: seq<Action>, width: int64, ranges: seq<Range>, t: Joint)
    requires Invariant(j, width) && Runs(j, actions, width, ranges, t)
    ensures Invariant(t, width)
    decreases |actions|
  {
    InvariantHead(j, width);
    hide Invariant, Possible, Careful, Do;
    if actions != [] {
      ActionKeeps(j, actions[0], width, ranges);
      RunKeeps(Do(j, actions[0], width, ranges), actions[1..], width, ranges, t);
    }
  }

  /** After any run of appends, writes, compactions, reloads and crashes: blocks and head
      hold every sample that was ever accepted, once and in order; a block of the head's
      oldest window would overlap none on disk; reload finds no overlap; and what it has
      loaded holds each block that was written exactly once. */
  lemma NothingIsLost(actions: seq<Action>, width: int64, ranges: seq<Range>, t: Joint, ref: nat)
    requires IsWidth(width) && Invariant(Empty(), width) && Runs(Empty(), actions, width, ranges, t)
    ensures In(t.head.accepted, ref) == In(t.head.persisted, ref) + Held(t.head.head.series, ref)
    ensures HeadOk(t.head.head, width)
    ensures forall b :: Possible(t, Write(b), width, ranges) ==> Blocks.Possible(t.blocks, Blocks.Persist(b), ranges)
    ensures !t.blocks.phase.Deleting? ==> Blocks.Possible(t.blocks, Blocks.Load, ranges)
    ensures !t.blocks.phase.Stale? ==> Blocks.Once(t.blocks.loaded, t.blocks.persisted)
  {
    RunKeeps(Empty(), actions, width, ranges, t);
    forall b | HeadOk(t.head.head, width) && Possible(t, Write(b), width, ranges)
      ensures Blocks.Possible(t.blocks, Blocks.Persist(b), ranges)
    {
      WriteIsBehind(t, b, width, ranges);
    }
    InvariantLoads(t.blocks, ranges);
    hide Possible, HeadOk, Blocks.Invariant, Runs, Held;
  }

  lemma InvariantLoads(s: Blocks.State, ranges: seq<Range>)
    requires Blocks.Invariant(s)
    ensures !s.phase.Deleting? ==> Blocks.Possible(s, Blocks.Load, ranges)
    ensures !s.phase.Stale? ==> Blocks.Once(s.loaded, s.persisted)
  {
    if s.phase.Ready? {
      Blocks.ReadyIsLive(s);
    }
    hide Blocks.Live, Blocks.Superseded;
  }
}
