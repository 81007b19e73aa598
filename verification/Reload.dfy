/** Blocks on disk across compactions, reloads and crashes (reload and compact in
    db.go). A new block names the blocks it replaces; these are deleted later, one
    by one, and a crash may come in between. */
module Reload {
  import opened Compaction

  /** The block directories by id. */
  type Disk = map<nat, Meta>

  function Parents(disk: Disk): set<nat> {
    set u, x | u in disk && x in disk[u].parents :: x
  }

  /** The blocks that no block on disk replaces. */
  function Live(disk: Disk): Disk {
    map u | u in disk && u !in Parents(disk) :: disk[u]
  }

  /** The first half of reload: what to delete and what to load. */
  method Classify(disk: Disk) returns (deleteable: set<nat>, blocks: Disk)
    ensures deleteable == Parents(disk) && blocks == Live(disk)
  {
    deleteable, blocks := {}, map[];
    var dirs := disk.Keys;
    while dirs != {}
      invariant dirs <= disk.Keys
      invariant deleteable == set u, x | u in disk.Keys - dirs && x in disk[u].parents :: x
      decreases dirs
    {
      var dir :| dir in dirs;
      deleteable := deleteable + disk[dir].parents;
      dirs := dirs - {dir};
    }
    dirs := disk.Keys;
    while dirs != {}
      invariant dirs <= disk.Keys
      invariant blocks == map u | u in disk.Keys - dirs && u !in deleteable :: disk[u]
      decreases dirs
    {
      var dir :| dir in dirs;
      if dir !in deleteable {
        blocks := blocks[dir := disk[dir]];
      }
      dirs := dirs - {dir};
    }
  }

  /** Ready: reload is complete. Stale: it must be run. Deleting: blocks are loaded,
      some directories are still to be removed. */
  datatype Phase = Ready | Stale | Deleting(todo: set<nat>)

  datatype State = State(disk: Disk, loaded: Disk, phase: Phase, used: set<nat>, persisted: set<nat>)

  /** The blocks of a disk in time order, without overlaps. */
  ghost predicate Arranged(ds: seq<Meta>, disk: Disk) {
    && Layout(ds)
    && (forall m :: m in ds <==> m in disk.Values)
  }

  ghost predicate Apart(a: Meta, b: Meta) { a.maxt <= b.mint || b.maxt <= a.mint }

  datatype Step =
    | Persist(block: Meta)                   // a block written from the head
    | Compact(ds: seq<Meta>, p: seq<Meta>, uid: nat, numSeries: nat)
    | Annotate(u: nat, failed: bool, numTombstones: nat)
    | Load
    | Delete(x: nat)
    | Finish
    | Crash

  ghost predicate Possible(s: State, step: Step, ranges: seq<Range>) {
    match step
    case Persist(b) =>
      s.phase.Ready? && b.ulid !in s.used && b.mint < b.maxt && b.sources == {b.ulid} && b.parents == {}
      && forall u :: u in s.disk ==> Apart(s.disk[u], b)
    case Compact(ds, p, uid, _) =>
      s.phase.Ready? && ds != [] && p != [] && Arranged(ds, s.disk) && Planned(ranges, ds, p) && uid !in s.used
    case Annotate(u, _, _) => s.phase.Ready? && u in s.disk
    case Load =>
      && !s.phase.Deleting?
      && forall u, v :: u in Live(s.disk) && v in Live(s.disk) && u != v ==> Apart(s.disk[u], s.disk[v])
    case Delete(x) => s.phase.Deleting? && x in s.phase.todo
    case Finish => s.phase.Deleting? && s.phase.todo == {}
    case Crash => true
  }

  function Do(s: State, step: Step): State
    requires step.Compact? ==> step.p != []
    requires step.Annotate? ==> step.u in s.disk
  {
    match step
    case Persist(b) =>
      s.(disk := s.disk[b.ulid := b], phase := Stale, used := s.used + {b.ulid}, persisted := s.persisted + {b.ulid})
    case Compact(_, p, uid, numSeries) =>
      s.(disk := s.disk[uid := Compacted(uid, p, numSeries)], phase := Stale, used := s.used + {uid})
    case Annotate(u, failed, n) =>
      s.(disk := s.disk[u := s.disk[u].(failed := failed, numTombstones := n)], phase := Stale)
    case Load =>
      s.(loaded := Live(s.disk), phase := Deleting(Parents(s.disk) * s.disk.Keys))
    case Delete(x) =>
      s.(disk := s.disk - {x}, phase := Deleting((if s.phase.Deleting? then s.phase.todo else {}) - {x}))
    case Finish => s.(phase := Ready)
    case Crash => s.(loaded := map[], phase := Stale)
  }

  /** Directory names, ids of parents, and extents. */
  ghost predicate Named(s: State) {
    && (forall u :: u in s.disk ==> s.disk[u].ulid == u && u in s.used && s.disk[u].parents <= s.used)
    && (forall u :: u in s.disk ==> s.disk[u].mint < s.disk[u].maxt)
    && s.persisted <= s.used
  }

  /** A replaced block has no parents on disk any more, and the block that replaces it
      is live and has its sources. */
  ghost predicate Superseded(disk: Disk) {
    forall x :: x in disk && x in Parents(disk) ==>
      && disk[x].parents !! disk.Keys
      && exists u :: u in Live(disk) && x in disk[u].parents && disk[x].sources <= disk[u].sources
  }

  /** Each persisted source is in exactly one live block. */
  ghost predicate Once(live: Disk, persisted: set<nat>) {
    && (forall u :: u in live ==> live[u].sources <= persisted)
    && (forall x :: x in persisted ==> exists u :: u in live && x in live[u].sources)
    && (forall u, v :: u in live && v in live && u != v ==> live[u].sources !! live[v].sources)
  }

  ghost predicate Separate(live: Disk) {
    forall u, v :: u in live && v in live && u != v ==> Apart(live[u], live[v])
  }

  ghost predicate Phased(s: State) {
    match s.phase
    case Ready => Parents(s.disk) !! s.disk.Keys && s.loaded == s.disk
    case Stale => true
    case Deleting(todo) => todo == Parents(s.disk) * s.disk.Keys && s.loaded == Live(s.disk)
  }

  ghost predicate Invariant(s: State) {
    Named(s) && Superseded(s.disk) && Once(Live(s.disk), s.persisted) && Separate(Live(s.disk)) && Phased(s)
  }

  lemma ReadyIsLive(s: State)
    requires Invariant(s) && s.phase.Ready?
    ensures Live(s.disk) == s.disk
  {
  }

  lemma ParentsUsed(s: State)
    requires Named(s)
    ensures Parents(s.disk) <= s.used && s.disk.Keys <= s.used
  {
  }

  /** A new block without parents leaves the others as they are. */
  lemma PersistedDisk(s: State, b: Meta)
    requires Invariant(s) && s.phase.Ready? && b.ulid !in s.used && b.parents == {}
    ensures var disk := s.disk[b.ulid := b]; Parents(disk) == Parents(s.disk) && Live(disk) == disk && Superseded(disk)
  {
    hide Once, Separate;
    var disk := s.disk[b.ulid := b];
    ReadyIsLive(s);
    ParentsUsed(s);
    forall x | x in Parents(s.disk) ensures x in Parents(disk) {
      var u :| u in s.disk && x in s.disk[u].parents;
      assert disk[u] == s.disk[u];
    }
    assert Parents(disk) == Parents(s.disk);
  }

  lemma PersistKeeps(s: State, b: Meta, ranges: seq<Range>)
    requires Invariant(s) && Possible(s, Persist(b), ranges)
    ensures Invariant(Do(s, Persist(b)))
  {
    hide Parents, Superseded, Live;
    var t := Do(s, Persist(b));
    PersistedDisk(s, b);
    ReadyIsLive(s);
    ParentsUsed(s);
    assert b.ulid in Live(t.disk);
    forall x | x in t.persisted ensures exists u :: u in Live(t.disk) && x in Live(t.disk)[u].sources {
      if x != b.ulid {
        var u :| u in Live(s.disk) && x in Live(s.disk)[u].sources;
        assert Live(t.disk)[u] == s.disk[u];
      }
    }
  }

  /** After a block has been written, reload succeeds if and only if the block overlaps none
      of those on disk. */
  lemma LoadsExactly(s: State, b: Meta, ranges: seq<Range>)
    requires Invariant(s) && s.phase.Ready? && b.ulid !in s.used && b.parents == {}
    ensures Possible(Do(s, Persist(b)), Load, ranges) <==> forall u :: u in s.disk ==> Apart(s.disk[u], b)
  {
    hide Parents, Superseded, Live;
    PersistedDisk(s, b);
    ReadyIsLive(s);
    var disk := s.disk[b.ulid := b];
    assert forall u :: u in s.disk ==> disk[u] == s.disk[u];
    assert disk[b.ulid] == b;
  }

  lemma AnnotateKeeps(s: State, u: nat, failed: bool, n: nat, ranges: seq<Range>)
    requires Invariant(s) && Possible(s, Annotate(u, failed, n), ranges)
    ensures Invariant(Do(s, Annotate(u, failed, n)))
  {
    hide Layout, Planned, Parents, Superseded, Live;
    var t := Do(s, Annotate(u, failed, n));
    ReadyIsLive(s);
    AnnotatedDisk(s, u, failed, n);
    forall x | x in t.persisted ensures exists v :: v in Live(t.disk) && x in Live(t.disk)[v].sources {
      var v :| v in Live(s.disk) && x in Live(s.disk)[v].sources;
      assert v in Live(t.disk);
    }
  }

  lemma AnnotatedDisk(s: State, u: nat, failed: bool, n: nat)
    requires Invariant(s) && s.phase.Ready? && u in s.disk
    ensures var disk := s.disk[u := s.disk[u].(failed := failed, numTombstones := n)];
            Parents(disk) == Parents(s.disk) && Live(disk) == disk && Superseded(disk)
  {
    hide Once, Separate;
    var disk := s.disk[u := s.disk[u].(failed := failed, numTombstones := n)];
    assert forall v :: v in s.disk ==> disk[v].parents == s.disk[v].parents;
    assert disk.Keys == s.disk.Keys;
    assert Parents(disk) == Parents(s.disk);
  }

  lemma DeleteKeeps(s: State, x: nat, ranges: seq<Range>)
    requires Invariant(s) && Possible(s, Delete(x), ranges)
    ensures Invariant(Do(s, Delete(x))) && Live(Do(s, Delete(x)).disk) == Live(s.disk)
  {
    var t := Do(s, Delete(x));
    assert Parents(t.disk) <= Parents(s.disk);
    forall y | y in t.disk && y in Parents(s.disk) ensures y in Parents(t.disk) {
      var u :| u in s.disk && y in s.disk[u].parents;
      assert u != x;
      assert u in t.disk;
    }
    assert Live(t.disk) == Live(s.disk);
    forall y | y in t.disk && y in Parents(t.disk)
      ensures exists u :: u in Live(t.disk) && y in t.disk[u].parents && t.disk[y].sources <= t.disk[u].sources {
      var u :| u in Live(s.disk) && y in s.disk[u].parents && s.disk[y].sources <= s.disk[u].sources;
      assert u in Live(t.disk) && t.disk[u] == s.disk[u];
    }
    assert Superseded(t.disk);
    assert Parents(t.disk) * t.disk.Keys == s.phase.todo - {x};
    hide Parents, Superseded, Live, Once, Separate;
  }

  /** What a compaction makes of the blocks on a disk that is fully cleaned up. */
  lemma CompactedDisk(s: State, ds: seq<Meta>, p: seq<Meta>, uid: nat, n: nat, ranges: seq<Range>)
    requires Invariant(s) && Possible(s, Compact(ds, p, uid, n), ranges)
    ensures var disk := s.disk[uid := Compacted(uid, p, n)]; var ids := set m | m in p :: m.ulid;
            && ids <= s.disk.Keys && (forall m :: m in p ==> s.disk[m.ulid] == m)
            && Parents(disk) == Parents(s.disk) + ids
            && Live(disk) == (s.disk - ids)[uid := Compacted(uid, p, n)]
  {
    hide Once, Separate, Superseded, Layout;
    var disk, ids := s.disk[uid := Compacted(uid, p, n)], set m | m in p :: m.ulid;
    ParentsUsed(s);
    forall m | m in p ensures m.ulid in s.disk && s.disk[m.ulid] == m {
      assert m in ds;
      assert m in s.disk.Values;
    }
    assert disk[uid].parents == ids;
    forall x | x in Parents(s.disk) ensures x in Parents(disk) {
      var u :| u in s.disk && x in s.disk[u].parents;
      assert disk[u] == s.disk[u];
    }
    forall x | x in ids ensures x in Parents(disk) {
      assert uid in disk && x in disk[uid].parents;
    }
  }

  lemma CompactedApart(ds: seq<Meta>, p: seq<Meta>, i: nat, j: nat, m: Meta, o: Meta)
    requires Segment(p, ds, i, j) && Layout(Replaced(ds, i, j, m)) && o in ds && o !in p
    ensures Apart(o, m)
  {
    var r := Replaced(ds, i, j, m);
    var k :| 0 <= k < |ds| && ds[k] == o;
    assert forall l :: i <= l < j ==> ds[l] == p[l - i];
    assert r[i] == m && (k < i ==> r[k] == o) && (k >= j ==> r[k - j + i + 1] == o);
  }

  /** One block put in the place of several. */
  function Merged(live: Disk, p: seq<Meta>, m: Meta): Disk {
    (live - set o | o in p :: o.ulid)[m.ulid := m]
  }

  ghost predicate Of(p: seq<Meta>, live: Disk) {
    forall o :: o in p ==> o.ulid in live && live[o.ulid] == o
  }

  lemma MergedSeparate(live: Disk, ds: seq<Meta>, p: seq<Meta>, i: nat, j: nat, m: Meta)
    requires Separate(live) && Of(p, live) && m.ulid !in live
    requires (forall u :: u in live ==> live[u].ulid == u && live[u] in ds)
    requires Segment(p, ds, i, j) && Layout(Replaced(ds, i, j, m))
    ensures Separate(Merged(live, p, m)) && m.mint < m.maxt
  {
    assert Replaced(ds, i, j, m)[i] == m;
    hide Layout, Segment;
    forall u | u in Merged(live, p, m) && u != m.ulid ensures Apart(live[u], m) {
      CompactedApart(ds, p, i, j, m, live[u]);
    }
  }

  lemma MergedOnce(live: Disk, p: seq<Meta>, m: Meta, persisted: set<nat>)
    requires Once(live, persisted) && Of(p, live) && m.ulid !in live
    requires forall x :: x in m.sources <==> exists o :: o in p && x in o.sources
    ensures Once(Merged(live, p, m), persisted)
  {
    var live' := Merged(live, p, m);
    forall x | x in persisted ensures exists u :: u in live' && x in live'[u].sources {
      var u :| u in live && x in live[u].sources;
      if u in live' {
        assert live'[u] == live[u];
      } else {
        assert m.ulid in live' && x in live'[m.ulid].sources;
      }
    }
    forall u | u in live' && u != m.ulid ensures live'[u].sources !! m.sources {
      forall x | x in m.sources ensures x !in live'[u].sources {
        var o :| o in p && x in o.sources;
        assert o.ulid in live && o.ulid != u;
      }
    }
  }

  lemma CompactedSources(uid: nat, p: seq<Meta>, n: nat)
    requires p != []
    ensures forall x :: x in Compacted(uid, p, n).sources <==> exists o :: o in p && x in o.sources
  {
  }

  lemma CompactedLive(s: State, ds: seq<Meta>, p: seq<Meta>, uid: nat, n: nat, ranges: seq<Range>)
    requires Invariant(s) && Possible(s, Compact(ds, p, uid, n), ranges)
    ensures var live := Live(Do(s, Compact(ds, p, uid, n)).disk);
            live == Merged(s.disk, p, Compacted(uid, p, n)) && Once(live, s.persisted) && Separate(live)
    ensures Compacted(uid, p, n).mint < Compacted(uid, p, n).maxt
  {
    hide Planned, Layout, Compacted, Superseded, Segment, Parents, Separate, Once, Live, Arranged;
    ArrangedHolds(ds, s.disk);
    var i, j := PlanKeepsLayout(ranges, ds, p, uid, n);
    CompactedDisk(s, ds, p, uid, n, ranges);
    ReadyIsLive(s);
    ParentsUsed(s);
    CompactedSources(uid, p, n);
    CompactedId(uid, p, n);
    MergedSeparate(s.disk, ds, p, i, j, Compacted(uid, p, n));
    MergedOnce(s.disk, p, Compacted(uid, p, n), s.persisted);
  }

  lemma ArrangedHolds(ds: seq<Meta>, disk: Disk)
    requires Arranged(ds, disk)
    ensures Layout(ds) && forall u :: u in disk ==> disk[u] in ds
  {
    hide Layout;
    forall u | u in disk ensures disk[u] in ds {
      assert disk[u] in disk.Values;
    }
  }

  lemma CompactedId(uid: nat, p: seq<Meta>, n: nat)
    requires p != []
    ensures Compacted(uid, p, n).ulid == uid && Compacted(uid, p, n).mint == p[0].mint
    ensures Compacted(uid, p, n).maxt == p[|p| - 1].maxt
  {
  }

  lemma CompactSuperseded(s: State, ds: seq<Meta>, p: seq<Meta>, uid: nat, n: nat, ranges: seq<Range>)
    requires Invariant(s) && Possible(s, Compact(ds, p, uid, n), ranges)
    ensures Superseded(Do(s, Compact(ds, p, uid, n)).disk)
  {
    var m, t := Compacted(uid, p, n), Do(s, Compact(ds, p, uid, n));
    CompactedDisk(s, ds, p, uid, n, ranges);
    ParentsUsed(s);
    assert forall u, x :: u in s.disk && x in s.disk[u].parents ==> x in Parents(s.disk);
    assert uid in Live(t.disk);
    hide Layout, Planned, Parents, Live, Separate, Once;
    forall x | x in t.disk && x in Parents(t.disk)
      ensures t.disk[x].parents !! t.disk.Keys
      ensures exists u :: u in Live(t.disk) && x in t.disk[u].parents && t.disk[x].sources <= t.disk[u].sources
    {
      assert x != uid && x in s.disk && x !in Parents(s.disk);
      var k :| 0 <= k < |p| && p[k].ulid == x;
      assert p[k] in p && s.disk[x] == p[k];
      assert t.disk[x].sources <= t.disk[uid].sources;
    }
  }

  lemma CompactKeeps(s: State, ds: seq<Meta>, p: seq<Meta>, uid: nat, n: nat, ranges: seq<Range>)
    requires Invariant(s) && Possible(s, Compact(ds, p, uid, n), ranges)
    ensures Invariant(Do(s, Compact(ds, p, uid, n)))
  {
    hide Superseded, Separate, Once, Live, Parents, Planned, Layout;
    CompactedLive(s, ds, p, uid, n, ranges);
    CompactSuperseded(s, ds, p, uid, n, ranges);
    CompactedDisk(s, ds, p, uid, n, ranges);
    ParentsUsed(s);
  }

  lemma StepKeeps(s: State, step: Step, ranges: seq<Range>)
    requires Invariant(s) && Possible(s, step, ranges)
    ensures Invariant(Do(s, step))
  {
    match step
    case Persist(b) => PersistKeeps(s, b, ranges);
    case Compact(ds, p, uid, n) => CompactKeeps(s, ds, p, uid, n, ranges);
    case Annotate(u, failed, n) => AnnotateKeeps(s, u, failed, n, ranges);
    case Load =>
    case Delete(x) => DeleteKeeps(s, x, ranges);
    case Finish =>
      forall u | u in s.disk ensures u !in Parents(s.disk) {
        assert u in Parents(s.disk) ==> u in Parents(s.disk) * s.disk.Keys;
      }
      assert Live(s.disk) == s.disk;
    case Crash =>
  }

  ghost predicate Runs(s: State, steps: seq<Step>, ranges: seq<Range>, t: State)
    decreases |steps|
  {
    if steps == [] then s == t
    else Possible(s, steps[0], ranges) && Runs(Do(s, steps[0]), steps[1..], ranges, t)
  }

  lemma {:induction false} RunKeeps(s: State, steps: seq<Step>, ranges: seq<Range>, t: State)
    requires Invariant(s) && Runs(s, steps, ranges, t)
    ensures Invariant(t)
    decreases |steps|
  {
    hide Invariant;
    if steps != [] {
      StepKeeps(s, steps[0], ranges);
      RunKeeps(Do(s, steps[0]), steps[1..], ranges, t);
    }
  }

  const EMPTY: State := State(map[], map[], Ready, {}, {})

  /** After any run of writes, compactions, deletions and crashes: reload never finds
      overlapping blocks; what it has loaded holds each persisted source exactly once;
      and what it deletes is superseded by a block that it has loaded. */
  lemma ReloadIsSafe(steps: seq<Step>, ranges: seq<Range>, s: State)
    requires Runs(EMPTY, steps, ranges, s)
    ensures !s.phase.Deleting? ==> Possible(s, Load, ranges)
    ensures !s.phase.Stale? ==> Once(s.loaded, s.persisted) && Separate(s.loaded)
    ensures s.phase.Deleting? ==> forall x :: x in s.phase.todo ==>
              exists u :: u in s.loaded && x in s.disk && s.disk[x].sources <= s.loaded[u].sources && u !in s.phase.todo
  {
    assert Invariant(EMPTY);
    RunKeeps(EMPTY, steps, ranges, s);
    if s.phase.Ready? {
      ReadyIsLive(s);
    }
    if s.phase.Deleting? {
      forall x | x in s.phase.todo
        ensures exists u ::
                  u in s.loaded && x in s.disk && s.disk[x].sources <= s.loaded[u].sources && u !in s.phase.todo
      {
        assert x in Parents(s.disk) && x in s.disk;
        var u :| u in Live(s.disk) && x in s.disk[u].parents && s.disk[x].sources <= s.disk[u].sources;
        assert s.loaded[u] == s.disk[u];
      }
    }
  }

  /** Separate blocks can be put in time order, as planning requires. */
  lemma {:induction false} CanBeArranged(disk: Disk) returns (ds: seq<Meta>)
    requires (forall u :: u in disk ==> disk[u].mint < disk[u].maxt) && Separate(disk)
    ensures Arranged(ds, disk)
    decreases |disk|
  {
    if disk == map[] {
      ds := [];
    } else {
      var u := Latest(disk);
      var init := CanBeArranged(disk - {u});
      ds := init + [disk[u]];
      ArrangedWithLatest(disk, u, init);
    }
  }

  lemma ArrangedWithLatest(disk: Disk, u: nat, init: seq<Meta>)
    requires u in disk && (forall v :: v in disk ==> disk[v].mint < disk[v].maxt && disk[v].mint <= disk[u].mint)
    requires Separate(disk)
    requires Arranged(init, disk - {u})
    ensures Arranged(init + [disk[u]], disk)
  {
    var rest := disk - {u};
    forall m | m in init ensures m in disk.Values && m.maxt <= disk[u].mint {
      assert m in rest.Values;
      var v :| v in rest && rest[v] == m;
      assert v in disk && v != u;
    }
    forall v | v in disk ensures disk[v] in init + [disk[u]] {
      assert v != u ==> rest[v] in rest.Values;
    }
    assert forall k :: 0 <= k < |init| ==> init[k] in init;
  }

  lemma {:induction false} Latest(disk: Disk) returns (u: nat)
    requires disk != map[]
    ensures u in disk && forall v :: v in disk ==> disk[v].mint <= disk[u].mint
    decreases |disk|
  {
    u :| u in disk;
    var rest := disk - {u};
    assert forall v :: v in disk && v != u ==> v in rest;
    if rest != map[] {
      var w := Latest(rest);
      if disk[u].mint < disk[w].mint {
        u := w;
      }
    }
  }
}
