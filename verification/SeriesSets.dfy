/** The iterators over series that a compaction is made of (compactionSeriesSet and
    compactionMerger in compact.go), and the loop that writes the new block. */
module SeriesSets {
  import opened Options
  import opened Samples
  import opened Labelling
  import opened Tombstones
  import opened Merging
  import opened Populating
  import Seqs

  /** The memory of an iterator's current series. It is handed out by reference and
      overwritten when the iterator advances. */
  class Row {
    var lset: Labels
    var chks: seq<Chunk>
    var dranges: seq<Interval>

    constructor ()
    {
      lset, chks, dranges := [], [], [];
    }

    ghost function Value(): Entry
      reads this
    {
      Entry(lset, chks, dranges)
    }

    method Copy(r: Row)
      modifies this
      ensures Value() == old(r.Value())
    {
      lset, chks, dranges := r.lset, r.chks, r.dranges;
    }

    /** Chains two rows for the same series into a single one. */
    method Join(x: Row, y: Row)
      modifies this
      ensures Value() == Chain(old(x.Value()), old(y.Value()))
    {
      var ranges := AddEach(x.dranges, y.dranges);
      lset, chks, dranges := x.lset, x.chks + y.chks, ranges;
    }
  }

  class SeriesSet {
    var source: seq<Entry>     // of the set of one block, the series of the block ahead
    const a: SeriesSet?        // the sets that a merger merges
    const b: SeriesSet?
    var aok: bool
    var bok: bool
    const row: Row

    ghost const Repr: set<object>
    ghost var ahead: seq<Entry>

    ghost predicate Valid()
      reads this, Repr
      ensures Valid() ==> this in Repr && row in Repr
      decreases Repr, 1
    {
      && this in Repr && row in Repr
      && (a == null <==> b == null)
      && if a == null then ahead == Survivors(source) else
           && Children()
           && ahead == Merge(Current(a, aok), Current(b, bok))
    }

    ghost predicate Children()
      reads this, Repr
      ensures Children() ==> a != null && b != null
      decreases Repr, 0
    {
      && this in Repr
      && a != null && a in Repr && a.Repr <= Repr && this !in a.Repr && row !in a.Repr && a.Valid()
      && b != null && b in Repr && b.Repr <= Repr && this !in b.Repr && row !in b.Repr && b.Valid()
      && a.Repr !! b.Repr
    }

    /** What a merged set still contributes, its look-ahead included. */
    ghost function Current(s: SeriesSet, ok: bool): seq<Entry>
      reads this, s, s.row
    {
      if ok then [s.row.Value()] + s.ahead else []
    }

    constructor OfBlock(rows: seq<Entry>)
      ensures Valid() && fresh(Repr) && ahead == Survivors(rows)
    {
      source, a, b, aok, bok := rows, null, null, false, false;
      var r := new Row();
      row := r;
      Repr := {this, r};
      ahead := Survivors(rows);
    }

    /** A merger needs one series of look-ahead on both sides. */
    constructor Merger(x: SeriesSet, y: SeriesSet)
      requires x.Valid() && y.Valid() && x.Repr !! y.Repr
      modifies x.Repr, y.Repr
      ensures Valid() && fresh(Repr - x.Repr - y.Repr) && ahead == Merge(old(x.ahead), old(y.ahead))
    {
      var xok := x.Next();
      var yok := y.Next();
      source, a, b, aok, bok := [], x, y, xok, yok;
      var r := new Row();
      row := r;
      Repr := {this, r} + x.Repr + y.Repr;
      ahead := Merge(old(x.ahead), old(y.ahead));
    }

    function At(): Row
      reads this
    {
      row
    }

    method Next() returns (r: bool)
      requires Valid()
      modifies Repr
      ensures Valid()
      ensures r <==> old(ahead) != []
      ensures if r then old(ahead) == [At().Value()] + ahead else ahead == []
      decreases Repr, 2
    {
      if a == null {
        r := NextInBlock();
      } else {
        r := NextMerged();
      }
    }

    /** Takes the next series of the block, without the chunks that are deleted whole. */
    method NextInBlock() returns (r: bool)
      requires Valid() && a == null
      modifies this`source, this`ahead, row
      ensures Valid()
      ensures r <==> old(ahead) != []
      ensures if r then old(ahead) == [At().Value()] + ahead else ahead == []
      decreases Repr, 1
    {
      if source == [] {
        return false;
      }
      var e := source[0];
      source := source[1..];
      row.lset, row.chks, row.dranges := e.lset, e.chks, e.dranges;
      AllSurvive(e.chks);
      if |e.dranges| > 0 {
        row.chks := SurvivingChunks(e.chks, e.dranges);
      }
      ahead := Survivors(source);
      return true;
    }

    /** Takes the first series of both sides and joins those with equal labels. Its
        parts are copied, as the next step of a side overwrites them. */
    method NextMerged() returns (r: bool)
      requires Valid() && a != null
      modifies Repr
      ensures Valid()
      ensures r <==> old(ahead) != []
      ensures if r then old(ahead) == [At().Value()] + ahead else ahead == []
      decreases Repr, 1
    {
      hide Valid, Merge, Compare;
      Open();
      ghost var ca, cb := Current(a, aok), Current(b, bok);
      MergeFirst(ca, cb);
      if !aok && !bok {
        return false;
      }
      var d := if !aok then 1 else if !bok then -1 else Compare(a.At().lset, b.At().lset);
      if d > 0 {
        row.Copy(b.At());
        bok := b.Next();
      } else if d < 0 {
        row.Copy(a.At());
        aok := a.Next();
      } else {
        row.Join(a.At(), b.At());
        aok := a.Next();
        bok := b.Next();
      }
      assert Current(a, aok) == if d > 0 then ca else ca[1..];
      assert Current(b, bok) == if d < 0 then cb else cb[1..];
      ahead := Merge(Current(a, aok), Current(b, bok));
      Close();
      return true;
    }

    lemma Open()
      requires Valid() && a != null
      ensures Children() && row !in a.Repr && row !in b.Repr && ahead == Merge(Current(a, aok), Current(b, bok))
    {
    }

    /** Puts Valid together again where its definition is hidden. */
    lemma Close()
      requires Children() && row in Repr && ahead == Merge(Current(a, aok), Current(b, bok))
      ensures Valid()
    {
    }
  }

  lemma {:induction false} AllSurvive(cs: seq<Chunk>)
    ensures Surviving(cs, []) == cs
  {
    if cs != [] {
      AllSurvive(cs[1..]);
    }
  }

  /** What merging takes first, and what then remains on both sides. */
  lemma MergeFirst(a: seq<Entry>, b: seq<Entry>)
    ensures Merge(a, b) == [] <==> a == [] && b == []
    ensures a != [] || b != [] ==>
              var d := if a == [] then 1 else if b == [] then -1 else Compare(a[0].lset, b[0].lset);
              Merge(a, b) == [if d > 0 then b[0] else if d < 0 then a[0] else Chain(a[0], b[0])]
                           + Merge(if d > 0 then a else a[1..], if d < 0 then b else b[1..])
  {
    hide Compare, Chain;
    if a == [] && b != [] {
      assert Merge(a, b[1..]) == b[1..];
    }
    if b == [] && a != [] {
      assert Merge(a[1..], b) == a[1..];
    }
  }

  method AddEach(ra: seq<Interval>, rb: seq<Interval>) returns (res: seq<Interval>)
    ensures res == AddAll(ra, rb)
  {
    hide Added;
    res := ra;
    assert rb[0..] == rb;
    for i := 0 to |rb|
      invariant AddAll(ra, rb) == AddAll(res, rb[i..])
    {
      assert rb[i..][1..] == rb[i + 1..];
      res := Add(res, rb[i]);
    }
  }

  method SurvivingChunks(cs: seq<Chunk>, dranges: seq<Interval>) returns (res: seq<Chunk>)
    ensures res == Surviving(cs, dranges)
  {
    hide Surviving, IsSubrange;
    res := [];
    SurvivingEnds(cs, dranges);
    for i := 0 to |cs|
      invariant Surviving(cs, dranges) == res + Surviving(cs[i..], dranges)
    {
      SurvivingNext(cs, i, dranges);
      var inside := InOneRange(cs[i], dranges);
      if !inside {
        Seqs.Associate(res, [cs[i]], Surviving(cs[i + 1..], dranges));
        res := res + [cs[i]];
      }
    }
  }

  lemma SurvivingNext(cs: seq<Chunk>, i: nat, d: seq<Interval>)
    requires i < |cs|
    ensures Surviving(cs[i..], d) ==
              if IsSubrange(cs[i], d) then Surviving(cs[i + 1..], d) else [cs[i]] + Surviving(cs[i + 1..], d)
  {
    hide IsSubrange;
    Seqs.Prefix(cs, i);
    Seqs.Nothing(Surviving(cs[i + 1..], d));
    assert cs[i..][1..] == cs[i + 1..];
  }

  lemma SurvivingEnds(cs: seq<Chunk>, d: seq<Interval>)
    ensures Surviving(cs, d) == [] + Surviving(cs[0..], d)
    ensures forall r: seq<Chunk> :: r + Surviving(cs[|cs|..], d) == r
  {
    hide IsSubrange;
    assert cs[0..] == cs && cs[|cs|..] == [];
  }

  method InOneRange(c: Chunk, dranges: seq<Interval>) returns (r: bool)
    ensures r <==> IsSubrange(c, dranges)
  {
    for i := 0 to |dranges|
      invariant forall k :: 0 <= k < i ==> !(dranges[k].InBounds(c.mint) && dranges[k].InBounds(c.maxt))
    {
      if dranges[i].InBounds(c.mint) && dranges[i].InBounds(c.maxt) {
        return true;
      }
    }
    return false;
  }

  /* Writing the block */

  datatype Series = Series(lset: Labels, chks: seq<Chunk>)

  /** A row is written unless it has no chunks left. */
  ghost function WrittenRow(e: Entry): seq<Series> {
    if e.chks == [] then [] else [Series(e.lset, AllRewritten(e.chks, e.dranges))]
  }

  ghost function Written(rows: seq<Entry>): seq<Series> {
    if rows == [] then [] else WrittenRow(rows[0]) + Written(rows[1..])
  }

  /** Blocks' series sets, merged from left to right. */
  method MergedSet(bs: seq<Block>) returns (m: SeriesSet)
    requires bs != []
    ensures m.Valid() && fresh(m.Repr) && m.ahead == MergedAll(bs)
  {
    hide SeriesSet.Valid, Merge, MergedAll, Survivors;
    m := new SeriesSet.OfBlock(bs[0].rows);
    MergedNext(bs, 0);
    for i := 1 to |bs|
      invariant m.Valid() && fresh(m.Repr) && m.ahead == MergedAll(bs[..i])
    {
      MergedNext(bs, i);
      var s := new SeriesSet.OfBlock(bs[i].rows);
      m := new SeriesSet.Merger(m, s);
    }
    assert bs[..|bs|] == bs;
  }

  lemma MergedNext(bs: seq<Block>, i: nat)
    requires i < |bs|
    ensures MergedAll(bs[..i + 1]) == Merge(MergedAll(bs[..i]), Survivors(bs[i].rows))
    ensures i == 0 ==> MergedAll(bs[..1]) == Survivors(bs[0].rows)
  {
    assert bs[..i + 1][..i] == bs[..i];
  }

  ghost predicate InExtent(cs: seq<Chunk>, mint: int64, maxt: int64) {
    forall i :: 0 <= i < |cs| ==> mint <= cs[i].mint && cs[i].maxt <= maxt
  }

  /** A chunk is encoded again without its deleted samples, if it may have some. */
  method RewriteChunk(c: Chunk, dranges: seq<Interval>) returns (r: Chunk)
    requires Ordered(c.samples) && Sorted(dranges)
    ensures r == Rewritten(c, dranges) && r.mint == c.mint && r.maxt == c.maxt
  {
    if |dranges| == 0 || !(c.mint <= dranges[|dranges| - 1].maxt && dranges[0].mint <= c.maxt) {
      return c;
    }
    var it := new ChunkIterator(c.samples);
    var del := new DeletedIterator(it, dranges);
    var kept := [];
    var more := true;
    while more
      invariant del.Valid() && del.it == it && fresh(del) && fresh(it) && it.samples == c.samples
      invariant kept + del.Ahead() == Kept(c.samples, dranges)
      invariant !more ==> del.Ahead() == []
      decreases |del.Ahead()|, more
    {
      hide Kept, Sorted, Ordered;
      more := del.Next();
      if more {
        kept := kept + [it.At()];
      }
    }
    r := c.(samples := kept);
  }

  /** The loop over the chunks of one series. */
  method RewriteChunks(cs: seq<Chunk>, dranges: seq<Interval>, mint: int64, maxt: int64)
    returns (ok: bool, res: seq<Chunk>)
    requires Sorted(dranges) && forall i :: 0 <= i < |cs| ==> Ordered(cs[i].samples)
    ensures ok <==> InExtent(cs, mint, maxt)
    ensures ok ==> res == AllRewritten(cs, dranges)
  {
    hide Rewritten, AllRewritten, Sorted, Ordered;
    res := [];
    RewrittenEnds(cs, dranges);
    for i := 0 to |cs|
      invariant InExtent(cs[..i], mint, maxt)
      invariant AllRewritten(cs, dranges) == res + AllRewritten(cs[i..], dranges)
    {
      Seqs.Prefix(cs, i);
      RewrittenNext(cs, i, dranges);
      if cs[i].mint < mint || cs[i].maxt > maxt {
        return false, [];
      }
      var c := RewriteChunk(cs[i], dranges);
      Seqs.Associate(res, [c], AllRewritten(cs[i + 1..], dranges));
      res := res + [c];
    }
    Seqs.Parts(cs, |cs|);
    ok := true;
  }

  lemma RewrittenNext(cs: seq<Chunk>, i: nat, d: seq<Interval>)
    requires i < |cs|
    ensures AllRewritten(cs[i..], d) == [Rewritten(cs[i], d)] + AllRewritten(cs[i + 1..], d)
  {
    hide Rewritten;
    assert cs[i..][1..] == cs[i + 1..];
  }

  lemma RewrittenEnds(cs: seq<Chunk>, d: seq<Interval>)
    ensures AllRewritten(cs, d) == [] + AllRewritten(cs[0..], d)
    ensures forall r: seq<Chunk> :: r + AllRewritten(cs[|cs|..], d) == r
  {
    assert cs[0..] == cs && cs[|cs|..] == [];
  }

  ghost predicate Readable(rows: seq<Entry>) {
    && (forall k :: 0 <= k < |rows| ==> Sorted(rows[k].dranges))
    && forall k, i :: 0 <= k < |rows| && 0 <= i < |rows[k].chks| ==> Ordered(rows[k].chks[i].samples)
  }

  ghost predicate AllInExtent(rows: seq<Entry>, mint: int64, maxt: int64) {
    forall k :: 0 <= k < |rows| ==> InExtent(rows[k].chks, mint, maxt)
  }

  /** Writes the series of the blocks, in order of their labels. It fails exactly when
      there is no block, or a chunk reaches beyond the extent of the new block. */
  method PopulateBlock(bs: seq<Block>, mint: int64, maxt: int64) returns (ok: bool, out: seq<Series>)
    requires Readable(MergedAll(bs))
    ensures ok <==> bs != [] && AllInExtent(MergedAll(bs), mint, maxt)
    ensures ok ==> out == Written(MergedAll(bs))
    ensures ok ==> forall s :: s in out ==> s.chks != [] && forall c :: c in s.chks ==> mint <= c.mint && c.maxt <= maxt
    ensures !ok ==> bs == [] || exists e, c :: e in MergedAll(bs) && c in e.chks && (c.mint < mint || maxt < c.maxt)
  {
    if bs == [] {
      return false, [];
    }
    var rows := MergedSet(bs);
    ok, out := WriteAll(rows, mint, maxt);
    if ok {
      WrittenInside(MergedAll(bs), mint, maxt);
    } else {
      OutsideExtent(MergedAll(bs), mint, maxt);
    }
  }

  lemma OutsideExtent(rows: seq<Entry>, mint: int64, maxt: int64)
    requires !AllInExtent(rows, mint, maxt)
    ensures exists e, c :: e in rows && c in e.chks && (c.mint < mint || maxt < c.maxt)
  {
    var k :| 0 <= k < |rows| && !InExtent(rows[k].chks, mint, maxt);
    var i :| 0 <= i < |rows[k].chks| && !(mint <= rows[k].chks[i].mint && rows[k].chks[i].maxt <= maxt);
    assert rows[k] in rows && rows[k].chks[i] in rows[k].chks;
  }

  /** No series is written without chunks, and no chunk outside the extent. */
  lemma {:induction false} WrittenInside(rows: seq<Entry>, mint: int64, maxt: int64)
    requires AllInExtent(rows, mint, maxt)
    ensures forall s :: s in Written(rows) ==>
              s.chks != [] && forall c :: c in s.chks ==> mint <= c.mint && c.maxt <= maxt
  {
    if rows != [] {
      var e := rows[0];
      assert InExtent(e.chks, mint, maxt);
      assert forall k :: 0 <= k < |rows| - 1 ==> rows[1..][k] == rows[k + 1];
      hide InExtent;
      WrittenInside(rows[1..], mint, maxt);
      AllRewrittenAre(e.chks, e.dranges);
      hide AllRewritten;
      RewrittenExtent(e.chks, e.dranges, mint, maxt);
    }
  }

  lemma RewrittenExtent(cs: seq<Chunk>, d: seq<Interval>, mint: int64, maxt: int64)
    requires InExtent(cs, mint, maxt)
    ensures forall c :: c in AllRewritten(cs, d) ==> mint <= c.mint && c.maxt <= maxt
  {
    AllRewrittenAre(cs, d);
    hide AllRewritten, Kept;
    forall c | c in AllRewritten(cs, d) ensures mint <= c.mint && c.maxt <= maxt {
      var k :| 0 <= k < |cs| && AllRewritten(cs, d)[k] == c;
      assert c == Rewritten(cs[k], d);
    }
  }

  method WriteAll(rows: SeriesSet, mint: int64, maxt: int64) returns (ok: bool, out: seq<Series>)
    requires rows.Valid() && Readable(rows.ahead)
    modifies rows.Repr
    ensures ok <==> AllInExtent(old(rows.ahead), mint, maxt)
    ensures ok ==> out == Written(old(rows.ahead))
  {
    hide SeriesSet.Valid, Readable, AllInExtent, WrittenRow;
    out := [];
    ghost var all := rows.ahead;
    NoRows(mint, maxt);
    var more := rows.Next();
    while more
      invariant rows.Valid() && Readable(all)
      invariant if more then all == [rows.At().Value()] + rows.ahead else all == []
      invariant Written(old(rows.ahead)) == out + Written(all)
      invariant AllInExtent(old(rows.ahead), mint, maxt) <==> AllInExtent(all, mint, maxt)
      decreases |all|
    {
      RowsTail(rows.At().Value(), rows.ahead, mint, maxt);
      var inside, s := WriteRow(rows.At(), mint, maxt);
      if !inside {
        return false, [];
      }
      out := out + s;
      all := rows.ahead;
      more := rows.Next();
    }
    ok := true;
  }

  method WriteRow(row: Row, mint: int64, maxt: int64) returns (inside: bool, s: seq<Series>)
    requires Readable([row.Value()])
    ensures inside <==> InExtent(row.chks, mint, maxt)
    ensures inside ==> s == WrittenRow(row.Value())
  {
    assert [row.Value()][0] == row.Value();
    var chks;
    inside, chks := RewriteChunks(row.chks, row.dranges, mint, maxt);
    s := if |row.chks| > 0 then [Series(row.lset, chks)] else [];
  }

  lemma NoRows(mint: int64, maxt: int64)
    ensures AllInExtent([], mint, maxt) && Written([]) == []
  {
  }

  lemma RowsTail(e: Entry, rest: seq<Entry>, mint: int64, maxt: int64)
    requires Readable([e] + rest)
    ensures Readable(rest) && Readable([e])
    ensures AllInExtent([e] + rest, mint, maxt) <==> InExtent(e.chks, mint, maxt) && AllInExtent(rest, mint, maxt)
    ensures Written([e] + rest) == WrittenRow(e) + Written(rest)
  {
    var rows := [e] + rest;
    assert rows[1..] == rest;
    hide InExtent, Sorted, Ordered;
    assert rows[0] == e && forall k :: 0 <= k < |rest| ==> rest[k] == rows[k + 1];
    if InExtent(e.chks, mint, maxt) && AllInExtent(rest, mint, maxt) {
      forall k | 0 <= k < |rows| ensures InExtent(rows[k].chks, mint, maxt) {
        assert k > 0 ==> rows[k] == rest[k - 1];
      }
    }
  }

  /* The meaning of the new block */

  function Find(out: seq<Series>, l: Labels): seq<Chunk> {
    if out == [] then [] else if out[0].lset == l then out[0].chks else Find(out[1..], l)
  }

  ghost predicate InLabelOrder(out: seq<Series>) {
    forall i, j :: 0 <= i < j < |out| ==> Compare(out[i].lset, out[j].lset) < 0
  }

  lemma {:induction false} WrittenAfter(l: Labels, rows: seq<Entry>)
    requires Behind(l, rows)
    ensures forall i :: 0 <= i < |Written(rows)| ==> Compare(l, Written(rows)[i].lset) < 0
  {
    hide Compare, AllRewritten;
    if rows != [] {
      WrittenAfter(l, rows[1..]);
    }
  }

  /** Writing the rows keeps their order ... */
  lemma {:induction false} WrittenInOrder(rows: seq<Entry>)
    requires Strict(rows)
    ensures InLabelOrder(Written(rows))
  {
    hide Compare, AllRewritten;
    if rows != [] {
      StrictTail(rows);
      WrittenAfter(rows[0].lset, rows[1..]);
      WrittenInOrder(rows[1..]);
    }
  }

  /** ... and their chunks. */
  lemma {:induction false} WrittenFinds(rows: seq<Entry>, l: Labels)
    requires Strict(rows)
    ensures var r := At(rows, l);
            Find(Written(rows), l) == if r.None? then [] else AllRewritten(r.value.chks, r.value.dranges)
  {
    if rows != [] {
      var e, rest := rows[0], Written(rows[1..]);
      StrictTail(rows);
      WrittenFinds(rows[1..], l);
      NoneRewritten(e.dranges);
      hide Compare, AllRewritten, Strict, Behind;
      if e.lset == l {
        NotAt(l, rows[1..]);
      }
      FindNext(WrittenRow(e), rest, l);
    }
  }

  lemma FindNext(s: seq<Series>, rest: seq<Series>, l: Labels)
    requires |s| <= 1
    ensures Find(s + rest, l) == if s != [] && s[0].lset == l then s[0].chks else Find(rest, l)
  {
    if s == [] {
      assert s + rest == rest;
    } else {
      assert (s + rest)[1..] == rest;
    }
  }

  lemma NoneRewritten(d: seq<Interval>)
    ensures AllRewritten([], d) == []
  {
  }

  lemma {:induction false} AtIndex(rows: seq<Entry>, k: nat)
    requires Strict(rows) && k < |rows|
    ensures At(rows, rows[k].lset) == Some(rows[k])
  {
    if k > 0 {
      StrictTail(rows);
      LabelsOrder(rows[0].lset, rows[k].lset, []);
      AtIndex(rows[1..], k - 1);
    }
  }

  /** Compacting blocks that lie one after the other: it succeeds, the series of the
      new block are in strict label order, and each holds, block after block,
      exactly those samples that the block has not deleted. Each chunk keeps its times
      and its place, and a chunk is dropped exactly if a single range takes all of it. */
  lemma CompactionPreserves(bs: seq<Block>, mint: int64, maxt: int64, l: Labels)
    requires bs != [] && Consecutive(bs) && mint <= bs[0].lo && bs[|bs| - 1].hi <= maxt
    ensures Readable(MergedAll(bs)) && AllInExtent(MergedAll(bs), mint, maxt)
    ensures var out := Written(MergedAll(bs)); InLabelOrder(out) && Flat(Find(out, l)) == Wanted(bs, l)
    ensures var chks := Find(Written(MergedAll(bs)), l);
            ChunksStay(bs, l, chks) && ChunksInside(chks, bs[0].lo, bs[|bs| - 1].hi)
  {
    hide Consecutive, MergedAll, Written, Find, InLabelOrder, Readable, AllInExtent, Wanted, AllRewritten, ChunksStay;
    var rows := MergedAll(bs);
    RowsReadable(bs, mint, maxt);
    MergedRow(bs, l);
    RowHoldsWanted(bs, l);
    RowChunks(bs, l);
    if At(rows, l).Some? {
      RewrittenInside(At(rows, l).value.chks, At(rows, l).value.dranges, bs[0].lo, bs[|bs| - 1].hi);
    }
    WrittenFinds(rows, l);
    WrittenInOrder(rows);
  }

  lemma RowsReadable(bs: seq<Block>, mint: int64, maxt: int64)
    requires bs != [] && Consecutive(bs) && mint <= bs[0].lo && bs[|bs| - 1].hi <= maxt
    ensures Readable(MergedAll(bs)) && AllInExtent(MergedAll(bs), mint, maxt)
  {
    hide Consecutive, MergedAll, Wanted, AllRewritten, Strict, AllWithin;
    var rows := MergedAll(bs);
    MergedRow(bs, []);
    forall k | 0 <= k < |rows|
      ensures Sorted(rows[k].dranges) && ChunksInside(rows[k].chks, bs[0].lo, bs[|bs| - 1].hi) {
      hide CoveredBy, Covers, Sorted, LastIsFurthest, ChunksInside, EndsBefore;
      AtIndex(rows, k);
      MergedRow(bs, rows[k].lset);
      RowHoldsWanted(bs, rows[k].lset);
    }
    hide Sorted;
  }
}
