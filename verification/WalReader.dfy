/** Reading the write-ahead log back: Reader of wal/wal.go over the concatenated
    segments, and the repair of a log in which it finds a corruption. */
module WalReader {
  import opened Words
  import opened WalFormat
  import opened Wal
  import Seqs

  /** The stream that a reader over all segments sees. */
  function Concat(segs: seq<Bytes>): Bytes {
    if |segs| == 0 then [] else Concat(segs[..|segs| - 1]) + segs[|segs| - 1]
  }

  lemma {:induction false} WholePages(segs: seq<Bytes>)
    requires forall j :: 0 <= j < |segs| ==> |segs[j]| % PAGE_SIZE == 0
    ensures |Concat(segs)| % PAGE_SIZE == 0
  {
    if |segs| > 0 {
      WholePages(segs[..|segs| - 1]);
      PageSum(|Concat(segs[..|segs| - 1])|, |segs[|segs| - 1]|);
    }
  }

  lemma PageSum(a: nat, b: nat)
    requires a % PAGE_SIZE == 0 && b % PAGE_SIZE == 0
    ensures (a + b) % PAGE_SIZE == 0
  {
  }

  lemma {:induction false} ConcatHolds(crc: Checksum, segs: seq<Bytes>, logged: seq<seq<Bytes>>)
    requires HoldsAll(crc, segs, logged)
    ensures Holds(crc, Concat(segs), Flat(logged))
  {
    hide Holds;
    if |segs| == 0 {
      HoldsNothing(crc);
    } else {
      var last := |segs| - 1;
      ConcatHolds(crc, segs[..last], logged[..last]);
      WholePages(segs[..last]);
      HoldsConcat(crc, Concat(segs[..last]), Flat(logged[..last]), segs[last], logged[last]);
    }
  }

  /** Whatever was logged is read back: all of it from the concatenated segments,
      and from each segment alone exactly the records it was given. */
  lemma LogReadsBack(crc: Checksum, segs: seq<Bytes>, logged: seq<seq<Bytes>>)
    requires HoldsAll(crc, segs, logged)
    ensures ReadLog(crc, Concat(segs), 0) == Log(Flat(logged), Eof)
    ensures forall j :: 0 <= j < |segs| ==> ReadLog(crc, segs[j], 0) == Log(logged[j], Eof)
  {
    hide Holds, ReadLog;
    ConcatHolds(crc, segs, logged);
    HoldsReads(crc, Concat(segs), Flat(logged));
    forall j | 0 <= j < |segs| ensures ReadLog(crc, segs[j], 0) == Log(logged[j], Eof) {
      HoldsReads(crc, segs[j], logged[j]);
    }
  }

  /** The result of io.ReadFull. */
  datatype Chunk = Whole(b: Bytes) | EndOfStream | Unexpected

  class Reader {
    const crc: Checksum
    ghost const stream: Bytes
    var rdr: Bytes   // what is left of the stream
    var rec: Bytes
    var err: bool
    var panicked: bool   // the original has panicked
    var total: nat   // bytes processed

    ghost predicate Valid()
      reads this
    {
      total <= |stream| && rdr == stream[total..] && !err && !panicked
    }

    constructor (crc: Checksum, stream: Bytes)
      ensures Valid() && this.crc == crc && this.stream == stream && total == 0
    {
      this.crc, this.stream, rdr := crc, stream, stream;
      rec, err, panicked, total := [], false, false, 0;
    }

    method ReadFull(n: nat) returns (r: Chunk)
      modifies `rdr
      ensures |old(rdr)| >= n ==> r == Whole(old(rdr)[..n]) && rdr == old(rdr)[n..]
      ensures |old(rdr)| < n ==> r == if old(rdr) == [] then EndOfStream else Unexpected
    {
      if |rdr| >= n {
        r := Whole(rdr[..n]);
        rdr := rdr[n..];
      } else {
        r := if |rdr| == 0 then EndOfStream else Unexpected;
        rdr := [];
      }
    }

    /** Advances to the next record. False means the end of the log, without or
        with an error; Next must not be called again then. */
    method Next() returns (ok: bool)
      requires Valid()
      modifies this
      ensures match NextRecord(crc, stream, old(total), [], 0)
              case Record(r, p) => ok && rec == r && total == p && Valid()
              case Eof => !ok && !err && !panicked
              case Panic => !ok && panicked
              case _ => !ok && err && !panicked
    {
      hide NextRecord;
      var o := ReadNext();
      err, panicked := o.Short? || o.Corrupt?, o.Panic?;
      ok := o.Record?;
    }

    /** Reader.next: how reading a record ends. */
    method ReadNext() returns (o: Outcome)
      requires Valid()
      modifies `rdr, `rec, `total
      ensures o == NextRecord(crc, stream, old(total), [], 0)
      ensures o.Record? ==> rec == o.rec && total == o.pos && Valid()
    {
      hide ReadRound;
      rec := [];
      var i := 0;
      while true
        invariant Valid() && 0 <= i
        invariant NextRecord(crc, stream, old(total), [], 0) == NextRecord(crc, stream, total, rec, i)
        decreases |rdr|
      {
        var round := ReadPiece();
        match round {
          case Stop(e) =>
            return e;
          case Blank(_) =>
            // A record continues on the next page.
          case Piece(typ, part, _) =>
            rec := rec + part;
            if typ == FULL {
              return if i != 0 then Corrupt else Record(rec, total);
            } else if typ == FIRST {
              if i != 0 { return Corrupt; }
            } else if typ == MIDDLE {
              if i == 0 { return Corrupt; }
            } else if typ == LAST {
              return if i == 0 then Corrupt else Record(rec, total);
            } else {
              return Corrupt;
            }
            // Only count fragments, which decide what may follow.
            i := i + 1;
        }
      }
    }

    /** One header byte and what it announces. */
    method ReadPiece() returns (r: Round)
      requires Valid()
      modifies `rdr, `total
      ensures r == ReadRound(crc, stream, old(total))
      ensures r.Blank? || r.Piece? ==> Valid() && total == r.pos
    {
      hide ReadRound;
      var hdr := ReadFull(1);
      if !hdr.Whole? {
        RoundAtEnd(crc, stream, total);
        return Stop(if hdr.EndOfStream? then Eof else Short);
      }
      total := total + 1;
      var typ := hdr.b[0];
      if typ == PAGE_TERM {
        r := ReadBlank();
      } else {
        r := ReadFragment(typ);
      }
    }

    /** Skips the rest of a page, which must be zero. */
    method ReadBlank() returns (r: Round)
      requires Valid() && total > 0 && stream[total - 1] == PAGE_TERM
      modifies `rdr, `total
      ensures r == ReadRound(crc, stream, old(total) - 1)
      ensures r.Blank? ==> Valid() && total == r.pos
      ensures !r.Piece?
    {
      ghost var pos := total - 1;
      BlankRound(crc, stream, pos);
      hide ReadRound;
      var k := PAGE_SIZE - total % PAGE_SIZE;
      if k == PAGE_SIZE {
        return Blank(total);  // The byte was the last of its page.
      }
      if k > PAGE_SIZE - HEADER_SIZE {
        return Stop(Panic);  // More than the buffer behind the header can take.
      }
      var zeros := ReadFull(k);
      if !zeros.Whole? {
        return Stop(if zeros.EndOfStream? then Eof else Short);
      }
      assert zeros.b == stream[pos + 1..pos + 1 + k];
      total := total + k;
      var blank := OnlyZeros(zeros.b);
      return if blank then Blank(total) else Stop(Corrupt);
    }

    /** The rest of a header and its data, with length and checksum verified. */
    method ReadFragment(typ: Byte) returns (r: Round)
      requires Valid() && total > 0 && stream[total - 1] == typ != PAGE_TERM
      modifies `rdr, `total
      ensures r == ReadRound(crc, stream, old(total) - 1)
      ensures r.Piece? ==> Valid() && total == r.pos
      ensures !r.Blank?
    {
      ghost var pos := total - 1;
      var hdr := ReadFull(HEADER_SIZE - 1);
      if !hdr.Whole? {
        return Stop(if hdr.EndOfStream? then Eof else Short);
      }
      total := total + (HEADER_SIZE - 1);
      assert hdr.b == stream[pos + 1..pos + HEADER_SIZE];
      var length := (hdr.b[0] as int) * 256 + hdr.b[1];
      var sum := hdr.b[2..];
      if length > PAGE_SIZE - HEADER_SIZE {
        return Stop(Corrupt);
      }
      var data := ReadFull(length);
      if !data.Whole? {
        return Stop(if data.EndOfStream? then Eof else Short);
      }
      total := total + length;
      assert data.b == stream[pos + HEADER_SIZE..pos + HEADER_SIZE + length];
      assert sum == stream[pos + 3..pos + HEADER_SIZE];
      if sum != BE32(crc(data.b)) {
        return Stop(Corrupt);
      }
      return Piece(typ, data.b, total);
    }
  }

  method OnlyZeros(b: Bytes) returns (r: bool)
    ensures r <==> AllZero(b)
  {
    for j := 0 to |b|
      invariant forall m :: 0 <= m < j ==> b[m] == 0
    {
      if b[j] != 0 {
        return false;
      }
    }
    return true;
  }

  /** A round at the byte that announces an empty rest of a page. */
  lemma BlankRound(crc: Checksum, s: Bytes, pos: nat)
    requires pos < |s| && s[pos] == PAGE_TERM
    ensures var k := ToPageEnd(pos + 1);
            ReadRound(crc, s, pos) ==
            if k == PAGE_SIZE then Blank(pos + 1)
            else if k > PAGE_SIZE - HEADER_SIZE then Stop(Panic)
            else if |s| < pos + 1 + k then Stop(Missing(s, pos + 1))
            else if AllZero(s[pos + 1..pos + 1 + k]) then Blank(pos + 1 + k) else Stop(Corrupt)
  {
  }

  lemma RoundAtEnd(crc: Checksum, s: Bytes, pos: nat)
    requires pos >= |s|
    ensures ReadRound(crc, s, pos) == Stop(Eof)
  {
  }

  // ---------- repair ----------

  /** A corruption does not depend on what follows it. */
  lemma {:induction false} CorruptStable(crc: Checksum, s: Bytes, pos: nat, t: Bytes)
    requires ReadLog(crc, s, pos).end == Corrupt
    ensures ReadLog(crc, s + t, pos) == ReadLog(crc, s, pos)
    decreases |s| - pos
  {
    hide NextRecord;
    var o := NextRecord(crc, s, pos, [], 0);
    NextStable(crc, s, pos, [], 0, t);
    if o.Record? { CorruptStable(crc, s, o.pos, t); }
  }

  /** What the reader makes of a log whose first k segments are intact and whose
      segment k is corrupt: their records and those of segment k before the
      corruption, whatever the later segments hold. */
  lemma Diagnosis(crc: Checksum, segs: seq<Bytes>, k: nat, intact: seq<seq<Bytes>>)
    requires k < |segs| && HoldsAll(crc, segs[..k], intact)
    requires forall j :: 0 <= j < k ==> |segs[j]| % PAGE_SIZE == 0
    requires ReadLog(crc, segs[k], 0).end == Corrupt
    ensures ReadLog(crc, Concat(segs), 0) == Log(Flat(intact) + ReadLog(crc, segs[k], 0).recs, Corrupt)
  {
    hide ReadLog, Holds, HoldsAll, Ends, Paged;
    var pre, rest := Concat(segs[..k]), ConcatFrom(segs, k + 1);
    ConcatHolds(crc, segs[..k], intact);
    WholePages(segs[..k]);
    ConcatSplit(segs, k);
    ConcatSplit(segs, k + 1);
    assert segs[..k + 1][..k] == segs[..k];
    Seqs.Associate(pre, segs[k], rest);
    HoldsThen(crc, pre, Flat(intact), segs[k] + rest);
    LogShift(crc, pre, segs[k] + rest, 0);
    CorruptStable(crc, segs[k], 0, rest);
  }

  function ConcatFrom(segs: seq<Bytes>, k: nat): Bytes
    requires k <= |segs|
    decreases |segs|
  {
    if |segs| == k then [] else ConcatFrom(segs[..|segs| - 1], k) + segs[|segs| - 1]
  }

  lemma {:induction false} ConcatSplit(segs: seq<Bytes>, k: nat)
    requires k <= |segs|
    ensures Concat(segs) == Concat(segs[..k]) + ConcatFrom(segs, k)
    decreases |segs|
  {
    if |segs| == k {
      assert segs[..k] == segs;
    } else {
      var init := segs[..|segs| - 1];
      ConcatSplit(init, k);
      assert init[..k] == segs[..k];
    }
  }

  /** WAL.Repair: deletes the segments behind a corruption in segment k and logs
      anew what that segment holds before it. Reports failure when the error
      does not name a segment. */
  method Repair(w: WAL, k: int, ghost intact: seq<seq<Bytes>>) returns (ok: bool)
    requires w.Sound() && w.page.alloc == 0 && k < |w.files|
    requires k >= 0 ==> HoldsAll(w.crc, w.files[..k], intact)
    requires forall j :: 0 <= j < k ==> |w.files[j]| % PAGE_SIZE == 0
    requires k >= 0 ==> ReadLog(w.crc, w.files[k], 0).end != Panic
    modifies w, w.page, w.page.buf
    ensures ok <==> k >= 0
    ensures !ok ==> w.files == old(w.files)
    ensures ok ==>
      && w.Valid() && w.page.Pending() == [] && w.files == w.Contents()
      && Flat(w.logged) == Flat(intact) + ReadLog(w.crc, old(w.files)[k], 0).recs
      && k <= |w.files| && w.files[..k] == old(w.files)[..k]
  {
    hide Holds, HoldsAll, ReadLog, Flat, Page.Valid, Page.Pending, Grown;
    if k < 0 {
      return false;
    }
    var seg := w.files[k];
    FreshSegment(w.crc, w.files[..k], intact);
    w.files := w.files[..k] + [[]];
    w.logged := intact + [[]];
    NoPending(w);
    ghost var cleared := w.files;
    Relog(w, seg);
    KeptSegments(old(w.files), k, cleared, w.files);
    return true;
  }

  /** Logs all records that can be read from a segment, up to the error that is
      being repaired. */
  method Relog(w: WAL, seg: Bytes)
    requires w.Valid() && w.page.Pending() == [] && ReadLog(w.crc, seg, 0).end != Panic
    modifies w, w.page, w.page.buf
    ensures w.Valid() && w.page.Pending() == [] && Grown(old(w.files), w.files)
    ensures Flat(w.logged) == Flat(old(w.logged)) + ReadLog(w.crc, seg, 0).recs
  {
    hide Holds, HoldsAll, ReadLog, NextRecord, Flat, Page.Valid, Page.Pending, Grown, WAL.Valid, WAL.Sound,
         WAL.Contents, WAL.Counted, Sized;
    var r := new Reader(w.crc, seg);
    var more := r.Next();
    GrownSelf(w.files);
    LogStep(w.crc, seg, 0);
    while more
      invariant w.Valid() && w.page.Pending() == [] && Grown(old(w.files), w.files)
      invariant r.crc == w.crc && r.stream == seg && fresh(r) && (more ==> r.Valid())
      invariant Flat(w.logged) + (if more then [r.rec] + ReadLog(w.crc, seg, r.total).recs else [])
             == Flat(old(w.logged)) + ReadLog(w.crc, seg, 0).recs
      decreases if more then |seg| - r.total + 1 else 0
    {
      ghost var done, rest, before := Flat(w.logged), ReadLog(w.crc, seg, r.total).recs, w.files;
      w.Log([r.rec]);
      GrownTwice(old(w.files), before, w.files);
      Seqs.Associate(done, [r.rec], rest);
      LogStep(w.crc, seg, r.total);
      more := r.Next();
    }
  }

  lemma NoPending(w: WAL)
    requires |w.files| > 0 && w.page.Valid() && w.page.alloc == 0
    ensures w.page.Pending() == [] && w.Contents() == w.files
  {
  }

  lemma FreshSegment(crc: Checksum, segs: seq<Bytes>, logged: seq<seq<Bytes>>)
    requires HoldsAll(crc, segs, logged)
    requires forall j :: 0 <= j < |segs| ==> |segs[j]| % PAGE_SIZE == 0
    ensures HoldsAll(crc, segs + [[]], logged + [[]])
    ensures Flat(logged + [[]]) == Flat(logged)
  {
    hide Holds, Flat;
    HoldsNothing(crc);
    FlatSnoc(logged, []);
  }

  lemma LogStep(crc: Checksum, s: Bytes, pos: nat)
    ensures var o := NextRecord(crc, s, pos, [], 0);
      && ReadLog(crc, s, pos).recs == (if o.Record? then [o.rec] + ReadLog(crc, s, o.pos).recs else [])
      && (o.Record? ==> pos < o.pos <= |s|)
  {
    hide NextRecord;
  }

  lemma KeptSegments(files: seq<Bytes>, k: nat, cleared: seq<Bytes>, after: seq<Bytes>)
    requires k < |files| && cleared == files[..k] + [[]] && Grown(cleared, after)
    ensures k <= |after| && after[..k] == files[..k]
  {
  }
}
