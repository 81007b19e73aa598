/** Logs that end too early: what a reader makes of the bytes that were on disk when
    the process died, and of a torn page that was filled up since. */
module WalTorn {
  import opened WalFormat
  import opened Wal
  import opened WalReader
  import Seqs

  /** A round that ends by n does not depend on what follows n. */
  lemma RoundWithin(crc: Checksum, s: Bytes, pos: nat, n: nat)
    requires n <= |s| && var r := ReadRound(crc, s, pos); (r.Blank? || r.Piece?) && r.pos <= n
    ensures ReadRound(crc, s[..n], pos) == ReadRound(crc, s, pos)
  {
    hide BE32;
    var u := s[..n];
    assert u[pos] == s[pos];
    if s[pos] == PAGE_TERM {
      var k := ToPageEnd(pos + 1);
      if k < PAGE_SIZE {
        Seqs.Slice(s, 0, n, pos + 1, pos + 1 + k);
      }
    } else {
      var length := (s[pos + 1] as int) * 256 + s[pos + 2];
      Seqs.Slice(s, 0, n, pos + 3, pos + HEADER_SIZE);
      Seqs.Slice(s, 0, n, pos + HEADER_SIZE, pos + HEADER_SIZE + length);
    }
  }

  lemma {:induction false} NextWithin(crc: Checksum, s: Bytes, pos: nat, acc: Bytes, i: nat, n: nat)
    requires n <= |s| && var o := NextRecord(crc, s, pos, acc, i); o.Record? && o.pos <= n
    ensures NextRecord(crc, s[..n], pos, acc, i) == NextRecord(crc, s, pos, acc, i)
    decreases |s| - pos
  {
    hide ReadRound;
    var r := ReadRound(crc, s, pos);
    NextReaches(crc, s, pos, acc, i);
    RoundWithin(crc, s, pos, n);
    match r
    case Blank(next) => NextWithin(crc, s, next, acc, i, n);
    case Piece(typ, part, next) =>
      if (typ == FIRST && i == 0) || (typ == MIDDLE && i != 0) {
        NextWithin(crc, s, next, acc + part, i + 1, n);
      }
  }

  /** A record does not end before the first fragment that is read for it. */
  lemma NextReaches(crc: Checksum, s: Bytes, pos: nat, acc: Bytes, i: nat)
    requires NextRecord(crc, s, pos, acc, i).Record?
    ensures var r := ReadRound(crc, s, pos); (r.Blank? || r.Piece?) && r.pos <= NextRecord(crc, s, pos, acc, i).pos
  {
    hide ReadRound;
  }

  /** Of records that end at es, those that end by n have been kept, and these come first. */
  ghost predicate KeptBy(cut: seq<Bytes>, whole: seq<Bytes>, es: seq<nat>, n: nat) {
    && |cut| <= |whole| == |es|
    && cut == whole[..|cut|]
    && forall i :: 0 <= i < |whole| ==> (i < |cut| <==> es[i] <= n)
  }

  /** From the first n bytes exactly those records are read that end by n; the reader
      then runs into the end, without or with an error. */
  lemma {:induction false} CutReads(crc: Checksum, s: Bytes, pos: nat, n: nat)
    requires pos <= n <= |s| && ReadLog(crc, s, pos).end == Eof
    ensures var cut := ReadLog(crc, s[..n], pos);
            && (cut.end == Eof || cut.end == Short)
            && KeptBy(cut.recs, ReadLog(crc, s, pos).recs, Ends(crc, s, pos), n)
    decreases |s| - pos
  {
    hide NextRecord, KeptBy;
    var u, t := s[..n], s[n..];
    Seqs.Parts(s, n);
    var o := NextRecord(crc, s, pos, [], 0);
    var v := NextRecord(crc, u, pos, [], 0);
    if v.Record? || v.Corrupt? || v.Panic? {
      NextStable(crc, u, pos, [], 0, t);
    }
    if o.Record? && o.pos <= n {
      NextWithin(crc, s, pos, [], 0, n);
      CutReads(crc, s, o.pos, n);
      KeptMore(o.rec, ReadLog(crc, u, o.pos).recs, ReadLog(crc, s, o.pos).recs, o.pos, Ends(crc, s, o.pos), n);
    } else {
      NoneKept(ReadLog(crc, s, pos).recs, Ends(crc, s, pos), n) by {
        if o.Record? {
          OneRecord(crc, s, pos, o.rec, o.pos);
        }
      }
    }
  }

  lemma KeptMore(rec: Bytes, cut: seq<Bytes>, whole: seq<Bytes>, e: nat, es: seq<nat>, n: nat)
    requires KeptBy(cut, whole, es, n) && e <= n
    ensures KeptBy([rec] + cut, [rec] + whole, [e] + es, n)
  {
  }

  lemma NoneKept(whole: seq<Bytes>, es: seq<nat>, n: nat)
    requires |whole| == |es| && forall i :: 0 <= i < |es| ==> es[i] > n
    ensures KeptBy([], whole, es, n)
  {
  }

  /** A torn log: cut anywhere, a log that was written reads as a prefix of its records,
      those whose last fragment ends by the cut, and as nothing else. */
  lemma TornLog(crc: Checksum, segs: seq<Bytes>, logged: seq<seq<Bytes>>, n: nat)
    requires HoldsAll(crc, segs, logged) && n <= |Concat(segs)|
    ensures var cut := ReadLog(crc, Concat(segs)[..n], 0);
            && (cut.end == Eof || cut.end == Short)
            && KeptBy(cut.recs, Flat(logged), Ends(crc, Concat(segs), 0), n)
  {
    hide KeptBy, Ends, Holds, HoldsAll, ReadLog, Concat, Flat;
    LogReadsBack(crc, segs, logged);
    CutReads(crc, Concat(segs), 0, n);
  }

  /** Where a record ends that was put behind s: behind its last fragment, whatever has
      been written after it. */
  lemma EndsBehindFragments(crc: Checksum, s: Bytes, recs: seq<Bytes>, rec: Bytes, o: nat, t: Bytes)
    requires Holds(crc, s, recs) && |s| % PAGE_SIZE == o && o + HEADER_SIZE <= PAGE_SIZE
    ensures var w := RecordBytes(crc, rec, o, 0); var es := Ends(crc, s + (w + t), 0);
            && |es| > |recs| && es[|recs|] == |s| + Span(|rec|, o)
            && 0 <= |w| - Span(|rec|, o) < HEADER_SIZE
  {
    hide Holds, RecordBytes, ReadLog, Paged, Span, Ends;
    var w := RecordBytes(crc, rec, o, 0);
    HoldsThen(crc, s, recs, w + t);
    ThroughRecord(crc, s, rec, o, t);
    SpanOf(crc, rec, o, 0);
    Seqs.Onwards(Ends(crc, s + (w + t), 0), |recs|);
  }

  lemma {:induction false} SpanOf(crc: Checksum, rec: Bytes, o: nat, i: nat)
    requires o + HEADER_SIZE <= PAGE_SIZE && (i == 0 || |rec| > 0)
    ensures 0 <= |RecordBytes(crc, rec, o, i)| - Span(|rec|, o) < HEADER_SIZE
    decreases |rec|, if i == 0 then 1 else 0, o
  {
    hide RecordBytes, Fragment;
    RecordParts(crc, rec, o, i);
    var l := PAGE_SIZE - o - HEADER_SIZE;
    if |rec| > l {
      SpanOf(crc, rec[l..], 0, i + 1);
    }
  }

  /** What was on disk earlier is a prefix of what is there later. */
  lemma {:induction false} GrownIsPrefix(a: seq<Bytes>, b: seq<Bytes>)
    requires Grown(a, b)
    ensures Concat(a) <= Concat(b)
    decreases |b|
  {
    if |a| == |b| {
      assert a[..|a| - 1] == b[..|b| - 1];
    } else {
      assert b[..|b| - 1][|a| - 1] == b[|a| - 1];
      GrownIsPrefix(a, b[..|b| - 1]);
    }
  }

  /** A process that dies while it logs: whatever part of the bytes of an earlier or the
      present state has reached the disk reads as a prefix of what has been logged, and
      not as a corruption. */
  lemma CrashReads(w: WAL, before: seq<Bytes>, n: nat)
    requires w.Valid() && Grown(before, w.files) && n <= |Concat(before)|
    ensures n <= |Concat(w.Contents())| && Concat(before)[..n] == Concat(w.Contents())[..n]
    ensures var cut := ReadLog(w.crc, Concat(before)[..n], 0);
            && (cut.end == Eof || cut.end == Short)
            && KeptBy(cut.recs, Flat(w.logged), Ends(w.crc, Concat(w.Contents()), 0), n)
  {
    hide KeptBy, HoldsAll, Concat, ReadLog, Ends, Page.Valid, Page.Pending, Flat;
    FilesFirst(w);
    GrownTwice(before, w.files, w.Contents());
    GrownIsPrefix(before, w.Contents());
    TornLog(w.crc, w.Contents(), w.logged, n);
  }

  lemma FilesFirst(w: WAL)
    requires |w.files| > 0 && w.page.Valid()
    ensures Grown(w.files, w.Contents())
  {
  }

  /* Torn pages that have been filled up */

  /** No round from pos on panics. */
  ghost predicate Safe(crc: Checksum, s: Bytes, pos: nat)
    decreases |s| - pos
  {
    match ReadRound(crc, s, pos)
    case Stop(o) => o != Panic
    case Blank(next) => Safe(crc, s, next)
    case Piece(_, _, next) => Safe(crc, s, next)
  }

  lemma {:induction false} SafeRecord(crc: Checksum, s: Bytes, pos: nat, acc: Bytes, i: nat)
    requires Safe(crc, s, pos)
    ensures var o := NextRecord(crc, s, pos, acc, i); o != Panic && (o.Record? ==> Safe(crc, s, o.pos))
    decreases |s| - pos
  {
    hide ReadRound;
    match ReadRound(crc, s, pos)
    case Stop(_) =>
    case Blank(next) => SafeRecord(crc, s, next, acc, i);
    case Piece(typ, part, next) =>
      if (typ == FIRST && i == 0) || (typ == MIDDLE && i != 0) {
        SafeRecord(crc, s, next, acc + part, i + 1);
      }
  }

  lemma {:induction false} SafeLog(crc: Checksum, s: Bytes, pos: nat)
    requires Safe(crc, s, pos)
    ensures ReadLog(crc, s, pos).end != Panic
    decreases |s| - pos
  {
    hide NextRecord, Safe;
    SafeRecord(crc, s, pos, [], 0);
    var o := NextRecord(crc, s, pos, [], 0);
    if o.Record? {
      SafeLog(crc, s, o.pos);
    }
  }

  /** Behind the bytes of a page that are not all zero, zeros up to its end. */
  lemma ZerosAtEnd(crc: Checksum, u: Bytes, pos: nat)
    requires pos <= |u| && |u| % PAGE_SIZE == 0 && AtStart(pos) && (pos % PAGE_SIZE == 0 ==> pos == |u|)
    requires |u| - pos < PAGE_SIZE && forall j :: pos <= j < |u| ==> u[j] == 0
    ensures Safe(crc, u, pos)
  {
    if pos < |u| {
      var k := ToPageEnd(pos + 1);
      if k < PAGE_SIZE {
        assert pos + 1 + k == |u|;
        assert AllZero(u[pos + 1..pos + 1 + k]);
      }
      assert ReadRound(crc, u, pos) == Blank(|u|);
      assert ReadRound(crc, u, |u|) == Stop(Eof);
    }
  }

  /** u is the first n bytes of s with the last page filled up. */
  ghost predicate Torn(s: Bytes, n: nat, u: Bytes) {
    n <= |s| && u == s[..n] + TornPad(n)
  }

  lemma TornBytes(s: Bytes, n: nat, u: Bytes)
    requires Torn(s, n, u)
    ensures n <= |u| && |u| % PAGE_SIZE == 0 && |u| - n < PAGE_SIZE
    ensures (forall j :: 0 <= j < n ==> u[j] == s[j]) && forall j :: n <= j < |u| ==> u[j] == 0
  {
  }

  /** Offsets at which the reader goes on. */
  predicate AtStart(pos: nat) {
    pos % PAGE_SIZE == 0 || HEADER_SIZE <= pos % PAGE_SIZE
  }

  lemma SamePage(pos: nat, n: nat, next: nat, end: nat)
    requires pos < n < next && n <= end && end % PAGE_SIZE == 0 && end - n < PAGE_SIZE
    requires pos % PAGE_SIZE + (next - pos) <= PAGE_SIZE
    ensures next <= end && end - pos == PAGE_SIZE - pos % PAGE_SIZE
  {
  }

  /** Further on in a page that ends at end. */
  lemma LaterInPage(pos: nat, e: nat, end: nat)
    requires pos + HEADER_SIZE <= e <= end && end % PAGE_SIZE == 0 && end - pos == PAGE_SIZE - pos % PAGE_SIZE
    ensures AtStart(e) && end - e < PAGE_SIZE && (e % PAGE_SIZE == 0 ==> e == end)
  {
  }

  /** The zeros behind the records of a page, when the cut is among them. */
  lemma BlankInTorn(crc: Checksum, s: Bytes, pos: nat, n: nat, u: Bytes)
    requires Torn(s, n, u) && pos < n && AtStart(pos)
    requires ReadRound(crc, s, pos).Blank? && ReadRound(crc, s, pos).pos > n
    ensures Safe(crc, u, pos)
  {
    TornBytes(s, n, u);
    var k := ToPageEnd(pos + 1);
    BlankBytes(crc, s, pos);
    SamePage(pos, n, pos + 1 + k, |u|);
    hide ReadRound, Safe, Torn;
    ZerosAtEnd(crc, u, pos);
  }

  lemma BlankBytes(crc: Checksum, s: Bytes, pos: nat)
    requires ReadRound(crc, s, pos).Blank? && ReadRound(crc, s, pos).pos > pos + 1
    ensures var k := ToPageEnd(pos + 1);
            && ReadRound(crc, s, pos).pos == pos + 1 + k && pos % PAGE_SIZE + 1 + k <= PAGE_SIZE
            && pos + 1 + k <= |s| && k <= PAGE_SIZE - HEADER_SIZE
            && forall j :: pos <= j < pos + 1 + k ==> s[j] == 0
  {
    var k := ToPageEnd(pos + 1);
    forall j | pos <= j < pos + 1 + k ensures s[j] == 0 {
      if pos < j {
        assert s[j] == s[pos + 1..pos + 1 + k][j - pos - 1];
      }
    }
  }

  /** The fragment that the cut has torn, with zeros for what is missing: it cannot be
      read, or ends at or behind the cut. */
  lemma PieceInTorn(crc: Checksum, s: Bytes, pos: nat, n: nat, u: Bytes)
    requires Torn(s, n, u) && pos < n && AtStart(pos)
    requires ReadRound(crc, s, pos).Piece?
    requires var next := ReadRound(crc, s, pos).pos; next > n && pos % PAGE_SIZE + (next - pos) <= PAGE_SIZE
    ensures Safe(crc, u, pos)
  {
    hide BE32, Safe;
    TornBytes(s, n, u);
    SamePage(pos, n, ReadRound(crc, s, pos).pos, |u|);
    var r := ReadRound(crc, u, pos);
    assert u[pos] == s[pos];
    if r.Piece? {
      assert n <= r.pos;
      LaterInPage(pos, r.pos, |u|);
      hide ReadRound, AtStart;
      ZerosAtEnd(crc, u, r.pos) by {
        assert AtStart(r.pos);
      }
    }
    SafeStep(crc, u, pos);
  }

  lemma SafeStep(crc: Checksum, s: Bytes, pos: nat)
    ensures Safe(crc, s, pos) <==> match ReadRound(crc, s, pos)
                                   case Stop(o) => o != Panic
                                   case Blank(next) => Safe(crc, s, next)
                                   case Piece(_, _, next) => Safe(crc, s, next)
  {
    hide ReadRound;
  }

  lemma PagedStep(crc: Checksum, s: Bytes, pos: nat)
    requires Paged(crc, s, pos) && AtStart(pos)
    ensures var r := ReadRound(crc, s, pos);
            && (r.Stop? ==> pos >= |s|)
            && (r.Blank? || r.Piece? ==> Paged(crc, s, r.pos) && AtStart(r.pos))
            && (r.Piece? ==> pos % PAGE_SIZE + (r.pos - pos) <= PAGE_SIZE)
  {
    RoundEnds(crc, s, pos);
    hide ReadRound, AtStart;
  }

  lemma RoundEnds(crc: Checksum, s: Bytes, pos: nat)
    ensures var r := ReadRound(crc, s, pos);
            && (r.Blank? ==> AtStart(r.pos))
            && (r.Piece? && AtStart(pos) && pos % PAGE_SIZE + (r.pos - pos) <= PAGE_SIZE ==> AtStart(r.pos))
  {
    hide BE32;
    var r := ReadRound(crc, s, pos);
    if r.Blank? {
      NextPage(pos + 1);
    } else if r.Piece? {
      assert r.pos >= pos + HEADER_SIZE;
      hide ReadRound;
      Further(pos, r.pos);
    }
  }

  lemma NextPage(p: nat)
    ensures (p + ToPageEnd(p)) % PAGE_SIZE == 0 && (ToPageEnd(p) == PAGE_SIZE ==> p % PAGE_SIZE == 0)
  {
  }

  lemma Further(pos: nat, e: nat)
    requires pos + HEADER_SIZE <= e
    ensures pos % PAGE_SIZE + (e - pos) <= PAGE_SIZE ==> AtStart(e)
  {
  }

  /** Zeros behind a cut between two records. */
  lemma AfterCut(crc: Checksum, s: Bytes, n: nat, u: Bytes)
    requires Torn(s, n, u) && AtStart(n)
    ensures Safe(crc, u, n)
  {
    TornBytes(s, n, u);
    if n % PAGE_SIZE != 0 {
      ZerosAtEnd(crc, u, n);
    }
  }

  lemma {:induction false} TornSafe(crc: Checksum, s: Bytes, pos: nat, n: nat, u: Bytes)
    requires Torn(s, n, u) && Paged(crc, s, pos) && AtStart(pos) && pos <= n
    ensures Safe(crc, u, pos)
    decreases |s| - pos
  {
    hide ReadRound, Paged, Safe, AtStart, TornPad;
    if pos == n {
      AfterCut(crc, s, n, u);
    } else {
      var r := ReadRound(crc, s, pos);
      PagedStep(crc, s, pos);
      if r.pos <= n {
        RoundWithin(crc, s, pos, n);
        RoundStable(crc, s[..n], pos, TornPad(n));
        TornSafe(crc, s, r.pos, n, u);
        SafeStep(crc, u, pos);
      } else if r.Blank? {
        BlankInTorn(crc, s, pos, n, u);
      } else {
        PieceInTorn(crc, s, pos, n, u);
      }
    }
  }

  /** Opening a log that was cut anywhere fills up its last page. Reading it then does
      not panic, and still yields every record whose last fragment ends by the cut. */
  lemma TornPageReads(crc: Checksum, segs: seq<Bytes>, logged: seq<seq<Bytes>>, n: nat)
    requires HoldsAll(crc, segs, logged) && n <= |Concat(segs)|
    ensures var cut := Concat(segs)[..n];
            && ReadLog(crc, cut + TornPad(n), 0).end != Panic
            && ReadLog(crc, cut, 0).recs <= ReadLog(crc, cut + TornPad(n), 0).recs
  {
    hide Holds, HoldsAll, ReadLog, Concat, Flat, TornPad, Paged, Safe;
    ConcatHolds(crc, segs, logged);
    HoldsReads(crc, Concat(segs), Flat(logged));
    var cut := Concat(segs)[..n];
    TornSafe(crc, Concat(segs), 0, n, cut + TornPad(n));
    SafeLog(crc, cut + TornPad(n), 0);
    PrefixReads(crc, cut, TornPad(n), 0);
  }

  /** A log that begins with a zero byte, as a page that was never written does, makes
      the reader panic instead of reporting an error. */
  lemma ZeroPagePanics(crc: Checksum, s: Bytes)
    requires s != [] && s[0] == 0
    ensures ReadLog(crc, s, 0) == Log([], Panic)
  {
    assert ToPageEnd(1) == PAGE_SIZE - 1;
    assert ReadRound(crc, s, 0) == Stop(Panic);
  }
}
