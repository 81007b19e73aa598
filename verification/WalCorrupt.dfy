/** What the reader of the log accepts and what it refuses: every record that it returns is
    made of intact fragments, and damaged or misplaced ones end the log as corrupt. */
module WalCorrupt {
  import opened Words
  import opened WalFormat
  import Seqs

  /* What is accepted */

  datatype Found = Found(pos: nat, typ: Byte, part: Bytes)

  /** The bytes of a fragment stand at its position, with its length and checksum. */
  ghost predicate Intact(crc: Checksum, s: Bytes, f: Found) {
    && f.pos + HEADER_SIZE + |f.part| <= |s| && |f.part| <= PAGE_SIZE - HEADER_SIZE
    && s[f.pos] == f.typ
    && (s[f.pos + 1] as int) * 256 + s[f.pos + 2] == |f.part|
    && s[f.pos + 3..f.pos + HEADER_SIZE] == BE32(crc(f.part))
    && s[f.pos + HEADER_SIZE..f.pos + HEADER_SIZE + |f.part|] == f.part
  }

  /** Zeros from one position up to another. */
  ghost predicate ZerosBetween(s: Bytes, p: nat, q: nat) {
    p <= q <= |s| && forall j :: p <= j < q ==> s[j] == 0
  }

  function End(f: Found): nat { f.pos + HEADER_SIZE + |f.part| }

  /** The fragments that make up a record, or the rest of one of which i fragments have
      been read: from pos on with only zeros in between, up to its end. */
  ghost predicate Composes(crc: Checksum, s: Bytes, pos: nat, i: nat, fs: seq<Found>, rest: Bytes, end: nat)
    decreases |fs|
  {
    && fs != [] && Intact(crc, s, fs[0]) && ZerosBetween(s, pos, fs[0].pos)
    && if |fs| == 1 then
         fs[0].typ == (if i == 0 then FULL else LAST) && rest == fs[0].part && end == End(fs[0])
       else
         && fs[0].typ == (if i == 0 then FIRST else MIDDLE)
         && fs[0].part <= rest && Composes(crc, s, End(fs[0]), i + 1, fs[1..], rest[|fs[0].part|..], end)
  }

  lemma PieceIsIntact(crc: Checksum, s: Bytes, pos: nat)
    requires ReadRound(crc, s, pos).Piece?
    ensures var r := ReadRound(crc, s, pos);
            Intact(crc, s, Found(pos, r.typ, r.part)) && r.pos == End(Found(pos, r.typ, r.part))
  {
    hide BE32;
  }

  lemma BlankIsZeros(crc: Checksum, s: Bytes, pos: nat)
    requires ReadRound(crc, s, pos).Blank?
    ensures ZerosBetween(s, pos, ReadRound(crc, s, pos).pos)
  {
    var next := ReadRound(crc, s, pos).pos;
    forall j | pos <= j < next ensures s[j] == 0 {
      if pos < j {
        assert s[j] == s[pos + 1..next][j - pos - 1];
      }
    }
  }

  /** Whatever the bytes: a record that the reader returns is the concatenation of the data
      of intact fragments, each with its checksum, in the right order. */
  lemma {:induction false} AcceptedIsIntact(crc: Checksum, s: Bytes, pos: nat, acc: Bytes, i: nat)
    returns (fs: seq<Found>)
    requires NextRecord(crc, s, pos, acc, i).Record?
    ensures var o := NextRecord(crc, s, pos, acc, i);
            acc <= o.rec && Composes(crc, s, pos, i, fs, o.rec[|acc|..], o.pos)
    decreases |s| - pos
  {
    hide ReadRound, Intact, BE32;
    var o := NextRecord(crc, s, pos, acc, i);
    match ReadRound(crc, s, pos)
    case Blank(next) =>
      BlankIsZeros(crc, s, pos);
      fs := AcceptedIsIntact(crc, s, next, acc, i);
      ZerosJoin(s, pos, next, fs[0].pos);
    case Piece(typ, part, next) =>
      PieceIsIntact(crc, s, pos);
      var f := Found(pos, typ, part);
      if typ == FULL || typ == LAST {
        fs := [f];
        assert (acc + part)[|acc|..] == part;
      } else {
        var more := AcceptedIsIntact(crc, s, next, acc + part, i + 1);
        fs := [f] + more;
        Seqs.Cons(f, more);
        Dropped(acc, part, o.rec);
      }
  }

  lemma ZerosJoin(s: Bytes, p: nat, q: nat, r: nat)
    requires ZerosBetween(s, p, q) && ZerosBetween(s, q, r)
    ensures ZerosBetween(s, p, r)
  {
  }

  lemma Dropped(a: Bytes, b: Bytes, c: Bytes)
    requires a + b <= c
    ensures a <= c && b <= c[|a|..] && c[|a|..][|b|..] == c[|a + b|..]
  {
    assert c[..|a + b|] == a + b;
    assert c[..|a|] == (a + b)[..|a|] == a;
    assert c[|a|..|a + b|] == (a + b)[|a|..] == b;
    assert c[|a|..][..|b|] == b;
  }

  /* What is refused */

  /** When reading goes wrong behind records that were written, these are still read, and
      nothing of what follows. */
  lemma RefusedBehind(crc: Checksum, s: Bytes, recs: seq<Bytes>, w: Bytes, t: Bytes)
    requires Holds(crc, s, recs) && NextRecord(crc, s + w, |s|, [], 0) == Corrupt
    ensures ReadLog(crc, s + (w + t), 0) == Log(recs, Corrupt)
  {
    hide Holds, NextRecord;
    Seqs.Associate(s, w, t);
    NextStable(crc, s + w, |s|, [], 0, t);
    HoldsThen(crc, s, recs, w + t);
    assert ReadLog(crc, s + (w + t), |s|) == Log([], Corrupt);
    hide ReadLog, Paged, Ends;
    Seqs.Nothing(recs);
  }

  /** A fragment as it may be found on disk, with any length and checksum in its header. */
  function Raw(typ: Byte, n: nat, sum: Bytes, data: Bytes): Bytes
    requires n < 0x1_0000
  {
    [typ] + BE16(n) + sum + data
  }

  lemma RawRound(crc: Checksum, a: Bytes, typ: Byte, n: nat, sum: Bytes, data: Bytes)
    requires typ != PAGE_TERM && n < 0x1_0000 && |sum| == 4 && (n <= PAGE_SIZE - HEADER_SIZE ==> |data| == n)
    requires n > PAGE_SIZE - HEADER_SIZE || sum != BE32(crc(data))
    ensures ReadRound(crc, a + Raw(typ, n, sum, data), |a|) == Stop(Corrupt)
  {
    hide BE32;
    var f := Raw(typ, n, sum, data);
    var s, p := a + f, |a|;
    assert s[p] == f[0] == typ && s[p + 1] == f[1] && s[p + 2] == f[2];
    assert s[p + 3..p + HEADER_SIZE] == f[3..HEADER_SIZE] == sum;
    if n <= PAGE_SIZE - HEADER_SIZE {
      assert s[p + HEADER_SIZE..p + HEADER_SIZE + n] == f[HEADER_SIZE..] == data;
    }
  }

  lemma StopIs(crc: Checksum, s: Bytes, pos: nat, acc: Bytes, i: nat)
    requires ReadRound(crc, s, pos).Stop?
    ensures NextRecord(crc, s, pos, acc, i) == ReadRound(crc, s, pos).o
  {
    hide ReadRound;
  }

  /** A fragment whose stored checksum is not that of its data. */
  lemma BadChecksumRefused(crc: Checksum, s: Bytes, recs: seq<Bytes>, typ: Byte, sum: Bytes, data: Bytes, t: Bytes)
    requires Holds(crc, s, recs) && typ != PAGE_TERM && |sum| == 4 && |data| <= PAGE_SIZE - HEADER_SIZE
    requires sum != BE32(crc(data))
    ensures ReadLog(crc, s + (Raw(typ, |data|, sum, data) + t), 0) == Log(recs, Corrupt)
  {
    hide Holds, Raw, BE32, ReadRound;
    RawRound(crc, s, typ, |data|, sum, data);
    StopIs(crc, s + Raw(typ, |data|, sum, data), |s|, [], 0);
    RefusedBehind(crc, s, recs, Raw(typ, |data|, sum, data), t);
  }

  /** A header that announces more data than a page can have. */
  lemma BadLengthRefused(crc: Checksum, s: Bytes, recs: seq<Bytes>, typ: Byte, n: nat, sum: Bytes, t: Bytes)
    requires Holds(crc, s, recs) && typ != PAGE_TERM && |sum| == 4 && PAGE_SIZE - HEADER_SIZE < n < 0x1_0000
    ensures ReadLog(crc, s + (Raw(typ, n, sum, []) + t), 0) == Log(recs, Corrupt)
  {
    hide Holds, Raw, BE32, ReadRound;
    RawRound(crc, s, typ, n, sum, []);
    StopIs(crc, s + Raw(typ, n, sum, []), |s|, [], 0);
    RefusedBehind(crc, s, recs, Raw(typ, n, sum, []), t);
  }

  /** A byte other than zero in the rest of a page that is said to be empty. */
  lemma DirtyPageRefused(crc: Checksum, s: Bytes, recs: seq<Bytes>, z: Bytes, k: nat, t: Bytes)
    requires Holds(crc, s, recs) && HEADER_SIZE - 1 <= |s| % PAGE_SIZE && (|s| + 1 + |z|) % PAGE_SIZE == 0
    requires |z| < PAGE_SIZE && k < |z| && z[k] != 0
    ensures ReadLog(crc, s + ([PAGE_TERM] + z + t), 0) == Log(recs, Corrupt)
  {
    hide Holds;
    var w := [PAGE_TERM] + z;
    DirtyRound(crc, s, z, k);
    hide ReadRound;
    StopIs(crc, s + w, |s|, [], 0);
    RefusedBehind(crc, s, recs, w, t);
  }

  lemma DirtyRound(crc: Checksum, a: Bytes, z: Bytes, k: nat)
    requires HEADER_SIZE - 1 <= |a| % PAGE_SIZE && (|a| + 1 + |z|) % PAGE_SIZE == 0
    requires |z| < PAGE_SIZE && k < |z| && z[k] != 0
    ensures ReadRound(crc, a + ([PAGE_TERM] + z), |a|) == Stop(Corrupt)
  {
    var s, p := a + ([PAGE_TERM] + z), |a|;
    assert s[p] == PAGE_TERM;
    assert ToPageEnd(p + 1) == |z|;
    assert s[p + 1..p + 1 + |z|] == z;
    assert !AllZero(z);
  }

  /** Whether a type may come next, with i fragments of a record read. */
  predicate InPlace(typ: Byte, i: nat) {
    if i == 0 then typ == FULL || typ == FIRST else typ == MIDDLE || typ == LAST
  }

  lemma MisplacedNext(crc: Checksum, a: Bytes, typ: Byte, part: Bytes, acc: Bytes, i: nat)
    requires typ != PAGE_TERM && |part| <= PAGE_SIZE - HEADER_SIZE && !InPlace(typ, i)
    ensures NextRecord(crc, a + Fragment(crc, typ, part), |a|, acc, i) == Corrupt
  {
    hide ReadRound, Fragment;
    FragmentRead(crc, a, typ, part, []);
    Seqs.Nothing(Fragment(crc, typ, part));
  }

  /** An intact fragment that continues a record where none was begun, or whose type is
      unknown. */
  lemma MisplacedRefused(crc: Checksum, s: Bytes, recs: seq<Bytes>, typ: Byte, part: Bytes, t: Bytes)
    requires Holds(crc, s, recs) && typ != PAGE_TERM && |part| <= PAGE_SIZE - HEADER_SIZE && !InPlace(typ, 0)
    ensures ReadLog(crc, s + (Fragment(crc, typ, part) + t), 0) == Log(recs, Corrupt)
  {
    hide Holds, Fragment, NextRecord;
    MisplacedNext(crc, s, typ, part, [], 0);
    RefusedBehind(crc, s, recs, Fragment(crc, typ, part), t);
  }

  /** Fragments of a record that has been begun but not finished. */
  function Begun(crc: Checksum, parts: seq<Bytes>, i: nat): Bytes
    requires forall k :: 0 <= k < |parts| ==> |parts[k]| <= PAGE_SIZE - HEADER_SIZE
    decreases |parts|
  {
    if parts == [] then []
    else Fragment(crc, if i == 0 then FIRST else MIDDLE, parts[0]) + Begun(crc, parts[1..], i + 1)
  }

  lemma {:induction false} InterruptedNext(crc: Checksum, a: Bytes, parts: seq<Bytes>, i: nat, acc: Bytes, typ: Byte,
      part: Bytes)
    requires forall k :: 0 <= k < |parts| ==> |parts[k]| <= PAGE_SIZE - HEADER_SIZE
    requires typ != PAGE_TERM && |part| <= PAGE_SIZE - HEADER_SIZE && !InPlace(typ, i + |parts|)
    ensures NextRecord(crc, a + (Begun(crc, parts, i) + Fragment(crc, typ, part)), |a|, acc, i) == Corrupt
    decreases |parts|
  {
    hide ReadRound, Fragment, NextRecord;
    var last := Fragment(crc, typ, part);
    if parts == [] {
      Seqs.Nothing(last);
      MisplacedNext(crc, a, typ, part, acc, i);
    } else {
      var f, more := Fragment(crc, FragmentType(i == 0, false), parts[0]), Begun(crc, parts[1..], i + 1);
      Seqs.Associate(f, more, last);
      Seqs.Associate(a, f, more + last);
      FragmentRead(crc, a, FragmentType(i == 0, false), parts[0], more + last);
      PieceStep(crc, a + (f + (more + last)), |a|, acc, i, false, parts[0], |a + f|);
      InterruptedNext(crc, a + f, parts[1..], i + 1, acc + parts[0], typ, part);
    }
  }

  /** Another record, or a fragment of unknown type, before a record is finished. */
  lemma InterruptedRefused(crc: Checksum, s: Bytes, recs: seq<Bytes>, parts: seq<Bytes>, typ: Byte, part: Bytes,
      t: Bytes)
    requires Holds(crc, s, recs) && parts != []
    requires forall k :: 0 <= k < |parts| ==> |parts[k]| <= PAGE_SIZE - HEADER_SIZE
    requires typ != PAGE_TERM && |part| <= PAGE_SIZE - HEADER_SIZE && !InPlace(typ, |parts|)
    ensures ReadLog(crc, s + (Begun(crc, parts, 0) + Fragment(crc, typ, part) + t), 0) == Log(recs, Corrupt)
  {
    hide Holds, Fragment, NextRecord, Begun;
    InterruptedNext(crc, s, parts, 0, [], typ, part);
    RefusedBehind(crc, s, recs, Begun(crc, parts, 0) + Fragment(crc, typ, part), t);
  }
}
