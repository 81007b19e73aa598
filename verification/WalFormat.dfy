/** The on-disk format of wal/wal.go: records cut into fragments that never cross
    a 32 KB page, and the reader's view of a byte stream of such pages. */
module WalFormat {
  import opened Words
  import Seqs

  const PAGE_SIZE: nat := 32768
  const HEADER_SIZE: nat := 7

  const PAGE_TERM: Byte := 0  // rest of the page is empty
  const FULL: Byte := 1       // a whole record
  const FIRST: Byte := 2      // first fragment of a record
  const MIDDLE: Byte := 3     // middle fragment of a record
  const LAST: Byte := 4       // last fragment of a record

  type Bytes = seq<Byte>

  type U32 = x: int | 0 <= x < 0x1_0000_0000

  /** The checksum is a parameter: nothing here depends on which one it is. */
  type Checksum = Bytes -> U32

  function Min(a: nat, b: nat): nat { if a < b then a else b }

  // ---------- writing ----------

  function BE16(n: nat): Bytes
    requires n < 0x1_0000
  {
    [n / 256, n % 256]
  }

  function BE32(n: U32): Bytes {
    [n / 0x100_0000, n / 0x1_0000 % 256, n / 256 % 256, n % 256]
  }

  function Fragment(crc: Checksum, typ: Byte, part: Bytes): (f: Bytes)
    requires |part| <= PAGE_SIZE - HEADER_SIZE
    ensures |f| == HEADER_SIZE + |part|
  {
    [typ] + BE16(|part|) + BE32(crc(part)) + part
  }

  function FragmentType(first: bool, last: bool): Byte {
    if first && last then FULL else if last then LAST else if first then FIRST else MIDDLE
  }

  /** Where the next fragment starts: on the next page if no header fits any more. */
  function Settle(offset: nat): nat {
    if PAGE_SIZE < offset + HEADER_SIZE then 0 else offset
  }

  /** The zeros that fill up a page in which no header fits any more. */
  function Padding(offset: nat): Bytes
    requires offset <= PAGE_SIZE
  {
    if PAGE_SIZE < offset + HEADER_SIZE then Zeros(PAGE_SIZE - offset) else []
  }

  /** What is left to write of a record at a page offset once i fragments of it
      have been written. */
  function RecordBytes(crc: Checksum, rec: Bytes, offset: nat, i: nat): Bytes
    requires offset + HEADER_SIZE <= PAGE_SIZE
    decreases |rec|, if i == 0 then 1 else 0, offset
  {
    if i > 0 && |rec| == 0 then [] else
    var l := Min(|rec|, PAGE_SIZE - offset - HEADER_SIZE);
    var end := offset + HEADER_SIZE + l;
    Fragment(crc, FragmentType(i == 0, l == |rec|), rec[..l]) + Padding(end)
      + RecordBytes(crc, rec[l..], Settle(end), i + 1)
  }

  // ---------- reading ----------

  /** Short is an error that only the end of the stream causes: a fragment whose
      header or data is incomplete. Corrupt is any other error. A zero byte among the
      first six of a page announces more zeros than the reader's buffer behind the
      header can take; slicing it panics. */
  datatype Outcome = Eof | Short | Corrupt | Panic | Record(rec: Bytes, pos: nat)

  predicate AllZero(b: Bytes) { forall k :: 0 <= k < |b| ==> b[k] == 0 }

  /** The number of bytes from pos to the end of its page. */
  function ToPageEnd(pos: nat): nat { PAGE_SIZE - pos % PAGE_SIZE }

  /** What happens on reading n bytes at pos when fewer are left. */
  function Missing(s: Bytes, pos: nat): Outcome
  {
    if pos >= |s| then Eof else Short
  }

  /** One round of the reader's loop: the stream ends or is bad, an empty rest
      of a page is skipped, or a fragment with a matching checksum is read. */
  datatype Round = Stop(o: Outcome) | Blank(pos: nat) | Piece(typ: Byte, part: Bytes, pos: nat)

  function ReadRound(crc: Checksum, s: Bytes, pos: nat): (r: Round)
    ensures r.Blank? || r.Piece? ==> pos < r.pos <= |s|
    ensures r.Stop? ==> !r.o.Record?
  {
    if pos >= |s| then Stop(Eof)
    else if s[pos] == PAGE_TERM then
      var k := ToPageEnd(pos + 1);
      if k == PAGE_SIZE then Blank(pos + 1)  // the last byte of its page
      else if k > PAGE_SIZE - HEADER_SIZE then Stop(Panic)
      else if |s| < pos + 1 + k then Stop(Missing(s, pos + 1))
      else if !AllZero(s[pos + 1..pos + 1 + k]) then Stop(Corrupt)
      else Blank(pos + 1 + k)
    else if |s| < pos + HEADER_SIZE then Stop(Missing(s, pos + 1))
    else
      var length := (s[pos + 1] as int) * 256 + s[pos + 2];
      if length > PAGE_SIZE - HEADER_SIZE then Stop(Corrupt)
      else if |s| < pos + HEADER_SIZE + length then Stop(Missing(s, pos + HEADER_SIZE))
      else
        var end := pos + HEADER_SIZE + length;
        var part := s[pos + HEADER_SIZE..end];
        if s[pos + 3..pos + HEADER_SIZE] != BE32(crc(part)) then Stop(Corrupt)
        else Piece(s[pos], part, end)
  }

  /** Reader.next from stream position pos, with i fragments of a record read and
      gathered in acc. */
  function NextRecord(crc: Checksum, s: Bytes, pos: nat, acc: Bytes, i: nat): (o: Outcome)
    ensures o.Record? ==> pos < o.pos <= |s|
    decreases |s| - pos
  {
    match ReadRound(crc, s, pos)
    case Stop(o) => o
    case Blank(next) => NextRecord(crc, s, next, acc, i)
    case Piece(typ, part, next) =>
      if typ == FULL then if i == 0 then Record(acc + part, next) else Corrupt
      else if typ == FIRST then if i == 0 then NextRecord(crc, s, next, acc + part, i + 1) else Corrupt
      else if typ == MIDDLE then if i != 0 then NextRecord(crc, s, next, acc + part, i + 1) else Corrupt
      else if typ == LAST then if i != 0 then Record(acc + part, next) else Corrupt
      else Corrupt
  }

  /** All records from pos on, and whether the reader then stops without error. */
  datatype Log = Log(recs: seq<Bytes>, end: Outcome)

  function ReadLog(crc: Checksum, s: Bytes, pos: nat): Log
    decreases |s| - pos
  {
    match NextRecord(crc, s, pos, [], 0)
    case Record(rec, next) =>
      var rest := ReadLog(crc, s, next);
      Log([rec] + rest.recs, rest.end)
    case o => Log([], o)
  }

  /** Where the records end that are read from pos on. */
  ghost function Ends(crc: Checksum, s: Bytes, pos: nat): (es: seq<nat>)
    ensures |es| == |ReadLog(crc, s, pos).recs| && forall i :: 0 <= i < |es| ==> pos < es[i]
    decreases |s| - pos
  {
    match NextRecord(crc, s, pos, [], 0)
    case Record(_, next) => [next] + Ends(crc, s, next)
    case _ => []
  }

  /** From pos on, everything is read to the end, and every fragment lies within its page. */
  ghost predicate Paged(crc: Checksum, s: Bytes, pos: nat)
    decreases |s| - pos
  {
    match ReadRound(crc, s, pos)
    case Stop(_) => pos >= |s|
    case Blank(next) => Paged(crc, s, next)
    case Piece(_, _, next) => pos % PAGE_SIZE + (next - pos) <= PAGE_SIZE && Paged(crc, s, next)
  }

  // ---------- locality of reading ----------

  /** A round that did not run into the end of the stream does not depend on what
      follows it. */
  lemma RoundStable(crc: Checksum, s: Bytes, pos: nat, t: Bytes)
    requires var r := ReadRound(crc, s, pos); r.Stop? ==> r.o.Corrupt? || r.o.Panic?
    ensures ReadRound(crc, s + t, pos) == ReadRound(crc, s, pos)
  {
    var u := s + t;
    assert u[pos] == s[pos];
    if s[pos] == PAGE_TERM {
      var k := ToPageEnd(pos + 1);
      if |s| >= pos + 1 + k { assert u[pos + 1..pos + 1 + k] == s[pos + 1..pos + 1 + k]; }
    } else {
      assert u[pos + 1] == s[pos + 1] && u[pos + 2] == s[pos + 2];
      var length := (s[pos + 1] as int) * 256 + s[pos + 2];
      assert u[pos + 3..pos + 7] == s[pos + 3..pos + 7];
      if |s| >= pos + 7 + length { assert u[pos + 7..pos + 7 + length] == s[pos + 7..pos + 7 + length]; }
    }
  }

  lemma {:induction false} NextStable(crc: Checksum, s: Bytes, pos: nat, acc: Bytes, i: nat, t: Bytes)
    requires var o := NextRecord(crc, s, pos, acc, i); o.Record? || o.Corrupt? || o.Panic?
    ensures NextRecord(crc, s + t, pos, acc, i) == NextRecord(crc, s, pos, acc, i)
    decreases |s| - pos
  {
    hide ReadRound;
    RoundStable(crc, s, pos, t);
    match ReadRound(crc, s, pos)
    case Stop(_) =>
    case Blank(next) => NextStable(crc, s, next, acc, i, t);
    case Piece(typ, part, next) =>
      if (typ == FIRST && i == 0) || (typ == MIDDLE && i != 0) {
        NextStable(crc, s, next, acc + part, i + 1, t);
      }
  }

  /** Cutting a stream short only cuts the log read from it short: whatever is
      read from a prefix of the bytes is what the whole stream holds there. */
  lemma {:induction false} PrefixReads(crc: Checksum, s: Bytes, t: Bytes, pos: nat)
    ensures ReadLog(crc, s, pos).recs <= ReadLog(crc, s + t, pos).recs
    decreases |s| - pos
  {
    hide NextRecord;
    var o := NextRecord(crc, s, pos, [], 0);
    if o.Record? {
      NextStable(crc, s, pos, [], 0, t);
      PrefixReads(crc, s, t, o.pos);
    }
  }

  /** Where whole pages precede a stream makes no difference to its contents. */
  lemma RoundShift(crc: Checksum, a: Bytes, s: Bytes, pos: nat)
    requires |a| % PAGE_SIZE == 0
    ensures ReadRound(crc, a + s, |a| + pos) == match ReadRound(crc, s, pos)
              case Stop(o) => Stop(o)
              case Blank(next) => Blank(|a| + next)
              case Piece(typ, part, next) => Piece(typ, part, |a| + next)
  {
    var u, q := a + s, |a| + pos;
    if pos < |s| {
      assert u[q] == s[pos];
      if s[pos] == PAGE_TERM {
        BlankShift(a, s, pos);
      } else if |s| >= pos + HEADER_SIZE {
        PieceShift(a, s, pos, (s[pos + 1] as int) * 256 + s[pos + 2]);
      }
    }
  }

  lemma BlankShift(a: Bytes, s: Bytes, pos: nat)
    requires |a| % PAGE_SIZE == 0 && pos < |s|
    ensures var k := ToPageEnd(pos + 1);
            && ToPageEnd(|a| + pos + 1) == k
            && (pos + 1 + k <= |s| ==> (a + s)[|a| + pos + 1..|a| + pos + 1 + k] == s[pos + 1..pos + 1 + k])
  {
    PageShift(|a|, pos + 1);
    var k := ToPageEnd(pos + 1);
    if pos + 1 + k <= |s| {
      Seqs.Shift(a, s, pos + 1, pos + 1 + k);
    }
  }

  lemma PieceShift(a: Bytes, s: Bytes, pos: nat, n: nat)
    requires pos + HEADER_SIZE <= |s|
    ensures var u, q := a + s, |a| + pos;
            && u[q + 1] == s[pos + 1] && u[q + 2] == s[pos + 2]
            && u[q + 3..q + HEADER_SIZE] == s[pos + 3..pos + HEADER_SIZE]
            && (pos + HEADER_SIZE + n <= |s| ==>
                  u[q + HEADER_SIZE..q + HEADER_SIZE + n] == s[pos + HEADER_SIZE..pos + HEADER_SIZE + n])
  {
    Seqs.Shift(a, s, pos + 3, pos + HEADER_SIZE);
    if pos + HEADER_SIZE + n <= |s| {
      Seqs.Shift(a, s, pos + HEADER_SIZE, pos + HEADER_SIZE + n);
    }
  }

  lemma PageShift(a: nat, p: nat)
    requires a % PAGE_SIZE == 0
    ensures ToPageEnd(a + p) == ToPageEnd(p)
  {
  }

  lemma {:induction false} NextShift(crc: Checksum, a: Bytes, s: Bytes, pos: nat, acc: Bytes, i: nat)
    requires |a| % PAGE_SIZE == 0
    ensures NextRecord(crc, a + s, |a| + pos, acc, i) == match NextRecord(crc, s, pos, acc, i)
              case Record(rec, next) => Record(rec, |a| + next)
              case o => o
    decreases |s| - pos
  {
    hide ReadRound;
    RoundShift(crc, a, s, pos);
    match ReadRound(crc, s, pos)
    case Stop(_) =>
    case Blank(next) => NextShift(crc, a, s, next, acc, i);
    case Piece(typ, part, next) =>
      if (typ == FIRST && i == 0) || (typ == MIDDLE && i != 0) {
        NextShift(crc, a, s, next, acc + part, i + 1);
      }
  }

  lemma {:induction false} LogShift(crc: Checksum, a: Bytes, s: Bytes, pos: nat)
    requires |a| % PAGE_SIZE == 0
    ensures ReadLog(crc, a + s, |a| + pos) == ReadLog(crc, s, pos)
    decreases |s| - pos
  {
    hide NextRecord;
    NextShift(crc, a, s, pos, [], 0);
    var o := NextRecord(crc, s, pos, [], 0);
    if o.Record? { LogShift(crc, a, s, o.pos); }
  }

  // ---------- what was written is read back ----------

  lemma FragmentRead(crc: Checksum, a: Bytes, typ: Byte, part: Bytes, t: Bytes)
    requires typ != PAGE_TERM && |part| <= PAGE_SIZE - HEADER_SIZE
    ensures ReadRound(crc, a + (Fragment(crc, typ, part) + t), |a|) == Piece(typ, part, |a| + HEADER_SIZE + |part|)
  {
    hide BE32;
    var f := Fragment(crc, typ, part);
    var s, p := a + (f + t), |a|;
    assert s[p] == f[0] == typ;
    assert s[p + 1] == f[1] && s[p + 2] == f[2];
    assert s[p + 3..p + 7] == f[3..7] == BE32(crc(part));
    assert s[p + 7..p + 7 + |part|] == f[7..] == part;
  }

  /** Zeros that end at a page boundary are skipped in one round. */
  lemma BlankRead(crc: Checksum, a: Bytes, n: nat, t: Bytes)
    requires 0 < n <= PAGE_SIZE - HEADER_SIZE + 1 && (|a| + n) % PAGE_SIZE == 0
    ensures ReadRound(crc, a + (Zeros(n) + t), |a|) == Blank(|a| + n)
  {
    var s, p := a + (Zeros(n) + t), |a|;
    assert s[p] == 0;
    if n > 1 {
      assert ToPageEnd(p + 1) == n - 1;
      assert s[p + 1..p + n] == Zeros(n)[1..];
    } else {
      assert ToPageEnd(p + 1) == PAGE_SIZE;
    }
  }

  /** A record either ends on its first page or fills it. */
  lemma RecordParts(crc: Checksum, rec: Bytes, o: nat, i: nat)
    requires o + HEADER_SIZE <= PAGE_SIZE && (i == 0 || |rec| > 0)
    ensures var l := PAGE_SIZE - o - HEADER_SIZE; var w := RecordBytes(crc, rec, o, i);
      if |rec| <= l then
        w == Fragment(crc, FragmentType(i == 0, true), rec) + Padding(o + HEADER_SIZE + |rec|)
      else
        w == Fragment(crc, FragmentType(i == 0, false), rec[..l]) + RecordBytes(crc, rec[l..], 0, i + 1)
  {
    hide Fragment, Zeros;
    var l := PAGE_SIZE - o - HEADER_SIZE;
    if |rec| <= l {
      assert rec[..|rec|] == rec && rec[|rec|..] == [];
      var end := o + HEADER_SIZE + |rec|;
      assert RecordBytes(crc, [], Settle(end), i + 1) == [];
    } else {
      assert Padding(PAGE_SIZE) == [];
      assert Settle(PAGE_SIZE) == 0;
    }
  }

  /** The length of the fragments of a record of n bytes that starts at a page offset;
      the last fragment ends the record, whatever padding follows. */
  function Span(n: nat, offset: nat): (k: nat)
    requires offset + HEADER_SIZE <= PAGE_SIZE
    ensures k > 0
    decreases n, offset
  {
    var l := PAGE_SIZE - offset - HEADER_SIZE;
    if n <= l then HEADER_SIZE + n else PAGE_SIZE - offset + Span(n - l, 0)
  }

  /** What reading one fragment leads to. */
  lemma PieceStep(crc: Checksum, s: Bytes, pos: nat, acc: Bytes, i: nat, last: bool, part: Bytes, next: nat)
    requires ReadRound(crc, s, pos) == Piece(FragmentType(i == 0, last), part, next)
    ensures NextRecord(crc, s, pos, acc, i)
         == if last then Record(acc + part, next) else NextRecord(crc, s, next, acc + part, i + 1)
    ensures Paged(crc, s, pos) <==> pos % PAGE_SIZE + (next - pos) <= PAGE_SIZE && Paged(crc, s, next)
  {
    hide ReadRound;
  }

  lemma BlankPaged(crc: Checksum, s: Bytes, pos: nat, next: nat)
    requires ReadRound(crc, s, pos) == Blank(next)
    ensures Paged(crc, s, pos) <==> Paged(crc, s, next)
  {
    hide ReadRound;
  }

  /** What is known once the rest of a record has been read that starts at q, has w as
      its bytes and ends at p. */
  ghost predicate Gathered(crc: Checksum, s: Bytes, q: nat, w: nat, acc: Bytes, i: nat, all: Bytes, p: nat) {
    && NextRecord(crc, s, q, acc, i) == Record(all, p)
    && (p == q + w || ReadRound(crc, s, p) == Blank(q + w))
    && (Paged(crc, s, q + w) ==> Paged(crc, s, q))
  }

  lemma LastFragment(crc: Checksum, a: Bytes, rec: Bytes, o: nat, acc: Bytes, i: nat, t: Bytes)
    requires |a| % PAGE_SIZE == o && o + HEADER_SIZE + |rec| <= PAGE_SIZE
    ensures var w := Fragment(crc, FragmentType(i == 0, true), rec) + Padding(o + HEADER_SIZE + |rec|);
            Gathered(crc, a + (w + t), |a|, |w|, acc, i, acc + rec, |a| + HEADER_SIZE + |rec|)
  {
    hide ReadRound, Fragment, Zeros, NextRecord, Paged;
    var f, pad := Fragment(crc, FragmentType(i == 0, true), rec), Padding(o + HEADER_SIZE + |rec|);
    var s := a + (f + (pad + t));
    Seqs.Regroup(a, f, pad, t);
    FragmentRead(crc, a, FragmentType(i == 0, true), rec, pad + t);
    PieceStep(crc, s, |a|, acc, i, true, rec, |a| + |f|);
    if |pad| > 0 {
      BlankRead(crc, a + f, |pad|, t);
      BlankPaged(crc, s, |a| + |f|, |a| + |f| + |pad|);
    }
  }

  lemma FirstFragment(crc: Checksum, a: Bytes, part: Bytes, acc: Bytes, i: nat, more: Bytes, all: Bytes, p: nat,
      t: Bytes)
    requires HEADER_SIZE + |part| == PAGE_SIZE - |a| % PAGE_SIZE
    requires var f := Fragment(crc, FragmentType(i == 0, false), part);
             Gathered(crc, (a + f) + (more + t), |a + f|, |more|, acc + part, i + 1, all, p)
    ensures var w := Fragment(crc, FragmentType(i == 0, false), part) + more;
            Gathered(crc, a + (w + t), |a|, |w|, acc, i, all, p)
  {
    hide ReadRound, Fragment, NextRecord, Paged;
    var f := Fragment(crc, FragmentType(i == 0, false), part);
    Seqs.Regroup(a, f, more, t);
    FragmentRead(crc, a, FragmentType(i == 0, false), part, more + t);
    PieceStep(crc, a + (f + (more + t)), |a|, acc, i, false, part, |a| + |f|);
  }

  /** The reader gathers the fragments of a record and stops behind the last one. */
  lemma {:induction false} RecordRead(crc: Checksum, a: Bytes, rec: Bytes, o: nat, acc: Bytes, i: nat, t: Bytes)
    requires |a| % PAGE_SIZE == o && o + HEADER_SIZE <= PAGE_SIZE && (i == 0 || |rec| > 0)
    ensures var w := RecordBytes(crc, rec, o, i);
            Gathered(crc, a + (w + t), |a|, |w|, acc, i, acc + rec, |a| + Span(|rec|, o))
    decreases |rec|, if i == 0 then 1 else 0, o
  {
    hide Fragment, RecordBytes, Gathered, Padding;
    RecordParts(crc, rec, o, i);
    var l := PAGE_SIZE - o - HEADER_SIZE;
    if |rec| <= l {
      LastFragment(crc, a, rec, o, acc, i, t);
    } else {
      var part, rest := rec[..l], rec[l..];
      var f := Fragment(crc, FragmentType(i == 0, false), part);
      PageEnds(|a|, |f|);
      RecordRead(crc, a + f, rest, 0, acc + part, i + 1, t);
      Seqs.Associate(acc, part, rest);
      Seqs.Parts(rec, l);
      FirstFragment(crc, a, part, acc, i, RecordBytes(crc, rest, 0, i + 1), acc + rec, |a| + Span(|rec|, o), t);
    }
  }

  lemma PageEnds(a: nat, n: nat)
    requires n == PAGE_SIZE - a % PAGE_SIZE
    ensures (a + n) % PAGE_SIZE == 0
  {
  }

  // ---------- streams of records ----------

  /** Reading from q on, exactly these records come before reading goes on at p. */
  ghost predicate Through(crc: Checksum, s: Bytes, q: nat, p: nat, recs: seq<Bytes>) {
    && ReadLog(crc, s, q) == Log(recs + ReadLog(crc, s, p).recs, ReadLog(crc, s, p).end)
    && Ends(crc, s, q)[|recs|..] == Ends(crc, s, p)
    && (Paged(crc, s, p) ==> Paged(crc, s, q))
  }

  lemma ThroughNothing(crc: Checksum, s: Bytes, p: nat)
    ensures Through(crc, s, p, p, [])
  {
    hide NextRecord, ReadRound;
    Seqs.Nothing(ReadLog(crc, s, p).recs);
  }

  lemma ThroughBlank(crc: Checksum, s: Bytes, p: nat, q: nat)
    requires ReadRound(crc, s, p) == Blank(q)
    ensures Through(crc, s, p, q, [])
  {
    hide ReadRound, ReadLog, Ends, Paged;
    BlankSkips(crc, s, p, q);
    BlankPaged(crc, s, p, q);
    Seqs.Nothing(ReadLog(crc, s, q).recs);
  }

  lemma ThroughTwice(crc: Checksum, s: Bytes, o: nat, p: nat, q: nat, a: seq<Bytes>, b: seq<Bytes>)
    requires Through(crc, s, o, p, a) && Through(crc, s, p, q, b)
    ensures Through(crc, s, o, q, a + b)
  {
    hide ReadLog, Paged;
    Seqs.Associate(a, b, ReadLog(crc, s, q).recs);
    var es := Ends(crc, s, o);
    assert es[|a|..][|b|..] == es[|a + b|..];
  }

  lemma ThroughRecord(crc: Checksum, a: Bytes, rec: Bytes, o: nat, t: Bytes)
    requires |a| % PAGE_SIZE == o && o + HEADER_SIZE <= PAGE_SIZE
    ensures var w := RecordBytes(crc, rec, o, 0);
            && Through(crc, a + (w + t), |a|, |a| + |w|, [rec])
            && Ends(crc, a + (w + t), |a|)[0] == |a| + Span(|rec|, o)
  {
    hide RecordBytes, NextRecord, ReadRound, Span, ReadLog, Paged, Ends;
    var w, p := RecordBytes(crc, rec, o, 0), |a| + Span(|rec|, o);
    var s := a + (w + t);
    RecordRead(crc, a, rec, o, [], 0, t);
    Seqs.Nothing(rec);
    OneRecord(crc, s, |a|, rec, p);
    if p != |a| + |w| {
      BlankSkips(crc, s, p, |a| + |w|);
    }
    Seqs.Cons(p, Ends(crc, s, p));
  }

  lemma BlankSkips(crc: Checksum, s: Bytes, p: nat, q: nat)
    requires ReadRound(crc, s, p) == Blank(q)
    ensures ReadLog(crc, s, p) == ReadLog(crc, s, q) && Ends(crc, s, p) == Ends(crc, s, q)
  {
    hide ReadRound;
  }

  lemma OneRecord(crc: Checksum, s: Bytes, q: nat, rec: Bytes, p: nat)
    requires NextRecord(crc, s, q, [], 0) == Record(rec, p)
    ensures ReadLog(crc, s, q) == Log([rec] + ReadLog(crc, s, p).recs, ReadLog(crc, s, p).end)
    ensures Ends(crc, s, q) == [p] + Ends(crc, s, p)
  {
    hide NextRecord;
  }

  function Moved(es: seq<nat>, k: nat): (r: seq<nat>)
    ensures |r| == |es| && forall i :: 0 <= i < |es| ==> r[i] == es[i] + k
  {
    seq(|es|, i requires 0 <= i < |es| => es[i] + k)
  }

  lemma {:induction false} EndsShift(crc: Checksum, a: Bytes, s: Bytes, pos: nat)
    requires |a| % PAGE_SIZE == 0
    ensures Ends(crc, a + s, |a| + pos) == Moved(Ends(crc, s, pos), |a|)
    decreases |s| - pos
  {
    hide NextRecord;
    NextShift(crc, a, s, pos, [], 0);
    var o := NextRecord(crc, s, pos, [], 0);
    if o.Record? {
      EndsShift(crc, a, s, o.pos);
    }
  }

  lemma {:induction false} PagedShift(crc: Checksum, a: Bytes, s: Bytes, pos: nat)
    requires |a| % PAGE_SIZE == 0
    ensures Paged(crc, a + s, |a| + pos) == Paged(crc, s, pos)
    decreases |s| - pos
  {
    hide ReadRound;
    RoundShift(crc, a, s, pos);
    PageShift(|a|, pos);
    match ReadRound(crc, s, pos)
    case Stop(_) =>
    case Blank(next) => PagedShift(crc, a, s, next);
    case Piece(_, _, next) => PagedShift(crc, a, s, next);
  }

  lemma ThroughShift(crc: Checksum, a: Bytes, s: Bytes, p: nat, recs: seq<Bytes>)
    requires |a| % PAGE_SIZE == 0 && Through(crc, s, 0, p, recs)
    ensures Through(crc, a + s, |a|, |a| + p, recs)
  {
    hide ReadLog, Ends, Paged;
    LogShift(crc, a, s, 0);
    LogShift(crc, a, s, p);
    EndsShift(crc, a, s, 0);
    EndsShift(crc, a, s, p);
    PagedShift(crc, a, s, 0);
    PagedShift(crc, a, s, p);
    var es := Ends(crc, s, 0);
    assert Moved(es, |a|)[|recs|..] == Moved(es[|recs|..], |a|);
  }

  /** s holds exactly these records: whatever follows, they are read first, and
      reading then goes on behind s. */
  ghost predicate Holds(crc: Checksum, s: Bytes, recs: seq<Bytes>) {
    forall t: Bytes :: Through(crc, s + t, 0, |s|, recs)
  }

  lemma HoldsThen(crc: Checksum, s: Bytes, recs: seq<Bytes>, t: Bytes)
    requires Holds(crc, s, recs)
    ensures Through(crc, s + t, 0, |s|, recs)
  {
    hide Through;
  }

  lemma HoldsNothing(crc: Checksum)
    ensures Holds(crc, [], [])
  {
    hide Through;
    forall t: Bytes ensures Through(crc, [] + t, 0, 0, []) {
      ThroughNothing(crc, [] + t, 0);
    }
  }

  lemma HoldsRecord(crc: Checksum, s: Bytes, recs: seq<Bytes>, rec: Bytes, o: nat)
    requires Holds(crc, s, recs) && |s| % PAGE_SIZE == o && o + HEADER_SIZE <= PAGE_SIZE
    ensures Holds(crc, s + RecordBytes(crc, rec, o, 0), recs + [rec])
  {
    hide Through, RecordBytes;
    var w := RecordBytes(crc, rec, o, 0);
    forall t: Bytes ensures Through(crc, (s + w) + t, 0, |s + w|, recs + [rec]) {
      Seqs.Associate(s, w, t);
      ThroughRecord(crc, s, rec, o, t);
      ThroughTwice(crc, s + (w + t), 0, |s|, |s| + |w|, recs, [rec]);
    }
  }

  /** Filling up the page with zeros adds no record. */
  lemma HoldsPadded(crc: Checksum, s: Bytes, recs: seq<Bytes>, n: nat)
    requires Holds(crc, s, recs) && 0 < n <= PAGE_SIZE - HEADER_SIZE && (|s| + n) % PAGE_SIZE == 0
    ensures Holds(crc, s + Zeros(n), recs)
  {
    hide Through, Zeros, ReadRound;
    forall t: Bytes ensures Through(crc, (s + Zeros(n)) + t, 0, |s + Zeros(n)|, recs) {
      Seqs.Associate(s, Zeros(n), t);
      BlankRead(crc, s, n, t);
      ThroughBlank(crc, s + (Zeros(n) + t), |s|, |s| + n);
      ThroughTwice(crc, s + (Zeros(n) + t), 0, |s|, |s| + n, recs, []);
      Seqs.Nothing(recs);
    }
  }

  /** Whole pages of records may be followed by another such stream. */
  lemma HoldsConcat(crc: Checksum, a: Bytes, ra: seq<Bytes>, b: Bytes, rb: seq<Bytes>)
    requires Holds(crc, a, ra) && Holds(crc, b, rb) && |a| % PAGE_SIZE == 0
    ensures Holds(crc, a + b, ra + rb)
  {
    hide Through;
    forall t: Bytes ensures Through(crc, (a + b) + t, 0, |a + b|, ra + rb) {
      Seqs.Associate(a, b, t);
      ThroughShift(crc, a, b + t, |b|, rb);
      ThroughTwice(crc, a + (b + t), 0, |a|, |a| + |b|, ra, rb);
    }
  }

  /** A stream that holds records is read back to exactly them, without error; each of
      its fragments lies within a page. */
  lemma HoldsReads(crc: Checksum, s: Bytes, recs: seq<Bytes>)
    requires Holds(crc, s, recs)
    ensures ReadLog(crc, s, 0) == Log(recs, Eof) && Paged(crc, s, 0)
  {
    Seqs.Nothing(s);
    Seqs.Nothing(recs);
    assert ReadLog(crc, s, |s|) == Log([], Eof) && Paged(crc, s, |s|);
    hide ReadLog, Paged, Ends;
    assert Through(crc, s + [], 0, |s|, recs);
  }
}
