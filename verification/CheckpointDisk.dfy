/** Checkpoints from bytes to bytes: a log on disk is checkpointed any number of times,
    and what the head replays from disk afterwards is what it would have replayed before. */
module CheckpointDisk {
  import opened Options
  import opened ByteBuffers
  import opened Samples
  import opened Replay
  import opened RecordCodec
  import opened Checkpointing
  import opened Checkpoint
  import Reading = WalReader
  import Format = WalFormat
  import Wal
  import Seqs

  lemma {:induction false} EncodedConcat(a: seq<LogRecord>, b: seq<LogRecord>)
    requires AllEncodable(a) && AllEncodable(b)
    ensures AllEncodable(a + b) && Encoded(a + b) == Encoded(a) + Encoded(b)
    decreases |b|
  {
    hide Encodable, Encode, Encoded;
    if b == [] {
      NothingEncoded();
      Seqs.Nothing(a);
      Seqs.Nothing(Encoded(a));
    } else {
      var init, r := b[..|b| - 1], b[|b| - 1];
      assert b == init + [r];
      assert r in b && forall x :: x in init ==> x in b;
      EncodedConcat(a, init);
      EncodedSnoc(a + init, r);
      EncodedSnoc(init, r);
      Seqs.Associate(a, init, [r]);
      Seqs.Associate(Encoded(a), Encoded(init), [Encode(r)]);
    }
  }

  lemma NothingEncoded()
    ensures AllEncodable([]) && Encoded([]) == [] && Decoded([]) == [] && AllDecode([])
  {
  }

  lemma DecodedSnoc(recs: seq<Bytes>, rec: Bytes, r: LogRecord)
    requires Decode(rec) == Some(r)
    ensures Decoded(recs + [rec]) == Decoded(recs) + [r] && (AllDecode(recs) ==> AllDecode(recs + [rec]))
  {
    hide Decode;
    Seqs.Snoc(recs, rec);
  }

  lemma Last<T>(s: seq<T>)
    requires s != []
    ensures s == s[..|s| - 1] + [s[|s| - 1]] && s[|s| - 1] in s && forall x :: x in s[..|s| - 1] ==> x in s
  {
  }

  ghost predicate AllDecode(recs: seq<Bytes>) { forall i :: 0 <= i < |recs| ==> Decode(recs[i]).Some? }

  lemma {:induction false} DecodedEncoded(rs: seq<LogRecord>)
    requires AllEncodable(rs)
    ensures Decoded(Encoded(rs)) == rs && |Encoded(rs)| == |rs| && AllDecode(Encoded(rs))
  {
    hide Encodable, Encode, Decode, Encoded, Decoded, AllDecode;
    NothingEncoded();
    if rs != [] {
      var init, r := rs[..|rs| - 1], rs[|rs| - 1];
      Last(rs);
      DecodedEncoded(init);
      RecordBack(r);
      EncodedSnoc(init, r);
      DecodedSnoc(Encoded(init), Encode(r), r);
    }
  }

  /** The segments hold the encodings of these records. */
  ghost predicate Stores(crc: Format.Checksum, segs: seq<Bytes>, rs: seq<LogRecord>) {
    && AllEncodable(rs)
    && exists logged: seq<seq<Bytes>> :: Wal.HoldsAll(crc, segs, logged) && Wal.Flat(logged) == Encoded(rs)
  }

  ghost predicate WholePages(segs: seq<Bytes>) {
    forall j :: 0 <= j < |segs| ==> |segs[j]| % Format.PAGE_SIZE == 0
  }

  /** The events that a reader of some segments finds. */
  function EventsOn(crc: Format.Checksum, segs: seq<Bytes>): seq<Event> {
    AllEvents(Decoded(Format.ReadLog(crc, Reading.Concat(segs), 0).recs))
  }

  lemma StoresReads(crc: Format.Checksum, segs: seq<Bytes>, rs: seq<LogRecord>)
    requires Stores(crc, segs, rs)
    ensures Format.ReadLog(crc, Reading.Concat(segs), 0) == Format.Log(Encoded(rs), Format.Eof)
    ensures EventsOn(crc, segs) == AllEvents(rs)
  {
    hide Wal.HoldsAll, Format.ReadLog, Reading.Concat, Encodable, Encoded, Wal.Flat, Decoded, AllEvents;
    var logged :| Wal.HoldsAll(crc, segs, logged) && Wal.Flat(logged) == Encoded(rs);
    Reading.LogReadsBack(crc, segs, logged);
    DecodedEncoded(rs);
  }

  /** Segments of whole pages, followed by others. */
  lemma StoresConcat(crc: Format.Checksum, a: seq<Bytes>, ra: seq<LogRecord>, b: seq<Bytes>, rb: seq<LogRecord>)
    requires Stores(crc, a, ra) && Stores(crc, b, rb) && WholePages(a)
    ensures Stores(crc, a + b, ra + rb)
  {
    hide Encodable, Encoded, Format.Holds, Wal.Flat;
    var la: seq<seq<Bytes>> :| Wal.HoldsAll(crc, a, la) && Wal.Flat(la) == Encoded(ra);
    var lb: seq<seq<Bytes>> :| Wal.HoldsAll(crc, b, lb) && Wal.Flat(lb) == Encoded(rb);
    EncodedConcat(ra, rb);
    FlatConcat(la, lb);
    assert Wal.HoldsAll(crc, a + b, la + lb);
  }

  lemma {:induction false} FlatConcat(a: seq<seq<Bytes>>, b: seq<seq<Bytes>>)
    ensures Wal.Flat(a + b) == Wal.Flat(a) + Wal.Flat(b)
    decreases |b|
  {
    if b == [] {
      Seqs.Nothing(a);
      Seqs.Nothing(Wal.Flat(a));
    } else {
      var init, last := b[..|b| - 1], b[|b| - 1];
      assert (a + b)[..|a + b| - 1] == a + init;
      FlatConcat(a, init);
      Seqs.Associate(Wal.Flat(a), Wal.Flat(init), last);
    }
  }

  /** The first k segments, and the others. */
  lemma StoresSplit(crc: Format.Checksum, segs: seq<Bytes>, rs: seq<LogRecord>, k: nat) returns (j: nat)
    requires Stores(crc, segs, rs) && k <= |segs|
    ensures j <= |rs| && Stores(crc, segs[..k], rs[..j]) && Stores(crc, segs[k..], rs[j..])
    ensures k < |segs| ==> WholePages(segs[..k])
  {
    hide Encodable, Encoded, Format.Holds, Wal.Flat;
    var logged: seq<seq<Bytes>> :| Wal.HoldsAll(crc, segs, logged) && Wal.Flat(logged) == Encoded(rs);
    var la, lb := logged[..k], logged[k..];
    FlatConcat(la, lb);
    Seqs.Parts(logged, k);
    j := |Wal.Flat(la)|;
    EncodedLength(rs);
    EncodedParts(rs, j);
    Cut(Wal.Flat(la), Wal.Flat(lb), Encoded(rs[..j]), Encoded(rs[j..]));
    assert Wal.HoldsAll(crc, segs[..k], la) && Wal.HoldsAll(crc, segs[k..], lb);
  }

  lemma EncodedLength(rs: seq<LogRecord>)
    requires AllEncodable(rs)
    ensures |Encoded(rs)| == |rs|
  {
    DecodedEncoded(rs);
  }

  lemma EncodedParts(rs: seq<LogRecord>, j: nat)
    requires AllEncodable(rs) && j <= |rs|
    ensures AllEncodable(rs[..j]) && AllEncodable(rs[j..])
    ensures Encoded(rs) == Encoded(rs[..j]) + Encoded(rs[j..]) && |Encoded(rs[..j])| == j
  {
    hide Encodable, Encoded;
    assert forall x :: x in rs[..j] || x in rs[j..] ==> x in rs;
    Seqs.Parts(rs, j);
    EncodedConcat(rs[..j], rs[j..]);
    EncodedLength(rs[..j]);
  }

  lemma Cut(a: seq<Bytes>, b: seq<Bytes>, c: seq<Bytes>, d: seq<Bytes>)
    requires a + b == c + d && |a| == |c|
    ensures a == c && b == d
  {
    assert (a + b)[..|a|] == a && (c + d)[..|a|] == c;
    assert (a + b)[|a|..] == b && (c + d)[|a|..] == d;
  }

  /** The records of a log, read with a single reader. */
  method ReadRecords(crc: Format.Checksum, stream: Bytes) returns (ok: bool, recs: seq<Bytes>)
    ensures recs == Format.ReadLog(crc, stream, 0).recs
    ensures ok <==> Format.ReadLog(crc, stream, 0).end == Format.Eof
  {
    hide Format.NextRecord;
    var r := new Reading.Reader(crc, stream);
    recs := [];
    ghost var all := Format.ReadLog(crc, stream, 0);
    Seqs.Nothing(all.recs);
    var more := r.Next();
    while more
      invariant r.crc == crc && r.stream == stream && fresh(r) && (more ==> r.Valid())
      invariant if more then all.recs == recs + ([r.rec] + Format.ReadLog(crc, stream, r.total).recs)
                             && all.end == Format.ReadLog(crc, stream, r.total).end
                else all.recs == recs && (all.end == Format.Eof <==> !r.err && !r.panicked)
      decreases if more then |stream| - r.total + 1 else 0
    {
      Seqs.Associate(recs, [r.rec], Format.ReadLog(crc, stream, r.total).recs);
      recs := recs + [r.rec];
      Seqs.Nothing(recs);
      more := r.Next();
    }
    ok := !r.err && !r.panicked;
  }

  /** Checkpoint: the last checkpoint and the first segments of the log are read as one
      stream, filtered, and written to a new log. */
  method CheckpointOf(crc: Format.Checksum, last: seq<Bytes>, segs: seq<Bytes>, keep: nat -> bool, mint: int64,
      segmentSize: nat, ghost rs: seq<LogRecord>, ghost ss: seq<LogRecord>)
    returns (ok: bool, out: seq<Bytes>)
    requires Stores(crc, last, rs) && WholePages(last) && Stores(crc, segs, ss)
    requires segmentSize % Format.PAGE_SIZE == 0
    ensures ok && Stores(crc, out, KeptRecords(rs + ss, keep, mint)) && WholePages(out)
  {
    hide Stores, Format.ReadLog, Reading.Concat, Encodable, Encoded, Decoded, KeptRecords, AllEncodable;
    hide Wal.HoldsAll, Wal.Flat, Wal.Page.Valid, Wal.Page.Pending, Wal.WAL.Contents;
    StoresConcat(crc, last, rs, segs, ss);
    StoresReads(crc, last + segs, rs + ss);
    assert AllEncodable(rs + ss) by {
      StoresEncodable(crc, last + segs, rs + ss);
    }
    DecodedEncoded(rs + ss);
    EncodedLength(rs + ss);
    var recs;
    ok, recs := ReadRecords(crc, Reading.Concat(last + segs));
    var cp := NewLog(crc, segmentSize);
    ok := WriteCheckpoint(recs, keep, mint, cp);
    cp.Close();
    Seqs.Nothing(Encoded(KeptRecords(rs + ss, keep, mint)));
    out := cp.files;
    StoresNow(cp, KeptRecords(rs + ss, keep, mint));
  }

  lemma StoresEncodable(crc: Format.Checksum, segs: seq<Bytes>, rs: seq<LogRecord>)
    requires Stores(crc, segs, rs)
    ensures AllEncodable(rs)
  {
  }

  lemma StoresNow(w: Wal.WAL, rs: seq<LogRecord>)
    requires w.Valid() && w.files == w.Contents() && AllEncodable(rs) && Wal.Flat(w.logged) == Encoded(rs)
    ensures Stores(w.crc, w.files, rs)
  {
    hide Encodable, Encoded, Format.Holds, Wal.Flat;
    assert Wal.HoldsAll(w.crc, w.files, w.logged);
  }

  method NewLog(crc: Format.Checksum, segmentSize: nat) returns (w: Wal.WAL)
    requires segmentSize % Format.PAGE_SIZE == 0
    ensures fresh(w) && fresh(w.page) && fresh(w.page.buf) && w.crc == crc
    ensures w.Valid() && w.page.Pending() == [] && Wal.Flat(w.logged) == []
  {
    var v := Wal.WAL.NewSize(crc, segmentSize, []);
    w := v;
    NothingLogged();
  }

  lemma NothingLogged()
    ensures Wal.Flat([[]]) == []
  {
    var one: seq<seq<Bytes>> := [[]];
    assert one[..0] == [];
  }

  /* Any number of rounds */

  /** The last checkpoint and the segments behind it. */
  datatype Disk = Disk(cp: seq<Bytes>, wal: seq<Bytes>)

  /** What both hold. */
  ghost predicate Intact(crc: Format.Checksum, d: Disk, rs: seq<LogRecord>, ss: seq<LogRecord>) {
    Stores(crc, d.cp, rs) && WholePages(d.cp) && Stores(crc, d.wal, ss)
  }

  /** What the head replays: the checkpoint, and then the segments. */
  function Replayed(crc: Format.Checksum, d: Disk, h: Head, from: int64): Head {
    Sequential(Sequential(h, EventsOn(crc, d.cp), from), EventsOn(crc, d.wal), from)
  }

  lemma {:induction false} SequentialConcat(h: Head, a: seq<Event>, b: seq<Event>, from: int64)
    ensures Sequential(h, a + b, from) == Sequential(Sequential(h, a, from), b, from)
    decreases |a|
  {
    hide Record;
    if a == [] {
      Seqs.Nothing(b);
    } else {
      Seqs.Tail(a, b);
      SequentialConcat(Record(h, a[0], from), a[1..], b, from);
    }
  }

  lemma ReplayedIs(crc: Format.Checksum, d: Disk, rs: seq<LogRecord>, ss: seq<LogRecord>, h: Head, from: int64)
    requires Intact(crc, d, rs, ss)
    ensures Replayed(crc, d, h, from) == Sequential(h, AllEvents(rs + ss), from)
  {
    hide Stores, WholePages, EventsOn, Sequential, AllEvents, Format.ReadLog, Encoded;
    StoresReads(crc, d.cp, rs);
    StoresReads(crc, d.wal, ss);
    EventsConcat(rs, ss);
    SequentialConcat(h, AllEvents(rs), AllEvents(ss), from);
  }

  /** A checkpoint of the last checkpoint and of k segments, which are then deleted. */
  datatype Round = Round(k: nat, keep: nat -> bool, mint: int64)

  /** What a round does to the disk; CheckpointOf writes such a checkpoint. */
  ghost predicate Checkpoints(crc: Format.Checksum, d: Disk, r: Round, e: Disk, rs: seq<LogRecord>,
      ss: seq<LogRecord>, j: nat) {
    && r.k <= |d.wal| && e.wal == d.wal[r.k..]
    && j <= |ss| && Stores(crc, d.wal[..r.k], ss[..j]) && Stores(crc, e.wal, ss[j..])
    && Stores(crc, e.cp, KeptRecords(rs + ss[..j], r.keep, r.mint)) && WholePages(e.cp)
  }

  /** Checkpoint, and then Truncate: the first segments are replaced by their checkpoint. */
  method CheckpointRound(crc: Format.Checksum, d: Disk, r: Round, segmentSize: nat, ghost rs: seq<LogRecord>,
      ghost ss: seq<LogRecord>)
    returns (e: Disk, ghost j: nat)
    requires Intact(crc, d, rs, ss) && r.k <= |d.wal| && segmentSize % Format.PAGE_SIZE == 0
    ensures Checkpoints(crc, d, r, e, rs, ss, j)
  {
    hide Stores, WholePages, KeptRecords;
    j := StoresSplit(crc, d.wal, ss, r.k);
    var ok, out := CheckpointOf(crc, d.cp, d.wal[..r.k], r.keep, r.mint, segmentSize, rs, ss[..j]);
    e := Disk(out, d.wal[r.k..]);
  }

  /** On disk a round does what filtering does to the log's events. */
  lemma RoundOnDisk(crc: Format.Checksum, d: Disk, r: Round, e: Disk, rs: seq<LogRecord>, ss: seq<LogRecord>, j: nat)
    requires Intact(crc, d, rs, ss) && Checkpoints(crc, d, r, e, rs, ss, j)
    ensures Intact(crc, e, KeptRecords(rs + ss[..j], r.keep, r.mint), ss[j..])
    ensures AllEvents(KeptRecords(rs + ss[..j], r.keep, r.mint) + ss[j..])
         == KeptOfAll(AllEvents(rs + ss[..j]), r.keep, r.mint) + AllEvents(ss[j..])
    ensures AllEvents(rs + ss) == AllEvents(rs + ss[..j]) + AllEvents(ss[j..])
  {
    hide Stores, WholePages, AllEvents, KeptRecords, KeptOfAll;
    EventsConcat(KeptRecords(rs + ss[..j], r.keep, r.mint), ss[j..]);
    KeptEvents(rs + ss[..j], r.keep, r.mint);
    Seqs.Parts(ss, j);
    Seqs.Associate(rs, ss[..j], ss[j..]);
    EventsConcat(rs + ss[..j], ss[j..]);
  }

  /** The disks that rounds of checkpoints lead through. Each drops series without samples
      from its time on, but not the first id of a label set that is still recorded, and
      replay starts no earlier than that. */
  ghost predicate Rounds(crc: Format.Checksum, disks: seq<Disk>, rounds: seq<Round>, rs: seq<LogRecord>,
      ss: seq<LogRecord>, from: int64)
    decreases |rounds|
  {
    && |disks| == |rounds| + 1 && Intact(crc, disks[0], rs, ss)
    && (rounds != [] ==>
          var r := rounds[0];
          && r.mint <= from
          && exists j: nat | j <= |ss| ::
               && Checkpoints(crc, disks[0], r, disks[1], rs, ss, j)
               && Irrelevant(AllEvents(rs + ss[..j]), AllEvents(ss[j..]), r.keep, r.mint)
               && FirstsStay(AllEvents(rs + ss[..j]), AllEvents(ss[j..]), r.keep, r.mint)
               && Rounds(crc, disks[1..], rounds[1..], KeptRecords(rs + ss[..j], r.keep, r.mint), ss[j..], from))
  }

  lemma AllButTwice(f: Head, g: Head, h: Head)
    requires AllBut(f, g) && AllBut(g, h)
    ensures AllBut(f, h)
  {
  }

  lemma OneRound(crc: Format.Checksum, d: Disk, r: Round, e: Disk, rs: seq<LogRecord>, ss: seq<LogRecord>, j: nat,
      h: Head, from: int64)
    requires Intact(crc, d, rs, ss) && j <= |ss| && Checkpoints(crc, d, r, e, rs, ss, j)
    requires Fresh(h) && Regular(AllEvents(rs + ss)) && r.mint <= from
    requires Irrelevant(AllEvents(rs + ss[..j]), AllEvents(ss[j..]), r.keep, r.mint)
    requires FirstsStay(AllEvents(rs + ss[..j]), AllEvents(ss[j..]), r.keep, r.mint)
    ensures Intact(crc, e, KeptRecords(rs + ss[..j], r.keep, r.mint), ss[j..])
    ensures Regular(AllEvents(KeptRecords(rs + ss[..j], r.keep, r.mint) + ss[j..]))
    ensures AllBut(Replayed(crc, e, h, from), Replayed(crc, d, h, from))
  {
    hide Stores, WholePages, AllEvents, KeptRecords, KeptOfAll, Irrelevant, FirstsStay, Regular, Replayed, Sequential,
         Checkpoints, Intact, AllBut, Fresh;
    RoundOnDisk(crc, d, r, e, rs, ss, j);
    var pre, post := AllEvents(rs + ss[..j]), AllEvents(ss[j..]);
    CheckpointPreservesReplay(h, pre, post, r.keep, r.mint, from);
    ReplayedIs(crc, d, rs, ss, h, from);
    ReplayedIs(crc, e, KeptRecords(rs + ss[..j], r.keep, r.mint), ss[j..], h, from);
  }

  /** After any number of rounds, replaying what is on disk gives the kept series with the
      same samples, the same deleted ranges and the same times as before. */
  lemma {:induction false} RoundsPreserveReplay(crc: Format.Checksum, disks: seq<Disk>, rounds: seq<Round>,
      rs: seq<LogRecord>, ss: seq<LogRecord>, h: Head, from: int64)
    requires Rounds(crc, disks, rounds, rs, ss, from) && Fresh(h) && Regular(AllEvents(rs + ss))
    ensures AllBut(Replayed(crc, disks[|rounds|], h, from), Replayed(crc, disks[0], h, from))
    decreases |rounds|
  {
    hide AllEvents, KeptRecords, Irrelevant, FirstsStay, Regular, Replayed, Checkpoints, Intact, Fresh;
    if rounds != [] {
      var r := rounds[0];
      var j: nat :| && j <= |ss|
                    && Checkpoints(crc, disks[0], r, disks[1], rs, ss, j)
                    && Irrelevant(AllEvents(rs + ss[..j]), AllEvents(ss[j..]), r.keep, r.mint)
                    && FirstsStay(AllEvents(rs + ss[..j]), AllEvents(ss[j..]), r.keep, r.mint)
                    && Rounds(crc, disks[1..], rounds[1..], KeptRecords(rs + ss[..j], r.keep, r.mint), ss[j..], from);
      OneRound(crc, disks[0], r, disks[1], rs, ss, j, h, from);
      RoundsPreserveReplay(crc, disks[1..], rounds[1..], KeptRecords(rs + ss[..j], r.keep, r.mint), ss[j..], h, from);
      hide Rounds;
      AllButTwice(Replayed(crc, disks[|rounds|], h, from), Replayed(crc, disks[1], h, from),
                  Replayed(crc, disks[0], h, from));
    }
  }
}
