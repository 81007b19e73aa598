/** Writing a checkpoint (the loop of Checkpoint in checkpoint.go): records are read,
    filtered, encoded again and logged in batches to a new log. */
module Checkpoint {
  import opened Words
  import Seqs
  import opened ByteBuffers
  import opened Samples
  import opened Replay
  import opened RecordCodec
  import opened Records
  import opened Checkpointing
  import Wal

  const MEGABYTE := 1024 * 1024

  /** The events of a record. */
  function Events(r: LogRecord): seq<Event> {
    match r
    case SeriesRecord(ss) => SeriesEvents(ss)
    case SamplesRecord(xs) => [Samples(xs)]
    case StonesRecord(sts) => [Stones(sts)]
  }

  function SeriesEvents(ss: seq<RefSeries>): seq<Event> {
    if ss == [] then [] else [Series(ss[0].ref, ss[0].lset)] + SeriesEvents(ss[1..])
  }

  function AllEvents(rs: seq<LogRecord>): seq<Event> {
    if rs == [] then [] else Events(rs[0]) + AllEvents(rs[1..])
  }

  function KeptSeries(ss: seq<RefSeries>, keep: nat -> bool): seq<RefSeries> {
    if ss == [] then [] else (if keep(ss[0].ref) then [ss[0]] else []) + KeptSeries(ss[1..], keep)
  }

  /** What is kept of a record, if anything. */
  function KeptRecord(r: LogRecord, keep: nat -> bool, mint: int64): seq<LogRecord> {
    match r
    case SeriesRecord(ss) => var k := KeptSeries(ss, keep); if k == [] then [] else [SeriesRecord(k)]
    case SamplesRecord(xs) => var k := Recent(xs, mint); if k == [] then [] else [SamplesRecord(k)]
    case StonesRecord(sts) => var k := RecentStones(sts, mint); if k == [] then [] else [StonesRecord(k)]
  }

  function KeptRecords(rs: seq<LogRecord>, keep: nat -> bool, mint: int64): seq<LogRecord> {
    if rs == [] then [] else KeptRecord(rs[0], keep, mint) + KeptRecords(rs[1..], keep, mint)
  }

  lemma {:induction false} EventsConcat(a: seq<LogRecord>, b: seq<LogRecord>)
    ensures AllEvents(a + b) == AllEvents(a) + AllEvents(b)
  {
    hide Events;
    if a == [] {
      Seqs.Nothing(b);
      Seqs.Nothing(AllEvents(b));
    } else {
      Seqs.Tail(a, b);
      EventsConcat(a[1..], b);
      Seqs.Associate(Events(a[0]), AllEvents(a[1..]), AllEvents(b));
    }
  }

  lemma {:induction false} KeptConcat(a: seq<Event>, b: seq<Event>, keep: nat -> bool, mint: int64)
    ensures KeptOfAll(a + b, keep, mint) == KeptOfAll(a, keep, mint) + KeptOfAll(b, keep, mint)
  {
    hide KeptOf;
    if a == [] {
      Seqs.Nothing(b);
      Seqs.Nothing(KeptOfAll(b, keep, mint));
    } else {
      Seqs.Tail(a, b);
      KeptConcat(a[1..], b, keep, mint);
      Seqs.Associate(KeptOf(a[0], keep, mint), KeptOfAll(a[1..], keep, mint), KeptOfAll(b, keep, mint));
    }
  }

  lemma {:induction false} KeptSeriesEvents(ss: seq<RefSeries>, keep: nat -> bool, mint: int64)
    ensures SeriesEvents(KeptSeries(ss, keep)) == KeptOfAll(SeriesEvents(ss), keep, mint)
  {
    if ss != [] {
      var e, rest := Series(ss[0].ref, ss[0].lset), KeptSeries(ss[1..], keep);
      KeptSeriesEvents(ss[1..], keep, mint);
      SeriesEventsCons(ss[0], rest);
      assert KeptSeries(ss, keep) == if keep(ss[0].ref) then [ss[0]] + rest else rest;
      assert SeriesEvents(ss) == [e] + SeriesEvents(ss[1..]);
      hide SeriesEvents, KeptSeries, KeptOfAll;
      KeptConcat([e], SeriesEvents(ss[1..]), keep, mint);
      OneEvent(e, keep, mint);
    }
  }

  lemma SeriesEventsCons(s: RefSeries, rest: seq<RefSeries>)
    ensures SeriesEvents([s] + rest) == [Series(s.ref, s.lset)] + SeriesEvents(rest)
  {
    assert ([s] + rest)[1..] == rest;
  }

  lemma KeptRecordEvents(r: LogRecord, keep: nat -> bool, mint: int64)
    ensures AllEvents(KeptRecord(r, keep, mint)) == KeptOfAll(Events(r), keep, mint)
  {
    match r
    case SeriesRecord(ss) =>
      KeptSeriesEvents(ss, keep, mint);
      if KeptSeries(ss, keep) != [] {
        OneRecord(SeriesRecord(KeptSeries(ss, keep)));
      }
    case SamplesRecord(xs) =>
      OneRecord(SamplesRecord(Recent(xs, mint)));
      OneEvent(Samples(xs), keep, mint);
    case StonesRecord(sts) =>
      OneRecord(StonesRecord(RecentStones(sts, mint)));
      OneEvent(Stones(sts), keep, mint);
  }

  lemma OneRecord(r: LogRecord)
    ensures AllEvents([r]) == Events(r)
  {
    assert [r][1..] == [];
  }

  lemma OneEvent(e: Event, keep: nat -> bool, mint: int64)
    ensures KeptOfAll([e], keep, mint) == KeptOf(e, keep, mint)
  {
    hide KeptOf;
    assert [e][1..] == [];
  }

  /** Filtering records filters their events. */
  lemma {:induction false} KeptEvents(rs: seq<LogRecord>, keep: nat -> bool, mint: int64)
    ensures AllEvents(KeptRecords(rs, keep, mint)) == KeptOfAll(AllEvents(rs), keep, mint)
  {
    hide KeptRecord, KeptOf, Events;
    if rs != [] {
      KeptEvents(rs[1..], keep, mint);
      KeptRecordEvents(rs[0], keep, mint);
      EventsConcat(KeptRecord(rs[0], keep, mint), KeptRecords(rs[1..], keep, mint));
      KeptConcat(Events(rs[0]), AllEvents(rs[1..]), keep, mint);
    }
  }

  method FilterSeries(ss: seq<RefSeries>, keep: nat -> bool) returns (repl: seq<RefSeries>)
    ensures repl == KeptSeries(ss, keep)
  {
    repl := [];
    for i := 0 to |ss|
      invariant KeptSeries(ss, keep) == repl + KeptSeries(ss[i..], keep)
    {
      assert ss[i..][1..] == ss[i + 1..];
      if keep(ss[i].ref) {
        repl := repl + [ss[i]];
      }
    }
  }

  method FilterSamples(xs: seq<RefSample>, mint: int64) returns (repl: seq<RefSample>)
    ensures repl == Recent(xs, mint)
  {
    repl := [];
    for i := 0 to |xs|
      invariant Recent(xs, mint) == repl + Recent(xs[i..], mint)
    {
      assert xs[i..][1..] == xs[i + 1..];
      if xs[i].s.t >= mint {
        repl := repl + [xs[i]];
      }
    }
  }

  method FilterStones(sts: seq<Stone>, mint: int64) returns (repl: seq<Stone>)
    ensures repl == RecentStones(sts, mint)
  {
    repl := [];
    for i := 0 to |sts|
      invariant RecentStones(sts, mint) == repl + RecentStones(sts[i..], mint)
    {
      assert sts[i..][1..] == sts[i + 1..];
      if sts[i].itv.maxt >= mint {
        repl := repl + [sts[i]];
      }
    }
  }

  lemma KeptIsEncodable(r: LogRecord, keep: nat -> bool, mint: int64)
    requires Encodable(r)
    ensures forall k :: k in KeptRecord(r, keep, mint) ==> Encodable(k)
  {
    match r
    case SeriesRecord(ss) =>
      KeptSeriesIn(ss, keep);
      assert forall s :: s in ss ==> s.ref < MODULUS && Storable(s.lset) && SortedByName(s.lset);
      hide Storable, SortedByName;
    case SamplesRecord(xs) => RecentIs(xs, mint);
    case StonesRecord(sts) =>
      RecentStonesIn(sts, mint);
      assert forall st :: st in sts ==> st.ref < MODULUS;
      hide RecentStones;
  }

  lemma {:induction false} KeptSeriesIn(ss: seq<RefSeries>, keep: nat -> bool)
    ensures forall s :: s in KeptSeries(ss, keep) ==> s in ss
  {
    if ss != [] {
      KeptSeriesIn(ss[1..], keep);
    }
  }

  lemma {:induction false} RecentStonesIn(sts: seq<Stone>, mint: int64)
    ensures forall s :: s in RecentStones(sts, mint) ==> s in sts
  {
    if sts != [] {
      RecentStonesIn(sts[1..], mint);
    }
  }

  ghost predicate AllEncodable(rs: seq<LogRecord>) { forall r :: r in rs ==> Encodable(r) }

  function Encoded(rs: seq<LogRecord>): seq<Bytes>
    requires AllEncodable(rs)
  {
    if rs == [] then [] else Encoded(rs[..|rs| - 1]) + [Encode(rs[|rs| - 1])]
  }

  /** Encodes what is kept of a record; nothing if all of it is dropped. */
  method FilterRecord(r: LogRecord, keep: nat -> bool, mint: int64) returns (out: Bytes)
    requires Encodable(r)
    ensures forall k :: k in KeptRecord(r, keep, mint) ==> Encodable(k)
    ensures var k := KeptRecord(r, keep, mint); |k| <= 1 && out == if k == [] then [] else Encode(k[0])
  {
    hide Encodable, Encode;
    KeptIsEncodable(r, keep, mint);
    out := [];
    match r
    case SeriesRecord(ss) =>
      var repl := FilterSeries(ss, keep);
      if |repl| > 0 {
        assert SeriesRecord(repl) in KeptRecord(r, keep, mint);
        out := EncodeSeries(repl, []);
      }
    case SamplesRecord(xs) =>
      var repl := FilterSamples(xs, mint);
      if |repl| > 0 {
        assert SamplesRecord(repl) in KeptRecord(r, keep, mint);
        out := EncodeSamples(repl, []);
      }
    case StonesRecord(sts) =>
      var repl := FilterStones(sts, mint);
      if |repl| > 0 {
        assert StonesRecord(repl) in KeptRecord(r, keep, mint);
        out := EncodeStones(repl, []);
      }
  }

  /** The records that could be decoded. */
  function Decoded(recs: seq<Bytes>): seq<LogRecord> {
    if recs == [] then []
    else match Decode(recs[|recs| - 1])
         case None => Decoded(recs[..|recs| - 1])
         case Some(r) => Decoded(recs[..|recs| - 1]) + [r]
  }

  lemma {:induction false} KeptRecordsConcat(a: seq<LogRecord>, b: seq<LogRecord>, keep: nat -> bool, mint: int64)
    ensures KeptRecords(a + b, keep, mint) == KeptRecords(a, keep, mint) + KeptRecords(b, keep, mint)
  {
    hide KeptRecord;
    if a == [] {
      Seqs.Nothing(b);
      Seqs.Nothing(KeptRecords(b, keep, mint));
    } else {
      Seqs.Tail(a, b);
      KeptRecordsConcat(a[1..], b, keep, mint);
      Seqs.Associate(KeptRecord(a[0], keep, mint), KeptRecords(a[1..], keep, mint), KeptRecords(b, keep, mint));
    }
  }

  /** One more record to keep. */
  lemma KeptMore(rs: seq<LogRecord>, r: LogRecord, keep: nat -> bool, mint: int64)
    requires AllEncodable(KeptRecords(rs, keep, mint)) && Encodable(r)
    ensures var k, next := KeptRecord(r, keep, mint), KeptRecords(rs + [r], keep, mint);
            && AllEncodable(next) && |k| <= 1 && AllEncodable(k)
            && Encoded(next) == Encoded(KeptRecords(rs, keep, mint)) + if k == [] then [] else [Encode(k[0])]
  {
    hide KeptRecord, KeptRecords, Encodable, Encode, Encoded;
    var k, was := KeptRecord(r, keep, mint), KeptRecords(rs, keep, mint);
    KeptIsEncodable(r, keep, mint);
    KeptAtMost(r, keep, mint);
    KeptRecordsConcat(rs, [r], keep, mint);
    KeptOne(r, keep, mint);
    if k != [] {
      assert k == [k[0]];
      EncodedSnoc(was, k[0]);
    } else {
      Seqs.Nothing(was);
      Seqs.Nothing(Encoded(was));
    }
  }

  lemma KeptOne(r: LogRecord, keep: nat -> bool, mint: int64)
    ensures KeptRecords([r], keep, mint) == KeptRecord(r, keep, mint)
  {
    hide KeptRecord;
    Seqs.Nothing(KeptRecord(r, keep, mint));
    assert [r][1..] == [];
  }

  lemma EncodedSnoc(rs: seq<LogRecord>, r: LogRecord)
    requires AllEncodable(rs) && Encodable(r)
    ensures AllEncodable(rs + [r]) && Encoded(rs + [r]) == Encoded(rs) + [Encode(r)]
  {
    hide Encodable, Encode;
    Seqs.Snoc(rs, r);
  }

  lemma KeptAtMost(r: LogRecord, keep: nat -> bool, mint: int64)
    ensures |KeptRecord(r, keep, mint)| <= 1
  {
  }

  /** Writes the checkpoint of the given records to the log cp. It fails exactly when a
      record cannot be decoded; otherwise cp gets what is kept of them, in order. */
  method WriteCheckpoint(recs: seq<Bytes>, keep: nat -> bool, mint: int64, cp: Wal.WAL) returns (ok: bool)
    requires cp.Valid() && cp.page.Pending() == []
    requires AllEncodable(Decoded(recs))
    modifies cp, cp.page, cp.page.buf
    ensures cp.Valid() && cp.page.Pending() == []
    ensures ok <==> forall i :: 0 <= i < |recs| ==> Decode(recs[i]).Some?
    ensures ok ==> AllEncodable(KeptRecords(Decoded(recs), keep, mint))
    ensures ok ==> Wal.Flat(cp.logged) == old(Wal.Flat(cp.logged)) + Encoded(KeptRecords(Decoded(recs), keep, mint))
  {
    hide Wal.Flat, Wal.Page.Valid, Wal.Page.Pending, Wal.WAL.Valid, Wal.WAL.Contents, Wal.Grown, Wal.Sized,
         Wal.WAL.Counted;
    hide KeptRecord, KeptRecords, Encodable, Encode, Decode, Encoded, Decoded, AllEncodable;
    var batch, size := [], 0;
    NothingKept(keep, mint);
    for i := 0 to |recs|
      invariant cp.Valid() && cp.page.Pending() == []
      invariant forall j :: 0 <= j < i ==> Decode(recs[j]).Some?
      invariant AllEncodable(KeptRecords(Decoded(recs[..i]), keep, mint))
      invariant Wal.Flat(cp.logged) + batch
             == old(Wal.Flat(cp.logged)) + Encoded(KeptRecords(Decoded(recs[..i]), keep, mint))
    {
      DecodedNext(recs, i);
      var readable, out := FilterBytes(recs[i], keep, mint);
      if !readable {
        return false;
      }
      KeptMore(Decoded(recs[..i]), Decode(recs[i]).value, keep, mint);
      if |out| == 0 {
        continue;
      }
      ghost var was := Wal.Flat(cp.logged);
      assert was + (batch + [out]) == was + batch + [out];
      batch, size := batch + [out], size + |out|;
      if size > MEGABYTE {
        cp.Log(batch);
        assert Wal.Flat(cp.logged) + [] == Wal.Flat(cp.logged);
        batch, size := [], 0;
      }
    }
    assert recs[..|recs|] == recs;
    cp.Log(batch);
    ok := true;
  }

  lemma NothingKept(keep: nat -> bool, mint: int64)
    ensures Decoded([]) == [] && KeptRecords([], keep, mint) == [] && AllEncodable([]) && Encoded([]) == []
  {
  }

  lemma DecodedNext(recs: seq<Bytes>, i: nat)
    requires i < |recs| && AllEncodable(Decoded(recs))
    ensures Decode(recs[i]).Some? ==>
              Decoded(recs[..i + 1]) == Decoded(recs[..i]) + [Decode(recs[i]).value] && Encodable(Decode(recs[i]).value)
  {
    hide Decode, Encodable;
    assert recs[..i + 1][..i] == recs[..i];
    if Decode(recs[i]).Some? {
      DecodedIn(recs, i);
    }
  }

  lemma {:induction false} DecodedIn(recs: seq<Bytes>, i: nat)
    requires i < |recs| && Decode(recs[i]).Some?
    ensures Decode(recs[i]).value in Decoded(recs)
  {
    hide Decode;
    if i < |recs| - 1 {
      DecodedIn(recs[..|recs| - 1], i);
    }
  }

  /** Decodes a record and encodes what is kept of it. */
  method FilterBytes(rec: Bytes, keep: nat -> bool, mint: int64) returns (readable: bool, out: Bytes)
    requires Decode(rec).Some? ==> Encodable(Decode(rec).value)
    ensures readable <==> Decode(rec).Some?
    ensures readable ==>
              var k := KeptRecord(Decode(rec).value, keep, mint);
              (forall x :: x in k ==> Encodable(x)) && |k| <= 1 && out == if k == [] then [] else Encode(k[0])
  {
    hide Decode, Encodable, Encode, KeptRecord;
    var r := DecodeRecord(rec);
    if r.None? {
      return false, [];
    }
    readable := true;
    out := FilterRecord(r.value, keep, mint);
  }
}
