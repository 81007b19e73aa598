/** The encoder and the decoder of record.go, working on their buffers. */
module Records {
  import opened Options
  import opened Words
  import opened Varints
  import opened ByteBuffers
  import opened Samples
  import opened Labelling
  import opened Tombstones
  import opened Replay
  import opened RecordCodec

  lemma {:induction false} SeriesSnoc(ss: seq<RefSeries>, i: nat)
    requires i < |ss| && Encodable(SeriesRecord(ss))
    ensures AllSeriesBytes(ss[..i + 1]) == AllSeriesBytes(ss[..i]) + SeriesBytes(ss[i])
  {
    hide SeriesBytes, Storable, SortedByName;
    if i > 0 {
      SeriesSnoc(ss[1..], i - 1);
      assert ss[1..][..i] == ss[..i + 1][1..] && ss[1..][..i - 1] == ss[..i][1..];
    } else {
      assert ss[..1][1..] == [];
    }
  }

  lemma {:induction false} SamplesSnoc(first: RefSample, xs: seq<RefSample>, i: nat)
    requires i < |xs| && first.ref < MODULUS && Encodable(SamplesRecord(xs))
    ensures AllSampleBytes(first, xs[..i + 1]) == AllSampleBytes(first, xs[..i]) + SampleBytes(first, xs[i])
  {
    hide SampleBytes;
    if i > 0 {
      SamplesSnoc(first, xs[1..], i - 1);
      assert xs[1..][..i] == xs[..i + 1][1..] && xs[1..][..i - 1] == xs[..i][1..];
    } else {
      assert xs[..1][1..] == [];
    }
  }

  lemma {:induction false} StonesSnoc(sts: seq<Stone>, i: nat)
    requires i < |sts| && Encodable(StonesRecord(sts))
    ensures AllStoneBytes(sts[..i + 1]) == AllStoneBytes(sts[..i]) + StoneBytes(sts[i])
  {
    hide StoneBytes;
    if i > 0 {
      StonesSnoc(sts[1..], i - 1);
      assert sts[1..][..i] == sts[..i + 1][1..] && sts[1..][..i - 1] == sts[..i][1..];
    } else {
      assert sts[..1][1..] == [];
    }
  }

  lemma {:induction false} LabelsSnoc(ls: Labels, i: nat)
    requires i < |ls| && Storable(ls)
    ensures Storable(ls[..i]) && Storable(ls[..i + 1])
    ensures LabelsBytes(ls[..i + 1]) == LabelsBytes(ls[..i]) + StringBytes(ls[i].name) + StringBytes(ls[i].value)
  {
    hide StringBytes, IsBytes;
    if i > 0 {
      LabelsSnoc(ls[1..], i - 1);
      assert ls[1..][..i] == ls[..i + 1][1..] && ls[1..][..i - 1] == ls[..i][1..];
      var h, m := StringBytes(ls[0].name) + StringBytes(ls[0].value), LabelsBytes(ls[..i][1..]);
      var x, y := StringBytes(ls[i].name), StringBytes(ls[i].value);
      assert h + (m + x + y) == h + m + x + y;
    } else {
      assert ls[..1][1..] == [];
    }
  }

  method EncodeSeries(series: seq<RefSeries>, b: Bytes) returns (out: Bytes)
    requires Encodable(SeriesRecord(series))
    ensures out == b + Encode(SeriesRecord(series))
  {
    hide SeriesBytes, Storable, SortedByName, AllSeriesBytes;
    var buf := new Encbuf(b);
    buf.PutByte(SERIES);
    NoBytes();
    for i := 0 to |series|
      invariant fresh(buf) && buf.b == b + ([SERIES] + AllSeriesBytes(series[..i]))
    {
      SeriesSnoc(series, i);
      PutSeries(buf, series[i]);
    }
    assert series[..|series|] == series;
    out := buf.b;
  }

  lemma NoBytes()
    ensures AllSeriesBytes([]) == AllStoneBytes([]) == LabelsBytes([]) == []
  {
  }

  method PutSeries(buf: Encbuf, s: RefSeries)
    requires s.ref < MODULUS && Storable(s.lset)
    modifies buf
    ensures buf.b == old(buf.b) + SeriesBytes(s)
  {
    hide BigEndian, Uvarint, LabelsBytes, Storable;
    StorableLength(s.lset);
    buf.PutBE64(s.ref);
    buf.PutUvarint(|s.lset|);
    PutLabels(buf, s.lset);
  }

  method PutLabels(buf: Encbuf, ls: Labels)
    requires Storable(ls)
    modifies buf
    ensures buf.b == old(buf.b) + LabelsBytes(ls)
  {
    hide StringBytes, IsBytes, LabelsBytes;
    NoBytes();
    for j := 0 to |ls|
      invariant Storable(ls[..j]) && buf.b == old(buf.b) + LabelsBytes(ls[..j])
    {
      LabelsSnoc(ls, j);
      buf.PutUvarintStr(ls[j].name);
      buf.PutUvarintStr(ls[j].value);
    }
    assert ls[..|ls|] == ls;
  }

  method EncodeSamples(samples: seq<RefSample>, b: Bytes) returns (out: Bytes)
    requires Encodable(SamplesRecord(samples))
    ensures out == b + Encode(SamplesRecord(samples))
  {
    hide BigEndian, ToWord, SampleBytes, AllSampleBytes;
    var buf := new Encbuf(b);
    buf.PutByte(SAMPLES);
    if |samples| == 0 {
      return buf.b;
    }
    var first := samples[0];
    NoSampleBytes(first);
    buf.PutBE64(first.ref);
    buf.PutBE64(ToWord(first.s.t));
    ghost var head := [SAMPLES] + (BigEndian(first.ref, 8) + BigEndian(ToWord(first.s.t), 8));
    for i := 0 to |samples|
      invariant fresh(buf) && buf.b == b + head + AllSampleBytes(first, samples[..i])
    {
      SamplesSnoc(first, samples, i);
      PutSample(buf, first, samples[i]);
    }
    assert samples[..|samples|] == samples;
    out := buf.b;
  }

  lemma NoSampleBytes(first: RefSample)
    requires first.ref < MODULUS
    ensures AllSampleBytes(first, []) == []
  {
  }

  method PutSample(buf: Encbuf, first: RefSample, s: RefSample)
    requires first.ref < MODULUS && s.ref < MODULUS && s.s.v < MODULUS
    modifies buf
    ensures buf.b == old(buf.b) + SampleBytes(first, s)
  {
    hide BigEndian, Uvarint, ZigZag, Sub, ToWord;
    buf.PutVarint(Sub(s.ref, first.ref));
    buf.PutVarint(Sub(ToWord(s.s.t), ToWord(first.s.t)));
    buf.PutBE64(s.s.v);
  }

  method EncodeStones(stones: seq<Stone>, b: Bytes) returns (out: Bytes)
    requires Encodable(StonesRecord(stones))
    ensures out == b + Encode(StonesRecord(stones))
  {
    hide StoneBytes, AllStoneBytes;
    var buf := new Encbuf(b);
    buf.PutByte(TOMBSTONES);
    NoBytes();
    for i := 0 to |stones|
      invariant fresh(buf) && buf.b == b + ([TOMBSTONES] + AllStoneBytes(stones[..i]))
    {
      StonesSnoc(stones, i);
      PutStone(buf, stones[i]);
    }
    assert stones[..|stones|] == stones;
    out := buf.b;
  }

  method PutStone(buf: Encbuf, st: Stone)
    requires st.ref < MODULUS
    modifies buf
    ensures buf.b == old(buf.b) + StoneBytes(st)
  {
    hide BigEndian, Uvarint, ZigZag, ToWord;
    buf.PutBE64(st.ref);
    buf.PutVarint(ToWord(st.itv.mint));
    buf.PutVarint(ToWord(st.itv.maxt));
  }

  /* Decoding */

  /** The outcome of taking one entry off a buffer that held b0. */
  ghost predicate Entry<T>(dec: Decbuf, e0: bool, p: Parsed<T>, v: T)
    reads dec
  {
    if e0 || p.Bad? then dec.e else !dec.e && dec.b == p.rest && v == p.value
  }

  method NextSeries(dec: Decbuf) returns (s: RefSeries)
    modifies dec
    ensures Entry(dec, old(dec.e), TakeSeries(old(dec.b)), s)
  {
    hide GetBE64, TakeUvarint64, TakeLabels, SortByName;
    var ref := dec.TakeBE64();
    var n := dec.TakeUvarint();
    var ls := NextLabels(dec, n);
    s := RefSeries(ref, SortByName(ls));
  }

  method NextLabels(dec: Decbuf, n: nat) returns (ls: Labels)
    modifies dec
    ensures Entry(dec, old(dec.e), TakeLabels(old(dec.b), n), ls)
  {
    hide TakeLabels;
    ls := [];
    ghost var e0, p0 := dec.e, TakeLabels(dec.b, n);
    OntoNothing(p0);
    for i := 0 to n
      invariant e0 ==> dec.e
      invariant !e0 ==> p0 == if dec.e then Bad else Onto(ls, TakeLabels(dec.b, n - i))
    {
      hide Onto, TakeLabel;
      LabelsUnfold(dec.b, n - i);
      var l := NextLabel(dec);
      OntoMore(ls, l, TakeLabels(dec.b, n - i - 1));
      OntoBad(ls + [l]);
      ls := ls + [l];
    }
    NoLabels(dec.b);
    assert ls + [] == ls;
  }

  method NextLabel(dec: Decbuf) returns (l: Label)
    modifies dec
    ensures Entry(dec, old(dec.e), TakeLabel(old(dec.b)), l)
  {
    hide TakeString;
    var name := dec.TakeUvarintStr();
    var value := dec.TakeUvarintStr();
    l := Label(name, value);
  }

  function TakeLabel(b: Bytes): Parsed<Label> {
    match TakeString(b)
    case Bad => Bad
    case Got(name, b1) => match TakeString(b1) case Bad => Bad case Got(value, b2) => Got(Label(name, value), b2)
  }

  lemma NoLabels(b: Bytes)
    ensures TakeLabels(b, 0) == Got([], b)
  {
  }

  lemma LabelsUnfold(b: Bytes, n: nat)
    requires n > 0
    ensures TakeLabels(b, n) == match TakeLabel(b)
                                case Bad => Bad
                                case Got(l, rest) => Onto([l], TakeLabels(rest, n - 1))
  {
    hide TakeString;
  }

  method NextSample(dec: Decbuf, baseRef: Word, baseTime: Word) returns (s: RefSample)
    modifies dec
    ensures Entry(dec, old(dec.e), TakeSample(baseRef, baseTime, old(dec.b)), s)
  {
    hide GetBE64, TakeVarint64, FromWord, Words.Add;
    var dref := dec.TakeVarint();
    var dtime := dec.TakeVarint();
    var v := dec.TakeBE64();
    s := RefSample(Words.Add(baseRef, dref), Sample(FromWord(Words.Add(baseTime, dtime)), v));
  }

  method NextStone(dec: Decbuf) returns (s: Stone)
    modifies dec
    ensures Entry(dec, old(dec.e), TakeStone(old(dec.b)), s)
  {
    hide GetBE64, TakeVarint64, FromWord;
    var ref := dec.TakeBE64();
    var mint := dec.TakeVarint();
    var maxt := dec.TakeVarint();
    s := Stone(ref, Interval(FromWord(mint), FromWord(maxt)));
  }

  lemma SeriesUnfold(b: Bytes)
    ensures TakeAllSeries(b) == if b == [] then Some([]) else
              match TakeSeries(b) case Bad => None case Got(s, rest) => Behind([s], TakeAllSeries(rest))
  {
    hide TakeSeries;
  }

  lemma SamplesUnfold(baseRef: Word, baseTime: Word, b: Bytes)
    ensures TakeAllSamples(baseRef, baseTime, b) == if b == [] then Some([]) else
              match TakeSample(baseRef, baseTime, b)
              case Bad => None
              case Got(s, rest) => Behind([s], TakeAllSamples(baseRef, baseTime, rest))
  {
    hide TakeSample;
  }

  lemma StonesUnfold(b: Bytes)
    ensures TakeAllStones(b) == if b == [] then Some([]) else
              match TakeStone(b) case Bad => None case Got(s, rest) => Behind([s], TakeAllStones(rest))
  {
    hide TakeStone;
  }

  method DecodeSeries(rec: Bytes) returns (r: Option<seq<RefSeries>>)
    ensures r == if rec == [] || rec[0] != SERIES then None else TakeAllSeries(rec[1..])
  {
    hide TakeAllSeries, TakeSeries;
    var dec := new Decbuf(rec);
    var typ := dec.TakeByte();
    if typ != SERIES {
      return None;
    }
    var series := [];
    BehindNothing(TakeAllSeries(dec.b));
    while |dec.b| > 0 && !dec.e
      invariant fresh(dec)
      invariant TakeAllSeries(rec[1..]) == if dec.e then None else Behind(series, TakeAllSeries(dec.b))
      decreases if dec.e then 0 else |dec.b| + 1
    {
      SeriesUnfold(dec.b);
      var s := NextSeries(dec);
      BehindMore(series, s, TakeAllSeries(dec.b));
      series := series + [s];
    }
    SeriesUnfold(dec.b);
    BehindAll(series);
    return if dec.e then None else Some(series);
  }

  method DecodeSamples(rec: Bytes) returns (r: Option<seq<RefSample>>)
    ensures rec == [] || rec[0] != SAMPLES ==> r == None
    ensures rec != [] && rec[0] == SAMPLES ==> Decode(rec) == if r.None? then None else Some(SamplesRecord(r.value))
  {
    hide TakeAllSamples, TakeSample, GetBE64, TakeAllSeries, TakeAllStones;
    var dec := new Decbuf(rec);
    var typ := dec.TakeByte();
    if typ != SAMPLES {
      return None;
    }
    if |dec.b| == 0 {
      return Some([]);
    }
    var baseRef := dec.TakeBE64();
    var baseTime := dec.TakeBE64();
    r := DecodeSamplesFrom(dec, baseRef, baseTime);
  }

  method DecodeSamplesFrom(dec: Decbuf, baseRef: Word, baseTime: Word) returns (r: Option<seq<RefSample>>)
    modifies dec
    ensures r == if old(dec.e) then None else TakeAllSamples(baseRef, baseTime, old(dec.b))
  {
    hide TakeAllSamples, TakeSample;
    var samples := [];
    BehindNothing(TakeAllSamples(baseRef, baseTime, dec.b));
    while |dec.b| > 0 && !dec.e
      invariant old(dec.e) ==> dec.e
      invariant !old(dec.e) ==>
                  (TakeAllSamples(baseRef, baseTime, old(dec.b)) ==
                   if dec.e then None else Behind(samples, TakeAllSamples(baseRef, baseTime, dec.b)))
      decreases if dec.e then 0 else |dec.b| + 1
    {
      SamplesUnfold(baseRef, baseTime, dec.b);
      var s := NextSample(dec, baseRef, baseTime);
      BehindMore(samples, s, TakeAllSamples(baseRef, baseTime, dec.b));
      samples := samples + [s];
    }
    SamplesUnfold(baseRef, baseTime, dec.b);
    BehindAll(samples);
    return if dec.e then None else Some(samples);
  }

  method DecodeStones(rec: Bytes) returns (r: Option<seq<Stone>>)
    ensures r == if rec == [] || rec[0] != TOMBSTONES then None else TakeAllStones(rec[1..])
  {
    hide TakeAllStones, TakeStone;
    var dec := new Decbuf(rec);
    var typ := dec.TakeByte();
    if typ != TOMBSTONES {
      return None;
    }
    var stones := [];
    BehindNothing(TakeAllStones(dec.b));
    while |dec.b| > 0 && !dec.e
      invariant fresh(dec)
      invariant TakeAllStones(rec[1..]) == if dec.e then None else Behind(stones, TakeAllStones(dec.b))
      decreases if dec.e then 0 else |dec.b| + 1
    {
      StonesUnfold(dec.b);
      var s := NextStone(dec);
      BehindMore(stones, s, TakeAllStones(dec.b));
      stones := stones + [s];
    }
    StonesUnfold(dec.b);
    BehindAll(stones);
    return if dec.e then None else Some(stones);
  }

  /** RecordDecoder.Type, and the decoder for that type. */
  method DecodeRecord(rec: Bytes) returns (r: Option<LogRecord>)
    ensures r == Decode(rec)
  {
    hide TakeAllSeries, TakeAllSamples, TakeAllStones;
    if |rec| < 1 {
      return None;
    } else if rec[0] == SERIES {
      var ss := DecodeSeries(rec);
      return if ss.None? then None else Some(SeriesRecord(ss.value));
    } else if rec[0] == SAMPLES {
      var xs := DecodeSamples(rec);
      return if xs.None? then None else Some(SamplesRecord(xs.value));
    } else if rec[0] == TOMBSTONES {
      var sts := DecodeStones(rec);
      return if sts.None? then None else Some(StonesRecord(sts.value));
    }
    return None;
  }
}
