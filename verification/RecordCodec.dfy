/** The records of the write-ahead log (record.go): series, samples and deleted
    ranges, to bytes and back. */
module RecordCodec {
  import opened Options
  import opened Words
  import opened Varints
  import opened ByteBuffers
  import opened Samples
  import opened Labelling
  import opened Tombstones
  import opened Replay
  import Seqs

  const SERIES: Byte := 1
  const SAMPLES: Byte := 2
  const TOMBSTONES: Byte := 3

  datatype RefSeries = RefSeries(ref: nat, lset: Labels)

  /* Times as 64-bit words */

  function ToWord(t: int64): Word { (t as int) % MODULUS }

  function FromWord(w: Word): int64 { Signed(w) as int64 }

  lemma WordBack(t: int64)
    ensures FromWord(ToWord(t)) == t
  {
  }

  lemma SubBack(a: Word, b: Word)
    ensures Words.Add(b, Sub(a, b)) == a
  {
  }

  /* Label sets */

  /** sort.Sort by name. */
  function SortByName(ls: Labels): Labels {
    if ls == [] then [] else InsertByName(ls[0], SortByName(ls[1..]))
  }

  function InsertByName(l: Label, ls: Labels): Labels {
    if ls == [] || CompareStrings(l.name, ls[0].name) <= 0 then [l] + ls else [ls[0]] + InsertByName(l, ls[1..])
  }

  ghost predicate SortedByName(ls: Labels) {
    |ls| > 1 ==> CompareStrings(ls[0].name, ls[1].name) <= 0 && SortedByName(ls[1..])
  }

  lemma {:induction false} Inserted(l: Label, ls: Labels)
    requires SortedByName(ls)
    ensures SortedByName(InsertByName(l, ls)) && multiset(InsertByName(l, ls)) == multiset{l} + multiset(ls)
    ensures InsertByName(l, ls) != [] && (InsertByName(l, ls)[0] == l || (ls != [] && InsertByName(l, ls)[0] == ls[0]))
  {
    hide CompareStrings;
    if ls != [] {
      Seqs.Uncons(ls);
      assert multiset(ls) == multiset{ls[0]} + multiset(ls[1..]);
      if CompareStrings(l.name, ls[0].name) <= 0 {
        assert ([l] + ls)[1..] == ls;
      } else {
        StringsOrder(l.name, ls[0].name, "");
        assert SortedByName(ls[1..]);
        Inserted(l, ls[1..]);
        var t := InsertByName(l, ls[1..]);
        assert ([ls[0]] + t)[1..] == t;
        assert |ls| > 1 ==> ls[1..][0] == ls[1];
      }
    }
  }

  /** The labels of a record are put in order, and none is lost or made up. */
  lemma {:induction false} SortingSorts(ls: Labels)
    ensures SortedByName(SortByName(ls)) && multiset(SortByName(ls)) == multiset(ls)
  {
    if ls != [] {
      SortingSorts(ls[1..]);
      Inserted(ls[0], SortByName(ls[1..]));
      Seqs.Uncons(ls);
      assert multiset(ls) == multiset{ls[0]} + multiset(ls[1..]);
    }
  }

  lemma {:induction false} SortingSorted(ls: Labels)
    requires SortedByName(ls)
    ensures SortByName(ls) == ls
  {
    hide CompareStrings;
    if ls != [] {
      if |ls| > 1 {
        SortingSorted(ls[1..]);
      }
      assert ls == [ls[0]] + ls[1..];
    }
  }

  predicate Storable(ls: Labels) {
    |ls| < MODULUS && forall i :: 0 <= i < |ls| ==>
      IsBytes(ls[i].name) && |ls[i].name| < MODULUS && IsBytes(ls[i].value) && |ls[i].value| < MODULUS
  }

  function LabelsBytes(ls: Labels): Bytes
    requires Storable(ls)
  {
    if ls == [] then [] else StringBytes(ls[0].name) + StringBytes(ls[0].value) + LabelsBytes(ls[1..])
  }

  function TakeLabels(b: Bytes, n: nat): (p: Parsed<Labels>)
    ensures p.Got? ==> |p.rest| <= |b|
    decreases n
  {
    if n == 0 then Got([], b) else
    match TakeString(b)
    case Bad => Bad
    case Got(name, b1) =>
      match TakeString(b1)
      case Bad => Bad
      case Got(value, b2) =>
        match TakeLabels(b2, n - 1)
        case Bad => Bad
        case Got(ls, rest) => Got([Label(name, value)] + ls, rest)
  }

  lemma {:induction false} LabelsBack(ls: Labels, rest: Bytes)
    requires Storable(ls)
    ensures TakeLabels(LabelsBytes(ls) + rest, |ls|) == Got(ls, rest)
  {
    hide StringBytes, TakeString, IsBytes;
    if ls == [] {
      assert LabelsBytes(ls) + rest == rest;
    } else {
      var x, y, z := StringBytes(ls[0].name), StringBytes(ls[0].value), LabelsBytes(ls[1..]);
      assert x + y + z + rest == x + (y + (z + rest));
      StringBack(ls[0].name, y + (z + rest));
      StringBack(ls[0].value, z + rest);
      LabelsBack(ls[1..], rest);
      assert ls == [Label(ls[0].name, ls[0].value)] + ls[1..];
    }
  }

  /* Series records */

  function SeriesBytes(s: RefSeries): Bytes
    requires s.ref < MODULUS && Storable(s.lset)
  {
    BigEndian(s.ref, 8) + Uvarint(|s.lset|) + LabelsBytes(s.lset)
  }

  function TakeSeries(b: Bytes): (p: Parsed<RefSeries>)
    ensures p.Got? ==> |p.rest| < |b|
  {
    match GetBE64(b)
    case Bad => Bad
    case Got(ref, b1) =>
      match TakeUvarint64(b1)
      case Bad => Bad
      case Got(n, b2) =>
        match TakeLabels(b2, n)
        case Bad => Bad
        case Got(ls, rest) => Got(RefSeries(ref, SortByName(ls)), rest)
  }

  lemma SeriesBack(s: RefSeries, rest: Bytes)
    requires s.ref < MODULUS && Storable(s.lset) && SortedByName(s.lset)
    ensures TakeSeries(SeriesBytes(s) + rest) == Got(s, rest)
  {
    hide BigEndian, Uvarint, LabelsBytes, GetBE64, TakeUvarint64, TakeLabels, SortByName, SortedByName, Storable;
    var x, y, z := BigEndian(s.ref, 8), Uvarint(|s.lset|), LabelsBytes(s.lset);
    assert x + y + z + rest == x + (y + (z + rest));
    assert |s.lset| < MODULUS by { assert Storable(s.lset); StorableLength(s.lset); }
    BE64Back(s.ref, y + (z + rest));
    Uvarint64Back(|s.lset|, z + rest);
    LabelsBack(s.lset, rest);
    SortingSorted(s.lset);
  }

  lemma StorableLength(ls: Labels)
    requires Storable(ls)
    ensures |ls| < MODULUS
  {
  }

  /* Sample records: references and times relative to the first sample */

  function SampleBytes(first: RefSample, s: RefSample): Bytes
    requires first.ref < MODULUS && s.ref < MODULUS && s.s.v < MODULUS
  {
    Uvarint(ZigZag(Sub(s.ref, first.ref))) + Uvarint(ZigZag(Sub(ToWord(s.s.t), ToWord(first.s.t))))
    + BigEndian(s.s.v, 8)
  }

  function TakeSample(baseRef: Word, baseTime: Word, b: Bytes): (p: Parsed<RefSample>)
    ensures p.Got? ==> |p.rest| < |b|
  {
    match TakeVarint64(b)
    case Bad => Bad
    case Got(dref, b1) =>
      match TakeVarint64(b1)
      case Bad => Bad
      case Got(dtime, b2) =>
        match GetBE64(b2)
        case Bad => Bad
        case Got(v, rest) =>
          Got(RefSample(Words.Add(baseRef, dref), Sample(FromWord(Words.Add(baseTime, dtime)), v)), rest)
  }

  lemma SampleBack(first: RefSample, s: RefSample, rest: Bytes)
    requires first.ref < MODULUS && s.ref < MODULUS && s.s.v < MODULUS
    ensures TakeSample(first.ref, ToWord(first.s.t), SampleBytes(first, s) + rest) == Got(s, rest)
    ensures |SampleBytes(first, s)| > 0
  {
    hide BigEndian, Uvarint, ZigZag, GetBE64, TakeVarint64, ToWord, FromWord, Words.Add, Sub;
    var dref, dtime := Sub(s.ref, first.ref), Sub(ToWord(s.s.t), ToWord(first.s.t));
    var x, y, z := Uvarint(ZigZag(dref)), Uvarint(ZigZag(dtime)), BigEndian(s.s.v, 8);
    assert x + y + z + rest == x + (y + (z + rest));
    Varint64Back(dref, y + (z + rest));
    Varint64Back(dtime, z + rest);
    BE64Back(s.s.v, rest);
    SubBack(s.ref, first.ref);
    SubBack(ToWord(s.s.t), ToWord(first.s.t));
    WordBack(s.s.t);
  }

  /* Deleted ranges */

  function StoneBytes(st: Stone): Bytes
    requires st.ref < MODULUS
  {
    BigEndian(st.ref, 8) + Uvarint(ZigZag(ToWord(st.itv.mint))) + Uvarint(ZigZag(ToWord(st.itv.maxt)))
  }

  function TakeStone(b: Bytes): (p: Parsed<Stone>)
    ensures p.Got? ==> |p.rest| < |b|
  {
    match GetBE64(b)
    case Bad => Bad
    case Got(ref, b1) =>
      match TakeVarint64(b1)
      case Bad => Bad
      case Got(mint, b2) =>
        match TakeVarint64(b2)
        case Bad => Bad
        case Got(maxt, rest) => Got(Stone(ref, Interval(FromWord(mint), FromWord(maxt))), rest)
  }

  lemma StoneBack(st: Stone, rest: Bytes)
    requires st.ref < MODULUS
    ensures TakeStone(StoneBytes(st) + rest) == Got(st, rest) && |StoneBytes(st)| > 0
  {
    hide BigEndian, Uvarint, ZigZag, GetBE64, TakeVarint64, ToWord, FromWord;
    var x, y, z := BigEndian(st.ref, 8), Uvarint(ZigZag(ToWord(st.itv.mint))), Uvarint(ZigZag(ToWord(st.itv.maxt)));
    assert x + y + z + rest == x + (y + (z + rest));
    BE64Back(st.ref, y + (z + rest));
    Varint64Back(ToWord(st.itv.mint), z + rest);
    Varint64Back(ToWord(st.itv.maxt), rest);
    WordBack(st.itv.mint);
    WordBack(st.itv.maxt);
  }

  /* Whole records */

  function AllSeriesBytes(ss: seq<RefSeries>): Bytes
    requires forall i :: 0 <= i < |ss| ==> ss[i].ref < MODULUS && Storable(ss[i].lset)
  {
    if ss == [] then [] else SeriesBytes(ss[0]) + AllSeriesBytes(ss[1..])
  }

  function AllSampleBytes(first: RefSample, ss: seq<RefSample>): Bytes
    requires first.ref < MODULUS && forall i :: 0 <= i < |ss| ==> ss[i].ref < MODULUS && ss[i].s.v < MODULUS
  {
    if ss == [] then [] else SampleBytes(first, ss[0]) + AllSampleBytes(first, ss[1..])
  }

  function AllStoneBytes(sts: seq<Stone>): Bytes
    requires forall i :: 0 <= i < |sts| ==> sts[i].ref < MODULUS
  {
    if sts == [] then [] else StoneBytes(sts[0]) + AllStoneBytes(sts[1..])
  }

  /** Reading entries until nothing is left. */
  function TakeAllSeries(b: Bytes): Option<seq<RefSeries>>
    decreases |b|
  {
    if b == [] then Some([]) else
    match TakeSeries(b)
    case Bad => None
    case Got(s, rest) =>
      match TakeAllSeries(rest)
      case None => None
      case Some(ss) => Some([s] + ss)
  }

  function TakeAllSamples(baseRef: Word, baseTime: Word, b: Bytes): Option<seq<RefSample>>
    decreases |b|
  {
    if b == [] then Some([]) else
    match TakeSample(baseRef, baseTime, b)
    case Bad => None
    case Got(s, rest) =>
      match TakeAllSamples(baseRef, baseTime, rest)
      case None => None
      case Some(ss) => Some([s] + ss)
  }

  function TakeAllStones(b: Bytes): Option<seq<Stone>>
    decreases |b|
  {
    if b == [] then Some([]) else
    match TakeStone(b)
    case Bad => None
    case Got(s, rest) =>
      match TakeAllStones(rest)
      case None => None
      case Some(ss) => Some([s] + ss)
  }

  datatype LogRecord =
    | SeriesRecord(series: seq<RefSeries>)
    | SamplesRecord(samples: seq<RefSample>)
    | StonesRecord(stones: seq<Stone>)

  /** What the encoder is given: 64-bit references and values, and stored label
      sets in order. */
  ghost predicate Encodable(r: LogRecord) {
    match r
    case SeriesRecord(ss) =>
      forall i :: 0 <= i < |ss| ==> ss[i].ref < MODULUS && Storable(ss[i].lset) && SortedByName(ss[i].lset)
    case SamplesRecord(xs) => forall i :: 0 <= i < |xs| ==> xs[i].ref < MODULUS && xs[i].s.v < MODULUS
    case StonesRecord(sts) => forall i :: 0 <= i < |sts| ==> sts[i].ref < MODULUS
  }

  function Encode(r: LogRecord): (b: Bytes)
    requires Encodable(r)
    ensures |b| > 0
  {
    match r
    case SeriesRecord(ss) => [SERIES] + AllSeriesBytes(ss)
    case SamplesRecord(xs) =>
      [SAMPLES] + if xs == [] then []
                  else BigEndian(xs[0].ref, 8) + BigEndian(ToWord(xs[0].s.t), 8) + AllSampleBytes(xs[0], xs)
    case StonesRecord(sts) => [TOMBSTONES] + AllStoneBytes(sts)
  }

  /** None is an error: an unknown type, or data that does not parse. */
  function Decode(rec: Bytes): Option<LogRecord> {
    if rec == [] then None
    else if rec[0] == SERIES then
      match TakeAllSeries(rec[1..]) case None => None case Some(ss) => Some(SeriesRecord(ss))
    else if rec[0] == SAMPLES then
      if rec[1..] == [] then Some(SamplesRecord([])) else
      match GetBE64(rec[1..])
      case Bad => None
      case Got(baseRef, b1) =>
        (match GetBE64(b1)
         case Bad => None
         case Got(baseTime, b2) =>
           match TakeAllSamples(baseRef, baseTime, b2) case None => None case Some(xs) => Some(SamplesRecord(xs)))
    else if rec[0] == TOMBSTONES then
      match TakeAllStones(rec[1..]) case None => None case Some(sts) => Some(StonesRecord(sts))
    else None
  }

  lemma {:induction false} AllSeriesBack(ss: seq<RefSeries>)
    requires Encodable(SeriesRecord(ss))
    ensures TakeAllSeries(AllSeriesBytes(ss)) == Some(ss)
  {
    hide TakeSeries, SeriesBytes, Storable, SortedByName;
    if ss != [] {
      SeriesBack(ss[0], AllSeriesBytes(ss[1..]));
      AllSeriesBack(ss[1..]);
      assert ss == [ss[0]] + ss[1..];
    }
  }

  lemma {:induction false} AllSamplesBack(first: RefSample, xs: seq<RefSample>)
    requires first.ref < MODULUS && Encodable(SamplesRecord(xs))
    ensures TakeAllSamples(first.ref, ToWord(first.s.t), AllSampleBytes(first, xs)) == Some(xs)
  {
    hide TakeSample, SampleBytes, ToWord;
    if xs != [] {
      SampleBack(first, xs[0], AllSampleBytes(first, xs[1..]));
      AllSamplesBack(first, xs[1..]);
      assert xs == [xs[0]] + xs[1..];
    }
  }

  lemma {:induction false} AllStonesBack(sts: seq<Stone>)
    requires Encodable(StonesRecord(sts))
    ensures TakeAllStones(AllStoneBytes(sts)) == Some(sts)
  {
    hide TakeStone, StoneBytes;
    if sts != [] {
      StoneBack(sts[0], AllStoneBytes(sts[1..]));
      AllStonesBack(sts[1..]);
      assert sts == [sts[0]] + sts[1..];
    }
  }

  /** Decoding inverts encoding, for all three kinds of records. */
  lemma RecordBack(r: LogRecord)
    requires Encodable(r)
    ensures Decode(Encode(r)) == Some(r)
  {
    hide AllSeriesBytes, AllSampleBytes, AllStoneBytes, TakeAllSeries, TakeAllSamples, TakeAllStones;
    match r
    case SeriesRecord(ss) =>
      AllSeriesBack(ss);
      assert Encode(r)[1..] == AllSeriesBytes(ss);
    case SamplesRecord(xs) =>
      if xs != [] {
        var x, y, z := BigEndian(xs[0].ref, 8), BigEndian(ToWord(xs[0].s.t), 8), AllSampleBytes(xs[0], xs);
        assert Encode(r)[1..] == x + (y + z);
        BE64Back(xs[0].ref, y + z);
        BE64Back(ToWord(xs[0].s.t), z);
        AllSamplesBack(xs[0], xs);
      }
    case StonesRecord(sts) =>
      AllStonesBack(sts);
      assert Encode(r)[1..] == AllStoneBytes(sts);
  }
}
