/** Records of the log that have been cut off: one that ends inside an entry is refused as a
    whole, however many entries come before. */
module RecordLaws {
  import opened Options
  import opened Words
  import opened Varints
  import opened ByteBuffers
  import opened Samples
  import opened Labelling
  import opened Tombstones
  import opened Replay
  import opened RecordCodec
  import Seqs

  lemma {:induction false} UvarintLonger(b: Bytes, x: Word, i: nat, t: Bytes)
    requires GetUvarint(b, x, i).Got?
    ensures var p := GetUvarint(b, x, i); GetUvarint(b + t, x, i) == Got(p.value, p.rest + t)
    decreases |b|
  {
    hide Gather;
    assert (b + t)[0] == b[0] && (b + t)[1..] == b[1..] + t;
    if b[0] >= 128 {
      UvarintLonger(b[1..], Gather(x, b[0] % 128, i), i + 1, t);
    }
  }

  lemma Uvarint64Longer(b: Bytes, t: Bytes)
    requires TakeUvarint64(b).Got?
    ensures var p := TakeUvarint64(b); TakeUvarint64(b + t) == Got(p.value, p.rest + t)
    ensures var p := TakeVarint64(b); TakeVarint64(b + t) == Got(p.value, p.rest + t)
  {
    UvarintLonger(b, 0, 0, t);
    hide GetUvarint, UnZigZag;
  }

  lemma BE64Longer(b: Bytes, t: Bytes)
    requires GetBE64(b).Got?
    ensures var p := GetBE64(b); GetBE64(b + t) == Got(p.value, p.rest + t)
  {
    assert (b + t)[..8] == b[..8] && (b + t)[8..] == b[8..] + t;
    hide FromBigEndian;
  }

  lemma StringLonger(b: Bytes, t: Bytes)
    requires TakeString(b).Got?
    ensures var p := TakeString(b); TakeString(b + t) == Got(p.value, p.rest + t)
  {
    Uvarint64Longer(b, t);
    hide TakeUvarint64, ToString;
    var p := TakeUvarint64(b);
    assert (p.rest + t)[..p.value] == p.rest[..p.value] && (p.rest + t)[p.value..] == p.rest[p.value..] + t;
  }

  lemma {:induction false} LabelsLonger(b: Bytes, n: nat, t: Bytes)
    requires TakeLabels(b, n).Got?
    ensures var p := TakeLabels(b, n); TakeLabels(b + t, n) == Got(p.value, p.rest + t)
    decreases n
  {
    hide TakeString;
    if n > 0 {
      var p := TakeString(b);
      StringLonger(b, t);
      StringLonger(p.rest, t);
      LabelsLonger(TakeString(p.rest).rest, n - 1, t);
    }
  }

  lemma SeriesLonger(b: Bytes, t: Bytes)
    requires TakeSeries(b).Got?
    ensures var p := TakeSeries(b); TakeSeries(b + t) == Got(p.value, p.rest + t)
  {
    hide GetBE64, TakeUvarint64, TakeLabels, SortByName;
    BE64Longer(b, t);
    var b1 := GetBE64(b).rest;
    Uvarint64Longer(b1, t);
    LabelsLonger(TakeUvarint64(b1).rest, TakeUvarint64(b1).value, t);
  }

  lemma SampleLonger(baseRef: Word, baseTime: Word, b: Bytes, t: Bytes)
    requires TakeSample(baseRef, baseTime, b).Got?
    ensures var p := TakeSample(baseRef, baseTime, b); TakeSample(baseRef, baseTime, b + t) == Got(p.value, p.rest + t)
  {
    hide GetBE64, TakeUvarint64, UnZigZag, FromWord, Words.Add;
    Uvarint64Longer(b, t);
    var b1 := TakeVarint64(b).rest;
    Uvarint64Longer(b1, t);
    BE64Longer(TakeVarint64(b1).rest, t);
  }

  lemma StoneLonger(b: Bytes, t: Bytes)
    requires TakeStone(b).Got?
    ensures var p := TakeStone(b); TakeStone(b + t) == Got(p.value, p.rest + t)
  {
    hide GetBE64, TakeUvarint64, UnZigZag, FromWord;
    BE64Longer(b, t);
    var b1 := GetBE64(b).rest;
    Uvarint64Longer(b1, t);
    Uvarint64Longer(TakeVarint64(b1).rest, t);
  }

  /** Of an entry, no part but the whole can be read. */
  lemma CutEntry<T>(whole: Bytes, n: nat, part: Parsed<T>, all: Parsed<T>, v: T)
    requires n < |whole| && all == Got(v, [])
    requires part.Got? ==> all == Got(part.value, part.rest + whole[n..])
    ensures part == Bad
  {
    NotNothing(if part.Got? then part.rest else [], whole[n..]);
  }

  lemma NotNothing(a: Bytes, b: Bytes)
    requires b != []
    ensures a + b != []
  {
    assert |a + b| > 0;
  }

  lemma CutSeries(s: RefSeries, n: nat)
    requires s.ref < MODULUS && Storable(s.lset) && SortedByName(s.lset) && n < |SeriesBytes(s)|
    ensures TakeSeries(SeriesBytes(s)[..n]) == Bad
  {
    var whole := SeriesBytes(s);
    SeriesBack(s, []);
    hide SeriesBytes, TakeSeries, Storable, SortedByName;
    Seqs.Nothing(whole);
    Seqs.Parts(whole, n);
    if TakeSeries(whole[..n]).Got? {
      SeriesLonger(whole[..n], whole[n..]);
    }
    CutEntry(whole, n, TakeSeries(whole[..n]), TakeSeries(whole), s);
  }

  lemma CutSample(first: RefSample, s: RefSample, n: nat)
    requires first.ref < MODULUS && s.ref < MODULUS && s.s.v < MODULUS && n < |SampleBytes(first, s)|
    ensures TakeSample(first.ref, ToWord(first.s.t), SampleBytes(first, s)[..n]) == Bad
  {
    var whole, base := SampleBytes(first, s), ToWord(first.s.t);
    SampleBack(first, s, []);
    hide SampleBytes, TakeSample, ToWord;
    Seqs.Nothing(whole);
    Seqs.Parts(whole, n);
    if TakeSample(first.ref, base, whole[..n]).Got? {
      SampleLonger(first.ref, base, whole[..n], whole[n..]);
    }
    CutEntry(whole, n, TakeSample(first.ref, base, whole[..n]), TakeSample(first.ref, base, whole), s);
  }

  lemma CutStone(st: Stone, n: nat)
    requires st.ref < MODULUS && n < |StoneBytes(st)|
    ensures TakeStone(StoneBytes(st)[..n]) == Bad
  {
    var whole := StoneBytes(st);
    StoneBack(st, []);
    hide StoneBytes, TakeStone;
    Seqs.Nothing(whole);
    Seqs.Parts(whole, n);
    if TakeStone(whole[..n]).Got? {
      StoneLonger(whole[..n], whole[n..]);
    }
    CutEntry(whole, n, TakeStone(whole[..n]), TakeStone(whole), st);
  }

  ghost predicate SeriesFine(ss: seq<RefSeries>) {
    forall i :: 0 <= i < |ss| ==> ss[i].ref < MODULUS && Storable(ss[i].lset) && SortedByName(ss[i].lset)
  }

  ghost predicate SamplesFine(xs: seq<RefSample>) {
    forall i :: 0 <= i < |xs| ==> xs[i].ref < MODULUS && xs[i].s.v < MODULUS
  }

  ghost predicate StonesFine(sts: seq<Stone>) { forall i :: 0 <= i < |sts| ==> sts[i].ref < MODULUS }

  lemma {:induction false} SeriesThenBad(ss: seq<RefSeries>, bad: Bytes)
    requires SeriesFine(ss) && bad != [] && TakeSeries(bad) == Bad
    ensures TakeAllSeries(AllSeriesBytes(ss) + bad) == None
    decreases |ss|
  {
    hide SeriesBytes, TakeSeries, Storable, SortedByName;
    if ss == [] {
      Seqs.Nothing(bad);
    } else {
      SeriesBack(ss[0], AllSeriesBytes(ss[1..]) + bad);
      Seqs.Associate(SeriesBytes(ss[0]), AllSeriesBytes(ss[1..]), bad);
      SeriesThenBad(ss[1..], bad);
    }
  }

  lemma {:induction false} SamplesThenBad(first: RefSample, xs: seq<RefSample>, bad: Bytes)
    requires first.ref < MODULUS && SamplesFine(xs) && bad != []
    requires TakeSample(first.ref, ToWord(first.s.t), bad) == Bad
    ensures TakeAllSamples(first.ref, ToWord(first.s.t), AllSampleBytes(first, xs) + bad) == None
    decreases |xs|
  {
    hide SampleBytes, TakeSample, ToWord;
    if xs == [] {
      Seqs.Nothing(bad);
    } else {
      SampleBack(first, xs[0], AllSampleBytes(first, xs[1..]) + bad);
      Seqs.Associate(SampleBytes(first, xs[0]), AllSampleBytes(first, xs[1..]), bad);
      SamplesThenBad(first, xs[1..], bad);
    }
  }

  lemma {:induction false} StonesThenBad(sts: seq<Stone>, bad: Bytes)
    requires StonesFine(sts) && bad != [] && TakeStone(bad) == Bad
    ensures TakeAllStones(AllStoneBytes(sts) + bad) == None
    decreases |sts|
  {
    hide StoneBytes, TakeStone;
    if sts == [] {
      Seqs.Nothing(bad);
    } else {
      StoneBack(sts[0], AllStoneBytes(sts[1..]) + bad);
      Seqs.Associate(StoneBytes(sts[0]), AllStoneBytes(sts[1..]), bad);
      StonesThenBad(sts[1..], bad);
    }
  }

  /** A record that ends inside an entry does not decode, though all entries before are
      complete. */
  lemma CutRecordRefused(ss: seq<RefSeries>, s: RefSeries, n: nat)
    requires SeriesFine(ss) && s.ref < MODULUS && Storable(s.lset) && SortedByName(s.lset) && 0 < n < |SeriesBytes(s)|
    ensures Decode([SERIES] + (AllSeriesBytes(ss) + SeriesBytes(s)[..n])) == None
  {
    CutSeries(s, n);
    hide SeriesBytes, TakeSeries, TakeAllSeries, Storable, SortedByName;
    SeriesThenBad(ss, SeriesBytes(s)[..n]);
    Seqs.Cons(SERIES, AllSeriesBytes(ss) + SeriesBytes(s)[..n]);
  }

  lemma CutSamplesRefused(xs: seq<RefSample>, x: RefSample, n: nat)
    requires xs != [] && SamplesFine(xs) && x.ref < MODULUS && x.s.v < MODULUS && 0 < n < |SampleBytes(xs[0], x)|
    ensures Decode([SAMPLES] + (BigEndian(xs[0].ref, 8)
                                + (BigEndian(ToWord(xs[0].s.t), 8)
                                   + (AllSampleBytes(xs[0], xs) + SampleBytes(xs[0], x)[..n])))) == None
  {
    var first := xs[0];
    CutSample(first, x, n);
    hide BigEndian, SampleBytes, TakeSample, TakeAllSamples, ToWord, GetBE64;
    var bad := SampleBytes(first, x)[..n];
    SamplesThenBad(first, xs, bad);
    var tail := AllSampleBytes(first, xs) + bad;
    BE64Back(first.ref, BigEndian(ToWord(first.s.t), 8) + tail);
    BE64Back(ToWord(first.s.t), tail);
    Seqs.Cons(SAMPLES, BigEndian(first.ref, 8) + (BigEndian(ToWord(first.s.t), 8) + tail));
  }

  lemma CutStonesRefused(sts: seq<Stone>, st: Stone, n: nat)
    requires StonesFine(sts) && st.ref < MODULUS && 0 < n < |StoneBytes(st)|
    ensures Decode([TOMBSTONES] + (AllStoneBytes(sts) + StoneBytes(st)[..n])) == None
  {
    CutStone(st, n);
    hide StoneBytes, TakeStone, TakeAllStones;
    StonesThenBad(sts, StoneBytes(st)[..n]);
    Seqs.Cons(TOMBSTONES, AllStoneBytes(sts) + StoneBytes(st)[..n]);
  }

  /** A record of another type, or without any, does not decode. */
  lemma UnknownRefused(rec: Bytes)
    requires rec == [] || rec[0] == 0 || rec[0] > 3
    ensures Decode(rec) == None
  {
  }

  /** A number takes ten bytes at most, and the tenth adds a single bit: what would not fit
      into 64 bits is refused. */
  lemma {:induction false} UvarintFits(b: Bytes, x: Word, i: nat)
    requires GetUvarint(b, x, i).Got?
    ensures var n := |b| - |GetUvarint(b, x, i).rest|;
            && 1 <= n <= |b| && i + n <= 10 && (i + n == 10 ==> b[n - 1] <= 1)
            && b[n - 1] < 128 && (forall j :: 0 <= j < n - 1 ==> b[j] >= 128) && GetUvarint(b, x, i).rest == b[n..]
    decreases |b|
  {
    hide Gather;
    if b[0] >= 128 {
      UvarintFits(b[1..], Gather(x, b[0] % 128, i), i + 1);
    }
  }
}
