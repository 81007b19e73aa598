/** What is written to an index is what is read from it. */
module IndexRoundTrip {
  import opened Options
  import opened Words
  import opened ByteBuffers
  import opened Labelling
  import opened PostingsLists
  import opened IndexFormat
  import opened IndexTables
  import opened IndexSorting
  import opened IndexContents
  import opened IndexWriter
  import opened IndexReader

  /** The numbers in use come from a list that begins the readers' table. A single call
      of AddSymbols is enough for that. */
  ghost predicate Agreeing(k: Contents, ss: seq<string>) {
    k.symbols == NumbersOf(ss) && ss <= k.table && |k.table| <= LIMIT32
  }

  lemma AllResolve(k: Contents, ss: seq<string>, ls: Labels)
    requires Agreeing(k, ss) && Known(k.symbols, ls)
    ensures Resolves(k.symbols, k.table, ls)
  {
    hide NumbersOf;
    NumbersKnow(ss);
  }

  lemma AllOnTable(k: Contents, ss: seq<string>, vs: seq<string>)
    requires Agreeing(k, ss) && Listed(k.symbols, vs)
    ensures AllStand(k.symbols, k.table, vs)
  {
    hide NumbersOf;
    NumbersKnow(ss);
  }

  /** If AddSymbols is called twice, readers still look into the first table: a
      series then reads back with other labels. */
  lemma SecondTableMisleads()
    ensures var m, ls := NumbersOf(["b"]), [Label("b", "b")];
            Known(m, ls) && ReadSeries(["a", "b"], SeriesContent(m, ls, [])) != Some((ls, []))
  {
    hide SeriesContent, ReadSeries;
    var m, ls := NumbersOf(["b"]), [Label("b", "b")];
    assert NumbersOf([]) == map[];
    assert m == map["b" := 0];
    assert !Stands(m, ["a", "b"], ls[0].name);
    SeriesEntryBack(m, ["a", "b"], ls, []);
  }

  /** The ids on a list: strictly increasing, exactly the positions of its series, and
      in the order of the series' labels. */
  lemma ListOfSeries(crc: Checksum, b: Bytes, k: Contents, refs: seq<nat>)
    requires Laid(crc, b, k) && Having(k.at, refs)
    requires forall i, j :: 0 <= i < j < |refs| ==> refs[i] != refs[j]
    ensures var ids := SortNumbers(Positions(k.at, refs));
            Increasing(ids, 0) && forall x :: x in ids <==> exists i :: 0 <= i < |refs| && x == k.at[refs[i]]
    ensures k.at.Keys == k.rows.Keys
    ensures forall r, s :: r in refs && s in refs ==>
              (k.at[r] < k.at[s] <==> Compare(k.rows[r].labels, k.rows[s].labels) < 0)
  {
    hide Placed, SortNumbers, Compare, Increasing;
    var ns := Positions(k.at, refs);
    SortedNumbers(ns);
    SameElements(SortNumbers(ns), ns);
    forall r, s | r in refs && s in refs
      ensures k.at[r] < k.at[s] <==> Compare(k.rows[r].labels, k.rows[s].labels) < 0
    {
      LabelsOrder(k.rows[r].labels, k.rows[s].labels, []);
      LabelsOrder(k.rows[s].labels, k.rows[r].labels, []);
    }
  }

  lemma SameElements(s: seq<nat>, t: seq<nat>)
    requires Elements(s) == Elements(t)
    ensures forall x :: x in s <==> x in t
  {
    forall x ensures x in s <==> x in t {
      assert x in Elements(s) <==> x in Elements(t);
    }
  }

  /** Everything in a finished file reads back: every series by its position, every
      postings list and every label index by its keys. */
  lemma IndexReadsBack(crc: Checksum, b: Bytes, k: Contents, toc: TOC, ss: seq<string>)
    requires Complete(crc, b, k, toc) && |b| <= MAX_FILE && Short(k) && Agreeing(k, ss)
    ensures Open(crc, b) == Some(Kept(k))
    ensures forall ref :: ref in k.rows ==>
              && ref in k.at && k.at[ref] < MODULUS && Writable(k.symbols, k.rows[ref])
              && (|RowContent(k.symbols, k.rows[ref])| < 8 * LIMIT32
                  <==> SeriesFrom(crc, b, Kept(k), k.at[ref]) == Some(k.rows[ref]))
    ensures forall i :: 0 <= i < |k.postings| && LastOne(k.postings, i) && |PostingsContent(k.lists[i])| < LIMIT32 ==>
              && |k.postings[i].keys| == 2
              && PostingsFrom(crc, b, Kept(k), k.postings[i].keys[0], k.postings[i].keys[1]) == Some(k.lists[i])
    ensures forall i :: 0 <= i < |k.indexes| && LastOne(k.indexes, i) ==>
              && |k.indexes[i].keys| == 1 && Listed(k.symbols, k.values[i])
              && (|ValuesContent(k.symbols, k.values[i])| < LIMIT32 ==>
                    ValuesFrom(crc, b, Kept(k), k.indexes[i].keys[0]) == Some(k.values[i]))
  {
    hide Placed, Open, RowContent, SeriesFrom, PostingsFrom, ValuesFrom, PostingsContent, ValuesContent, Short, Frame,
         VarFrame, TableContent, SymbolsContent, TOCBytes, Header, RowsOrdered, Resolves, Agreeing, AllStand, Refs,
         Known, Listed, Strings, Numbers, Storing, Small;
    FileOpens(crc, b, k, toc);
    forall ref | ref in k.rows
      ensures ref in k.at && k.at[ref] < MODULUS && Writable(k.symbols, k.rows[ref])
              && (|RowContent(k.symbols, k.rows[ref])| < 8 * LIMIT32
                  <==> SeriesFrom(crc, b, Kept(k), k.at[ref]) == Some(k.rows[ref]))
    {
      SeriesFound(crc, b, k, toc, ref);
      AllResolve(k, ss, k.rows[ref].labels);
    }
    forall i | 0 <= i < |k.postings| && LastOne(k.postings, i) && |PostingsContent(k.lists[i])| < LIMIT32
      ensures |k.postings[i].keys| == 2
              && PostingsFrom(crc, b, Kept(k), k.postings[i].keys[0], k.postings[i].keys[1]) == Some(k.lists[i])
    {
      PostingsFound(crc, b, k, toc, i);
    }
    forall i | 0 <= i < |k.indexes| && LastOne(k.indexes, i)
      ensures |k.indexes[i].keys| == 1 && Listed(k.symbols, k.values[i])
              && (|ValuesContent(k.symbols, k.values[i])| < LIMIT32 ==>
                    ValuesFrom(crc, b, Kept(k), k.indexes[i].keys[0]) == Some(k.values[i]))
    {
      AllOnTable(k, ss, k.values[i]);
      if |ValuesContent(k.symbols, k.values[i])| < LIMIT32 {
        ValuesFound(crc, b, k, toc, i);
      }
    }
  }

  /** No later entry has the same keys. */
  ghost predicate LastOne(es: seq<Entry>, i: nat)
    requires i < |es|
  {
    forall j :: i < j < |es| ==> es[j].keys != es[i].keys
  }

  /** From a writer to a reader: a series comes back under its id. */
  method ReadSeriesBack(w: Writer, ghost ss: seq<string>, ref: nat) returns (row: Row)
    requires w.Valid() && w.stage == DONE && ref in w.seriesOffsets && Agreeing(w.Written(), ss)
    requires Strings(w.table) && AllStoring(w.labelIndexes) && AllStoring(w.postings) && Short(w.Written())
    requires ref in w.rows && Writable(w.symbols, w.rows[ref])
    requires |RowContent(w.symbols, w.rows[ref])| < 8 * LIMIT32
    ensures row == w.rows[ref]
  {
    hide Complete, Laid, UpTo, Open, RowContent, SeriesFrom, Short, Agreeing, Strings, AllStoring, Writable;
    IndexReadsBack(w.crc, w.b, w.Written(), w.toc, ss);
    var r := NewReader(w.crc, w.b);
    var ok, ls, cs := r.Series(w.seriesOffsets[ref]);
    row := Row(ls, cs);
  }

  /** And a postings list under its label pair. */
  method ReadPostingsBack(w: Writer, ghost ss: seq<string>, i: nat) returns (ids: seq<nat>)
    requires w.Valid() && w.stage == DONE && Agreeing(w.Written(), ss)
    requires Strings(w.table) && AllStoring(w.labelIndexes) && AllStoring(w.postings) && Short(w.Written())
    requires i < |w.postings| == |w.lists| && LastOne(w.postings, i) && |PostingsContent(w.lists[i])| < LIMIT32
    requires |w.postings[i].keys| == 2
    ensures ids == w.lists[i]
  {
    hide Complete, Laid, UpTo, Open, PostingsFrom, Short, Agreeing, Strings, AllStoring, PostingsContent, LastOne;
    IndexReadsBack(w.crc, w.b, w.Written(), w.toc, ss);
    var r := NewReader(w.crc, w.b);
    var ok;
    ok, ids := r.Postings(w.postings[i].keys[0], w.postings[i].keys[1]);
  }
}
