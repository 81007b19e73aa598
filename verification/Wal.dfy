/** The write-ahead log of wal/wal.go: a page buffer in front of a sequence of
    segment files, and the reader over them. */
module Wal {
  import opened Words
  import opened WalFormat
  import Seqs

  class Page {
    var alloc: nat    // bytes in use
    var flushed: nat  // bytes already written to the segment
    const buf: array<Byte>

    constructor ()
      ensures Valid() && alloc == 0 && flushed == 0 && fresh(buf)
    {
      alloc, flushed := 0, 0;
      buf := new Byte[PAGE_SIZE](_ => 0);
    }

    ghost predicate Valid()
      reads this, buf
    {
      && buf.Length == PAGE_SIZE
      && flushed <= alloc <= PAGE_SIZE
      && forall k :: alloc <= k < PAGE_SIZE ==> buf[k] == 0
    }

    /** The bytes that are in the page but not yet in the segment. */
    ghost function Pending(): Bytes
      requires Valid()
      reads this, buf
    {
      buf[flushed..alloc]
    }

    predicate Full()
      reads this
    {
      PAGE_SIZE < alloc + HEADER_SIZE
    }

    /** Copies a fragment behind what the page already holds. */
    method Put(f: Bytes)
      requires Valid() && alloc + |f| <= PAGE_SIZE
      modifies this, buf
      ensures Valid() && alloc == old(alloc) + |f| && flushed == old(flushed)
      ensures Pending() == old(Pending()) + f
    {
      forall k | 0 <= k < |f| {
        buf[alloc + k] := f[k];
      }
      alloc := alloc + |f|;
      assert buf[flushed..alloc] == old(buf[flushed..alloc]) + f;
    }

    method Clear()
      requires Valid()
      modifies this, buf
      ensures Valid() && alloc == 0 && flushed == 0
    {
      forall k | 0 <= k < buf.Length {
        buf[k] := 0;
      }
      alloc, flushed := 0, 0;
    }
  }

  /** How many bytes of a record fit into the rest of the current page and k
      further ones, k being negative when the segment is full already. */
  function Left(offset: nat, k: int): int {
    PAGE_SIZE - offset - HEADER_SIZE + (PAGE_SIZE - HEADER_SIZE) * k
  }

  /** That count decides exactly whether the fragments fit into these pages. */
  lemma {:induction false} LeftExact(crc: Checksum, rec: Bytes, o: nat, i: nat, k: nat)
    requires o + HEADER_SIZE <= PAGE_SIZE && (i == 0 || |rec| > 0)
    ensures |RecordBytes(crc, rec, o, i)| <= PAGE_SIZE - o + PAGE_SIZE * k <==> |rec| <= Left(o, k)
    decreases k
  {
    hide RecordBytes;
    RecordParts(crc, rec, o, i);
    var l := PAGE_SIZE - o - HEADER_SIZE;
    if |rec| > l {
      if k > 0 { LeftExact(crc, rec[l..], 0, i + 1, k - 1); } else { RecordParts(crc, rec[l..], 0, i + 1); }
    }
  }

  /** When a record is put into the active segment: exactly when the segment stays
      within its size, and also when the record is empty and the segment is full;
      then the record's header exceeds the size. */
  lemma FitsExactly(crc: Checksum, rec: Bytes, size: nat, donePages: nat, alloc: nat)
    requires size % PAGE_SIZE == 0 && alloc + HEADER_SIZE <= PAGE_SIZE
    ensures var length, w := donePages * PAGE_SIZE + alloc, RecordBytes(crc, rec, alloc, 0);
            && (|rec| <= Left(alloc, size / PAGE_SIZE - donePages - 1) <==>
                length + |w| <= size || (rec == [] && length == size))
            && (rec == [] && length == size ==> length + |w| > size)
  {
    hide RecordBytes;
    var k := size / PAGE_SIZE - donePages - 1;
    assert size == PAGE_SIZE * (size / PAGE_SIZE);
    RecordParts(crc, rec, alloc, 0);
    if k >= 0 {
      LeftExact(crc, rec, alloc, 0, k);
    }
  }

  lemma PageMod(active: nat, end: nat)
    requires end <= PAGE_SIZE && (active - end) % PAGE_SIZE == 0
    ensures (active + |Padding(end)|) % PAGE_SIZE == Settle(end)
  {
  }

  lemma IsZeros(s: Bytes)
    requires forall k :: 0 <= k < |s| ==> s[k] == 0
    ensures s == Zeros(|s|)
  {
  }

  /** The zeros that complete a torn last page of a segment of n bytes. */
  function TornPad(n: nat): (z: Bytes)
    ensures (n + |z|) % PAGE_SIZE == 0
  {
    if n % PAGE_SIZE == 0 then [] else Zeros(PAGE_SIZE - n % PAGE_SIZE)
  }

  /** The offsets in a page at which fragments start. */
  predicate Settled(alloc: nat) {
    alloc == 0 || HEADER_SIZE <= alloc <= PAGE_SIZE - HEADER_SIZE
  }

  /** Each segment holds its records; all but the last are whole pages. */
  ghost predicate HoldsAll(crc: Checksum, segs: seq<Bytes>, logged: seq<seq<Bytes>>) {
    && |segs| == |logged|
    && (forall j :: 0 <= j < |segs| ==> Holds(crc, segs[j], logged[j]))
    && (forall j :: 0 <= j < |segs| - 1 ==> |segs[j]| % PAGE_SIZE == 0)
  }

  /** Files only ever grow at the end of the last one. */
  ghost predicate Grown(a: seq<Bytes>, b: seq<Bytes>) {
    && 0 < |a| <= |b| && a[|a| - 1] <= b[|a| - 1]
    && forall j :: 0 <= j < |a| - 1 ==> b[j] == a[j]
  }

  lemma GrownSelf(a: seq<Bytes>)
    requires |a| > 0
    ensures Grown(a, a)
  {
  }

  lemma GrownTwice(a: seq<Bytes>, b: seq<Bytes>, c: seq<Bytes>)
    requires Grown(a, b) && Grown(b, c)
    ensures Grown(a, c)
  {
  }

  lemma HoldsAllPadded(crc: Checksum, segs: seq<Bytes>, logged: seq<seq<Bytes>>, alloc: nat)
    requires HoldsAll(crc, segs, logged) && |segs| > 0 && Settled(alloc)
    requires |segs[|segs| - 1]| % PAGE_SIZE == alloc
    ensures HoldsAll(crc, Closed(segs, alloc) + [[]], logged + [[]])
  {
    hide Holds, Zeros;
    var last := segs[|segs| - 1];
    HoldsNothing(crc);
    if alloc > 0 { HoldsPadded(crc, last, logged[|segs| - 1], PAGE_SIZE - alloc); }
  }

  lemma WithoutLast(crc: Checksum, segs: seq<Bytes>, logged: seq<seq<Bytes>>)
    requires HoldsAll(crc, segs + [[]], logged + [[]]) && |segs| == |logged|
    ensures HoldsAll(crc, segs, logged) && forall j :: 0 <= j < |segs| ==> |segs[j]| % PAGE_SIZE == 0
  {
    hide Holds;
    var s, l := segs + [[]], logged + [[]];
    assert forall j :: 0 <= j < |segs| ==> s[j] == segs[j] && l[j] == logged[j];
  }

  /** The segments once the last page of the last one is filled up with zeros. */
  ghost function Closed(segs: seq<Bytes>, alloc: nat): seq<Bytes>
    requires |segs| > 0 && alloc < PAGE_SIZE
  {
    if alloc == 0 then segs else AddToLast(segs, Zeros(PAGE_SIZE - alloc))
  }

  function AddToLast(segs: seq<Bytes>, b: Bytes): (r: seq<Bytes>)
    requires |segs| > 0
    ensures |r| == |segs| && r[|r| - 1] == segs[|r| - 1] + b
  {
    segs[|segs| - 1 := segs[|segs| - 1] + b]
  }

  lemma AddMore(segs: seq<Bytes>, a: Bytes, b: Bytes)
    requires |segs| > 0
    ensures AddToLast(AddToLast(segs, a), b) == AddToLast(segs, a + b)
    ensures AddToLast(segs, []) == segs
  {
    var last := segs[|segs| - 1];
    assert (last + a) + b == last + (a + b);
    assert last + [] == last;
  }

  lemma AddToEmpty(segs: seq<Bytes>, b: Bytes)
    ensures AddToLast(segs + [[]], b) == segs + [b]
  {
    assert [] + b == b;
  }

  lemma HoldsAllRecord(crc: Checksum, segs: seq<Bytes>, logged: seq<seq<Bytes>>, rec: Bytes, o: nat)
    requires HoldsAll(crc, segs, logged) && |segs| > 0
    requires |segs[|segs| - 1]| % PAGE_SIZE == o && o + HEADER_SIZE <= PAGE_SIZE
    ensures HoldsAll(crc, AddToLast(segs, RecordBytes(crc, rec, o, 0)),
                     AddRecord(logged, rec))
  {
    hide Holds, RecordBytes;
    HoldsRecord(crc, segs[|segs| - 1], logged[|logged| - 1], rec, o);
  }

  class WAL {
    const crc: Checksum
    const segmentSize: nat
    var files: seq<Bytes>  // the segments, the last one being active
    var donePages: int     // pages written to the active segment
    const page: Page

    ghost var logged: seq<seq<Bytes>>  // the records of each segment

    /** The segments as they will be once the page has been flushed. */
    ghost function Contents(): (c: seq<Bytes>)
      requires |files| > 0 && page.Valid()
      ensures |c| == |files| && |c[|c| - 1]| == Active()
      ensures page.Pending() == [] ==> c == files
      reads this, page, page.buf
    {
      AddMore(files, [], []);
      AddToLast(files, page.Pending())
    }

    /** The size that the active segment will then have. */
    ghost function Active(): nat
      requires |files| > 0 && page.Valid()
      reads this, page, page.buf
    {
      |files[|files| - 1]| + page.alloc - page.flushed
    }

    ghost predicate Sound()
      reads this, page, page.buf
      ensures Sound() ==> |files| > 0 && page.Valid() && page.alloc + HEADER_SIZE <= PAGE_SIZE
    {
      && |files| > 0 && page.Valid() && Settled(page.alloc)
      && Active() % PAGE_SIZE == page.alloc
    }

    /** The segments once the rest of a record has been written as well. */
    ghost function Projected(rec: Bytes, i: nat): seq<Bytes>
      requires Sound()
      reads this, page, page.buf
    {
      AddToLast(Contents(), RecordBytes(crc, rec, page.alloc, i))
    }

    ghost predicate Valid()
      reads this, page, page.buf
      ensures Valid() ==> |files| > 0 && page.Valid()
    {
      Sound() && HoldsAll(crc, Contents(), logged)
    }

    /** The page counter agrees with the active segment, as it does unless the
        log has been repaired since. */
    ghost predicate Counted()
      requires |files| > 0
      reads this, page
    {
      |files[|files| - 1]| == donePages * PAGE_SIZE + page.flushed
    }

    /** The active segment has room for the record. */
    ghost predicate Fits(rec: Bytes)
      reads this, page
    {
      |rec| <= Left(page.alloc, segmentSize / PAGE_SIZE - donePages - 1)
    }

    constructor (crc: Checksum, segmentSize: nat, disk: seq<Bytes>)
      ensures this.crc == crc && this.segmentSize == segmentSize && files == disk && logged == []
      ensures fresh(page) && fresh(page.buf) && page.Valid() && page.alloc == 0
      ensures donePages == if |disk| == 0 then 0 else |disk[|disk| - 1]| / PAGE_SIZE
    {
      this.crc, this.segmentSize, files := crc, segmentSize, disk;
      donePages := if |disk| == 0 then 0 else |disk[|disk| - 1]| / PAGE_SIZE;
      page := new Page();
      logged := [];
    }

    /** Opens the log in a directory that holds the given segments. A torn last
        page is filled up with zeros; nothing is read. */
    static method NewSize(crc: Checksum, segmentSize: nat, disk: seq<Bytes>) returns (w: WAL?)
      ensures w == null <==> segmentSize % PAGE_SIZE != 0
      ensures w != null ==>
        && fresh(w) && fresh(w.page) && fresh(w.page.buf)
        && w.crc == crc && w.segmentSize == segmentSize && w.Sound() && w.Counted() && w.page.alloc == 0
        && (|disk| == 0 ==> w.Valid() && w.files == [[]] && w.logged == [[]])
        && (|disk| > 0 ==> w.files == AddToLast(disk, TornPad(|disk[|disk| - 1]|)))
    {
      hide Holds, TornPad;
      if segmentSize % PAGE_SIZE != 0 {
        return null;
      }
      if |disk| == 0 {
        w := new WAL(crc, segmentSize, [[]]);
        w.logged := [[]];
        HoldsNothing(crc);
        assert w.Contents() == [[]];
      } else {
        w := new WAL(crc, segmentSize, AddToLast(disk, TornPad(|disk[|disk| - 1]|)));
      }
    }

    /** Writes the new contents of the page to the segment. A page that is full,
        or that is to be cleared, is written to its end and a new one started. */
    method FlushPage(clear0: bool)
      requires |files| > 0 && page.Valid()
      modifies this`files, this`donePages, page, page.buf
      ensures Grown(old(files), files) && |files| == |old(files)|
      ensures page.Valid() && page.Pending() == []
      ensures old(Counted()) ==> Counted()
      ensures clear0 || old(page.Full()) ==>
                Contents() == AddToLast(old(Contents()), Zeros(PAGE_SIZE - old(page.alloc))) && page.alloc == 0
      ensures !clear0 && !old(page.Full()) ==> Contents() == old(Contents()) && page.alloc == old(page.alloc)
    {
      var last := |files| - 1;
      var clear := clear0 || page.Full();
      ghost var alloc := page.alloc;
      if clear {
        page.alloc := PAGE_SIZE;
      }
      files := files[last := files[last] + page.buf[page.flushed..page.alloc]];
      page.flushed := page.alloc;
      IsZeros(page.buf[alloc..PAGE_SIZE]);
      Seqs.Join(page.buf[..], old(page.flushed), alloc, PAGE_SIZE);
      assert page.buf[old(page.flushed)..PAGE_SIZE]
          == page.buf[old(page.flushed)..alloc] + page.buf[alloc..PAGE_SIZE];
      assert clear ==> files[last] == old(Contents())[last] + Zeros(PAGE_SIZE - alloc);
      if clear {
        page.Clear();
        donePages := donePages + 1;
      }
      assert page.Pending() == [] && files[last] + [] == files[last];
      assert AddToLast(files, []) == files;
    }

    /** Closes the active segment on a page boundary and starts a new one. */
    method NextSegment()
      requires Valid()
      modifies this, page, page.buf
      ensures Valid() && page.alloc == 0 && Counted()
      ensures Contents() == Closed(old(Contents()), old(page.alloc)) + [[]]
      ensures logged == old(logged) + [[]]
      ensures Grown(old(files), files) && |files| == |old(files)| + 1
    {
      hide Holds, Zeros;
      HoldsAllPadded(crc, Contents(), logged, page.alloc);
      if page.alloc > 0 {
        FlushPage(true);
      }
      ghost var closed := Contents();
      assert page.Pending() == [] && files[|files| - 1] + [] == files[|files| - 1];
      assert closed == files;
      files := files + [[]];
      donePages := 0;
      logged := logged + [[]];
      assert Contents() == closed + [[]];
    }

    /** Writes the last page to its end. */
    method Close()
      requires Valid()
      modifies this`files, this`donePages, page, page.buf
      ensures Valid() && logged == old(logged) && files == Contents() && page.Pending() == []
      ensures Grown(old(files), files)
      ensures forall j :: 0 <= j < |files| ==> |files[j]| % PAGE_SIZE == 0
    {
      hide Holds, Zeros;
      HoldsAllPadded(crc, Contents(), logged, page.alloc);
      GrownSelf(files);
      if page.alloc > 0 {
        FlushPage(true);
      }
      ghost var closed := Contents();
      assert page.Pending() == [] && files[|files| - 1] + [] == files[|files| - 1];
      WithoutLast(crc, closed, logged);
    }

    /** Adds bytes to the page, and so to what the active segment will hold. */
    method Stage(f: Bytes)
      requires |files| > 0 && page.Valid() && page.alloc + |f| <= PAGE_SIZE
      modifies page, page.buf
      ensures page.Valid() && page.alloc == old(page.alloc) + |f| && page.flushed == old(page.flushed)
      ensures Contents() == AddToLast(old(Contents()), f)
    {
      hide AddToLast;
      AddMore(files, page.Pending(), f);
      page.Put(f);
    }

    /** Puts one fragment into the page, which is flushed unless the fragment is
        a whole record that more records of the batch may follow. */
    method PutFragment(typ: Byte, part: Bytes, final: bool)
      requires Sound() && |part| <= PAGE_SIZE - page.alloc - HEADER_SIZE
      modifies this`files, this`donePages, page, page.buf
      ensures Sound() && Grown(old(files), files) && |files| == |old(files)|
      ensures page.alloc == Settle(old(page.alloc) + HEADER_SIZE + |part|)
      ensures Contents() == AddToLast(old(Contents()),
                                      Fragment(crc, typ, part) + Padding(old(page.alloc) + HEADER_SIZE + |part|))
      ensures final || typ != FULL ==> page.Pending() == []
      ensures old(Counted()) ==> Counted()
    {
      hide Fragment, Zeros, AddToLast, Contents, Page.Pending, Page.Valid, Padding;
      ghost var end := page.alloc + HEADER_SIZE + |part|;
      AddMore(Contents(), Fragment(crc, typ, part), Padding(end));
      PageMod(Active() + HEADER_SIZE + |part|, end);
      Stage(Fragment(crc, typ, part));
      FlushWhen(final || typ != FULL);
    }

    /** Flushes the page if that is due or the page is full. */
    method FlushWhen(due: bool)
      requires |files| > 0 && page.Valid()
      modifies this`files, this`donePages, page, page.buf
      ensures page.Valid() && page.alloc == Settle(old(page.alloc))
      ensures Grown(old(files), files) && |files| == |old(files)|
      ensures Contents() == AddToLast(old(Contents()), Padding(old(page.alloc)))
      ensures due ==> page.Pending() == []
      ensures old(Counted()) ==> Counted()
    {
      hide Zeros, AddToLast, Contents, Page.Pending, Page.Valid;
      AddMore(Contents(), [], []);
      GrownSelf(files);
      if due || page.Full() {
        FlushPage(false);
      }
    }

    /** Writes the next fragment of a record and returns what is left of it. */
    method PutNext(rec: Bytes, i: nat, final: bool) returns (rest: Bytes)
      requires Sound() && (i == 0 || (|rec| > 0 && page.alloc == 0))
      modifies this`files, this`donePages, page, page.buf
      ensures Sound() && Grown(old(files), files) && |files| == |old(files)|
      ensures Projected(rest, i + 1) == old(Projected(rec, i))
      ensures |rest| < |rec| || |rest| == 0 || (i == 0 && rest == rec)
      ensures |rest| > 0 ==> page.alloc == 0
      ensures final ==> page.Pending() == []
      ensures old(Counted()) ==> Counted()
    {
      hide RecordBytes, Fragment, Padding, AddToLast, Contents, Page.Pending, Page.Valid, Active, Counted, Grown;
      RecordStep(crc, rec, page.alloc, i);
      var l := Min(|rec|, PAGE_SIZE - page.alloc - HEADER_SIZE);
      var typ := FragmentType(i == 0, l == |rec|);
      rest := rec[l..];
      assert l == 0 ==> rest == rec;
      ghost var end := page.alloc + HEADER_SIZE + l;
      AddMore(Contents(), Fragment(crc, typ, rec[..l]) + Padding(end), RecordBytes(crc, rest, Settle(end), i + 1));
      PutFragment(typ, rec[..l], final);
    }

    /** Writes the fragments of a record, page after page. */
    method PutRecord(rec0: Bytes, final: bool)
      requires Sound()
      modifies this`files, this`donePages, page, page.buf
      ensures Sound() && Grown(old(files), files) && |files| == |old(files)|
      ensures Contents() == AddToLast(old(Contents()), RecordBytes(crc, rec0, old(page.alloc), 0))
      ensures final ==> page.Pending() == []
      ensures old(Counted()) ==> Counted()
    {
      hide RecordBytes, AddToLast, Contents, Page.Pending, Page.Valid, Active, Sound, Counted, Grown;
      GrownSelf(files);
      ghost var all := Projected(rec0, 0);
      var rec, i := rec0, 0;
      // Always one pass, so that empty records are written too.
      while i == 0 || |rec| > 0
        invariant Sound() && 0 <= i && |files| == |old(files)| && Grown(old(files), files)
        invariant i > 0 && |rec| > 0 ==> page.alloc == 0
        invariant Projected(rec, i) == all
        invariant old(Counted()) ==> Counted()
        invariant i > 0 && final ==> page.Pending() == []
        decreases |rec|, if i == 0 then 1 else 0
      {
        ghost var before := files;
        rec := PutNext(rec, i, final);
        GrownTwice(old(files), before, files);
        i := i + 1;
      }
      NothingLeft(crc, page.alloc, i);
      AddMore(Contents(), [], []);
    }

    /** Writes one record, in the active segment if its fragments fit there and at
        the start of a new segment if not. */
    method LogRecord(rec: Bytes, final: bool)
      requires Valid()
      modifies this, page, page.buf
      ensures Valid() && Grown(old(files), files)
      ensures final ==> page.Pending() == []
      ensures old(Counted()) ==> Counted()
      ensures old(Fits(rec)) ==>
        && logged == AddRecord(old(logged), rec)
        && Contents() == AddToLast(old(Contents()), RecordBytes(crc, rec, old(page.alloc), 0))
      ensures !old(Fits(rec)) ==>
        && logged == old(logged) + [[rec]]
        && Contents() == Closed(old(Contents()), old(page.alloc)) + [RecordBytes(crc, rec, 0, 0)]
    {
      hide Holds, RecordBytes, Closed, AddToLast, Page.Pending, Page.Valid, Grown, Counted;
      var left := PAGE_SIZE - page.alloc - HEADER_SIZE;                                  // Active page.
      left := left + (PAGE_SIZE - HEADER_SIZE) * (segmentSize / PAGE_SIZE - donePages - 1);  // Free pages.
      GrownSelf(files);
      ghost var full := |rec| > left;
      if |rec| > left {
        NextSegment();
      }
      ghost var start, before := Contents(), files;
      PutInto(rec, final);
      GrownTwice(old(files), before, files);
      if full {
        assert start[..|start| - 1] == Closed(old(Contents()), old(page.alloc));
        AddToEmpty(start[..|start| - 1], RecordBytes(crc, rec, 0, 0));
        Seqs.Nothing([rec]);
      }
    }

    /** A record goes into the active segment. */
    method PutInto(rec: Bytes, final: bool)
      requires Valid()
      modifies this`files, this`donePages, this`logged, page, page.buf
      ensures Valid() && Grown(old(files), files) && |logged| == |old(logged)| > 0
      ensures final ==> page.Pending() == []
      ensures old(Counted()) ==> Counted()
      ensures logged == AddRecord(old(logged), rec)
      ensures Contents() == AddToLast(old(Contents()), RecordBytes(crc, rec, old(page.alloc), 0))
    {
      hide Holds, RecordBytes, AddToLast, Page.Valid, Grown;
      HoldsAllRecord(crc, Contents(), logged, rec, page.alloc);
      PutRecord(rec, final);
      logged := AddRecord(logged, rec);
    }

    /** One record of a batch, and what it keeps. */
    method LogOne(rec: Bytes, final: bool)
      requires Valid()
      modifies this, page, page.buf
      ensures Valid() && Grown(old(files), files)
      ensures Flat(logged) == old(Flat(logged)) + [rec]
      ensures final ==> page.Pending() == []
      ensures old(Counted()) ==> Counted()
      ensures segmentSize % PAGE_SIZE == 0 && old(Counted() && Sized(segmentSize, Contents(), logged)) ==>
                Sized(segmentSize, Contents(), logged)
    {
      hide Holds, RecordBytes, Closed, AddToLast, Page.Valid, Page.Pending, Contents, Sized, Flat, Grown;
      if Counted() && segmentSize % PAGE_SIZE == 0 && Sized(segmentSize, Contents(), logged) {
        SizedRecord(crc, segmentSize, Contents(), logged, donePages, page.alloc, rec);
      }
      FlatAdd(logged, rec);
      LogRecord(rec, final);
    }

    /** Logs a batch; a non-empty batch is on disk in full when Log returns. */
    method Log(recs: seq<Bytes>)
      requires Valid()
      modifies this, page, page.buf
      ensures Valid() && Grown(old(files), files)
      ensures Flat(logged) == old(Flat(logged)) + recs
      ensures recs != [] ==> page.Pending() == [] && files == Contents()
      ensures recs == [] ==> files == old(files) && page.Pending() == old(page.Pending())
      ensures old(Counted()) ==> Counted()
      ensures segmentSize % PAGE_SIZE == 0 && old(Counted() && Sized(segmentSize, Contents(), logged)) ==>
                Sized(segmentSize, Contents(), logged)
    {
      hide Holds, Page.Valid, Page.Pending, Contents, Sized, Flat, Grown, Valid, Counted;
      GrownSelf(files);
      for i := 0 to |recs|
        invariant Valid() && Grown(old(files), files) && Flat(logged) == old(Flat(logged)) + recs[..i]
        invariant i == 0 ==> files == old(files) && page.Pending() == old(page.Pending())
        invariant i == 0 ==> Contents() == old(Contents()) && logged == old(logged)
        invariant 0 < i == |recs| ==> page.Pending() == []
        invariant old(Counted()) ==> Counted()
        invariant segmentSize % PAGE_SIZE == 0 && old(Counted() && Sized(segmentSize, Contents(), logged)) ==>
                    Sized(segmentSize, Contents(), logged)
      {
        ghost var was := files;
        LogOne(recs[i], i == |recs| - 1);
        GrownTwice(old(files), was, files);
        assert recs[..i + 1] == recs[..i] + [recs[i]];
      }
      assert recs[..|recs|] == recs;
    }
  }

  /** All records of all segments, in order. */
  function Flat(logged: seq<seq<Bytes>>): seq<Bytes> {
    if |logged| == 0 then [] else Flat(logged[..|logged| - 1]) + logged[|logged| - 1]
  }

  lemma FlatSnoc(logged: seq<seq<Bytes>>, recs: seq<Bytes>)
    ensures Flat(logged + [recs]) == Flat(logged) + recs
  {
    assert (logged + [recs])[..|logged|] == logged;
  }

  lemma FlatAdd(logged: seq<seq<Bytes>>, rec: Bytes)
    ensures |logged| > 0 ==> Flat(AddRecord(logged, rec)) == Flat(logged) + [rec]
    ensures Flat(logged + [[rec]]) == Flat(logged) + [rec]
  {
    hide Flat, AddRecord;
    FlatSnoc(logged, [rec]);
    if |logged| > 0 {
      var init, last := logged[..|logged| - 1], logged[|logged| - 1];
      FlatSnoc(init, last);
      FlatSnoc(init, last + [rec]);
      AddRecordParts(logged, rec);
      Seqs.Associate(Flat(init), last, [rec]);
    }
  }

  lemma AddRecordParts(logged: seq<seq<Bytes>>, rec: Bytes)
    requires |logged| > 0
    ensures var init, last := logged[..|logged| - 1], logged[|logged| - 1];
      logged == init + [last] && AddRecord(logged, rec) == init + [last + [rec]]
  {
  }

  /** A segment larger than segmentSize holds a single record, or ends in an empty
      record that was put behind the full segment. */
  ghost predicate Sized(segmentSize: nat, segs: seq<Bytes>, logged: seq<seq<Bytes>>) {
    && |segs| == |logged|
    && forall j :: 0 <= j < |segs| && |segs[j]| > segmentSize ==> |logged[j]| > 0 && Oversize(logged[j])
  }

  predicate Oversize(recs: seq<Bytes>)
    requires |recs| > 0
  {
    |recs| == 1 || recs[|recs| - 1] == []
  }

  lemma SizedRecord(crc: Checksum, size: nat, segs: seq<Bytes>, logged: seq<seq<Bytes>>,
                    donePages: int, alloc: nat, rec: Bytes)
    requires size % PAGE_SIZE == 0 && |segs| > 0 && alloc + HEADER_SIZE <= PAGE_SIZE
    requires Sized(size, segs, logged) && |segs[|segs| - 1]| == donePages * PAGE_SIZE + alloc
    ensures |rec| <= Left(alloc, size / PAGE_SIZE - donePages - 1) ==>
              Sized(size, AddToLast(segs, RecordBytes(crc, rec, alloc, 0)), AddRecord(logged, rec))
    ensures Sized(size, Closed(segs, alloc) + [RecordBytes(crc, rec, 0, 0)], logged + [[rec]])
  {
    hide RecordBytes;
    var last, k := |segs| - 1, size / PAGE_SIZE - donePages - 1;
    assert size == PAGE_SIZE * (size / PAGE_SIZE);
    if |rec| <= Left(alloc, k) {
      if k >= 0 { LeftExact(crc, rec, alloc, 0, k); }
      assert logged[last] + [rec] == AddRecord(logged, rec)[last];
    }
  }

  /** With non-empty records only a record that is too large for any segment
      makes a segment exceed its size, and then it is alone in it. */
  lemma LargeIsAlone(size: nat, segs: seq<Bytes>, logged: seq<seq<Bytes>>, j: nat)
    requires Sized(size, segs, logged) && j < |segs| && |segs[j]| > size
    requires forall r :: r in logged[j] ==> r != []
    ensures |logged[j]| == 1
  {
    var recs := logged[j];
    assert recs[|recs| - 1] in recs;
  }

  function AddRecord(logged: seq<seq<Bytes>>, rec: Bytes): seq<seq<Bytes>>
    requires |logged| > 0
  {
    logged[|logged| - 1 := logged[|logged| - 1] + [rec]]
  }

  lemma RecordStep(crc: Checksum, rec: Bytes, o: nat, i: nat)
    requires o + HEADER_SIZE <= PAGE_SIZE && (i == 0 || |rec| > 0)
    ensures var l := Min(|rec|, PAGE_SIZE - o - HEADER_SIZE); var end := o + HEADER_SIZE + l;
      && RecordBytes(crc, rec, o, i)
         == Fragment(crc, FragmentType(i == 0, l == |rec|), rec[..l]) + Padding(end)
            + RecordBytes(crc, rec[l..], Settle(end), i + 1)
      && (l < |rec| ==> Settle(end) == 0 && end == PAGE_SIZE)
  {
  }

  lemma NothingLeft(crc: Checksum, o: nat, i: nat)
    requires o + HEADER_SIZE <= PAGE_SIZE && i > 0
    ensures RecordBytes(crc, [], o, i) == []
  {
  }
}
