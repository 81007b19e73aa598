/** The postings iterators of index/postings.go. A postings list delivers series
    ids in increasing order; intersections, unions and differences of lists are
    computed lazily, one element ahead, and must still be exact cursors. */
module PostingsLists {
  /** sort.Search: the smallest index below n at which f holds, or n. */
  method Search(n: nat, f: nat -> bool) returns (i: nat)
    requires forall j, k :: 0 <= j <= k < n && f(j) ==> f(k)
    ensures i <= n && (forall j :: 0 <= j < i ==> !f(j)) && (forall j :: i <= j < n ==> f(j))
  {
    var lo, hi := 0, n;
    while lo < hi
      invariant 0 <= lo <= hi <= n
      invariant forall j :: 0 <= j < lo ==> !f(j)
      invariant forall j :: hi <= j < n ==> f(j)
    {
      var h := lo + (hi - lo) / 2;
      if !f(h) {
        lo := h + 1;
      } else {
        hi := h;
      }
    }
    i := lo;
  }

  /** Strictly increasing ids above p. */
  ghost predicate Increasing(s: seq<nat>, p: nat) {
    && (forall i, j :: 0 <= i < j < |s| ==> s[i] < s[j])
    && (forall i :: 0 <= i < |s| ==> p < s[i])
  }

  method FirstAtLeast(l: seq<nat>, v: nat) returns (i: nat)
    requires forall i, j :: 0 <= i < j < |l| ==> l[i] < l[j]
    ensures i <= |l| && (i < |l| ==> v <= l[i]) && forall j :: 0 <= j < i ==> l[j] < v
  {
    var reached: nat -> bool := (j: nat) => j < |l| && v <= l[j];
    i := Search(|l|, reached);
    assert i < |l| ==> reached(i);
    forall j | 0 <= j < i ensures l[j] < v {
      assert !reached(j);
    }
  }

  ghost function Elements(s: seq<nat>): set<nat> { set x | x in s }

  ghost function Beyond(r: set<nat>, p: nat): set<nat> { set x | x in r && x > p }

  lemma Landing(s: seq<nat>, p: nat, v: nat, i: nat)
    requires Increasing(s, p) && i <= |s|
    requires (i < |s| ==> v <= s[i]) && forall j :: 0 <= j < i ==> s[j] < v
    ensures i == |s| ==> forall x :: x in Elements(s) ==> x < v
    ensures i < |s| ==> p < s[i] && s[i] in Elements(s) && forall x :: x in Elements(s) && v <= x ==> s[i] <= x
    ensures i < |s| ==> Increasing(s[i + 1..], s[i]) && Elements(s[i + 1..]) == Beyond(Elements(s), s[i])
  {
    if i < |s| {
      var t := s[i + 1..];
      forall x | x in Elements(s) && x > s[i] ensures x in t {
        var k :| 0 <= k < |s| && s[k] == x;
        assert k > i;
        assert t[k - i - 1] == x;
      }
    }
  }

  /** How far an iterator has come. */
  datatype Cursor = Cursor(
    live: bool,      // no call has returned false yet
    pos: nat,        // the last id delivered, 0 before the first
    rest: set<nat>,  // while live: the ids still to be delivered
    lim: nat)        // afterwards: no further call delivers an id from lim on
  {
    ghost predicate Sound(width: nat) {
      pos < width && if live then forall x :: x in rest ==> pos < x < width else pos < lim
    }

    /** The state after a call of Next that returned r: while live, it delivers
        the smallest id ahead, and false means that there is none. */
    ghost predicate Stepped(c: Cursor, r: bool) {
      if live then
        if r then
          c.live && c.pos in rest && c.rest == rest - {c.pos} && forall x :: x in rest ==> c.pos <= x
        else
          !c.live && rest == {} && c.pos == pos && c.lim == pos + 1
      else
        !c.live && c.lim == lim && if r then pos < c.pos < lim else c.pos == pos
    }

    /** The state after a call of Seek(v) that returned r: while live, it stays at
        an id of at least v, and otherwise moves to the smallest such id ahead. */
    ghost predicate Sought(v: nat, c: Cursor, r: bool) {
      if live && v <= pos then
        r && c.live && c.pos == pos && c.rest == rest
      else if live then
        if r then
          && c.live && c.pos in rest && v <= c.pos && c.rest == Beyond(rest, c.pos)
          && forall x :: x in rest && v <= x ==> c.pos <= x
        else
          !c.live && (forall x :: x in rest ==> x < v) && c.pos == pos < c.lim <= v
      else if r then
        !c.live && c.lim == lim && v <= c.pos < lim && pos <= c.pos
      else
        !c.live && c.pos == pos && lim <= c.lim && (c.lim <= lim || c.lim <= v)
    }

    /** As if every id below v had been passed already. */
    ghost function Shifted(v: nat): Cursor
      requires 1 <= v
    {
      Cursor(live, v - 1, Beyond(rest, v - 1), EndedBy(v).lim)
    }

    /** The ids from v on, the last one delivered included. */
    ghost function AtLeast(v: nat): set<nat> {
      set x | x in {pos} + rest && v <= x
    }

    /** Once it is known that no id from n on is left. */
    ghost function EndedBy(n: nat): Cursor {
      Cursor(false, pos, {}, if live || lim < n then n else lim)
    }

    /** The ids still contributed, where ok says that pos is one of them. */
    ghost function Ahead(ok: bool): set<nat> {
      if ok then rest + {pos} else {}
    }
  }

  /* Intersections */

  ghost predicate IntersectionOk(p: Cursor, a: Cursor, b: Cursor) {
    && p.pos <= a.pos && p.pos <= b.pos
    && if p.live then a.live && b.live && a.pos == b.pos == p.pos && p.rest == a.rest * b.rest
       else Exhausted(p.lim, a, b)
  }

  /** No id from lim on will be delivered by both operands any more. */
  ghost predicate Exhausted(lim: nat, a: Cursor, b: Cursor) {
    || (!a.live && (a.lim <= lim || a.lim <= b.pos))
    || (!b.live && (b.lim <= lim || b.lim <= a.pos))
  }

  ghost function Common(a: Cursor, b: Cursor): set<nat> {
    ({a.pos} + a.rest) * ({b.pos} + b.rest)
  }

  /** The first operand is ahead, and what both still offer are the ids t. */
  ghost predicate Joining(p: Cursor, t: set<nat>, a: Cursor, b: Cursor) {
    && p.pos <= a.pos && p.pos <= b.pos
    && if p.live then a.live && b.live && b.pos <= a.pos && Common(a, b) == t
       else Exhausted(p.lim, a, b)
  }

  ghost predicate Joined(p: Cursor, t: set<nat>, a: Cursor, b: Cursor, r: bool, bound: nat) {
    && p.pos <= a.pos && p.pos <= b.pos
    && if r then
         && a.pos == b.pos
         && if p.live then
              && a.live && b.live && a.pos in t && a.rest * b.rest == t - {a.pos}
              && forall x :: x in t ==> a.pos <= x
            else
              Exhausted(p.lim, a, b) && a.pos < p.lim
       else
         p.pos < bound && (p.live ==> t == {}) && Exhausted(p.EndedBy(bound).lim, a, b)
  }

  lemma JoinFromNext(p: Cursor, a: Cursor, b: Cursor, c: Cursor, r: bool, w: nat)
    requires IntersectionOk(p, a, b) && a.Stepped(c, r) && a.Sound(w) && b.Sound(w)
    ensures if r then p.pos < c.pos && Joining(p, p.rest, c, b) else Joined(p, p.rest, c, b, false, p.pos + 1)
  {
  }

  lemma JoinFromSeek(p: Cursor, a: Cursor, b: Cursor, v: nat, c: Cursor, r: bool, w: nat)
    requires IntersectionOk(p, a, b) && 1 <= v && a.Sought(v, c, r) && a.Sound(w) && b.Sound(w)
    ensures if r then v <= c.pos && Joining(p, p.AtLeast(v), c, b)
            else Joined(p, p.AtLeast(v), c, b, false, if p.pos < v then v else p.pos + 1)
  {
    if p.live && r {
      assert Common(c, b) == p.AtLeast(v);
    } else if p.live {
      assert p.AtLeast(v) == {};
    }
  }

  /** One turn of the loop of doNext: the second operand seeks the id of the
      first and, if it misses it, the first seeks the id of the second. */
  lemma JoinTurn(p: Cursor, t: set<nat>, a: Cursor, b: Cursor, d: Cursor, bok: bool, c: Cursor, aok: bool, bound: nat,
      w: nat)
    requires Joining(p, t, a, b) && p.pos < bound && a.Sound(w) && b.Sound(w) && c.Sound(w) && d.Sound(w)
    requires b.Sought(a.pos, d, bok)
    requires if bok && d.pos != a.pos then a.Sought(d.pos, c, aok) else c == a && aok
    ensures bok && aok && c.pos != d.pos ==> Joining(p, t, c, d)
    ensures !bok || !aok || c.pos == d.pos ==> Joined(p, t, c, d, bok && aok, bound)
  {
  }

  /** The cursor of an intersection after a search that ended with r; a failed
      search has shown that no id from bound on is left. */
  ghost function AfterJoin(p: Cursor, a: Cursor, b: Cursor, r: bool, bound: nat): Cursor {
    if r then Cursor(p.live, a.pos, a.rest * b.rest, p.lim)
    else p.EndedBy(bound)
  }

  lemma IntersectionNext(p: Cursor, a: Cursor, b: Cursor, r: bool, w: nat)
    requires p.Sound(w) && a.Sound(w) && b.Sound(w) && Joined(p, p.rest, a, b, r, p.pos + 1)
    requires r ==> p.pos < a.pos
    ensures var q := AfterJoin(p, a, b, r, p.pos + 1);
            p.Stepped(q, r) && q.Sound(w) && IntersectionOk(q, a, b)
  {
  }

  lemma IntersectionSeek(p: Cursor, v: nat, a: Cursor, b: Cursor, r: bool, w: nat)
    requires p.Sound(w) && a.Sound(w) && b.Sound(w) && 1 <= v && (r ==> v <= a.pos)
    requires Joined(p, p.AtLeast(v), a, b, r, if p.pos < v then v else p.pos + 1)
    ensures var q := AfterJoin(p, a, b, r, v);
            p.Sought(v, q, r) && q.Sound(w) && IntersectionOk(q, a, b)
  {
    if p.live {
      assert forall x :: x in p.rest && v <= x ==> x in p.AtLeast(v);
      if v <= p.pos {
        assert p.pos in p.AtLeast(v);
      }
    }
  }

  /* Unions */

  /** Both operands are one id ahead, unless they have ended. */
  ghost predicate UnionAhead(p: Cursor, a: Cursor, aok: bool, b: Cursor, bok: bool) {
    && (aok ==> p.pos < a.pos) && (bok ==> p.pos < b.pos)
    && if p.live then
         && (aok <==> a.live) && (bok <==> b.live) && p.rest == a.Ahead(aok) + b.Ahead(bok)
         && (aok || a.lim <= p.pos + 1) && (bok || b.lim <= p.pos + 1)
       else
         !a.live && !b.live && a.lim <= p.lim && b.lim <= p.lim
  }

  ghost predicate UnionOk(p: Cursor, begun: bool, a: Cursor, aok: bool, b: Cursor, bok: bool) {
    if begun then UnionAhead(p, a, aok, b, bok)
    else p.live && a.live && b.live && a.pos == b.pos == p.pos == 0 && p.rest == a.rest + b.rest
  }

  lemma UnionBegins(p: Cursor, a: Cursor, aok: bool, b: Cursor, bok: bool, c: Cursor, cok: bool, d: Cursor, dok: bool,
      w: nat)
    requires UnionOk(p, false, a, aok, b, bok) && a.Stepped(c, cok) && b.Stepped(d, dok)
    requires a.Sound(w) && b.Sound(w)
    ensures UnionAhead(p, c, cok, d, dok)
  {
  }

  /** Delivering the smaller of two ids, and moving past it on both sides. */
  lemma UnionDelivers(p: Cursor, a: Cursor, aok: bool, b: Cursor, bok: bool, c: Cursor, cok: bool, d: Cursor,
      dok: bool, w: nat)
    requires UnionAhead(p, a, aok, b, bok) && (aok || bok) && a.Sound(w) && b.Sound(w)
    requires if aok && (!bok || a.pos <= b.pos) then a.Stepped(c, cok) else c == a && cok == aok
    requires if bok && (!aok || b.pos <= a.pos) then b.Stepped(d, dok) else d == b && dok == bok
    ensures var x := if aok && (!bok || a.pos <= b.pos) then a.pos else b.pos;
            var q := Cursor(p.live, x, p.rest - {x}, p.lim);
            p.Stepped(q, true) && q.Sound(w) && UnionAhead(q, c, cok, d, dok)
  {
  }

  lemma UnionShifts(p: Cursor, begun: bool, a: Cursor, aok: bool, b: Cursor, bok: bool, v: nat, c: Cursor, cok: bool,
      d: Cursor, dok: bool, w: nat)
    requires UnionOk(p, begun, a, aok, b, bok) && p.pos < v && a.Sound(w) && b.Sound(w)
    requires a.Sought(v, c, cok) && b.Sought(v, d, dok)
    ensures UnionAhead(p.Shifted(v), c, cok, d, dok)
  {
  }

  /** Next after a shift of the cursor is Seek. */
  lemma SeekByShift(p: Cursor, v: nat, q: Cursor, r: bool, w: nat)
    requires p.Sound(w) && p.pos < v < w && p.Shifted(v).Stepped(q, r) && q.Sound(w)
    ensures p.Sought(v, Sinking(p, q, r), r) && Sinking(p, q, r).Sound(w)
    ensures r ==> v <= q.pos
  {
    assert forall x :: x in p.rest && v <= x ==> x in p.Shifted(v).rest;
  }

  ghost function Sinking(p: Cursor, q: Cursor, r: bool): (c: Cursor)
    ensures c.pos == if r then q.pos else p.pos
  {
    if r then q else Cursor(false, p.pos, {}, q.lim)
  }

  lemma UnionSeeks(p: Cursor, q: Cursor, r: bool, a: Cursor, aok: bool, b: Cursor, bok: bool)
    requires UnionAhead(q, a, aok, b, bok) && (!r ==> !aok && !bok && !q.live)
    ensures UnionAhead(Sinking(p, q, r), a, aok, b, bok)
  {
  }

  /* Differences */

  ghost predicate LeftAhead(p: Cursor, a: Cursor, aok: bool, b: Cursor, bok: bool) {
    && (aok ==> p.pos < a.pos)
    && if p.live then
         && (aok <==> a.live) && (bok <==> b.live) && p.rest == a.Ahead(aok) - b.Ahead(bok)
         && (aok || a.lim <= p.pos + 1) && (bok || b.lim <= p.pos + 1)
       else
         !a.live && (a.lim <= p.lim || (!aok && RemovedLast(a, b, bok)))
  }

  /** The last id of the first operand was not delivered but removed. */
  ghost predicate RemovedLast(a: Cursor, b: Cursor, bok: bool) {
    !a.live && a.lim == a.pos + 1 && bok && b.live && b.pos == a.pos
  }

  ghost predicate DifferenceOk(p: Cursor, begun: bool, a: Cursor, aok: bool, b: Cursor, bok: bool) {
    if begun then LeftAhead(p, a, aok, b, bok)
    else p.live && a.live && b.live && a.pos == b.pos == p.pos == 0 && p.rest == a.rest - b.rest
  }

  /** As LeftAhead, inside the loop that passes over removed ids. */
  ghost predicate Skipping(p: Cursor, a: Cursor, aok: bool, b: Cursor, bok: bool) {
    && (aok ==> p.pos < a.pos)
    && if p.live then
         && (aok <==> a.live) && (bok <==> b.live) && p.rest == a.Ahead(aok) - b.Ahead(bok)
         && (aok || a.lim <= p.pos + 1 || RemovedLast(a, b, bok))
         && (bok || b.lim <= p.pos + 1 || (aok && b.lim <= a.pos))
       else
         !a.live && (a.lim <= p.lim || RemovedLast(a, b, bok))
  }

  lemma DifferenceBegins(p: Cursor, a: Cursor, aok: bool, b: Cursor, bok: bool, c: Cursor, cok: bool, d: Cursor,
      dok: bool, w: nat)
    requires DifferenceOk(p, false, a, aok, b, bok) && a.Stepped(c, cok) && b.Stepped(d, dok)
    requires a.Sound(w) && b.Sound(w)
    ensures Skipping(p, c, cok, d, dok)
  {
  }

  lemma DifferenceShifts(p: Cursor, begun: bool, a: Cursor, aok: bool, b: Cursor, bok: bool, v: nat, c: Cursor,
      cok: bool, d: Cursor, dok: bool, w: nat)
    requires DifferenceOk(p, begun, a, aok, b, bok) && p.pos < v && a.Sound(w) && b.Sound(w)
    requires a.Sought(v, c, cok) && b.Sought(v, d, dok)
    ensures Skipping(p.Shifted(v), c, cok, d, dok)
  {
  }

  /** Passing over an id that is to be removed. */
  lemma DifferenceSkips(p: Cursor, a: Cursor, aok: bool, b: Cursor, bok: bool, c: Cursor, cok: bool, w: nat)
    requires Skipping(p, a, aok, b, bok) && aok && bok && a.pos == b.pos && a.Sound(w) && b.Sound(w)
    requires a.Stepped(c, cok)
    ensures Skipping(p, c, cok, b, bok)
  {
  }

  lemma DifferenceCatchesUp(p: Cursor, a: Cursor, aok: bool, b: Cursor, bok: bool, d: Cursor, dok: bool, w: nat)
    requires Skipping(p, a, aok, b, bok) && aok && bok && b.pos < a.pos && a.Sound(w) && b.Sound(w)
    requires b.Sought(a.pos, d, dok)
    ensures Skipping(p, a, aok, d, dok)
  {
  }

  lemma DifferenceDelivers(p: Cursor, a: Cursor, aok: bool, b: Cursor, bok: bool, c: Cursor, cok: bool, w: nat)
    requires Skipping(p, a, aok, b, bok) && aok && (bok ==> a.pos < b.pos) && a.Sound(w) && b.Sound(w)
    requires a.Stepped(c, cok)
    ensures var q := Cursor(p.live, a.pos, p.rest - {a.pos}, p.lim);
            p.Stepped(q, true) && q.Sound(w) && LeftAhead(q, c, cok, b, bok)
  {
  }

  /** The cursor once Next has found nothing more. */
  ghost function Ended(p: Cursor): (q: Cursor)
    ensures !q.live && q.pos == p.pos
  {
    p.EndedBy(p.pos + 1)
  }

  lemma DifferenceEnds(p: Cursor, a: Cursor, b: Cursor, bok: bool, w: nat)
    requires p.Sound(w) && Skipping(p, a, false, b, bok)
    ensures p.Stepped(Ended(p), false) && Ended(p).Sound(w) && LeftAhead(Ended(p), a, false, b, bok)
  {
  }

  lemma DifferenceSeeks(p: Cursor, q: Cursor, r: bool, a: Cursor, aok: bool, b: Cursor, bok: bool)
    requires LeftAhead(q, a, aok, b, bok) && (!r ==> !aok && !q.live)
    ensures LeftAhead(Sinking(p, q, r), a, aok, b, bok)
  {
  }

  lemma UnionEnds(p: Cursor, a: Cursor, b: Cursor, w: nat)
    requires p.Sound(w) && UnionAhead(p, a, false, b, false)
    ensures p.Stepped(Ended(p), false) && Ended(p).Sound(w) && UnionAhead(Ended(p), a, false, b, false)
  {
  }

  const UINT32: nat := 0x1_0000_0000

  /** Numbered are the big-endian lists of 4-byte numbers kept in an index file. */
  datatype Kind = List | Numbered | Intersection | Union | Difference

  ghost function Combined(k: Kind, r: set<nat>, q: set<nat>): set<nat> {
    if k.Intersection? then r * q else if k.Union? then r + q else r - q
  }

  class Postings {
    const kind: Kind
    ghost const width: nat     // ids and seek targets are below this
    const a: Postings?         // the operands; for a difference, the full list
    const b: Postings?         // and the list of ids to remove
    var list: seq<nat>         // of a plain or numbered list, the ids ahead
    var cur: nat
    var initialized: bool
    var aok: bool
    var bok: bool

    ghost const Repr: set<object>
    ghost var cursor: Cursor

    /** A list of ids as NewListPostings, or newBigEndianPostings, wraps it. */
    constructor OfList(k: Kind, l: seq<nat>, ghost w: nat)
      requires (k.List? || (k.Numbered? && w <= UINT32)) && w > 0
      requires Increasing(l, 0) && forall x :: x in l ==> x < w
      ensures Valid() && fresh(Repr) && kind == k && width == w && cursor == Cursor(true, 0, Elements(l), 0)
    {
      kind, width, a, b, list, cur, initialized, aok, bok := k, w, null, null, l, 0, false, false, false;
      Repr := {this};
      cursor := Cursor(true, 0, Elements(l), 0);
    }

    /** Two iterators that nobody has advanced yet, combined into one. */
    constructor Of(k: Kind, p: Postings, q: Postings)
      requires k.Intersection? || k.Union? || k.Difference?
      requires p.Valid() && q.Valid() && p.Repr !! q.Repr && p.width == q.width
      requires p.cursor.live && q.cursor.live && p.cursor.pos == q.cursor.pos == 0
      ensures Ready(this, Combined(k, p.cursor.rest, q.cursor.rest), p.width) && fresh(Repr - p.Repr - q.Repr)
    {
      kind, width, a, b, list, cur, initialized, aok, bok := k, p.width, p, q, [], 0, false, false, false;
      Repr := {this} + p.Repr + q.Repr;
      cursor := Cursor(true, 0, Combined(k, p.cursor.rest, q.cursor.rest), 0);
    }

    ghost predicate Valid()
      reads this, Repr
      ensures Valid() ==> this in Repr && cursor.Sound(width) && (cursor.live ==> cur == cursor.pos)
      decreases Repr, 1
    {
      && this in Repr
      && cursor.Sound(width)
      && (cursor.live ==> cur == cursor.pos)
      && (kind == Numbered ==> width <= UINT32)
      && if kind.List? || kind.Numbered? then
           ListOk()
         else
           && Operands() && cur == cursor.pos
           && (kind.Intersection? ==> IntersectionOk(cursor, a.cursor, b.cursor))
           && (kind.Union? ==> Current() && UnionOk(cursor, initialized, a.cursor, aok, b.cursor, bok))
           && (kind.Difference? ==> Current() && DifferenceOk(cursor, initialized, a.cursor, aok, b.cursor, bok))
    }

    ghost predicate Operands()
      reads this, Repr
      ensures Operands() ==> a != null && b != null
      decreases Repr, 0
    {
      && this in Repr
      && a != null && a in Repr && a.Repr <= Repr && this !in a.Repr && a.Valid() && a.width == width
      && b != null && b in Repr && b.Repr <= Repr && this !in b.Repr && b.Valid() && b.width == width
      && a.Repr !! b.Repr
    }

    ghost predicate ListOk()
      reads this
    {
      if cursor.live then
        Increasing(list, cursor.pos) && Elements(list) == cursor.rest
      else
        list == [] && (cur == 0 || cur == cursor.pos)
    }

    /** An operand that is ahead stands at the id it delivered. */
    ghost predicate Current()
      requires a != null && b != null
      reads this, a, b
    {
      initialized ==> (aok ==> a.cur == a.cursor.pos) && (bok ==> b.cur == b.cursor.pos)
    }

    /** What Valid means for iterators with operands. */
    lemma Open()
      requires Valid() && (kind.Intersection? || kind.Union? || kind.Difference?)
      ensures Operands() && cur == cursor.pos
      ensures kind.Intersection? ==> IntersectionOk(cursor, a.cursor, b.cursor)
      ensures kind.Union? ==> Current() && UnionOk(cursor, initialized, a.cursor, aok, b.cursor, bok)
      ensures kind.Difference? ==> Current() && DifferenceOk(cursor, initialized, a.cursor, aok, b.cursor, bok)
    {
    }

    /** Puts Valid together again where its definition is hidden. */
    lemma Close()
      requires Operands() && cursor.Sound(width) && cur == cursor.pos
      requires match kind
               case Intersection => IntersectionOk(cursor, a.cursor, b.cursor)
               case Union => Current() && UnionOk(cursor, initialized, a.cursor, aok, b.cursor, bok)
               case Difference => Current() && DifferenceOk(cursor, initialized, a.cursor, aok, b.cursor, bok)
               case _ => false
      ensures Valid()
    {
    }

    function At(): nat
      reads this
    {
      cur
    }

    method Next() returns (r: bool)
      requires Valid()
      modifies Repr
      ensures Valid() && old(cursor).Stepped(cursor, r) && (r ==> At() == cursor.pos)
      decreases Repr, 3
    {
      match kind
      case Intersection => r := NextCommon();
      case Union => r := NextMerged();
      case Difference => r := NextLeft();
      case _ => r := NextInList();
    }

    method Seek(v: nat) returns (r: bool)
      requires Valid() && 1 <= v < width
      modifies Repr
      ensures Valid() && old(cursor).Sought(v, cursor, r) && (r ==> At() == cursor.pos)
      decreases Repr, 3
    {
      match kind
      case Intersection => r := SeekCommon(v);
      case Union => r := SeekMerged(v);
      case Difference => r := SeekLeft(v);
      case _ => r := SeekInList(v);
    }

    method NextInList() returns (r: bool)
      requires Valid() && (kind.List? || kind.Numbered?)
      modifies this
      ensures Valid() && old(cursor).Stepped(cursor, r) && (r ==> At() == cursor.pos)
      decreases Repr, 2
    {
      if cursor.live {
        Landing(list, cursor.pos, 0, 0);
      }
      hide Increasing, Elements;
      if |list| > 0 {
        cur := list[0];
        list := list[1..];
        cursor := Cursor(true, cur, cursor.rest - {cur}, 0);
        return true;
      }
      if kind.List? {
        cur := 0;
      }
      cursor := Ended(cursor);
      return false;
    }

    /** A numbered list looks for the low 32 bits of the target. From 2^32 on, where no id
        of the list can be, that is right exactly if no id ahead reaches these bits. */
    method SeekInList(v: nat) returns (r: bool)
      requires Valid() && (kind.List? || kind.Numbered?) && 1 <= v
      modifies this
      ensures Valid() && (r ==> At() == cursor.pos)
      ensures kind.List? || v < UINT32 || !old(cursor.live) ==> old(cursor).Sought(v, cursor, r)
      ensures kind.Numbered? && UINT32 <= v && old(cursor.live) ==>
                && (old(cursor).Sought(v, cursor, r) <==> forall x :: x in old(cursor.rest) ==> x < v % UINT32)
                && (r <==> !old(cursor).Sought(v, cursor, r))
                && (r ==> cursor.pos in old(cursor.rest)
                          && forall x :: x in old(cursor.rest) && v % UINT32 <= x ==> cursor.pos <= x)
      decreases Repr, 2
    {
      if cur >= v {
        return true;
      }
      var target := if kind.Numbered? then v % UINT32 else v;
      var i := FirstAtLeast(list, target);
      if cursor.live {
        Landing(list, cursor.pos, target, i);
      }
      hide Increasing, Elements;
      if i < |list| {
        cur := list[i];
        list := list[i + 1..];
        cursor := Cursor(true, cur, Beyond(cursor.rest, cur), 0);
        return true;
      }
      list := [];
      if cursor.live {
        cursor := Cursor(false, cursor.pos, {}, v);
      }
      return false;
    }

    method NextCommon() returns (r: bool)
      requires Valid() && kind.Intersection?
      modifies Repr
      ensures Valid() && old(cursor).Stepped(cursor, r) && (r ==> At() == cursor.pos)
      decreases Repr, 2
    {
      hide Valid, Joining, Joined;
      Open();
      ghost var p, a0, b0 := cursor, a.cursor, b.cursor;
      r := a.Next();
      JoinFromNext(p, a0, b0, a.cursor, r, width);
      if r {
        r := JoinAt(a.At(), p.rest, p.pos + 1);
      }
      IntersectionNext(p, a.cursor, b.cursor, r, width);
      cursor := AfterJoin(p, a.cursor, b.cursor, r, p.pos + 1);
      Close();
    }

    method SeekCommon(v: nat) returns (r: bool)
      requires Valid() && kind.Intersection? && 1 <= v < width
      modifies Repr
      ensures Valid() && old(cursor).Sought(v, cursor, r) && (r ==> At() == cursor.pos)
      decreases Repr, 2
    {
      hide Valid, Joining, Joined;
      Open();
      ghost var p, a0, b0 := cursor, a.cursor, b.cursor;
      r := a.Seek(v);
      JoinFromSeek(p, a0, b0, v, a.cursor, r, width);
      if r {
        r := JoinAt(a.At(), p.AtLeast(v), if p.pos < v then v else p.pos + 1);
      }
      IntersectionSeek(p, v, a.cursor, b.cursor, r, width);
      cursor := AfterJoin(p, a.cursor, b.cursor, r, v);
      Close();
    }

    /** From an id delivered by the first operand to the next common id. */
    method JoinAt(start: nat, ghost t: set<nat>, ghost bound: nat) returns (r: bool)
      requires Operands() && 1 <= start == a.cursor.pos && a.cur == a.cursor.pos
      requires Joining(cursor, t, a.cursor, b.cursor) && cursor.pos < bound
      modifies this`cur, a.Repr, b.Repr
      ensures Operands() && Joined(cursor, t, a.cursor, b.cursor, r, bound)
      ensures start <= a.cursor.pos && cur == if r then a.cursor.pos else old(cur)
      decreases Repr, 1
    {
      hide Valid, Joining, Joined;
      var id := start;
      while true
        invariant Operands() && start <= id == a.cursor.pos && a.cur == id && cur == old(cur)
        invariant Joining(cursor, t, a.cursor, b.cursor)
        decreases width - a.cursor.pos
      {
        ghost var a0, b0 := a.cursor, b.cursor;
        r := b.Seek(id);
        if !r {
          JoinTurn(cursor, t, a0, b0, b.cursor, false, a0, true, bound, width);
          return;
        }
        var vb := b.At();
        if vb != id {
          r := a.Seek(vb);
          JoinTurn(cursor, t, a0, b0, b.cursor, true, a.cursor, r, bound, width);
          if !r {
            return;
          }
          id := a.At();
          if vb != id {
            continue;
          }
        } else {
          JoinTurn(cursor, t, a0, b0, b.cursor, true, a0, true, bound, width);
        }
        cur := id;
        return true;
      }
    }

    /** Advances both operands. */
    method NextBoth()
      requires Operands()
      modifies this`aok, this`bok, a.Repr, b.Repr
      ensures Operands() && old(a.cursor).Stepped(a.cursor, aok) && old(b.cursor).Stepped(b.cursor, bok)
      ensures (aok ==> a.cur == a.cursor.pos) && (bok ==> b.cur == b.cursor.pos)
      decreases Repr, 0
    {
      hide Valid, Cursor.Stepped;
      aok := a.Next();
      bok := b.Next();
    }

    /** Brings both operands one id ahead, at the first call. */
    method Start()
      requires Operands() && cursor.Sound(width) && cur == cursor.pos && Current()
      requires kind.Union? ==> UnionOk(cursor, initialized, a.cursor, aok, b.cursor, bok)
      requires kind.Difference? ==> DifferenceOk(cursor, initialized, a.cursor, aok, b.cursor, bok)
      modifies this`initialized, this`aok, this`bok, a.Repr, b.Repr
      ensures Operands() && Current() && initialized
      ensures kind.Union? ==> UnionAhead(cursor, a.cursor, aok, b.cursor, bok)
      ensures kind.Difference? ==> Skipping(cursor, a.cursor, aok, b.cursor, bok)
      decreases Repr, 1
    {
      hide Valid, UnionAhead, Cursor.Stepped;
      if !initialized {
        ghost var a0, b0, o, k := a.cursor, b.cursor, aok, bok;
        NextBoth();
        initialized := true;
        if kind.Union? {
          UnionBegins(cursor, a0, o, b0, k, a.cursor, aok, b.cursor, bok, width);
        } else if kind.Difference? {
          DifferenceBegins(cursor, a0, o, b0, k, a.cursor, aok, b.cursor, bok, width);
        }
      }
    }

    method SeekBoth(v: nat)
      requires Operands() && cursor.Sound(width) && cursor.pos < v < width
      requires kind.Union? ==> UnionOk(cursor, initialized, a.cursor, aok, b.cursor, bok)
      requires kind.Difference? ==> DifferenceOk(cursor, initialized, a.cursor, aok, b.cursor, bok)
      modifies this`initialized, this`aok, this`bok, a.Repr, b.Repr
      ensures Operands() && Current() && initialized && cursor.Shifted(v).Sound(width)
      ensures kind.Union? ==> UnionAhead(cursor.Shifted(v), a.cursor, aok, b.cursor, bok)
      ensures kind.Difference? ==> Skipping(cursor.Shifted(v), a.cursor, aok, b.cursor, bok)
      decreases Repr, 1
    {
      hide Valid, UnionAhead, Skipping, Cursor.Sought;
      ghost var i, a0, b0, o, k := initialized, a.cursor, b.cursor, aok, bok;
      aok := a.Seek(v);
      bok := b.Seek(v);
      initialized := true;
      if kind.Union? {
        UnionShifts(cursor, i, a0, o, b0, k, v, a.cursor, aok, b.cursor, bok, width);
      } else if kind.Difference? {
        DifferenceShifts(cursor, i, a0, o, b0, k, v, a.cursor, aok, b.cursor, bok, width);
      }
    }

    method NextMerged() returns (r: bool)
      requires Valid() && kind.Union?
      modifies Repr
      ensures Valid() && old(cursor).Stepped(cursor, r) && (r ==> At() == cursor.pos)
      decreases Repr, 2
    {
      hide Valid, UnionAhead, Cursor.Stepped, Cursor.Sought;
      Open();
      Start();
      ghost var q;
      r, q := DeliverMerged(cursor);
      cursor := q;
      Close();
    }

    method SeekMerged(v: nat) returns (r: bool)
      requires Valid() && kind.Union? && 1 <= v < width
      modifies Repr
      ensures Valid() && old(cursor).Sought(v, cursor, r) && (r ==> At() == cursor.pos)
      decreases Repr, 2
    {
      hide Valid;
      Open();
      if cur >= v {
        return true;
      }
      hide UnionAhead, Sinking, Cursor.Stepped, Cursor.Sought, Cursor.Sound, Cursor.Shifted;
      SeekBoth(v);
      ghost var q;
      r, q := DeliverMerged(cursor.Shifted(v));
      SeekByShift(cursor, v, q, r, width);
      UnionSeeks(cursor, q, r, a.cursor, aok, b.cursor, bok);
      cursor := Sinking(cursor, q, r);
      Close();
    }

    /** The part of Next after both operands have been started. */
    method DeliverMerged(ghost p: Cursor) returns (r: bool, ghost q: Cursor)
      requires Operands() && initialized && Current()
      requires p.Sound(width) && UnionAhead(p, a.cursor, aok, b.cursor, bok)
      modifies this`cur, this`aok, this`bok, a.Repr, b.Repr
      ensures Operands() && Current() && p.Stepped(q, r) && q.Sound(width)
      ensures UnionAhead(q, a.cursor, aok, b.cursor, bok)
      ensures if r then cur == q.pos else cur == old(cur) && q == Ended(p) && !aok && !bok
      decreases Repr, 1
    {
      hide Valid, UnionAhead, Cursor.Stepped, Cursor.Sought;
      ghost var a0, b0, o, k := a.cursor, b.cursor, aok, bok;
      if !aok && !bok {
        UnionEnds(p, a0, b0, width);
        return false, Ended(p);
      }
      if !aok {
        cur := b.At();
        bok := b.Next();
      } else if !bok {
        cur := a.At();
        aok := a.Next();
      } else {
        var acur, bcur := a.At(), b.At();
        if acur < bcur {
          cur := acur;
          aok := a.Next();
        } else if acur > bcur {
          cur := bcur;
          bok := b.Next();
        } else {
          cur := acur;
          NextBoth();
        }
      }
      UnionDelivers(p, a0, o, b0, k, a.cursor, aok, b.cursor, bok, width);
      return true, Cursor(p.live, cur, p.rest - {cur}, p.lim);
    }

    method NextLeft() returns (r: bool)
      requires Valid() && kind.Difference?
      modifies Repr
      ensures Valid() && old(cursor).Stepped(cursor, r) && (r ==> At() == cursor.pos)
      decreases Repr, 2
    {
      hide Valid, LeftAhead, Skipping, Cursor.Stepped, Cursor.Sought;
      Open();
      Start();
      ghost var q;
      r, q := DeliverLeft(cursor);
      cursor := q;
      Close();
    }

    method SeekLeft(v: nat) returns (r: bool)
      requires Valid() && kind.Difference? && 1 <= v < width
      modifies Repr
      ensures Valid() && old(cursor).Sought(v, cursor, r) && (r ==> At() == cursor.pos)
      decreases Repr, 2
    {
      hide Valid;
      Open();
      if cur >= v {
        return true;
      }
      hide LeftAhead, Skipping, Sinking, Cursor.Stepped, Cursor.Sought, Cursor.Sound, Cursor.Shifted;
      SeekBoth(v);
      ghost var q;
      r, q := DeliverLeft(cursor.Shifted(v));
      SeekByShift(cursor, v, q, r, width);
      DifferenceSeeks(cursor, q, r, a.cursor, aok, b.cursor, bok);
      cursor := Sinking(cursor, q, r);
      Close();
    }

    /** The loop of Next, after both operands have been started. */
    method DeliverLeft(ghost p: Cursor) returns (r: bool, ghost q: Cursor)
      requires Operands() && initialized && Current()
      requires p.Sound(width) && Skipping(p, a.cursor, aok, b.cursor, bok)
      modifies this`cur, this`aok, this`bok, a.Repr, b.Repr
      ensures Operands() && Current() && p.Stepped(q, r) && q.Sound(width)
      ensures LeftAhead(q, a.cursor, aok, b.cursor, bok)
      ensures if r then cur == q.pos else cur == old(cur) && q == Ended(p) && !aok
      decreases Repr, 1
    {
      hide Valid, LeftAhead, Skipping, Cursor.Stepped, Cursor.Sought;
      while true
        invariant Operands() && initialized && Current() && cur == old(cur)
        invariant Skipping(p, a.cursor, aok, b.cursor, bok)
        decreases if aok then width - a.cursor.pos else 0, if bok then width - b.cursor.pos else 0
      {
        ghost var a0, b0 := a.cursor, b.cursor;
        if !aok {
          DifferenceEnds(p, a0, b0, bok, width);
          return false, Ended(p);
        }
        var fcur := a.At();
        if !bok || fcur < b.At() {
          cur := fcur;
          aok := a.Next();
          DifferenceDelivers(p, a0, true, b0, bok, a.cursor, aok, width);
          return true, Cursor(p.live, cur, p.rest - {cur}, p.lim);
        } else if b.At() < fcur {
          bok := b.Seek(fcur);
          DifferenceCatchesUp(p, a0, true, b0, true, b.cursor, bok, width);
        } else {
          aok := a.Next();
          DifferenceSkips(p, a0, true, b0, true, a.cursor, aok, width);
        }
      }
    }
  }

  /** An iterator that has not been advanced, over the ids r. */
  ghost predicate Ready(p: Postings, r: set<nat>, w: nat)
    reads p, p.Repr
    ensures Ready(p, r, w) ==>
              p.Valid() && p.width == w && p.cursor.live && p.cursor.pos == 0 && p.cursor.rest == r
  {
    p.Valid() && p.width == w && p.cursor.live && p.cursor.pos == 0 && p.cursor.rest == r
  }

  ghost function Footprint(its: seq<Postings>): set<object> {
    set i, o | 0 <= i < |its| && o in its[i].Repr :: o
  }

  ghost predicate AllReady(its: seq<Postings>, rs: seq<set<nat>>, w: nat)
    reads its, Footprint(its)
    ensures AllReady(its, rs, w) ==> w > 0 && |its| == |rs|
  {
    && w > 0
    && |its| == |rs|
    && (forall i :: 0 <= i < |its| ==> Ready(its[i], rs[i], w))
    && forall i, j :: 0 <= i < j < |its| ==> its[i].Repr !! its[j].Repr
  }

  /** The ids in every one of the sets, and none if there are no sets. */
  ghost function InAll(rs: seq<set<nat>>): set<nat> {
    if rs == [] then {} else set x | x in rs[0] && forall i :: 0 <= i < |rs| ==> x in rs[i]
  }

  ghost function InAny(rs: seq<set<nat>>): set<nat> {
    set i, x | 0 <= i < |rs| && x in rs[i] :: x
  }

  lemma InHalves(rs: seq<set<nat>>, l: nat)
    requires 0 < l < |rs|
    ensures InAll(rs) == InAll(rs[..l]) * InAll(rs[l..])
    ensures InAny(rs) == InAny(rs[..l]) + InAny(rs[l..])
  {
    var x, y := rs[..l], rs[l..];
    forall v | v in InAll(x) * InAll(y) ensures v in InAll(rs) {
      forall i | 0 <= i < |rs| ensures v in rs[i] {
        assert if i < l then rs[i] == x[i] else rs[i] == y[i - l];
      }
    }
    forall v | v in InAll(rs) ensures v in InAll(x) * InAll(y) {
      assert y[0] == rs[l];
    }
    forall v | v in InAny(rs) ensures v in InAny(x) + InAny(y) {
      var i :| 0 <= i < |rs| && v in rs[i];
      assert if i < l then v in x[i] else v in y[i - l];
    }
  }

  method Empty(ghost w: nat) returns (p: Postings)
    requires w > 0
    ensures Ready(p, {}, w) && fresh(p.Repr)
  {
    p := new Postings.OfList(List, [], w);
  }

  lemma Halves(its: seq<Postings>, rs: seq<set<nat>>, w: nat, l: nat)
    requires AllReady(its, rs, w) && l <= |its|
    ensures AllReady(its[..l], rs[..l], w) && AllReady(its[l..], rs[l..], w)
    ensures Footprint(its[..l]) !! Footprint(its[l..])
    ensures Footprint(its) == Footprint(its[..l]) + Footprint(its[l..])
  {
    forall o | o in Footprint(its) ensures o in Footprint(its[..l]) + Footprint(its[l..]) {
      var i :| 0 <= i < |its| && o in its[i].Repr;
      assert if i < l then its[..l][i] == its[i] else its[l..][i - l] == its[i];
    }
  }

  lemma Few(its: seq<Postings>, rs: seq<set<nat>>, w: nat)
    requires AllReady(its, rs, w)
    ensures |its| == 0 ==> InAll(rs) == InAny(rs) == {}
    ensures |its| == 1 ==> InAll(rs) == InAny(rs) == rs[0] && Ready(its[0], rs[0], w)
    ensures |its| == 1 ==> Footprint(its) == its[0].Repr
  {
  }

  /** A balanced tree of intersections. */
  method Intersect(its: seq<Postings>, ghost rs: seq<set<nat>>, ghost w: nat) returns (p: Postings)
    requires AllReady(its, rs, w)
    ensures Ready(p, InAll(rs), w) && fresh(p.Repr - Footprint(its))
    decreases |its|
  {
    hide Postings.Valid, Ready, AllReady, InAll, InAny;
    Few(its, rs, w);
    if |its| == 0 {
      p := Empty(w);
    } else if |its| == 1 {
      p := its[0];
    } else {
      var l := |its| / 2;
      Halves(its, rs, w, l);
      InHalves(rs, l);
      var x := Intersect(its[..l], rs[..l], w);
      var y := Intersect(its[l..], rs[l..], w);
      p := new Postings.Of(Intersection, x, y);
    }
  }

  /** A balanced tree of unions. */
  method Merge(its: seq<Postings>, ghost rs: seq<set<nat>>, ghost w: nat) returns (p: Postings)
    requires AllReady(its, rs, w)
    ensures Ready(p, InAny(rs), w) && fresh(p.Repr - Footprint(its))
    decreases |its|
  {
    hide Postings.Valid, Ready, AllReady, InAll, InAny;
    Few(its, rs, w);
    if |its| == 0 {
      p := Empty(w);
    } else if |its| == 1 {
      p := its[0];
    } else {
      var l := |its| / 2;
      Halves(its, rs, w, l);
      InHalves(rs, l);
      var x := Merge(its[..l], rs[..l], w);
      var y := Merge(its[l..], rs[l..], w);
      p := new Postings.Of(Union, x, y);
    }
  }

  method Without(full: Postings, drop: Postings, ghost r: set<nat>, ghost d: set<nat>, ghost w: nat)
    returns (p: Postings)
    requires Ready(full, r, w) && Ready(drop, d, w) && full.Repr !! drop.Repr
    ensures Ready(p, r - d, w) && fresh(p.Repr - full.Repr - drop.Repr)
  {
    p := new Postings.Of(Difference, full, drop);
  }

  /** All ids of an iterator, by calling Next until it returns false. */
  method ExpandPostings(p: Postings) returns (res: seq<nat>)
    requires p.Valid() && p.cursor.live && p.cursor.pos == 0
    modifies p.Repr
    ensures Increasing(res, 0) && Elements(res) == old(p.cursor.rest)
  {
    hide Postings.Valid;
    res := [];
    ghost var c := p.cursor;
    var more := p.Next();
    while more
      invariant p.Valid() && c.live && c.Stepped(p.cursor, more) && (more ==> p.At() == p.cursor.pos)
      invariant Increasing(res, 0) && (forall i :: 0 <= i < |res| ==> res[i] <= c.pos)
      invariant Elements(res) + c.rest == old(p.cursor.rest)
      invariant p.cursor.live <==> more
      invariant c.Sound(p.width)
      decreases if more then p.width - p.cursor.pos else 0
    {
      res := res + [p.At()];
      c := p.cursor;
      more := p.Next();
    }
  }

  /** For instance, a numbered list of 5 and 10 claims to have an id from 2^32 + 3 on. */
  method FarSeekMisleads() returns (r: bool, id: nat)
    ensures r && id == 5
  {
    var ids: seq<nat> := [5, 10];
    var p := new Postings.OfList(Numbered, ids, UINT32);
    assert ids[0] in Elements(ids) && 5 in p.cursor.rest;
    r := p.SeekInList(UINT32 + 3);
    assert p.cursor.pos in Elements(ids);
    id := p.At();
  }

  /** While nothing has run out, answers depend only on the ids ahead: two
      iterators at the same id with the same ids ahead agree on every call. */
  lemma SameAnswers(c: Cursor, d: Cursor, c': Cursor, d': Cursor, r: bool, q: bool, v: nat)
    requires c.live && d.live && c.pos == d.pos && c.rest == d.rest
    requires (c.Stepped(c', r) && d.Stepped(d', q)) || (c.Sought(v, c', r) && d.Sought(v, d', q))
    ensures r == q && (r ==> c'.live && d'.live && c'.pos == d'.pos && c'.rest == d'.rest)
  {
  }
}