/** The free list of user/umalloc.c as a value: blocks in address order, and what
    allocating and freeing do to them. Addresses count headers. */
module FreeList {
  datatype Block = Block(a: nat, n: nat)

  function Interval(b: Block): (s: set<nat>)
    ensures forall u :: u in s <==> b.a <= u < b.a + b.n
    decreases b.n
  {
    if b.n == 0 then {} else {b.a} + Interval(Block(b.a + 1, b.n - 1))
  }

  /** The units of all blocks. */
  function Units(bs: seq<Block>): set<nat> {
    if bs == [] then {} else Interval(bs[0]) + Units(bs[1..])
  }

  /** In address order, and no block touches the next. */
  ghost predicate Coalesced(bs: seq<Block>) {
    forall i, j :: 0 <= i < j < |bs| ==> bs[i].a + bs[i].n < bs[j].a
  }

  /** The list with its sentinel of size 0 in front. */
  ghost predicate ValidList(bs: seq<Block>) {
    |bs| > 0 && bs[0].n == 0 && (forall i :: 1 <= i < |bs| ==> bs[i].n > 0) && Coalesced(bs)
  }

  lemma {:induction false} UnitsMember(bs: seq<Block>, u: nat)
    ensures u in Units(bs) <==> exists i :: 0 <= i < |bs| && u in Interval(bs[i])
  {
    if bs != [] {
      UnitsMember(bs[1..], u);
      if i :| 0 <= i < |bs| && u in Interval(bs[i]) && i > 0 {
        assert bs[1..][i - 1] == bs[i];
      }
    }
  }

  lemma {:induction false} UnitsConcat(x: seq<Block>, y: seq<Block>)
    ensures Units(x + y) == Units(x) + Units(y)
  {
    if x == [] {
      assert x + y == y;
    } else {
      assert (x + y)[1..] == x[1..] + y;
      UnitsConcat(x[1..], y);
    }
  }

  lemma UnitsSplit(bs: seq<Block>, i: nat)
    requires i < |bs|
    ensures Units(bs) == Units(bs[..i]) + Interval(bs[i]) + Units(bs[i + 1..])
  {
    assert bs == bs[..i] + ([bs[i]] + bs[i + 1..]);
    UnitsConcat(bs[..i], [bs[i]] + bs[i + 1..]);
    assert ([bs[i]] + bs[i + 1..])[1..] == bs[i + 1..];
  }

  // ----- counting

  function Total(bs: seq<Block>): nat {
    if bs == [] then 0 else bs[0].n + Total(bs[1..])
  }

  lemma {:induction false} IntervalSize(b: Block)
    ensures |Interval(b)| == b.n
    decreases b.n
  {
    if b.n > 0 {
      IntervalSize(Block(b.a + 1, b.n - 1));
    }
  }

  /** The blocks of a list overlap nowhere: their sizes add up to their units. */
  lemma {:induction false} UnitsCount(bs: seq<Block>)
    requires Coalesced(bs)
    ensures |Units(bs)| == Total(bs)
  {
    if bs != [] {
      Rest(bs);
      UnitsCount(bs[1..]);
      IntervalSize(bs[0]);
    }
  }

  // ----- a fully coalesced list is determined by its units

  lemma {:induction false} CanonicalForm(x: seq<Block>, y: seq<Block>)
    requires Coalesced(x) && Coalesced(y) && Units(x) == Units(y)
    requires (forall i :: 0 <= i < |x| ==> x[i].n > 0) && (forall i :: 0 <= i < |y| ==> y[i].n > 0)
    ensures x == y
  {
    assert (x != [] ==> x[0].a in Units(x)) && (y != [] ==> y[0].a in Units(y));
    if x != [] && y != [] {
      FirstStart(x, y);
      FirstStart(y, x);
      FirstEnd(x, y);
      FirstEnd(y, x);
      Rest(x);
      Rest(y);
      assert Units(x[1..]) == Units(x) - Interval(x[0]);
      assert Units(y[1..]) == Units(y) - Interval(y[0]);
      CanonicalForm(x[1..], y[1..]);
      assert x == [x[0]] + x[1..] && y == [y[0]] + y[1..];
    }
  }

  lemma FirstStart(x: seq<Block>, y: seq<Block>)
    requires Coalesced(x) && x != [] && y != [] && Units(x) == Units(y) && y[0].n > 0
    ensures x[0].a <= y[0].a
  {
    var u := y[0].a;
    assert u in Units(y);
    UnitsMember(x, u);
  }

  lemma FirstEnd(x: seq<Block>, y: seq<Block>)
    requires Coalesced(x) && Coalesced(y) && x != [] && y != [] && Units(x) == Units(y) && x[0].a == y[0].a
    requires x[0].n > 0 && y[0].n > 0
    ensures x[0].n <= y[0].n
  {
    if x[0].n > y[0].n {
      var u := y[0].a + y[0].n;
      assert u in Interval(x[0]) && u in Units(x);
      UnitsMember(y, u);
    }
  }

  lemma Rest(x: seq<Block>)
    requires Coalesced(x) && x != []
    ensures Units(x[1..]) !! Interval(x[0]) && Coalesced(x[1..])
  {
    forall u | u in Units(x[1..]) ensures u !in Interval(x[0]) {
      UnitsMember(x[1..], u);
    }
  }

  // ----- free

  /** b lies after block t and before block t + 1. */
  ghost predicate Between(bs: seq<Block>, t: nat, b: Block) {
    t < |bs| && bs[t].a < b.a && (t + 1 < |bs| ==> b.a < bs[t + 1].a)
  }

  /** The list with b put after block t, joined with its neighbours where they touch. */
  function Freed(bs: seq<Block>, t: nat, b: Block): seq<Block>
    requires t < |bs|
  {
    var (b1, rest) := Up(bs, t, b);
    if bs[t].a + bs[t].n == b.a then bs[..t] + [Block(bs[t].a, bs[t].n + b1.n)] + rest
    else bs[..t + 1] + [b1] + rest
  }

  /** b overlaps no free block, so it ends before the next and starts after the previous. */
  lemma Room(bs: seq<Block>, t: nat, b: Block)
    requires ValidList(bs) && Between(bs, t, b) && b.n > 0 && Interval(b) !! Units(bs)
    ensures bs[t].a + bs[t].n <= b.a && (t + 1 < |bs| ==> b.a + b.n <= bs[t + 1].a)
    ensures t == 0 ==> bs[t].a + bs[t].n < b.a
  {
    UnitsSplit(bs, t);
    assert b.a in Interval(b);
    if t + 1 < |bs| {
      UnitsSplit(bs, t + 1);
      assert bs[t + 1].a in Interval(bs[t + 1]);
    }
  }

  lemma Placed(x: seq<Block>, m: Block, y: seq<Block>)
    requires Coalesced(x) && Coalesced(y)
    requires (forall i :: 0 <= i < |x| ==> x[i].a + x[i].n < m.a) && (forall i :: 0 <= i < |y| ==> m.a + m.n < y[i].a)
    ensures Coalesced(x + [m] + y)
  {
  }

  /** b joined with the block above it, and the blocks after that. */
  function Up(bs: seq<Block>, t: nat, b: Block): (Block, seq<Block>)
    requires t < |bs|
  {
    if t + 1 < |bs| && b.a + b.n == bs[t + 1].a then (Block(b.a, b.n + bs[t + 1].n), bs[t + 2..]) else (b, bs[t + 1..])
  }

  lemma UpAbove(bs: seq<Block>, t: nat, b: Block)
    requires ValidList(bs) && Between(bs, t, b) && b.n > 0 && Interval(b) !! Units(bs)
    ensures var (b1, rest) := Up(bs, t, b);
            && b1.a == b.a && b1.n > 0 && Coalesced(rest) &&
               (forall i :: 0 <= i < |rest| ==> rest[i].n > 0 && b1.a + b1.n < rest[i].a)
            && Interval(b1) + Units(rest) == Interval(b) + Units(bs[t + 1..])
  {
    Room(bs, t, b);
    var (b1, rest) := Up(bs, t, b);
    if t + 1 < |bs| && b.a + b.n == bs[t + 1].a {
      assert bs[t + 1..][1..] == rest;
      assert Interval(b1) == Interval(b) + Interval(bs[t + 1]);
    }
  }

  lemma FreedValid(bs: seq<Block>, t: nat, b: Block)
    requires ValidList(bs) && Between(bs, t, b) && b.n > 0 && Interval(b) !! Units(bs)
    ensures ValidList(Freed(bs, t, b)) && Freed(bs, t, b)[0] == bs[0]
  {
    hide Up, Units;
    Room(bs, t, b);
    UpAbove(bs, t, b);
    var (b1, rest) := Up(bs, t, b);
    if bs[t].a + bs[t].n == b.a {
      Placed(bs[..t], Block(bs[t].a, bs[t].n + b1.n), rest);
    } else {
      Placed(bs[..t + 1], b1, rest);
    }
  }

  lemma FreedUnits(bs: seq<Block>, t: nat, b: Block)
    requires ValidList(bs) && Between(bs, t, b) && b.n > 0 && Interval(b) !! Units(bs)
    ensures Units(Freed(bs, t, b)) == Units(bs) + Interval(b)
  {
    hide Up, Units, Coalesced;
    UpAbove(bs, t, b);
    var (b1, rest) := Up(bs, t, b);
    UnitsSplit(bs, t);
    var f := Freed(bs, t, b);
    if bs[t].a + bs[t].n == b.a {
      UnitsSplit(f, t);
      assert f[..t] == bs[..t] && f[t + 1..] == rest;
      assert Interval(f[t]) == Interval(bs[t]) + Interval(b1);
    } else {
      UnitsSplit(f, t + 1);
      UnitsSplit(bs[..t + 1], t);
      UnitsNone();
      assert f[..t + 1] == bs[..t + 1] && f[t + 1] == b1 && f[t + 2..] == rest;
      assert bs[..t + 1][..t] == bs[..t] && bs[..t + 1][t + 1..] == [];
    }
  }

  lemma UnitsNone()
    ensures Units([]) == {}
  {
  }

  // ----- malloc

  /** The list after n units are cut from the end of block j. */
  function Cut(bs: seq<Block>, j: nat, n: nat): seq<Block>
    requires j < |bs| && n <= bs[j].n
  {
    if bs[j].n == n then bs[..j] + bs[j + 1..] else bs[j := Block(bs[j].a, bs[j].n - n)]
  }

  function Piece(bs: seq<Block>, j: nat, n: nat): Block
    requires j < |bs| && n <= bs[j].n
  {
    Block(bs[j].a + bs[j].n - n, n)
  }

  lemma CutValid(bs: seq<Block>, j: nat, n: nat)
    requires ValidList(bs) && 0 < j < |bs| && 0 < n <= bs[j].n
    ensures ValidList(Cut(bs, j, n)) && Cut(bs, j, n)[0] == bs[0]
  {
  }

  lemma CutUnits(bs: seq<Block>, j: nat, n: nat)
    requires ValidList(bs) && 0 < j < |bs| && 0 < n <= bs[j].n
    ensures Units(Cut(bs, j, n)) + Interval(Piece(bs, j, n)) == Units(bs)
    ensures Units(Cut(bs, j, n)) !! Interval(Piece(bs, j, n))
  {
    hide Interval, Units, Coalesced;
    UnitsSplit(bs, j);
    var c := Cut(bs, j, n);
    if bs[j].n == n {
      UnitsConcat(bs[..j], bs[j + 1..]);
    } else {
      UnitsSplit(c, j);
      assert c[..j] == bs[..j] && c[j + 1..] == bs[j + 1..];
    }
    forall u | u in Units(c) ensures u !in Interval(Piece(bs, j, n)) {
      CutApart(bs, j, n, u);
    }
  }

  lemma CutApart(bs: seq<Block>, j: nat, n: nat, u: nat)
    requires ValidList(bs) && 0 < j < |bs| && 0 < n <= bs[j].n && u in Units(Cut(bs, j, n))
    ensures u !in Interval(Piece(bs, j, n))
  {
    hide Interval, Units;
    var c := Cut(bs, j, n);
    UnitsMember(c, u);
    var i :| 0 <= i < |c| && u in Interval(c[i]);
    if bs[j].n == n {
      assert c[i] == bs[if i < j then i else i + 1];
    }
  }

  /** Freeing what was just allocated gives back the same list, whatever the
      order in which neighbours are joined. */
  lemma FreeUndoesMalloc(bs: seq<Block>, j: nat, n: nat, t: nat)
    requires ValidList(bs) && 0 < j < |bs| && 0 < n <= bs[j].n
    requires Between(Cut(bs, j, n), t, Piece(bs, j, n))
    ensures Freed(Cut(bs, j, n), t, Piece(bs, j, n)) == bs
  {
    var c, b := Cut(bs, j, n), Piece(bs, j, n);
    CutValid(bs, j, n);
    CutUnits(bs, j, n);
    FreedValid(c, t, b);
    FreedUnits(c, t, b);
    var f := Freed(c, t, b);
    assert Units(f) == Units(bs);
    SameUnits(f, bs);
  }

  lemma TailCoalesced(x: seq<Block>)
    requires ValidList(x)
    ensures Coalesced(x[1..]) && forall i :: 0 <= i < |x[1..]| ==> x[1..][i].n > 0
  {
  }

  lemma SameUnits(x: seq<Block>, y: seq<Block>)
    requires ValidList(x) && ValidList(y) && x[0] == y[0] && Units(x) == Units(y)
    ensures x == y
  {
    hide Coalesced;
    assert Units(x[1..]) == Units(x) && Units(y[1..]) == Units(y);
    TailCoalesced(x);
    TailCoalesced(y);
    CanonicalForm(x[1..], y[1..]);
    assert x == [x[0]] + x[1..] && y == [y[0]] + y[1..];
  }
}
