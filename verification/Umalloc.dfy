/** malloc and free of user/umalloc.c over a memory of headers. Addresses count
    headers, as the code's pointer arithmetic does; 0 is the null pointer. */
module Umalloc {
  import opened Common
  import opened FreeList

  datatype Header = Header(ptr: nat, size: nat)

  type Memory = map<nat, Header>

  const HEADER_SIZE := 16
  const MIN_UNITS := 4096

  /** What morecore asks of sbrk for nu units. */
  function CoreUnits(nu: nat): (n: nat)
    ensures n >= nu && n >= 4096 && (n == nu || n == 4096)
  {
    if nu < MIN_UNITS then MIN_UNITS else nu
  }

  /** The headers needed for nbytes bytes, and one for the block's own header. */
  function NumUnits(nbytes: nat): (n: nat)
    ensures n > 0 && (n - 1) * HEADER_SIZE >= nbytes && (n > 1 ==> (n - 2) * HEADER_SIZE < nbytes)
  {
    (nbytes + HEADER_SIZE - 1) / HEADER_SIZE + 1
  }

  // ----- the circular list in memory

  /** The blocks are linked in this order, and the last one to the address to. */
  ghost predicate Chain(mem: Memory, xs: seq<Block>, to: nat) {
    forall i :: 0 <= i < |xs| ==> LinkAt(mem, xs, i, to)
  }

  predicate LinkAt(mem: Memory, xs: seq<Block>, i: nat, to: nat)
    requires i < |xs|
  {
    xs[i].a in mem && mem[xs[i].a] == Header(if i + 1 < |xs| then xs[i + 1].a else to, xs[i].n)
  }

  /** The circle of the free list. */
  ghost predicate Linked(mem: Memory, bs: seq<Block>) {
    |bs| > 0 && Chain(mem, bs, bs[0].a)
  }

  function Head(xs: seq<Block>, to: nat): nat {
    if xs == [] then to else xs[0].a
  }

  lemma ChainJoin(mem: Memory, x: seq<Block>, m: Block, y: seq<Block>, to: nat)
    requires Chain(mem, x, m.a) && m.a in mem && mem[m.a] == Header(Head(y, to), m.n) && Chain(mem, y, to)
    ensures Chain(mem, x + [m] + y, to)
  {
    var z := x + [m] + y;
    forall i | 0 <= i < |z| ensures LinkAt(mem, z, i, to) {
      if i < |x| {
        assert LinkAt(mem, x, i, m.a);
      } else if i > |x| {
        assert LinkAt(mem, y, i - |x| - 1, to);
      }
    }
  }

  lemma ChainSplit(mem: Memory, xs: seq<Block>, t: nat, to: nat)
    requires Chain(mem, xs, to) && t < |xs|
    ensures Chain(mem, xs[..t], xs[t].a) && Chain(mem, xs[t + 1..], to)
    ensures xs[t].a in mem && mem[xs[t].a] == Header(Head(xs[t + 1..], to), xs[t].n)
  {
    assert LinkAt(mem, xs, t, to);
    forall i | 0 <= i < t ensures LinkAt(mem, xs[..t], i, xs[t].a) {
      assert LinkAt(mem, xs, i, to);
    }
    var ys := xs[t + 1..];
    forall i | 0 <= i < |ys| ensures LinkAt(mem, ys, i, to) {
      assert LinkAt(mem, xs, t + 1 + i, to);
    }
  }

  ghost predicate Elsewhere(xs: seq<Block>, p: nat) {
    forall i :: 0 <= i < |xs| ==> xs[i].a != p
  }

  lemma ChainFrame(mem: Memory, xs: seq<Block>, to: nat, p: nat, h: Header)
    requires Chain(mem, xs, to) && Elsewhere(xs, p)
    ensures Chain(mem[p := h], xs, to)
  {
    var m := mem[p := h];
    forall i | 0 <= i < |xs| ensures LinkAt(m, xs, i, to) {
      assert LinkAt(mem, xs, i, to);
    }
  }

  ghost predicate OnList(bs: seq<Block>, a: nat) {
    exists i :: 0 <= i < |bs| && bs[i].a == a
  }

  // ----- what is allocated

  ghost predicate Holds(own: map<nat, nat>, a: nat, n: nat) {
    forall u :: a <= u < a + n ==> u in own && own[u] == a
  }

  /** own gives for each allocated unit the block it is in. */
  ghost predicate LiveOk(live: map<nat, nat>, own: map<nat, nat>) {
    && (forall a :: a in live ==> live[a] > 0 && Holds(own, a, live[a]))
    && (forall u :: u in own ==> own[u] in live && own[u] <= u < own[u] + live[own[u]])
  }

  /** Every unit obtained from sbrk is in exactly one block, free or allocated. */
  ghost predicate Ledger(bs: seq<Block>, live: map<nat, nat>, own: map<nat, nat>, heap: set<nat>) {
    LiveOk(live, own) && Units(bs) !! own.Keys && Units(bs) + own.Keys == heap
  }

  /** The blocks of a heap, apart from the links. */
  ghost predicate BlocksOk(mem: Memory, base: nat, bs: seq<Block>, live: map<nat, nat>, own: map<nat, nat>,
                           heap: set<nat>) {
    && ValidList(bs) && bs[0] == Block(base, 0)
    && Ledger(bs, live, own, heap) && (forall u :: u in heap ==> u > base)
    && (forall a :: a in live ==> a in mem && mem[a].size == live[a])
  }

  /** No unit of an allocated block, header or contents, is written. */
  ghost predicate Untouched(mem: Memory, mem': Memory, own: map<nat, nat>) {
    forall u :: u in own && u in mem ==> u in mem' && mem'[u] == mem[u]
  }

  lemma UntouchedOn(m0: Memory, m1: Memory, m2: Memory, own: map<nat, nat>, own': map<nat, nat>)
    requires Untouched(m0, m1, own) && Untouched(m1, m2, own') && own.Keys <= own'.Keys
    ensures Untouched(m0, m2, own)
  {
  }

  lemma UntouchedSame(mem: Memory, own: map<nat, nat>)
    ensures Untouched(mem, mem, own)
  {
  }

  function Give(own: map<nat, nat>, b: Block): map<nat, nat> {
    map u | u in own.Keys + Interval(b) :: if u in Interval(b) then b.a else own[u]
  }

  function TakeBack(own: map<nat, nat>, b: Block): map<nat, nat> {
    map u | u in own && u !in Interval(b) :: own[u]
  }

  lemma LiveGiven(live: map<nat, nat>, own: map<nat, nat>, b: Block)
    requires LiveOk(live, own) && b.n > 0 && Interval(b) !! own.Keys
    ensures b.a !in live && LiveOk(live[b.a := b.n], Give(own, b))
  {
    hide Interval, Holds;
    assert b.a in Interval(b);
    if b.a in live {
      HoldsStart(own, b.a, live[b.a]);
    }
    forall a | a in live ensures Holds(Give(own, b), a, live[a]) {
      HoldsStill(own, b, a, live[a]);
    }
    HoldsNew(own, b);
  }

  lemma HoldsStart(own: map<nat, nat>, a: nat, n: nat)
    requires Holds(own, a, n) && n > 0
    ensures a in own
  {
  }

  lemma HoldsStill(own: map<nat, nat>, b: Block, a: nat, n: nat)
    requires Holds(own, a, n) && Interval(b) !! own.Keys
    ensures Holds(Give(own, b), a, n)
  {
    hide Interval;
  }

  lemma HoldsNew(own: map<nat, nat>, b: Block)
    ensures Holds(Give(own, b), b.a, b.n)
  {
    hide Interval;
  }

  lemma LiveTaken(live: map<nat, nat>, own: map<nat, nat>, a: nat)
    requires LiveOk(live, own) && a in live
    ensures LiveOk(live - {a}, TakeBack(own, Block(a, live[a]))) && Interval(Block(a, live[a])) <= own.Keys
  {
    hide Interval;
    assert Holds(own, a, live[a]);
    forall x | x in live && x != a ensures Holds(TakeBack(own, Block(a, live[a])), x, live[x]) {
      assert Holds(own, x, live[x]);
      forall u | x <= u < x + live[x] ensures u in own && u !in Interval(Block(a, live[a])) {
        assert u in own && own[u] == x;
      }
    }
  }

  lemma LedgerTaken(bs: seq<Block>, bs': seq<Block>, live: map<nat, nat>, own: map<nat, nat>, heap: set<nat>, a: nat)
    requires Ledger(bs, live, own, heap) && a in live && Units(bs') == Units(bs) + Interval(Block(a, live[a]))
    ensures Ledger(bs', live - {a}, TakeBack(own, Block(a, live[a])), heap)
  {
    hide Interval, Units, LiveOk;
    LiveTaken(live, own, a);
  }

  lemma LedgerGiven(bs: seq<Block>, bs': seq<Block>, live: map<nat, nat>, own: map<nat, nat>, heap: set<nat>, b: Block)
    requires Ledger(bs, live, own, heap) && b.n > 0 && Units(bs') + Interval(b) == Units(bs) &&
             Units(bs') !! Interval(b)
    ensures b.a !in live && Ledger(bs', live[b.a := b.n], Give(own, b), heap)
  {
    hide Interval, Units, LiveOk;
    LiveGiven(live, own, b);
  }

  lemma LedgerGrown(bs: seq<Block>, live: map<nat, nat>, own: map<nat, nat>, heap: set<nat>, b: Block)
    requires Ledger(bs, live, own, heap) && b.n > 0 && Interval(b) !! heap
    ensures b.a !in live && Ledger(bs, live[b.a := b.n], Give(own, b), heap + Interval(b))
  {
    hide Interval, Units, LiveOk;
    LiveGiven(live, own, b);
  }

  /** The sizes of the free blocks and the units of the allocated ones, each of
      which is in one allocated block, add up to all units from sbrk. */
  lemma Conservation(bs: seq<Block>, live: map<nat, nat>, own: map<nat, nat>, heap: set<nat>)
    requires Ledger(bs, live, own, heap) && ValidList(bs)
    ensures Total(bs) + |own.Keys| == |heap|
    ensures forall a :: a in live ==> Interval(Block(a, live[a])) == set u | u in own && own[u] == a
  {
    hide Units, Interval, Coalesced;
    UnitsCount(bs);
    forall a | a in live ensures Interval(Block(a, live[a])) == set u | u in own && own[u] == a {
      assert Holds(own, a, live[a]);
    }
  }

  // ----- the pointers that free and malloc write

  /** free's two assignments to the header of bp and to that of p. */
  function FreeLinks(mem: Memory, p: nat, bp: nat): Memory
    requires p in mem && bp in mem && mem[p].ptr in mem && p != bp
  {
    var q := mem[p].ptr;
    var h := if bp + mem[bp].size == q then Header(mem[q].ptr, mem[bp].size + mem[q].size) else Header(q, mem[bp].size);
    if p + mem[p].size == bp then mem[bp := h][p := Header(h.ptr, mem[p].size + h.size)]
    else mem[bp := h][p := Header(bp, mem[p].size)]
  }

  /** free's stores, in terms of the list. */
  lemma FreeLinksAre(mem: Memory, bs: seq<Block>, t: nat, b: Block)
    requires ValidList(bs) && Linked(mem, bs) && Between(bs, t, b) && b.a in mem && mem[b.a].size == b.n
    ensures bs[t].a in mem && mem[bs[t].a].ptr in mem && bs[t].a != b.a
    ensures var (b1, rest), p, base := Up(bs, t, b), bs[t].a, bs[0].a;
            FreeLinks(mem, p, b.a) == mem[b.a := Header(Head(rest, base), b1.n)]
              [p := if p + bs[t].n == b.a then Header(Head(rest, base), bs[t].n + b1.n) else Header(b.a, bs[t].n)]
  {
    hide Chain, Coalesced, Elsewhere;
    Apart(bs, t, b);
    var base := bs[0].a;
    ChainSplit(mem, bs, t, base);
    ChainSplit(mem, bs, 0, base);
    if t + 1 < |bs| {
      ChainSplit(mem, bs, t + 1, base);
    }
  }

  lemma FreedLinked(mem: Memory, bs: seq<Block>, t: nat, b: Block)
    requires ValidList(bs) && Linked(mem, bs) && Between(bs, t, b) && b.n > 0 && Interval(b) !! Units(bs) &&
             b.a in mem && mem[b.a].size == b.n
    ensures bs[t].a in mem && mem[bs[t].a].ptr in mem && bs[t].a != b.a &&
            Linked(FreeLinks(mem, bs[t].a, b.a), Freed(bs, t, b))
    ensures OnList(Freed(bs, t, b), bs[t].a)
  {
    hide Interval, Units, Chain, Coalesced, Elsewhere, FreeLinks, Up, Head;
    FreeLinksAre(mem, bs, t, b);
    Apart(bs, t, b);
    var base, p := bs[0].a, bs[t].a;
    var (b1, rest) := Up(bs, t, b);
    UpAbove(bs, t, b);
    RestChain(mem, bs, t, b);
    ChainSplit(mem, bs, t, base);
    var m := FreeLinks(mem, p, b.a);
    var h := Header(Head(rest, base), b1.n);
    var f := Freed(bs, t, b);
    assert f[t].a == p;
    ChainFrame(mem, bs[..t], p, b.a, h);
    ChainFrame(mem[b.a := h], bs[..t], p, p, m[p]);
    ChainFrame(mem, rest, base, b.a, h);
    ChainFrame(mem[b.a := h], rest, base, p, m[p]);
    if p + bs[t].n == b.a {
      ChainJoin(m, bs[..t], Block(p, bs[t].n + b1.n), rest, base);
    } else {
      EmptyChain(m, b1.a);
      ChainJoin(m, [], b1, rest, base);
      assert [] + [b1] + rest == [b1] + rest;
      HeadOf(b1, rest, base);
      ChainJoin(m, bs[..t], bs[t], [b1] + rest, base);
      assert bs[..t] + [bs[t]] + ([b1] + rest) == f;
    }
  }

  lemma HeadOf(b: Block, rest: seq<Block>, to: nat)
    ensures Head([b] + rest, to) == b.a
  {
  }

  lemma RestChain(mem: Memory, bs: seq<Block>, t: nat, b: Block)
    requires Linked(mem, bs) && t < |bs|
    ensures Chain(mem, Up(bs, t, b).1, bs[0].a)
  {
    hide Chain;
    ChainSplit(mem, bs, t, bs[0].a);
    if t + 1 < |bs| {
      ChainSplit(mem, bs, t + 1, bs[0].a);
    }
  }

  lemma EmptyChain(mem: Memory, to: nat)
    ensures Chain(mem, [], to)
  {
  }

  /** The blocks around the place of b start elsewhere. */
  lemma Apart(bs: seq<Block>, t: nat, b: Block)
    requires ValidList(bs) && Between(bs, t, b)
    ensures bs[0].a <= bs[t].a
    ensures Elsewhere(bs[..t], b.a) && Elsewhere(bs[..t], bs[t].a)
    ensures Elsewhere(Up(bs, t, b).1, b.a) && Elsewhere(Up(bs, t, b).1, bs[t].a)
  {
    var rest := Up(bs, t, b).1;
    forall i | 0 <= i < |rest| ensures rest[i].a != b.a && rest[i].a != bs[t].a {
      if t + 1 < |bs| && b.a + b.n == bs[t + 1].a {
        assert rest[i] == bs[t + 2 + i];
      } else {
        assert rest[i] == bs[t + 1 + i];
      }
    }
  }

  /** A store to a header's size field alone. */
  function SetSize(mem: Memory, a: nat, n: nat): Memory {
    mem[a := Header(if a in mem then mem[a].ptr else 0, n)]
  }

  /** malloc's stores when it takes n units of the block at p, which follows prevp. */
  function CutLinks(mem: Memory, prevp: nat, p: nat, n: nat): Memory
    requires prevp in mem && p in mem && n <= mem[p].size
  {
    if mem[p].size == n then mem[prevp := Header(mem[p].ptr, mem[prevp].size)]
    else SetSize(SetSize(mem, p, mem[p].size - n), p + mem[p].size - n, n)
  }

  lemma CutLinked(mem: Memory, bs: seq<Block>, j: nat, n: nat)
    requires ValidList(bs) && Linked(mem, bs) && 0 < j < |bs| && 0 < n <= bs[j].n
    ensures bs[j].a in mem && mem[bs[j].a].size == bs[j].n && bs[j - 1].a in mem
    ensures Linked(CutLinks(mem, bs[j - 1].a, bs[j].a, n), Cut(bs, j, n))
    ensures OnList(Cut(bs, j, n), bs[j - 1].a)
  {
    hide Chain, Coalesced;
    var base := bs[0].a;
    ChainSplit(mem, bs, j, base);
    ChainSplit(mem, bs, j - 1, base);
    var m, c := CutLinks(mem, bs[j - 1].a, bs[j].a, n), Cut(bs, j, n);
    CutAddrs(bs, j, n);
    assert c[j - 1].a == bs[j - 1].a;
    if bs[j].n == n {
      ChainFrame(mem, bs[..j - 1], bs[j - 1].a, bs[j - 1].a, m[bs[j - 1].a]);
      ChainFrame(mem, bs[j + 1..], base, bs[j - 1].a, m[bs[j - 1].a]);
      ChainJoin(m, bs[..j - 1], bs[j - 1], bs[j + 1..], base);
      assert bs[..j - 1] + [bs[j - 1]] + bs[j + 1..] == c;
    } else {
      var p, q := bs[j].a, bs[j].a + bs[j].n - n;
      ChainFrame(mem, bs[..j], p, p, m[p]);
      ChainFrame(mem[p := m[p]], bs[..j], p, q, m[q]);
      ChainFrame(mem, bs[j + 1..], base, p, m[p]);
      ChainFrame(mem[p := m[p]], bs[j + 1..], base, q, m[q]);
      ChainJoin(m, bs[..j], Block(p, bs[j].n - n), bs[j + 1..], base);
      assert bs[..j] + [Block(p, bs[j].n - n)] + bs[j + 1..] == c;
    }
  }

  lemma CutAddrs(bs: seq<Block>, j: nat, n: nat)
    requires ValidList(bs) && 0 < j < |bs| && 0 < n <= bs[j].n
    ensures Elsewhere(bs[..j - 1], bs[j - 1].a) && Elsewhere(bs[..j], bs[j].a) &&
            Elsewhere(bs[..j], bs[j].a + bs[j].n - n)
    ensures Elsewhere(bs[j + 1..], bs[j - 1].a) && Elsewhere(bs[j + 1..], bs[j].a) &&
            Elsewhere(bs[j + 1..], bs[j].a + bs[j].n - n)
  {
    var r := bs[j + 1..];
    assert forall i :: 0 <= i < |r| ==> r[i] == bs[j + 1 + i];
  }

  /** The y-th block after block f, around the circle. */
  function Around(f: nat, n: nat, y: nat): nat
    requires f < n && y < n
  {
    if f + 1 + y < n then f + 1 + y else f + 1 + y - n
  }

  ghost predicate AllSmaller(bs: seq<Block>, n: nat) {
    forall i :: 0 <= i < |bs| ==> bs[i].n < n
  }

  ghost predicate SomeFits(bs: seq<Block>, n: nat) {
    exists i :: 0 <= i < |bs| && bs[i].n >= n
  }

  lemma NoneFits(bs: seq<Block>, n: nat)
    requires AllSmaller(bs, n)
    ensures !SomeFits(bs, n)
  {
  }

  class Heap {
    const base: nat           // the address of the static header
    var mem: Memory
    var freep: nat
    ghost var nodes: seq<Block>      // base and the free blocks, in address order
    ghost var live: map<nat, nat>    // the allocated blocks and their sizes
    ghost var own: map<nat, nat>
    ghost var heap: set<nat>         // all units obtained from sbrk

    ghost predicate Valid()
      reads this
    {
      && base > 0 && BlocksOk(mem, base, nodes, live, own, heap)
      && (if freep == 0 then |nodes| == 1 && heap == {} else Linked(mem, nodes) && OnList(nodes, freep))
    }

    constructor (b: nat)
      requires b > 0
      ensures Valid() && base == b && live == map[] && heap == {}
    {
      base, mem, freep := b, map[], 0;
      nodes, live, own, heap := [Block(b, 0)], map[], map[], {};
    }

    /** free(bp + 1), for an allocated block. */
    method Free(bp: nat)
      requires Valid() && bp in live
      modifies this
      ensures Valid() && freep != 0
      ensures live == old(live) - {bp} && heap == old(heap)
      ensures Units(nodes) == Units(old(nodes)) + Interval(Block(bp, old(live)[bp]))
      ensures SomeFits(nodes, old(live)[bp])
      ensures own == TakeBack(old(own), Block(bp, old(live)[bp])) && Untouched(old(mem), mem, own)
    {
      hide Units, Interval, BlocksOk, Linked, Freed, OnList, TakeBack, Untouched;
      ghost var b := Block(bp, live[bp]);
      LiveAddr(mem, base, nodes, live, own, heap, bp);
      var p, t := Place(bp);
      Freeing(mem, base, nodes, live, own, heap, t, bp);
      ghost var m := FreeLinks(mem, p, bp);
      if bp + mem[bp].size == mem[p].ptr {
        mem := mem[bp := Header(mem[mem[p].ptr].ptr, mem[bp].size + mem[mem[p].ptr].size)];
      } else {
        mem := mem[bp := Header(mem[p].ptr, mem[bp].size)];
      }
      if p + mem[p].size == bp {
        mem := mem[p := Header(mem[bp].ptr, mem[p].size + mem[bp].size)];
      } else {
        mem := mem[p := Header(bp, mem[p].size)];
      }
      assert mem == m;
      freep := p;
      nodes, live, own := Freed(nodes, t, b), live - {bp}, TakeBack(own, b);
    }

    /** morecore, where sbrk gives brk if anything. */
    method Morecore(nu: nat, brk: Option<nat>) returns (p: nat)
      requires Valid() && freep != 0 && nu > 0 && Higher(brk)
      modifies this
      ensures Valid() && live == old(live) && own == old(own) && Untouched(old(mem), mem, own)
      ensures brk.None? ==> p == 0 && nodes == old(nodes) && heap == old(heap) && freep == old(freep)
      ensures brk.Some? ==>
                && p == freep != 0 && heap == old(heap) + Interval(Block(brk.value, CoreUnits(nu)))
                && Units(nodes) == old(Units(nodes)) + Interval(Block(brk.value, CoreUnits(nu)))
                && SomeFits(nodes, nu)
    {
      hide Units, Interval, BlocksOk, Linked, OnList, Give, TakeBack, Untouched;
      var n := CoreUnits(nu);
      UntouchedSame(mem, own);
      if brk.None? {
        return 0;
      }
      var hp := brk.value;
      Growing(mem, base, nodes, live, own, heap, Block(hp, n));
      mem := SetSize(mem, hp, n);
      live, own, heap := live[hp := n], Give(own, Block(hp, n)), heap + Interval(Block(hp, n));
      ghost var m1 := mem;
      Free(hp);
      UntouchedOn(old(mem), m1, mem, old(own), own);
      p := freep;
    }

    /** sbrk returns memory above all that it returned before. */
    ghost predicate Higher(brk: Option<nat>)
      reads this
    {
      brk.Some? ==> brk.value > base && forall u :: u in heap ==> u < brk.value
    }

    /** malloc, where sbrk gives brk if anything. calls counts calls of morecore. */
    method Malloc(nbytes: nat, brk: Option<nat>) returns (r: Option<nat>, ghost calls: nat)
      requires Valid() && Higher(brk)
      modifies this
      ensures Valid() && calls <= 1 && Untouched(old(mem), mem, old(own))
      ensures r.None? ==> brk.None? && live == old(live) && heap == old(heap) && nodes == old(nodes)
      ensures r.None? || calls == 1 ==> AllSmaller(old(nodes), NumUnits(nbytes))
      ensures r.Some? ==>
                && r.value > 0 && r.value - 1 !in old(live) && live == old(live)[r.value - 1 := NumUnits(nbytes)]
                && Units(nodes) !! Interval(Block(r.value - 1, NumUnits(nbytes)))
      ensures r.Some? && calls == 0 ==>
                && heap == old(heap)
                && Units(nodes) + Interval(Block(r.value - 1, NumUnits(nbytes))) == old(Units(nodes))
      ensures r.Some? && calls == 1 ==>
                && brk.Some? && var core := Interval(Block(brk.value, CoreUnits(NumUnits(nbytes))));
                && heap == old(heap) + core
                && Units(nodes) + Interval(Block(r.value - 1, NumUnits(nbytes))) == old(Units(nodes)) + core
    {
      hide Units, Interval, BlocksOk, Linked, OnList, NumUnits, CoreUnits, Searching, AllSmaller, SomeFits, Untouched;
      UntouchedSame(mem, own);
      var nunits := NumUnits(nbytes);
      calls := 0;
      if freep == 0 {
        FirstLink(mem, base, nodes, live, own, heap);
        mem := mem[base := Header(base, 0)];
        freep := base;
        NoneOwned(old(mem), mem, own);
      }
      var prevp := freep;
      ghost var f: nat, y: nat := IndexOf(nodes, freep), 0;
      SearchStarts(mem, nodes, freep, nunits);
      var p := mem[prevp].ptr;
      while true
        invariant Valid() && freep != 0 && calls <= 1 && live == old(live) && own == old(own) &&
                  Untouched(old(mem), mem, own)
        invariant Searching(nodes, freep, nunits, f, y, p, prevp)
        invariant calls == 0 ==> nodes == old(nodes) && heap == old(heap)
        invariant calls == 1 ==> brk.Some? && heap == old(heap) + Interval(Block(brk.value, CoreUnits(nunits)))
        invariant calls == 1 ==> Units(nodes) == old(Units(nodes)) + Interval(Block(brk.value, CoreUnits(nunits)))
        invariant calls == 1 ==> SomeFits(nodes, nunits) && AllSmaller(old(nodes), nunits)
        decreases 1 - calls, |nodes| - y
      {
        SearchSees(mem, base, nodes, live, own, heap, freep, nunits, f, y, p, prevp);
        if mem[p].size >= nunits {
          ghost var m1 := mem;
          r := TakeFrom(p, prevp, nunits, Around(f, |nodes|, y));
          UntouchedOn(old(mem), m1, mem, old(own), old(own));
          return;
        }
        if p == freep {
          NoneFits(nodes, nunits);
          ghost var m1 := mem;
          p := Morecore(nunits, brk);
          UntouchedOn(old(mem), m1, mem, old(own), own);
          if p == 0 {
            return None, calls;
          }
          calls := calls + 1;
          f, y := IndexOf(nodes, freep), 0;
          SearchStarts(mem, nodes, freep, nunits);
        } else {
          y := y + 1;
        }
        prevp := p;
        p := mem[p].ptr;
      }
    }

    /** malloc has found a block that is large enough. */
    method TakeFrom(p: nat, prevp: nat, nunits: nat, ghost j: nat) returns (r: Option<nat>)
      requires Valid() && freep != 0 && 0 < j < |nodes| && p == nodes[j].a && prevp == nodes[j - 1].a &&
               0 < nunits <= nodes[j].n
      modifies this
      ensures Valid() && heap == old(heap) && r.Some? && r.value > 0 && Untouched(old(mem), mem, old(own))
      ensures r.value - 1 !in old(live) && live == old(live)[r.value - 1 := nunits]
      ensures Units(nodes) + Interval(Block(r.value - 1, nunits)) == old(Units(nodes)) &&
              Units(nodes) !! Interval(Block(r.value - 1, nunits))
    {
      hide Units, Interval, BlocksOk, Linked, OnList, Cut, Give, Untouched;
      Cutting(mem, base, nodes, live, own, heap, j, nunits);
      ghost var m, b := CutLinks(mem, prevp, p, nunits), Piece(nodes, j, nunits);
      var q := p;
      if mem[p].size == nunits {
        mem := mem[prevp := Header(mem[p].ptr, mem[prevp].size)];
      } else {
        mem := SetSize(mem, p, mem[p].size - nunits);
        q := p + mem[p].size;
        mem := SetSize(mem, q, nunits);
      }
      assert mem == m && q == b.a;
      freep := prevp;
      nodes, live, own := Cut(nodes, j, nunits), live[q := nunits], Give(own, b);
      r := Some(q + 1);
    }

    /** free's search: it ends, at the block before bp. */
    method Place(bp: nat) returns (p: nat, ghost t: nat)
      requires Valid() && freep != 0 && bp > base && bp !in Units(nodes)
      ensures Between(nodes, t, Block(bp, 1)) && p == nodes[t].a >= base
    {
      hide Units, Interval, Ledger, Linked, Coalesced;
      p := freep;
      ghost var i: nat :| i < |nodes| && nodes[i].a == p;
      t := GapOf(nodes, bp);
      Order(nodes);
      NextLink(mem, nodes, i);
      while !(bp > p && bp < mem[p].ptr)
        invariant i < |nodes| && p == nodes[i].a && p in mem
        invariant mem[p] == Header(if i + 1 < |nodes| then nodes[i + 1].a else base, nodes[i].n)
        decreases if i <= t then t - i else t + |nodes| - i
      {
        if p >= mem[p].ptr && (bp > p || bp < mem[p].ptr) {
          break;
        }
        p := mem[p].ptr;
        i := if i + 1 < |nodes| then i + 1 else 0;
        NextLink(mem, nodes, i);
      }
      t := i;
    }
  }

  lemma LiveAddr(mem: Memory, base: nat, bs: seq<Block>, live: map<nat, nat>, own: map<nat, nat>, heap: set<nat>,
                 a: nat)
    requires BlocksOk(mem, base, bs, live, own, heap) && a in live
    ensures ValidList(bs) && live[a] > 0 && a in heap && a > base && a !in Units(bs) && a in mem &&
            mem[a].size == live[a]
  {
    hide Units, Ledger, Coalesced;
    LiveFacts(bs, live, own, heap, a);
  }

  /** The state after free. */
  lemma Freeing(mem: Memory, base: nat, bs: seq<Block>, live: map<nat, nat>, own: map<nat, nat>, heap: set<nat>,
                t: nat, bp: nat)
    requires BlocksOk(mem, base, bs, live, own, heap) && Linked(mem, bs) && bp in live && Between(bs, t, Block(bp, 1))
    ensures bs[t].a in mem && mem[bs[t].a].ptr in mem && bs[t].a != bp && bp in mem
    ensures var b, p := Block(bp, live[bp]), bs[t].a;
            && BlocksOk(FreeLinks(mem, p, bp), base, Freed(bs, t, b), live - {bp}, TakeBack(own, b), heap)
            && Linked(FreeLinks(mem, p, bp), Freed(bs, t, b)) && OnList(Freed(bs, t, b), p)
            && Units(Freed(bs, t, b)) == Units(bs) + Interval(b)
            && SomeFits(Freed(bs, t, b), b.n)
            && Untouched(mem, FreeLinks(mem, p, bp), TakeBack(own, b))
  {
    hide Units, Interval, Ledger, Linked, Coalesced, OnList, Freed;
    var b := Block(bp, live[bp]);
    LiveFacts(bs, live, own, heap, bp);
    FreedLinked(mem, bs, t, b);
    FreedValid(bs, t, b);
    FreedUnits(bs, t, b);
    FreedHas(bs, t, b);
    LedgerTaken(bs, Freed(bs, t, b), live, own, heap, bp);
    HeadersApart(bs, live, own, heap, t);
    NodeNotOwned(bs, live, own, heap, t);
    assert bp in Interval(b);
  }

  /** The state after a block of n units has been cut from block j. */
  lemma Cutting(mem: Memory, base: nat, bs: seq<Block>, live: map<nat, nat>, own: map<nat, nat>, heap: set<nat>,
                j: nat, n: nat)
    requires base > 0 && BlocksOk(mem, base, bs, live, own, heap) && Linked(mem, bs) && 0 < j < |bs| && 0 < n <= bs[j].n
    ensures bs[j].a in mem && mem[bs[j].a].size == bs[j].n && bs[j - 1].a in mem && bs[j - 1].a > 0 && bs[j].a > 0
    ensures var b, m := Piece(bs, j, n), CutLinks(mem, bs[j - 1].a, bs[j].a, n);
            && b.a !in live && BlocksOk(m, base, Cut(bs, j, n), live[b.a := n], Give(own, b), heap)
            && Linked(m, Cut(bs, j, n)) && OnList(Cut(bs, j, n), bs[j - 1].a)
            && Units(Cut(bs, j, n)) + Interval(b) == Units(bs) && Units(Cut(bs, j, n)) !! Interval(b)
            && Untouched(mem, m, own)
  {
    hide Units, Interval, Ledger, Linked, Coalesced, OnList, Cut;
    Order(bs);
    CutLinked(mem, bs, j, n);
    CutValid(bs, j, n);
    CutUnits(bs, j, n);
    LedgerGiven(bs, Cut(bs, j, n), live, own, heap, Piece(bs, j, n));
    CutHeaders(mem, base, bs, live, own, heap, j, n);
    NodeNotOwned(bs, live, own, heap, j);
    NodeNotOwned(bs, live, own, heap, j - 1);
    PieceNotOwned(bs, live, own, heap, j, n);
  }

  lemma PieceNotOwned(bs: seq<Block>, live: map<nat, nat>, own: map<nat, nat>, heap: set<nat>, j: nat, n: nat)
    requires Ledger(bs, live, own, heap) && j < |bs| && 0 < n <= bs[j].n
    ensures bs[j].a + bs[j].n - n !in own
  {
    hide Units, Interval, LiveOk;
    UnitsSplit(bs, j);
    assert bs[j].a + bs[j].n - n in Interval(bs[j]);
  }

  /** No header of an allocated block is written by malloc. */
  lemma CutHeaders(mem: Memory, base: nat, bs: seq<Block>, live: map<nat, nat>, own: map<nat, nat>, heap: set<nat>,
                   j: nat, n: nat)
    requires BlocksOk(mem, base, bs, live, own, heap) && 0 < j < |bs| && 0 < n <= bs[j].n
    ensures forall a :: a in live ==> a != bs[j].a && a != bs[j - 1].a && a != bs[j].a + bs[j].n - n
  {
    hide Units, Interval, Ledger, Coalesced;
    HeadersApart(bs, live, own, heap, j);
    HeadersApart(bs, live, own, heap, j - 1);
    UnitsSplit(bs, j);
    assert bs[j].a + bs[j].n - n in Interval(bs[j]);
    forall a | a in live ensures a != bs[j].a + bs[j].n - n {
      LiveFacts(bs, live, own, heap, a);
    }
  }

  /** New memory from sbrk, as an allocated block. */
  lemma Growing(mem: Memory, base: nat, bs: seq<Block>, live: map<nat, nat>, own: map<nat, nat>, heap: set<nat>,
                b: Block)
    requires BlocksOk(mem, base, bs, live, own, heap) && Linked(mem, bs) && b.n > 0 && b.a > base &&
             forall u :: u in heap ==> u < b.a
    ensures b.a !in live
    ensures BlocksOk(SetSize(mem, b.a, b.n), base, bs, live[b.a := b.n], Give(own, b), heap + Interval(b))
    ensures Linked(SetSize(mem, b.a, b.n), bs)
    ensures Untouched(mem, SetSize(mem, b.a, b.n), own) && own.Keys <= Give(own, b).Keys &&
            TakeBack(Give(own, b), b) == own
  {
    hide Units, Interval, Ledger, Chain, Coalesced;
    LedgerGrown(bs, live, own, heap, b);
    GaveAndTook(bs, live, own, heap, b);
    forall i | 0 <= i < |bs| ensures bs[i].a != b.a {
      UnitsSplit(bs, i);
      assert i > 0 ==> bs[i].a in Interval(bs[i]);
      InHeap(bs, live, own, heap, bs[i].a);
    }
    ChainFrame(mem, bs, base, b.a, SetSize(mem, b.a, b.n)[b.a]);
  }

  lemma GaveAndTook(bs: seq<Block>, live: map<nat, nat>, own: map<nat, nat>, heap: set<nat>, b: Block)
    requires Ledger(bs, live, own, heap) && b.n > 0 && forall u :: u in heap ==> u < b.a
    ensures b.a !in own && own.Keys <= Give(own, b).Keys && TakeBack(Give(own, b), b) == own
  {
    hide Units, Interval, LiveOk;
    assert forall u :: u in own ==> u in heap;
  }

  lemma InHeap(bs: seq<Block>, live: map<nat, nat>, own: map<nat, nat>, heap: set<nat>, u: nat)
    requires Ledger(bs, live, own, heap)
    ensures u in Units(bs) ==> u in heap
  {
  }

  lemma NoneOwned(mem: Memory, mem': Memory, own: map<nat, nat>)
    requires own == map[]
    ensures Untouched(mem, mem', own)
  {
  }

  /** malloc's first call makes base a circle of one. */
  lemma FirstLink(mem: Memory, base: nat, bs: seq<Block>, live: map<nat, nat>, own: map<nat, nat>, heap: set<nat>)
    requires BlocksOk(mem, base, bs, live, own, heap) && |bs| == 1 && heap == {}
    ensures BlocksOk(mem[base := Header(base, 0)], base, bs, live, own, heap)
    ensures Linked(mem[base := Header(base, 0)], bs) && OnList(bs, base) && own == map[]
  {
    hide Units, LiveOk;
    assert own.Keys == {};
    forall a | a in live ensures a in heap {
      LiveFacts(bs, live, own, heap, a);
    }
    assert bs[0].a == base;
  }

  ghost function IndexOf(bs: seq<Block>, a: nat): (i: nat)
    requires OnList(bs, a)
    ensures i < |bs| && bs[i].a == a
  {
    var i :| 0 <= i < |bs| && bs[i].a == a;
    i
  }

  /** The index before the y-th block after block f. */
  function Before(f: nat, n: nat, y: nat): nat
    requires f < n && y < n
  {
    if y == 0 then f else Around(f, n, y - 1)
  }

  /** malloc's search has passed y blocks after freep, all too small, and is at p. */
  ghost predicate Searching(bs: seq<Block>, freep: nat, n: nat, f: nat, y: nat, p: nat, prevp: nat) {
    && f < |bs| && y < |bs| && bs[f].a == freep
    && p == bs[Around(f, |bs|, y)].a && prevp == bs[Before(f, |bs|, y)].a
    && forall z :: 0 <= z < y ==> bs[Around(f, |bs|, z)].n < n
  }

  lemma SearchStarts(mem: Memory, bs: seq<Block>, freep: nat, n: nat)
    requires Linked(mem, bs) && OnList(bs, freep)
    ensures freep in mem && Searching(bs, freep, n, IndexOf(bs, freep), 0, mem[freep].ptr, freep)
  {
    NextLink(mem, bs, IndexOf(bs, freep));
  }

  /** What the header at p says: the block found, the whole circle passed, or one more step. */
  lemma SearchSees(mem: Memory, base: nat, bs: seq<Block>, live: map<nat, nat>, own: map<nat, nat>, heap: set<nat>,
                   freep: nat, n: nat, f: nat, y: nat, p: nat, prevp: nat)
    requires BlocksOk(mem, base, bs, live, own, heap) && Linked(mem, bs) && n > 0 &&
             Searching(bs, freep, n, f, y, p, prevp)
    ensures p in mem && f < |bs| && y < |bs|
    ensures var j := Around(f, |bs|, y);
            && (mem[p].size >= n ==> 0 < j < |bs| && p == bs[j].a && prevp == bs[j - 1].a && n <= bs[j].n)
            && (mem[p].size < n && p == freep ==> AllSmaller(bs, n))
            && (mem[p].size < n && p != freep ==> Searching(bs, freep, n, f, y + 1, mem[p].ptr, p))
  {
    hide Ledger, Linked, Coalesced;
    Order(bs);
    var j := Around(f, |bs|, y);
    NextLink(mem, bs, j);
    if bs[j].n < n {
      if p == freep {
        forall i | 0 <= i < |bs| ensures bs[i].n < n {
          var z := if i > f then i - f - 1 else i + |bs| - f - 1;
          assert Around(f, |bs|, z) == i;
        }
      } else {
        assert j == Before(f, |bs|, y + 1);
      }
    }
  }

  lemma NextLink(mem: Memory, bs: seq<Block>, i: nat)
    requires Linked(mem, bs) && i < |bs|
    ensures bs[i].a in mem && mem[bs[i].a] == Header(if i + 1 < |bs| then bs[i + 1].a else bs[0].a, bs[i].n)
  {
    assert LinkAt(mem, bs, i, bs[0].a);
  }

  lemma Order(bs: seq<Block>)
    requires ValidList(bs)
    ensures forall i, j :: 0 <= i < j < |bs| ==> bs[i].a < bs[j].a
  {
  }

  /** The block after which an address above the sentinel belongs. */
  ghost function GapOf(bs: seq<Block>, a: nat): (t: nat)
    requires ValidList(bs) && bs[0].a < a && a !in Units(bs)
    ensures Between(bs, t, Block(a, 1))
  {
    LastBelow(bs, a, |bs| - 1)
  }

  ghost function LastBelow(bs: seq<Block>, a: nat, i: nat): (t: nat)
    requires ValidList(bs) && bs[0].a < a && a !in Units(bs) && i < |bs| && (i + 1 < |bs| ==> a < bs[i + 1].a)
    ensures Between(bs, t, Block(a, 1))
  {
    UnitsSplit(bs, i);
    assert i > 0 ==> bs[i].a in Interval(bs[i]);
    if bs[i].a < a then i else LastBelow(bs, a, i - 1)
  }

  lemma LiveFacts(bs: seq<Block>, live: map<nat, nat>, own: map<nat, nat>, heap: set<nat>, a: nat)
    requires Ledger(bs, live, own, heap) && a in live
    ensures live[a] > 0 && Interval(Block(a, live[a])) !! Units(bs) && a in heap && a !in Units(bs)
  {
    hide Units, Interval;
    LiveTaken(live, own, a);
    assert a in Interval(Block(a, live[a]));
  }

  lemma FreedHas(bs: seq<Block>, t: nat, b: Block)
    requires t < |bs|
    ensures SomeFits(Freed(bs, t, b), b.n)
  {
    var f := Freed(bs, t, b);
    if bs[t].a + bs[t].n == b.a {
      assert f[t].n >= b.n;
    } else {
      assert f[t + 1].n >= b.n;
    }
  }

  /** A block of the list, the sentinel included, starts at no allocated unit. */
  lemma NodeNotOwned(bs: seq<Block>, live: map<nat, nat>, own: map<nat, nat>, heap: set<nat>, t: nat)
    requires ValidList(bs) && Ledger(bs, live, own, heap) && t < |bs| && (forall u :: u in heap ==> u > bs[0].a)
    ensures bs[t].a !in own
  {
    hide Units, Interval, Coalesced, LiveOk;
    UnitsSplit(bs, t);
    assert t > 0 ==> bs[t].a in Interval(bs[t]);
    assert forall u :: u in own ==> u in heap;
  }

  /** The headers of allocated blocks other than bp are not written by free. */
  lemma HeadersApart(bs: seq<Block>, live: map<nat, nat>, own: map<nat, nat>, heap: set<nat>, t: nat)
    requires ValidList(bs) && Ledger(bs, live, own, heap) && t < |bs| && (forall u :: u in heap ==> u > bs[0].a)
    ensures forall a :: a in live ==> a != bs[t].a
  {
    hide Units, Interval, Coalesced;
    UnitsSplit(bs, t);
    assert t > 0 ==> bs[t].a in Interval(bs[t]);
    forall a | a in live ensures a != bs[t].a {
      LiveFacts(bs, live, own, heap, a);
    }
  }
}
