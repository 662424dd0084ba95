/** All live address spaces at once: their page tables and data frames are
    pairwise disjoint, and with the free list they make up one pool of frames.
    Every operation on one space keeps the pool and leaves the others alone. */
module AddressSpaces {
  import opened Common
  import opened PageTable
  import opened TableBudget
  import opened VirtualMemory

  /** An address space and how many pages of memory it has below its size. */
  datatype Live = Live(sp: Space, n: nat)

  /** The live spaces, by process. */
  type Spaces = map<nat, Live>

  ghost function Data(mem: Memory, l: Live): (d: seq<nat>)
    ensures |d| == l.n
  {
    Frames(mem, l.sp.root, 0, l.n)
  }

  ghost function Owned(mem: Memory, l: Live): set<nat> {
    l.sp.role.Keys + SetOf(Data(mem, l))
  }

  ghost function OwnedBy(mem: Memory, ls: Spaces, k: nat): set<nat> {
    if k in ls then Owned(mem, ls[k]) else {}
  }

  /** Memory from 0 up to the size, and the two special pages. */
  ghost predicate Shape(mem: Memory, l: Live) {
    && l.n <= TRAPFRAME && AllLeaves(mem, l.sp.root, 0, l.n) && AllLeaves(mem, l.sp.root, TRAPFRAME, 2)
    && forall w :: l.n <= w < TRAPFRAME ==> Leaf(mem, l.sp.root, w) == 0
  }

  ghost predicate SpaceOk(mem: Memory, free: seq<nat>, lo: nat, hi: nat, l: Live) {
    && WellFormed(mem, l.sp) && Shape(mem, l) && HoldsFrames(lo, hi, free, l.sp, Data(mem, l))
    && forall f :: f in l.sp.role ==> lo <= f < hi && f !in free
  }

  ghost predicate World(mem: Memory, free: seq<nat>, lo: nat, hi: nat, ls: Spaces, pool: set<nat>) {
    && (forall f :: lo <= f < hi ==> f in mem)
    && (forall k :: k in ls ==> SpaceOk(mem, free, lo, hi, ls[k]))
    && (forall j, k :: j in ls && k in ls && j != k ==> Owned(mem, ls[j]) !! Owned(mem, ls[k]))
    && (forall f :: f in pool ==> f in free || exists k :: k in ls && f in Owned(mem, ls[k]))
    && (forall f :: f in free ==> f in pool)
    && (forall k :: k in ls ==> Owned(mem, ls[k]) <= pool)
  }

  /** What a space has is not written and not freed: nothing about it changes. */
  lemma SpaceKept(mem: Memory, mem': Memory, free: seq<nat>, free': seq<nat>, lo: nat, hi: nat, l: Live)
    requires SpaceOk(mem, free, lo, hi, l) && mem'.Keys == mem.Keys
    requires forall f :: f in Owned(mem, l) && f in mem ==> mem'[f] == mem[f]
    requires forall f :: f in Owned(mem, l) ==> f !in free'
    ensures SpaceOk(mem', free', lo, hi, l) && SameMap(mem, mem', l.sp.root) && Data(mem', l) == Data(mem, l)
  {
    hide WellFormed, Leaf;
    assert SameTables(mem, mem', l.sp);
    DataWrite(mem, mem', l.sp);
    SameFrames(mem, mem', l.sp.root, l.n);
    forall i | 0 <= i < |Data(mem, l)| ensures Data(mem, l)[i] !in free' {
      assert Data(mem, l)[i] in SetOf(Data(mem, l));
    }
  }

  /** The other spaces: same translations, same frames, same contents. */
  ghost predicate OthersKept(mem: Memory, mem': Memory, ls: Spaces, k: nat) {
    forall j :: j in ls && j != k ==> OtherKept(mem, mem', ls[j])
  }

  ghost predicate OtherKept(mem: Memory, mem': Memory, l: Live) {
    && SameMap(mem, mem', l.sp.root) && Data(mem', l) == Data(mem, l)
    && forall f :: f in Owned(mem, l) && f in mem ==> f in mem' && mem'[f] == mem[f]
  }

  /** A step that writes only free frames and those of space k, and only moves
      frames between the two. */
  ghost predicate Contained(mem: Memory, free: seq<nat>, mem': Memory, free': seq<nat>, ls: Spaces, ls': Spaces,
                            k: nat) {
    && mem'.Keys == mem.Keys
    && (forall j :: j in ls && j != k ==> j in ls' && ls'[j] == ls[j]) && (forall j :: j in ls' && j != k ==> j in ls)
    && SetOf(free') + OwnedBy(mem', ls', k) == SetOf(free) + OwnedBy(mem, ls, k)
    && forall f :: f in mem && f !in SetOf(free) + OwnedBy(mem, ls, k) ==> mem'[f] == mem[f]
  }

  lemma NotFree(f: nat, free: seq<nat>)
    ensures f in SetOf(free) <==> f in free
  {
  }

  /** Such a step leaves every other space as it was. */
  lemma OtherStays(mem: Memory, free: seq<nat>, mem': Memory, free': seq<nat>, lo: nat, hi: nat,
                   ls: Spaces, ls': Spaces, pool: set<nat>, k: nat, j: nat)
    requires World(mem, free, lo, hi, ls, pool) && Contained(mem, free, mem', free', ls, ls', k) && j in ls && j != k
    ensures j in ls' && ls'[j] == ls[j] && SpaceOk(mem', free', lo, hi, ls[j]) && OtherKept(mem, mem', ls[j])
    ensures Owned(mem', ls[j]) == Owned(mem, ls[j]) && Owned(mem, ls[j]) !! SetOf(free') + OwnedBy(mem', ls', k)
  {
    hide WellFormed, Leaf, Shape, SetOf, Data, SameMap;
    var o := Owned(mem, ls[j]);
    OwnedNotFree(mem, free, lo, hi, ls[j]);
    assert o !! SetOf(free) + OwnedBy(mem, ls, k);
    forall f | f in o ensures f !in free' {
      NotFree(f, free');
    }
    SpaceKept(mem, mem', free, free', lo, hi, ls[j]);
  }

  lemma OwnedNotFree(mem: Memory, free: seq<nat>, lo: nat, hi: nat, l: Live)
    requires SpaceOk(mem, free, lo, hi, l)
    ensures Owned(mem, l) !! SetOf(free) && forall f :: f in Owned(mem, l) ==> lo <= f < hi
  {
    hide WellFormed, Leaf, Shape;
  }

  /** And keeps the whole: spaces disjoint, the same pool. */
  lemma WorldKept(mem: Memory, free: seq<nat>, mem': Memory, free': seq<nat>, lo: nat, hi: nat,
                  ls: Spaces, ls': Spaces, pool: set<nat>, k: nat)
    requires World(mem, free, lo, hi, ls, pool) && Contained(mem, free, mem', free', ls, ls', k)
    requires k in ls' ==> SpaceOk(mem', free', lo, hi, ls'[k])
    ensures World(mem', free', lo, hi, ls', pool) && OthersKept(mem, mem', ls, k)
  {
    hide WellFormed, Leaf, Shape, SetOf, Data, SpaceOk, OtherKept, Owned;
    forall j | j in ls && j != k
      ensures j in ls' && ls'[j] == ls[j] && SpaceOk(mem', free', lo, hi, ls[j]) && OtherKept(mem, mem', ls[j])
      ensures Owned(mem', ls[j]) == Owned(mem, ls[j]) && Owned(mem, ls[j]) !! SetOf(free') + OwnedBy(mem', ls', k)
    {
      OtherStays(mem, free, mem', free', lo, hi, ls, ls', pool, k, j);
    }
    forall f | f in pool ensures f in free' || exists j :: j in ls' && f in Owned(mem', ls'[j]) {
      NotFree(f, free);
      NotFree(f, free');
      if f !in SetOf(free) + OwnedBy(mem, ls, k) {
        var j :| j in ls && f in Owned(mem, ls[j]);
        assert f in Owned(mem', ls'[j]);
      }
    }
    forall f | f in SetOf(free') + OwnedBy(mem', ls', k) ensures f in pool {
      NotFree(f, free);
    }
    forall f | f in free' ensures f in pool {
      NotFree(f, free');
    }
  }

  /** The first n pages of a space, and its two special pages, are as before:
      same PTEs, same bytes. */
  ghost predicate PagesKept(mem: Memory, mem': Memory, l: Live, n: nat) {
    && (forall w :: 0 <= w < MAX_PAGE && (w < n || TRAPFRAME <= w) ==>
          Leaf(mem', l.sp.root, w) == Leaf(mem, l.sp.root, w))
    && forall i :: 0 <= i < n && i < l.n ==>
         Data(mem, l)[i] in mem && Data(mem, l)[i] in mem' && mem'[Data(mem, l)[i]] == mem[Data(mem, l)[i]]
  }

  /** Pages a up to b are writable or executable as asked, and all zero. */
  ghost predicate ZeroPages(mem: Memory, root: nat, a: nat, b: nat, xperm: nat) {
    forall w :: a <= w < b ==>
      && FlagsOf(Leaf(mem, root, w)) == PTE_R + PTE_U + xperm + PTE_V
      && FrameOf(Leaf(mem, root, w)) in mem && mem[FrameOf(Leaf(mem, root, w))] == Filled(0)
  }

  // ----- the operations

  /** Before the first process all frames of the pool are free. */
  lemma FirstWorld(mem: Memory, free: seq<nat>, lo: nat, hi: nat, pool: set<nat>)
    requires (forall f :: lo <= f < hi ==> f in mem) && forall f :: f in pool <==> f in free
    ensures World(mem, free, lo, hi, map[], pool)
  {
  }

  /** kinit: the frames between the kernel and PHYSTOP are the pool. */
  method Boot(end: nat, phystop: nat, mem: Memory) returns (kern: Kernel, ghost pool: set<nat>)
    requires 0 < end && PagesUp(end) <= phystop / PGSIZE
    requires forall f :: PagesUp(end) <= f < phystop / PGSIZE ==> f in mem && |mem[f]| == WORDS
    ensures fresh(kern) && Consistent(kern, map[], pool) && |kern.free| == |pool| == kern.hi - kern.lo
    ensures forall f: nat :: f in pool <==> end <= f * PGSIZE && (f + 1) * PGSIZE <= phystop
  {
    kern := new Kernel.Kinit(end, phystop, mem);
    pool := SetOf(kern.free);
    DistinctCount(kern.free);
    FirstWorld(kern.mem, kern.free, kern.lo, kern.hi, pool);
  }

  lemma {:induction false} DistinctCount(s: seq<nat>)
    requires Distinct(s)
    ensures |SetOf(s)| == |s|
  {
    if s != [] {
      var n := |s| - 1;
      DistinctCount(s[..n]);
      assert SetOf(s) == SetOf(s[..n]) + {s[n]};
      assert s[n] !in s[..n];
    }
  }

  ghost predicate Consistent(kern: Kernel, ls: Spaces, pool: set<nat>)
    reads kern
  {
    kern.Valid() && World(kern.mem, kern.free, kern.lo, kern.hi, ls, pool)
  }

  /** growproc and exec: uvmalloc on one space of many. */
  method Grow(kern: Kernel, pid: nat, root: nat, oldsz: nat, newsz: nat, xperm: nat, ghost ls: Spaces,
              ghost pool: set<nat>)
    returns (r: nat, ghost ok: bool, ghost ls': Spaces)
    requires Consistent(kern, ls, pool) && pid in ls && root == ls[pid].sp.root && PagesUp(oldsz) == ls[pid].n
    requires newsz <= TRAPFRAME * PGSIZE && xperm in {0, PTE_W, PTE_X, PTE_W + PTE_X}
    modifies kern
    ensures Consistent(kern, ls', pool) && OthersKept(old(kern.mem), kern.mem, ls, pid)
    ensures ls'.Keys == ls.Keys && (forall j :: j in ls && j != pid ==> ls'[j] == ls[j])
    ensures ls'[pid].sp.root == root && ls'[pid].n == if ok && newsz > oldsz then PagesUp(newsz) else ls[pid].n
    ensures r == if !ok then 0 else if newsz < oldsz then oldsz else newsz
    ensures var n := PagesUp(newsz) - PagesUp(oldsz);
            ok <==> n <= 0 || |old(kern.free)| >= n + Missing(ls[pid].sp, ls[pid].n, n)
    ensures PagesKept(old(kern.mem), kern.mem, ls[pid], ls[pid].n)
    ensures ZeroPages(kern.mem, root, ls[pid].n, ls'[pid].n, xperm)
    ensures Grows(old(kern.mem), kern.mem, root, oldsz, if ok then newsz else oldsz, xperm)
  {
    hide WellFormed, Leaf, Grows, Missing, World, Contained, OthersKept, SpaceOk, PagesKept, ZeroPages;
    hide Conserved, Extended, Untouched, PtesFor, Paid, FreeList, SetOf;
    ghost var m0, f0, l := kern.mem, kern.free, ls[pid];
    SpaceHas(m0, f0, kern.lo, kern.hi, ls, pool, pid);
    ghost var sp', ptes, fs;
    r, ok, sp', ptes, fs := kern.UvmAlloc(root, oldsz, newsz, xperm, l.sp);
    ghost var l' := Live(sp', l.n + |fs|);
    ls' := ls[pid := l'];
    Grown(m0, f0, kern.mem, kern.free, kern.lo, kern.hi, l, l', ptes, fs);
    GrownContained(m0, f0, kern.mem, kern.free, ls, ls', pid, fs);
    GrownKept(m0, f0, kern.mem, kern.free, kern.lo, kern.hi, l, l', ptes, fs);
    GrownZero(m0, kern.mem, l, ptes, fs, xperm);
    WorldKept(m0, f0, kern.mem, kern.free, kern.lo, kern.hi, ls, ls', pool, pid);
  }

  lemma SpaceHas(mem: Memory, free: seq<nat>, lo: nat, hi: nat, ls: Spaces, pool: set<nat>, k: nat)
    requires World(mem, free, lo, hi, ls, pool) && k in ls
    ensures SpaceOk(mem, free, lo, hi, ls[k]) && WellFormed(mem, ls[k].sp) && Shape(mem, ls[k])
    ensures forall f :: f in ls[k].sp.role ==> lo <= f < hi && f !in free
    ensures HoldsFrames(lo, hi, free, ls[k].sp, Data(mem, ls[k]))
  {
    hide WellFormed, Leaf;
  }

  /** n pages more, after those a space has. */
  lemma Grown(m0: Memory, f0: seq<nat>, m1: Memory, f1: seq<nat>, lo: nat, hi: nat, l: Live, l': Live,
              ptes: seq<nat>, fs: seq<nat>)
    requires SpaceOk(m0, f0, lo, hi, l) && l' == Live(l'.sp, l.n + |fs|) && l'.n <= TRAPFRAME && WellFormed(m1, l'.sp)
    requires forall f :: f in l'.sp.role ==> lo <= f < hi && f !in f1
    requires HoldsFrames(lo, hi, f1, l'.sp, fs) && SetOf(fs) <= SetOf(f0) && SetOf(f1) <= SetOf(f0)
    requires Conserved(f0, l.sp, f1, l'.sp, fs) && Extended(m0, m1, l.sp.root, l.n, ptes) && PtesFor(ptes, fs)
    ensures SpaceOk(m1, f1, lo, hi, l') && Data(m1, l') == Data(m0, l) + fs
  {
    hide WellFormed, Leaf;
    var d, n := Data(m0, l), l.n;
    var d' := Data(m1, l');
    forall i | 0 <= i < |d'| ensures d'[i] == (d + fs)[i] {
      assert d'[i] == FrameOf(Leaf(m1, l.sp.root, 0 + i));
    }
    assert d' == d + fs;
    forall i | 0 <= i < |d| ensures d[i] !in f1 && d[i] !in l'.sp.role && d[i] !in fs {
      NotFree(d[i], f0);
      NotFree(d[i], f1);
      NotFree(d[i], fs);
    }
    assert AllLeaves(m1, l.sp.root, 0, l'.n);
  }

  lemma GrownKept(m0: Memory, f0: seq<nat>, m1: Memory, f1: seq<nat>, lo: nat, hi: nat, l: Live, l': Live,
                  ptes: seq<nat>, fs: seq<nat>)
    requires SpaceOk(m0, f0, lo, hi, l) && l'.sp.root == l.sp.root && l.n + |fs| <= TRAPFRAME && PtesFor(ptes, fs)
    requires forall f :: lo <= f < hi ==> f in m0
    requires Conserved(f0, l.sp, f1, l'.sp, fs) && Extended(m0, m1, l.sp.root, l.n, ptes)
    requires Untouched(m0, m1, f0, l'.sp)
    ensures PagesKept(m0, m1, l, l.n)
  {
    hide WellFormed, Leaf, Shape;
    var d := Data(m0, l);
    forall i | 0 <= i < |d| ensures d[i] in m0 && d[i] in m1 && m1[d[i]] == m0[d[i]] {
      NotFree(d[i], f0);
    }
  }

  lemma GrownZero(m0: Memory, m1: Memory, l: Live, ptes: seq<nat>, fs: seq<nat>, xperm: nat)
    requires Extended(m0, m1, l.sp.root, l.n, ptes) && PtesFor(ptes, fs) && l.n + |fs| <= TRAPFRAME
    requires forall i :: 0 <= i < |ptes| ==> FlagsOf(ptes[i]) == PTE_R + PTE_U + xperm + PTE_V
    requires forall i :: 0 <= i < |fs| ==> fs[i] in m1 && m1[fs[i]] == Filled(0)
    ensures ZeroPages(m1, l.sp.root, l.n, l.n + |fs|, xperm)
  {
    hide Leaf;
    forall w | l.n <= w < l.n + |fs| ensures Leaf(m1, l.sp.root, w) == ptes[w - l.n] {
    }
  }

  lemma GrownContained(m0: Memory, f0: seq<nat>, m1: Memory, f1: seq<nat>, ls: Spaces, ls': Spaces, k: nat,
                       fs: seq<nat>)
    requires k in ls && k in ls' && ls' == ls[k := ls'[k]] && Data(m1, ls'[k]) == Data(m0, ls[k]) + fs
    requires Conserved(f0, ls[k].sp, f1, ls'[k].sp, fs) && Untouched(m0, m1, f0, ls'[k].sp)
    ensures Contained(m0, f0, m1, f1, ls, ls', k)
  {
    hide Data;
    assert SetOf(Data(m0, ls[k]) + fs) == SetOf(Data(m0, ls[k])) + SetOf(fs);
    forall f | f in m0 && f !in SetOf(f0) + OwnedBy(m0, ls, k) ensures m1[f] == m0[f] {
      NotFree(f, f0);
    }
  }

  /** growproc with a negative n: uvmdealloc on one space of many. */
  method Shrink(kern: Kernel, pid: nat, root: nat, oldsz: nat, newsz: nat, ghost ls: Spaces, ghost pool: set<nat>)
    returns (r: nat, ghost ls': Spaces)
    requires Consistent(kern, ls, pool) && pid in ls && root == ls[pid].sp.root && PagesUp(oldsz) == ls[pid].n
    modifies kern
    ensures Consistent(kern, ls', pool) && OthersKept(old(kern.mem), kern.mem, ls, pid)
    ensures r == if newsz < oldsz then newsz else oldsz
    ensures ls' == ls[pid := Live(ls[pid].sp, PagesUp(r))]
    ensures PagesKept(old(kern.mem), kern.mem, ls[pid], PagesUp(r))
    ensures Shrinks(old(kern.mem), kern.mem, root, oldsz, newsz)
  {
    hide WellFormed, Leaf, Shrinks, World, Contained, OthersKept, SpaceOk, PagesKept, AllLeaves, Frames, Unmapped, Gave;
    ghost var m0, f0, l, a := kern.mem, kern.free, ls[pid], PagesUp(newsz);
    SpaceHas(m0, f0, kern.lo, kern.hi, ls, pool, pid);
    assert newsz < oldsz ==> a <= l.n;
    if a < l.n {
      TailOwned(m0, f0, kern.lo, kern.hi, l, a);
    }
    r := kern.UvmDealloc(root, oldsz, newsz, l.sp);
    ghost var l' := Live(l.sp, PagesUp(r));
    ls' := ls[pid := l'];
    if a < l.n {
      Shrunk(m0, f0, kern.mem, kern.free, kern.lo, kern.hi, ls, ls', pid, a);
      ShrunkKept(m0, f0, kern.mem, kern.free, kern.lo, kern.hi, l, a);
      WorldKept(m0, f0, kern.mem, kern.free, kern.lo, kern.hi, ls, ls', pool, pid);
    } else {
      assert l' == l && ls' == ls;
      NothingMoves(m0, f0, ls, pid);
      AllKept(m0, f0, kern.lo, kern.hi, l);
      WorldKept(m0, f0, m0, f0, kern.lo, kern.hi, ls, ls, pool, pid);
    }
  }

  lemma NothingMoves(mem: Memory, free: seq<nat>, ls: Spaces, k: nat)
    ensures Contained(mem, free, mem, free, ls, ls, k)
  {
  }

  /** The pages from a on have data frames of their own. */
  lemma TailOwned(mem: Memory, free: seq<nat>, lo: nat, hi: nat, l: Live, a: nat)
    requires SpaceOk(mem, free, lo, hi, l) && a <= l.n
    ensures AllLeaves(mem, l.sp.root, a, l.n - a) && Frames(mem, l.sp.root, a, l.n - a) == Data(mem, l)[a..]
    ensures HoldsFrames(lo, hi, free, l.sp, Data(mem, l)[a..]) && Data(mem, l) == Data(mem, l)[..a] + Data(mem, l)[a..]
    ensures l.n <= TRAPFRAME
  {
    hide WellFormed, Leaf;
    var t := Frames(mem, l.sp.root, a, l.n - a);
    forall i | 0 <= i < |t| ensures t[i] == Data(mem, l)[a..][i] {
      assert Data(mem, l)[a + i] == FrameOf(Leaf(mem, l.sp.root, 0 + (a + i)));
    }
  }

  lemma Shrunk(m0: Memory, f0: seq<nat>, m1: Memory, f1: seq<nat>, lo: nat, hi: nat, ls: Spaces, ls': Spaces, k: nat,
               a: nat)
    requires k in ls && SpaceOk(m0, f0, lo, hi, ls[k]) && a < ls[k].n && ls' == ls[k := Live(ls[k].sp, a)]
    requires WellFormed(m1, ls[k].sp) && (forall f :: f in ls[k].sp.role ==> lo <= f < hi && f !in f1)
    requires Unmapped(m0, m1, ls[k].sp.root, a, ls[k].n - a) && m1.Keys == m0.Keys
    requires Gave(f0, f1, Frames(m0, ls[k].sp.root, a, ls[k].n - a))
    requires forall f :: f in m1 && f !in ls[k].sp.role && (f in f0 || f !in f1) ==> m1[f] == m0[f]
    ensures SpaceOk(m1, f1, lo, hi, ls'[k]) && Contained(m0, f0, m1, f1, ls, ls', k)
  {
    hide WellFormed, Leaf, SpaceOk, Contained, Unmapped, Data, HoldsFrames, Gave;
    var l, l' := ls[k], ls'[k];
    TailOwned(m0, f0, lo, hi, l, a);
    ShrunkData(m0, m1, l, a);
    ShrunkOk(m0, f0, m1, f1, lo, hi, l, a);
    ShrunkContained(m0, f0, m1, f1, ls, ls', k, Data(m0, l)[a..]);
  }

  lemma ShrunkKept(m0: Memory, f0: seq<nat>, m1: Memory, f1: seq<nat>, lo: nat, hi: nat, l: Live, a: nat)
    requires SpaceOk(m0, f0, lo, hi, l) && a < l.n && (forall f :: lo <= f < hi ==> f in m0)
    requires Unmapped(m0, m1, l.sp.root, a, l.n - a) && Gave(f0, f1, Frames(m0, l.sp.root, a, l.n - a))
    requires m1.Keys == m0.Keys
    requires forall f :: f in m1 && f !in l.sp.role && (f in f0 || f !in f1) ==> m1[f] == m0[f]
    ensures PagesKept(m0, m1, l, a)
  {
    hide WellFormed, Leaf;
    TailOwned(m0, f0, lo, hi, l, a);
    var d := Data(m0, l);
    forall i | 0 <= i < a ensures d[i] in m0 && d[i] in m1 && m1[d[i]] == m0[d[i]] {
      NotFree(d[i], f0);
      NotFree(d[i], f1);
      NotFree(d[i], d[a..]);
    }
  }

  lemma AllKept(mem: Memory, free: seq<nat>, lo: nat, hi: nat, l: Live)
    requires SpaceOk(mem, free, lo, hi, l) && forall f :: lo <= f < hi ==> f in mem
    ensures PagesKept(mem, mem, l, l.n)
  {
    hide WellFormed, Leaf, Shape;
  }

  lemma ShrunkData(m0: Memory, m1: Memory, l: Live, a: nat)
    requires a <= l.n <= TRAPFRAME && Unmapped(m0, m1, l.sp.root, a, l.n - a)
    ensures Data(m1, Live(l.sp, a)) == Data(m0, l)[..a]
  {
    hide Leaf;
    var d, d' := Data(m0, l), Data(m1, Live(l.sp, a));
    forall i | 0 <= i < a ensures d'[i] == d[i] {
      assert d[i] == FrameOf(Leaf(m0, l.sp.root, 0 + i)) && d'[i] == FrameOf(Leaf(m1, l.sp.root, 0 + i));
    }
  }

  lemma ShrunkOk(m0: Memory, f0: seq<nat>, m1: Memory, f1: seq<nat>, lo: nat, hi: nat, l: Live, a: nat)
    requires SpaceOk(m0, f0, lo, hi, l) && a < l.n && WellFormed(m1, l.sp)
    requires forall f :: f in l.sp.role ==> lo <= f < hi && f !in f1
    requires Unmapped(m0, m1, l.sp.root, a, l.n - a) && Gave(f0, f1, Data(m0, l)[a..])
    requires Data(m1, Live(l.sp, a)) == Data(m0, l)[..a]
    ensures SpaceOk(m1, f1, lo, hi, Live(l.sp, a))
  {
    hide WellFormed, Leaf, Data;
    var d := Data(m0, l);
    forall i | 0 <= i < a ensures d[i] !in f1 {
      NotFree(d[i], f0);
      NotFree(d[i], f1);
      NotFree(d[i], d[a..]);
    }
  }

  lemma ShrunkContained(m0: Memory, f0: seq<nat>, m1: Memory, f1: seq<nat>, ls: Spaces, ls': Spaces, k: nat,
                        t: seq<nat>)
    requires k in ls && k in ls' && ls' == ls[k := ls'[k]] && ls'[k].sp == ls[k].sp
    requires Data(m0, ls[k]) == Data(m1, ls'[k]) + t && Gave(f0, f1, t) && m1.Keys == m0.Keys
    requires forall f :: f in m1 && f !in ls[k].sp.role && (f in f0 || f !in f1) ==> m1[f] == m0[f]
    ensures Contained(m0, f0, m1, f1, ls, ls', k)
  {
    hide Data;
    SplitSet(Data(m1, ls'[k]), t);
    forall f | f in m0 && f !in SetOf(f0) + OwnedBy(m0, ls, k) ensures m1[f] == m0[f] {
      NotFree(f, f1);
    }
  }

  lemma SplitSet(x: seq<nat>, y: seq<nat>)
    ensures SetOf(x + y) == SetOf(x) + SetOf(y)
  {
  }

  /** proc_pagetable for a new process. */
  method Create(kern: Kernel, pid: nat, trampoline: nat, trapframe: nat, ghost ls: Spaces, ghost pool: set<nat>)
    returns (root: nat, ghost ls': Spaces)
    requires Consistent(kern, ls, pool) && pid !in ls
    modifies kern
    ensures Consistent(kern, ls', pool) && OthersKept(old(kern.mem), kern.mem, ls, pid)
    ensures root == 0 <==> |old(kern.free)| < 3
    ensures root == 0 ==> ls' == ls
    ensures root != 0 ==> pid in ls' && ls' == ls[pid := ls'[pid]] && ls'[pid].sp.root == root && ls'[pid].n == 0
    ensures root != 0 ==> Leaf(kern.mem, root, TRAMPOLINE) == MakePte(trampoline, PTE_R + PTE_X + PTE_V) &&
                          Leaf(kern.mem, root, TRAPFRAME) == MakePte(trapframe, PTE_R + PTE_W + PTE_V)
    ensures root != 0 ==> OnlySpecial(kern.mem, root, trampoline, trapframe)
  {
    hide OnlySpecial;
    hide WellFormed, Leaf, World, Contained, OthersKept, SpaceOk, MakePte, SetOf, OnlyFree, FreeList;
    ghost var m0, f0, sp := kern.mem, kern.free, Space(0, map[]);
    root, sp := kern.ProcPagetable(trampoline, trapframe);
    ls' := if root == 0 then ls else ls[pid := Live(sp, 0)];
    if root != 0 {
      Created(kern.mem, kern.free, kern.lo, kern.hi, sp, trampoline, trapframe);
    }
    CreatedContained(m0, f0, kern.mem, kern.free, ls, ls', pid, sp, root != 0);
    WorldKept(m0, f0, kern.mem, kern.free, kern.lo, kern.hi, ls, ls', pool, pid);
  }

  lemma Created(mem: Memory, free: seq<nat>, lo: nat, hi: nat, sp: Space, trampoline: nat, trapframe: nat)
    requires WellFormed(mem, sp) && (forall f :: f in sp.role ==> lo <= f < hi && f !in free)
    requires forall w :: 0 <= w < MAX_PAGE ==>
               Leaf(mem, sp.root, w) == if w == TRAMPOLINE then MakePte(trampoline, PTE_R + PTE_X + PTE_V)
                                        else if w == TRAPFRAME then MakePte(trapframe, PTE_R + PTE_W + PTE_V) else 0
    ensures SpaceOk(mem, free, lo, hi, Live(sp, 0))
  {
    hide WellFormed, Leaf, MakePte;
    assert AllLeaves(mem, sp.root, TRAPFRAME, 2);
  }

  lemma CreatedContained(m0: Memory, f0: seq<nat>, m1: Memory, f1: seq<nat>, ls: Spaces, ls': Spaces, k: nat,
                         sp: Space, ok: bool)
    requires k !in ls && ls' == (if ok then ls[k := Live(sp, 0)] else ls) && OnlyFree(m0, m1, f0)
    requires if ok then SetOf(f1) + sp.role.Keys == SetOf(f0) else SetOf(f1) == SetOf(f0)
    ensures Contained(m0, f0, m1, f1, ls, ls', k)
  {
    assert SetOf([]) == {};
  }

  /** fork: uvmcopy from one space into another that has no memory yet. */
  method CopyInto(kern: Kernel, from: nat, to: nat, oldroot: nat, newroot: nat, sz: nat, ghost ls: Spaces,
                  ghost pool: set<nat>)
    returns (ok: bool, ghost ls': Spaces)
    requires Consistent(kern, ls, pool) && from in ls && to in ls && from != to && ls[to].n == 0
    requires oldroot == ls[from].sp.root && newroot == ls[to].sp.root && PagesUp(sz) == ls[from].n
    modifies kern
    ensures Consistent(kern, ls', pool) && OthersKept(old(kern.mem), kern.mem, ls, to)
    ensures ls'.Keys == ls.Keys && (forall j :: j in ls && j != to ==> ls'[j] == ls[j])
    ensures ls'[to].sp.root == newroot && ls'[to].n == if ok then ls[from].n else 0
    ensures ok <==> |old(kern.free)| >= ls[from].n + Missing(ls[to].sp, 0, ls[from].n)
    ensures ok ==> SameMemory(kern.mem, ls'[from], ls'[to])
    ensures PagesKept(old(kern.mem), kern.mem, ls[to], 0)
    ensures Forks(old(kern.mem), kern.mem, oldroot, newroot, if ok then sz else 0)
  {
    hide WellFormed, Leaf, Forks, Missing, World, Contained, OthersKept, SpaceOk, Copied, SameMap, SameMemory;
    hide PagesKept;
    hide Conserved, Extended, Untouched, PtesFor, Paid, FreeList, SetOf;
    ghost var m0, f0, l := kern.mem, kern.free, ls[to];
    SpaceHas(m0, f0, kern.lo, kern.hi, ls, pool, from);
    SpaceHas(m0, f0, kern.lo, kern.hi, ls, pool, to);
    TwoApart(m0, f0, kern.lo, kern.hi, ls, pool, from, to);
    ghost var sp', ptes, fs;
    ok, sp', ptes, fs := kern.UvmCopy(oldroot, newroot, sz, ls[from].sp, l.sp);
    ghost var l' := Live(sp', |fs|);
    ls' := ls[to := l'];
    Grown(m0, f0, kern.mem, kern.free, kern.lo, kern.hi, l, l', ptes, fs);
    GrownContained(m0, f0, kern.mem, kern.free, ls, ls', to, fs);
    GrownKept(m0, f0, kern.mem, kern.free, kern.lo, kern.hi, l, l', ptes, fs);
    WorldKept(m0, f0, kern.mem, kern.free, kern.lo, kern.hi, ls, ls', pool, to);
    if ok {
      CopiedMemory(m0, kern.mem, ls, from, to, l', ptes, fs);
    }
  }

  /** Page by page, the same flags and the same bytes on different frames. */
  ghost predicate SameMemory(mem: Memory, x: Live, y: Live) {
    && x.n == y.n
    && forall i :: 0 <= i < x.n ==>
         && FlagsOf(Leaf(mem, x.sp.root, i)) == FlagsOf(Leaf(mem, y.sp.root, i))
         && Data(mem, x)[i] != Data(mem, y)[i] && Data(mem, x)[i] in mem && Data(mem, y)[i] in mem
         && mem[Data(mem, x)[i]] == mem[Data(mem, y)[i]]
  }

  lemma TwoApart(mem: Memory, free: seq<nat>, lo: nat, hi: nat, ls: Spaces, pool: set<nat>, j: nat, k: nat)
    requires World(mem, free, lo, hi, ls, pool) && j in ls && k in ls && j != k && ls[k].n == 0
    ensures ls[j].sp.role.Keys !! ls[k].sp.role.Keys
    ensures forall i :: 0 <= i < ls[j].n ==>
              FrameOf(Leaf(mem, ls[j].sp.root, i)) !in ls[k].sp.role && Leaf(mem, ls[k].sp.root, i) == 0
  {
    hide WellFormed, Leaf;
    assert SpaceOk(mem, free, lo, hi, ls[j]) && SpaceOk(mem, free, lo, hi, ls[k]);
    assert Owned(mem, ls[j]) !! Owned(mem, ls[k]);
    forall i | 0 <= i < ls[j].n ensures FrameOf(Leaf(mem, ls[j].sp.root, i)) !in ls[k].sp.role {
      assert Data(mem, ls[j])[i] == FrameOf(Leaf(mem, ls[j].sp.root, 0 + i));
      assert Data(mem, ls[j])[i] in SetOf(Data(mem, ls[j]));
    }
  }

  lemma CopiedMemory(m0: Memory, m1: Memory, ls: Spaces, j: nat, k: nat, l': Live, ptes: seq<nat>, fs: seq<nat>)
    requires j in ls && k in ls && OthersKept(m0, m1, ls, k) && j != k && ls[k].n == 0
    requires Copied(m0, m1, ls[j].sp.root, ptes, fs) && |fs| == ls[j].n == l'.n && l'.sp.root == ls[k].sp.root
    requires Extended(m0, m1, ls[k].sp.root, 0, ptes) && Data(m1, l') == Data(m0, ls[k]) + fs && l'.n <= TRAPFRAME
    ensures SameMemory(m1, ls[j], l')
  {
    hide Leaf;
    var x := ls[j];
    assert OtherKept(m0, m1, x);
    assert Data(m1, l') == fs;
    forall i | 0 <= i < x.n
      ensures FlagsOf(Leaf(m1, x.sp.root, i)) == FlagsOf(Leaf(m1, l'.sp.root, i)) && Data(m1, x)[i] != fs[i]
      ensures Data(m1, x)[i] in m1 && fs[i] in m1 && m1[Data(m1, x)[i]] == m1[fs[i]]
    {
      assert Data(m0, x)[i] == FrameOf(Leaf(m0, x.sp.root, 0 + i));
      assert Data(m0, x)[i] in SetOf(Data(m0, x));
      assert Leaf(m1, l'.sp.root, i) == ptes[i];
    }
  }

  /** freeproc: proc_freepagetable of one space of many. */
  method Drop(kern: Kernel, pid: nat, root: nat, sz: nat, ghost ls: Spaces, ghost pool: set<nat>)
    returns (ghost ls': Spaces)
    requires Consistent(kern, ls, pool) && pid in ls && root == ls[pid].sp.root && PagesUp(sz) == ls[pid].n
    modifies kern
    ensures Consistent(kern, ls', pool) && OthersKept(old(kern.mem), kern.mem, ls, pid)
    ensures ls' == ls - {pid} && SetOf(kern.free) == SetOf(old(kern.free)) + Owned(old(kern.mem), ls[pid])
  {
    hide WellFormed, Leaf, World, Contained, OthersKept, SpaceOk;
    ghost var m0, f0 := kern.mem, kern.free;
    SpaceHas(m0, f0, kern.lo, kern.hi, ls, pool, pid);
    kern.ProcFreepagetable(root, sz, ls[pid].sp);
    ls' := ls - {pid};
    DroppedContained(m0, f0, kern.mem, kern.free, ls, ls', pid);
    WorldKept(m0, f0, kern.mem, kern.free, kern.lo, kern.hi, ls, ls', pool, pid);
  }

  lemma DroppedContained(m0: Memory, f0: seq<nat>, m1: Memory, f1: seq<nat>, ls: Spaces, ls': Spaces, k: nat)
    requires k in ls && ls' == ls - {k} && m1.Keys == m0.Keys && SetOf(f1) == SetOf(f0) + Owned(m0, ls[k])
    requires forall f :: f in m1 && (f in f0 || f !in f1) ==> m1[f] == m0[f]
    ensures Contained(m0, f0, m1, f1, ls, ls', k)
  {
    hide Data, Owned;
    forall f | f in m0 && f !in SetOf(f0) + OwnedBy(m0, ls, k) ensures m1[f] == m0[f] {
      NotFree(f, f1);
    }
  }
}
