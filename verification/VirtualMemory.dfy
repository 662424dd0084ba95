/** kernel/kalloc.c and kernel/vm.c as code: the intrusive free list of frames,
    and the operations on page tables built from those frames. The contracts
    give each operation's effect on the flat map from page to PTE and account
    for every frame. Page numbers and frame numbers stand for addresses divided
    by the page size. */
module VirtualMemory {
  import opened Common
  import opened PageTable
  import opened TableBudget
  import opened HardwareWalk
  import Sv39

  const PGSIZE: nat := 4096
  const JUNK_ALLOC: nat := 0x0505_0505_0505_0505
  const JUNK_FREE: nat := 0x0101_0101_0101_0101
  const PTE_R: nat := 2
  const PTE_W: nat := 4
  const PTE_X: nat := 8
  const PTE_U: nat := 16
  const MAXVA: nat := 0x40_0000_0000

  function Filled(x: nat): (p: seq<nat>)
    ensures |p| == WORDS && forall i :: 0 <= i < WORDS ==> p[i] == x
  {
    seq(WORDS, _ => x)
  }

  /** A freed page: junk but for the link. */
  ghost predicate IsJunk(page: seq<nat>) {
    |page| == WORDS && forall i :: 1 <= i < WORDS ==> page[i] == JUNK_FREE
  }

  function SetOf(s: seq<nat>): set<nat> {
    set f | f in s
  }

  /** The physical address in the list after position i, 0 at its end. */
  function Link(free: seq<nat>, i: nat): nat {
    if i < |free| then free[i] * PGSIZE else 0
  }

  /** The free list threaded through the first word of each free frame. */
  ghost predicate FreeList(mem: Memory, head: nat, free: seq<nat>) {
    && head == Link(free, 0)
    && forall i :: 0 <= i < |free| ==> free[i] in mem && |mem[free[i]]| == WORDS && mem[free[i]][0] == Link(free, i + 1)
  }

  ghost predicate SameMap(mem: Memory, mem': Memory, root: nat) {
    forall w :: Leaf(mem', root, w) == Leaf(mem, root, w)
  }

  /** Page-table pages may have been added, taken from the front of the free
      list; nothing else has been touched. */
  ghost predicate Grew(mem: Memory, free: seq<nat>, sp: Space, mem': Memory, free': seq<nat>, sp': Space) {
    && sp'.root == sp.root && sp.role.Keys <= sp'.role.Keys
    && |free'| <= |free| && free' == free[|free| - |free'|..]
    && sp'.role.Keys == sp.role.Keys + SetOf(free[..|free| - |free'|])
    && mem'.Keys == mem.Keys
    && forall f :: f in mem && f !in sp'.role ==> mem'[f] == mem[f]
  }

  lemma PopFree(mem: Memory, head: nat, free: seq<nat>)
    requires FreeList(mem, head, free) && Distinct(free) && free != []
    ensures FreeList(mem[free[0] := Filled(JUNK_ALLOC)], mem[free[0]][0], free[1..])
    ensures Distinct(free[1..]) && free[0] !in free[1..]
  {
    var t := free[1..];
    assert forall i :: 0 <= i < |t| ==> t[i] == free[i + 1] && Link(t, i) == Link(free, i + 1);
    assert Link(t, |t|) == Link(free, |free|);
  }

  class Kernel {
    var mem: Memory
    var freelist: nat
    ghost var free: seq<nat>
    const lo: nat   // first frame after the kernel
    const hi: nat   // PHYSTOP

    ghost predicate Valid()
      reads this
    {
      && 0 < lo <= hi
      && (forall f :: lo <= f < hi ==> f in mem && |mem[f]| == WORDS)
      && FreeList(mem, freelist, free)
      && Distinct(free) && forall i :: 0 <= i < |free| ==> lo <= free[i] < hi
    }

    /** kinit: every whole page from the end of the kernel to PHYSTOP is free. */
    constructor Kinit(end: nat, phystop: nat, m: Memory)
      requires 0 < end && PagesUp(end) <= phystop / PGSIZE
      requires forall f :: PagesUp(end) <= f < phystop / PGSIZE ==> f in m && |m[f]| == WORDS
      ensures Valid() && lo == PagesUp(end) && hi == phystop / PGSIZE
      ensures |free| == hi - lo && forall f :: f in free <==> lo <= f < hi
      ensures forall f: nat :: f in free <==> end <= f * PGSIZE && (f + 1) * PGSIZE <= phystop
      ensures mem.Keys == m.Keys && forall f :: f in m && !(lo <= f < hi) ==> mem[f] == m[f]
    {
      mem, freelist, free := m, 0, [];
      lo, hi := PagesUp(end), phystop / PGSIZE;
      new;
      Freerange(end, phystop);
    }

    /** sp is a well-formed address space on allocated frames. */
    ghost predicate Has(sp: Space)
      reads this
    {
      && Valid() && WellFormed(mem, sp)
      && forall f :: f in sp.role ==> lo <= f < hi && f !in free
    }

    method Kalloc() returns (f: nat)
      requires Valid()
      modifies this
      ensures Valid()
      ensures old(free) == [] ==> f == 0 && free == [] && mem == old(mem)
      ensures old(free) != [] ==>
                f != 0 && f == old(free)[0] && free == old(free)[1..] && mem == old(mem)[f := Filled(JUNK_ALLOC)] &&
                  f !in free
    {
      var r := freelist;
      if r != 0 {
        assert free != [] && r == free[0] * PGSIZE;
        f := r / PGSIZE;
        assert f == free[0];
        PopFree(mem, freelist, free);
        freelist := mem[f][0];
        free := free[1..];
        mem := mem[f := Filled(JUNK_ALLOC)];
      } else {
        f := 0;
      }
    }

    method Kfree(f: nat)
      requires Valid() && lo <= f < hi && f !in free
      modifies this
      ensures Valid() && free == [f] + old(free)
      ensures mem.Keys == old(mem).Keys && forall g :: g in mem && g != f ==> mem[g] == old(mem)[g]
      ensures f in mem && IsJunk(mem[f])
    {
      var page: seq<nat> := Filled(JUNK_FREE)[0 := freelist];
      mem := mem[f := page];
      freelist := f * PGSIZE;
      free := [f] + free;
    }

    /** freerange: the whole pages between two addresses. */
    method Freerange(paStart: nat, paEnd: nat)
      requires Valid() && lo <= PagesUp(paStart) && paEnd / PGSIZE <= hi
      requires forall f :: PagesUp(paStart) <= f < paEnd / PGSIZE ==> f !in free
      modifies this
      ensures Valid()
      ensures var first, end := PagesUp(paStart), paEnd / PGSIZE;
              && |free| == |old(free)| + (if first <= end then end - first else 0)
              && (forall f :: f in free <==> f in old(free) || first <= f < end)
              && mem.Keys == old(mem).Keys && (forall f :: f in mem && !(first <= f < end) ==> mem[f] == old(mem)[f])
      ensures forall f: nat :: f in free <==> f in old(free) || (paStart <= f * PGSIZE && (f + 1) * PGSIZE <= paEnd)
    {
      hide IsJunk, FreeList, Distinct;
      var p := PagesUp(paStart);
      ghost var first := p;
      while (p + 1) * PGSIZE <= paEnd
        invariant first <= p && (p <= paEnd / PGSIZE || p == first) && Valid()
        invariant |free| == |old(free)| + (p - first)
        invariant forall f :: f in free <==> f in old(free) || first <= f < p
        invariant mem.Keys == old(mem).Keys && forall f :: f in mem && !(first <= f < p) ==> mem[f] == old(mem)[f]
        decreases paEnd - p * PGSIZE
      {
        assert p < paEnd / PGSIZE && p !in free;
        Kfree(p);
        p := p + 1;
      }
      assert p >= paEnd / PGSIZE;
    }

    /** memset or memmove of a whole allocated page. */
    method Fill(f: nat, page: seq<nat>)
      requires Valid() && lo <= f < hi && f !in free && |page| == WORDS
      modifies this`mem
      ensures Valid() && mem == old(mem)[f := page]
    {
      mem := mem[f := page];
    }

    /** The allocating branch of walk: a zeroed page goes into an empty slot. */
    method NewTable(pf: nat, i: nat, ghost sp: Space, ghost r: Role) returns (g: nat, ghost sp': Space)
      requires Has(sp) && IsSlot(mem, sp, pf, i, r) && !IsValid(Entry(mem, pf, i))
      modifies this
      ensures Has(sp') && Grew(old(mem), old(free), sp, mem, free, sp') && SameMap(old(mem), mem, sp.root)
      ensures g == 0 ==> free == [] && mem == old(mem) && sp' == sp
      ensures g != 0 ==> sp' == WithTable(sp, g, r) && Entry(mem, pf, i) == MakePte(g, PTE_V) && IsZeroed(mem, g)
      ensures forall f, j :: f in sp.role && (f != pf || j != i) ==> Entry(mem, f, j) == Entry(old(mem), f, j)
      ensures Paid(old(free), sp, free, sp', 0) && Made(sp, sp', if g == 0 then {} else {r}, true) && r !in Roles(sp)
    {
      hide WellFormed, FreeList, Grew, SameMap, IsSlot, Leaf, Paid, Roles;
      EmptySlotIsNew(mem, sp, pf, i, r);
      PaidNone(free, sp);
      g := Kalloc();
      sp' := sp;
      if g == 0 {
        NothingGrew(mem, free, sp);
        return;
      }
      Fill(g, Filled(0));
      NewTableEffect(old(mem), mem, old(free), sp, pf, i, r, g);
      OutsideKeepsFree(mem, freelist, free, pf, i, MakePte(g, PTE_V));
      OneMore(sp, old(free), g, r);
      mem := Poke(mem, pf, i, MakePte(g, PTE_V));
      sp' := WithTable(sp, g, r);
    }

    /** walk: the page holding the PTE of page v is returned, 0 if it is missing
        and cannot or must not be made. The tree may grow; the flat map stays. */
    method Walk(root: nat, v: nat, alloc: bool, ghost sp: Space) returns (l: nat, ghost sp': Space)
      requires Has(sp) && root == sp.root && v < MAX_PAGE
      modifies this
      ensures Has(sp') && Grew(old(mem), old(free), sp, mem, free, sp') && SameMap(old(mem), mem, root)
      ensures l == Low(mem, root, v)
      ensures !alloc ==> mem == old(mem) && free == old(free) && sp' == sp
      ensures alloc && l == 0 ==> free == []
      ensures Paid(old(free), sp, free, sp', 0) && (l != 0 || alloc ==> Made(sp, sp', Needs(v), l != 0))
    {
      hide WellFormed, FreeList, Grew, SameMap, Leaf, PointsTo, DownLinks, UpLinks, MakePte, Px2, Px1, Paid, Roles;
      PaidNone(free, sp);
      var level := 2;
      var pagetable := root;
      sp' := sp;
      NothingGrew(mem, free, sp);
      RootHasRole(mem, sp);
      while level > 0
        invariant 0 <= level <= 2
        invariant Has(sp') && Grew(old(mem), old(free), sp, mem, free, sp') && SameMap(old(mem), mem, root)
        invariant sp'.root == root && pagetable in sp'.role
        invariant !alloc ==> mem == old(mem) && free == old(free) && sp' == sp
        invariant level == 2 ==> pagetable == root
        invariant level == 1 ==> pagetable != 0 && pagetable == Mid(mem, root, v)
        invariant level == 0 ==> pagetable != 0 && pagetable == Low(mem, root, v)
        invariant Paid(old(free), sp, free, sp', 0) && Roles(sp) <= Roles(sp') <= Roles(sp) + Needs(v)
        invariant level <= 1 ==> MidTable(Px2(v)) in Roles(sp')
        invariant level == 0 ==> LowTable(Px2(v), Px1(v)) in Roles(sp')
      {
        var i := if level == 2 then Px2(v) else Px1(v);
        assert pagetable in mem && i < |mem[pagetable]| by {
          RoleIsPage(mem, sp', pagetable);
          IndexBounds(v);
        }
        var pte := mem[pagetable][i];
        ghost var m0, f0, s0 := mem, free, sp';
        StepDown(mem, sp', v, level, pagetable, i);
        if pte % 2 == 1 {
          RoleBelow(mem, sp', v, level, pte / 1024);
          pagetable := pte / 1024;
        } else {
          if !alloc {
            return 0, sp';
          }
          var g;
          g, sp' := NewTable(pagetable, i, sp', if level == 2 then MidTable(Px2(v)) else LowTable(Px2(v), Px1(v)));
          GrewTwice(old(mem), old(free), sp, m0, f0, s0, mem, free, sp');
          PaidOn(old(free), sp, f0, s0, free, sp', 0, 0);
          if g == 0 {
            return 0, sp';
          }
          SteppedDown(m0, mem, s0, v, level, pagetable, i, g);
          pagetable := g;
        }
        level := level - 1;
      }
      l := pagetable;
    }

    /** `*pte = x` through the pointer that walk returned. */
    method SetPte(l: nat, v: nat, x: nat, ghost sp: Space)
      requires Has(sp) && v < MAX_PAGE && l != 0 && l == Low(mem, sp.root, v)
      modifies this`mem
      ensures Has(sp) && Mapped(old(mem), mem, sp.root, v, 1, x)
      ensures mem.Keys == old(mem).Keys && forall f :: f in mem && f !in sp.role ==> mem[f] == old(mem)[f]
    {
      hide WellFormed, FreeList, Leaf, Low, Px0;
      WalkRoles(mem, sp, v);
      RoleIsPage(mem, sp, l);
      IndexBounds(v);
      PokeLeaf(mem, sp, v, x);
      OutsideKeepsFree(mem, freelist, free, l, Px0(v), x);
      forall w: nat | w < MAX_PAGE
        ensures Leaf(Poke(mem, l, Px0(v), x), sp.root, w) == if w == v then x else Leaf(mem, sp.root, w) {
        PokeLeafAt(mem, sp, v, x, w);
      }
      mem := Poke(mem, l, Px0(v), x);
    }

    /** mappages, on the pages from va to va + size - 1. When a page-table page
        cannot be had, the pages before it stay mapped; done counts the pages mapped. */
    method MapPages(root: nat, va: nat, size: nat, pa: nat, perm: nat, ghost sp: Space)
      returns (ok: bool, ghost done: nat, ghost sp': Space)
      requires Has(sp) && root == sp.root && size > 0 && (va + size - 1) / PGSIZE < MAX_PAGE && perm < 1024
      requires forall w :: va / PGSIZE <= w <= (va + size - 1) / PGSIZE ==> !IsValid(Leaf(mem, root, w))
      modifies this
      ensures Has(sp') && Grew(old(mem), old(free), sp, mem, free, sp')
      ensures ok ==> done == (va + size - 1) / PGSIZE - va / PGSIZE + 1
      ensures !ok ==> done < (va + size - 1) / PGSIZE - va / PGSIZE + 1 && free == []
      ensures Mapped(old(mem), mem, root, va / PGSIZE, done, MakePte(pa / PGSIZE, WithValid(perm)))
      ensures Paid(old(free), sp, free, sp', 0)
      ensures Made(sp, sp', NeedsOf(va / PGSIZE, if ok then done else done + 1), ok)
    {
      hide WellFormed, FreeList, Grew, Leaf, Low, Px0, MakePte, Paid, Made, Needs, NeedsOf, Mapped, SameMap;
      PaidNone(free, sp);
      NeedsOne(va / PGSIZE);
      var first, last := va / PGSIZE, (va + size - 1) / PGSIZE;
      assert first <= last;
      var a, frame := first, pa / PGSIZE;
      ghost var x := MakePte(frame, WithValid(perm));
      done, sp' := 0, sp;
      NothingGrew(mem, free, sp);
      NothingMappedAt(mem, root, first, x);
      while true
        invariant first <= a <= last && done == a - first && frame == pa / PGSIZE + done
        invariant Has(sp') && sp'.root == root && Grew(old(mem), old(free), sp, mem, free, sp')
        invariant Mapped(old(mem), mem, root, first, done, x)
        invariant Paid(old(free), sp, free, sp', 0) && Made(sp, sp', NeedsOf(first, done), true)
        decreases last - a
      {
        ghost var m0, f0, s0 := mem, free, sp';
        var l;
        l, sp' := Walk(root, a, true, sp');
        GrewMore(old(mem), old(free), sp, m0, f0, s0, mem, free, sp');
        PaidOn(old(free), sp, f0, s0, free, sp', 0, 0);
        MadeMore(sp, s0, sp', first, done, a, l != 0);
        StillUnmapped(old(mem), m0, mem, root, first, done, x, a);
        if l == 0 {
          return false, done, sp';
        }
        ReadLeaf(mem, sp', l, a);
        var pte := mem[l][Px0(a)];
        assert pte % 2 == 0;
        ghost var m1 := mem;
        SetPte(l, a, MakePte(frame, if perm % 2 == 0 then perm + 1 else perm), sp');
        GrewPoke(old(mem), old(free), sp, m1, free, sp', mem);
        MappedOne(old(mem), m0, m1, mem, root, first, done, x, pa / PGSIZE, WithValid(perm));
        done := done + 1;
        if a == last {
          break;
        }
        a := a + 1;
        frame := frame + 1;
      }
      ok := true;
    }

    /** The frames mapped by the n pages from a on are allocated data frames of this space alone. */
    ghost predicate OwnsData(sp: Space, a: nat, n: nat)
      reads this
    {
      var fs := Frames(mem, sp.root, a, n);
      Distinct(fs) && forall i :: 0 <= i < n ==> lo <= fs[i] < hi && fs[i] !in sp.role && fs[i] !in free
    }

    /** kfree of a data frame: no page table notices. */
    method FreeData(f: nat, ghost sp: Space)
      requires Has(sp) && lo <= f < hi && f !in free && f !in sp.role
      modifies this
      ensures Has(sp) && free == [f] + old(free)
      ensures mem.Keys == old(mem).Keys && forall g :: g in mem && g != f ==> mem[g] == old(mem)[g]
      ensures forall w ::
                Low(mem, sp.root, w) == Low(old(mem), sp.root, w) && Leaf(mem, sp.root, w) == Leaf(old(mem), sp.root, w)
    {
      hide WellFormed, FreeList, Leaf, Low;
      Kfree(f);
      assert SameTables(old(mem), mem, sp);
      ElsewhereIsIrrelevant(old(mem), mem, sp);
      forall w
        ensures Low(mem, sp.root, w) == Low(old(mem), sp.root, w) && Leaf(mem, sp.root, w) == Leaf(old(mem), sp.root, w)
      {
        ElsewhereIsIrrelevantAt(old(mem), mem, sp, w);
      }
    }

    /** The body of uvmunmap's loop. */
    method UnmapPage(root: nat, v: nat, doFree: bool, ghost sp: Space)
      requires Has(sp) && root == sp.root && v < MAX_PAGE
      requires IsValid(Leaf(mem, root, v)) && FlagsOf(Leaf(mem, root, v)) != PTE_V
      requires var f := FrameOf(Leaf(mem, root, v)); doFree ==> lo <= f < hi && f !in free && f !in sp.role
      modifies this
      ensures Has(sp) && Unmapped(old(mem), mem, root, v, 1)
      ensures free == (if doFree then [FrameOf(Leaf(old(mem), root, v))] else []) + old(free)
      ensures mem.Keys == old(mem).Keys
      ensures forall f :: f in mem && f !in sp.role && (!doFree || f != FrameOf(Leaf(old(mem), root, v))) ==>
                mem[f] == old(mem)[f]
    {
      hide WellFormed, FreeList, Leaf, Low, Px0;
      LeafHasTable(mem, root, v);
      var l, _ := Walk(root, v, false, sp);
      ReadLeaf(mem, sp, l, v);
      var pte := mem[l][Px0(v)];
      assert pte % 2 == 1 && pte % 1024 != 1;
      if doFree {
        FreeData(pte / 1024, sp);
      }
      SetPte(l, v, 0, sp);
    }

    /** uvmunmap. */
    method UvmUnmap(root: nat, a: nat, npages: nat, doFree: bool, ghost sp: Space)
      requires Has(sp) && root == sp.root && a + npages <= MAX_PAGE
      requires AllLeaves(mem, root, a, npages) && (doFree ==> OwnsData(sp, a, npages))
      modifies this
      ensures Has(sp) && Unmapped(old(mem), mem, root, a, npages)
      ensures !doFree ==> free == old(free)
      ensures doFree ==> Gave(old(free), free, Frames(old(mem), root, a, npages))
      ensures mem.Keys == old(mem).Keys
      ensures forall f :: f in mem && f !in sp.role && (f in old(free) || f !in free) ==> mem[f] == old(mem)[f]
    {
      hide WellFormed, FreeList, Leaf, Has;
      ghost var fs := Frames(mem, root, a, npages);
      var i := 0;
      GaveNothing(free);
      while i < npages
        invariant 0 <= i <= npages && Has(sp) && Unmapped(old(mem), mem, root, a, i)
        invariant !doFree ==> free == old(free)
        invariant doFree ==> Gave(old(free), free, fs[..i])
        invariant mem.Keys == old(mem).Keys
        invariant forall f :: f in mem && f !in sp.role && (f in old(free) || f !in free) ==> mem[f] == old(mem)[f]
      {
        assert Leaf(mem, root, a + i) == Leaf(old(mem), root, a + i);
        if doFree {
          assert fs[i] == FrameOf(Leaf(mem, root, a + i));
          GaveOneMore(old(free), free, fs, i);
        }
        UnmapPage(root, a + i, doFree, sp);
        i := i + 1;
      }
      assert fs[..npages] == fs;
    }

    /** fs are distinct allocated frames that no page table of sp uses as a table. */
    ghost predicate Holds(sp: Space, fs: seq<nat>)
      reads this
    {
      HoldsFrames(lo, hi, free, sp, fs)
    }

    /** One page of uvmalloc's or uvmcopy's loop: a frame is allocated, filled
        with `page`, and mapped at v; if either allocation fails, the frame goes back. */
    method AddPage(root: nat, v: nat, page: seq<nat>, perm: nat, ghost sp: Space)
      returns (g: nat, ghost sp': Space)
      requires Has(sp) && root == sp.root && v < MAX_PAGE && perm < 1024 && |page| == WORDS
      requires !IsValid(Leaf(mem, root, v))
      modifies this
      ensures sp'.root == sp.root && Has(sp') && Conserved(old(free), sp, free, sp', if g == 0 then [] else [g])
      ensures g == 0 ==> Mapped(old(mem), mem, root, v, 0, 0)
      ensures g != 0 ==> g in old(free) && Holds(sp', [g]) && g in mem && mem[g] == page &&
                         Mapped(old(mem), mem, root, v, 1, MakePte(g, WithValid(perm)))
      ensures SetOf(free) <= SetOf(old(free))
      ensures Untouched(old(mem), mem, old(free), sp')
      ensures Paid(old(free), sp, free, sp', if g == 0 then 0 else 1)
      ensures if g != 0 then Made(sp, sp', Needs(v), true) else |old(free)| < 1 + Missing(sp, v, 1)
    {
      hide WellFormed, FreeList, Leaf, MakePte, Mapped, SameMap, Conserved, Untouched, HoldsFrames, Paid, Made;
      hide Needs, Missing;
      hide SetOf, Distinct;
      sp' := sp;
      PaidNone(free, sp);
      g := Kalloc();
      ConservedNothing(free, sp);
      UntouchedNothing(mem, free, sp);
      if g == 0 {
        NothingMapped(mem, root, v);
        return;
      }
      Fill(g, page);
      DataWrite(old(mem), mem, sp);
      SameLeaf(old(mem), mem, root, v);
      ghost var m1 := mem;
      var ok;
      ok, sp' := MapOne(root, v, g, perm, sp);
      MappedAfter(old(mem), m1, mem, root, v, MakePte(g, WithValid(perm)));
      ConservedAlloc(old(free), sp, free, sp');
      OneHeld(lo, hi, old(free), sp, free, sp');
      ghost var m2 := mem;
      PaidOne(old(free), sp, free, sp', g);
      if !ok {
        ShortOne(old(free), sp, free, sp', v);
        FreeData(g, sp');
        SameMapAfter(old(mem), m2, mem, root, v);
      }
      UntouchedAdd(old(mem), m1, m2, mem, old(free), g, sp');
      if !ok {
        g := 0;
      }
    }

    /** mappages of a single page. */
    method MapOne(root: nat, v: nat, frame: nat, perm: nat, ghost sp: Space) returns (ok: bool, ghost sp': Space)
      requires Has(sp) && root == sp.root && v < MAX_PAGE && perm < 1024 && !IsValid(Leaf(mem, root, v))
      modifies this
      ensures Has(sp') && Mapped(old(mem), mem, root, v, if ok then 1 else 0, MakePte(frame, WithValid(perm)))
      ensures sp'.root == sp.root && Conserved(old(free), sp, free, sp', [])
      ensures SetOf(free) <= SetOf(old(free)) && sp'.role.Keys <= sp.role.Keys + SetOf(old(free))
      ensures mem.Keys == old(mem).Keys && forall f :: f in mem && f !in sp'.role ==> mem[f] == old(mem)[f]
      ensures Paid(old(free), sp, free, sp', 0) && Made(sp, sp', Needs(v), ok) && (!ok ==> free == [])
    {
      hide WellFormed, FreeList, Leaf, MakePte, Paid, Made, Needs, NeedsOf;
      NeedsOne(v);
      ghost var done;
      assert frame * PGSIZE / PGSIZE == frame && v * PGSIZE / PGSIZE == v && (v * PGSIZE + PGSIZE - 1) / PGSIZE == v;
      ok, done, sp' := MapPages(root, v * PGSIZE, PGSIZE, frame * PGSIZE, perm, sp);
      GrewSets(old(mem), old(free), sp, mem, free, sp');
    }

    /** The n pages from first on were added by this call, with the PTEs ptes on the frames fs. */
    ghost predicate HasAdded(mem0: Memory, free0: seq<nat>, sp0: Space, sp: Space, first: nat, ptes: seq<nat>,
                             fs: seq<nat>)
      reads this
    {
      && sp.root == sp0.root && Has(sp) && Holds(sp, fs) && SetOf(fs) <= SetOf(free0) && SetOf(free) <= SetOf(free0)
      && Conserved(free0, sp0, free, sp, fs) && Extended(mem0, mem, sp0.root, first, ptes) && PtesFor(ptes, fs)
      && Untouched(mem0, mem, free0, sp) && Paid(free0, sp0, free, sp, |fs|)
    }

    /** One more page. */
    method ExtendByPage(root: nat, first: nat, v: nat, page: seq<nat>, perm: nat, ghost mem0: Memory,
                        ghost free0: seq<nat>,
                        ghost sp0: Space, ghost sp: Space, ghost ptes: seq<nat>, ghost fs: seq<nat>)
      returns (g: nat, ghost sp': Space)
      requires HasAdded(mem0, free0, sp0, sp, first, ptes, fs) && root == sp.root && v == first + |ptes| < MAX_PAGE
      requires perm < 1024 && WithValid(perm) != PTE_V && |page| == WORDS && Leaf(mem0, root, v) == 0
      modifies this
      ensures g == 0 ==> HasAdded(mem0, free0, sp0, sp', first, ptes, fs)
      ensures g != 0 ==>
                HasAdded(mem0, free0, sp0, sp', first, ptes + [MakePte(g, WithValid(perm))], fs + [g]) && g in mem &&
                  mem[g] == page
      ensures sp'.root == sp.root && forall i :: 0 <= i < |fs| ==> fs[i] in mem && mem[fs[i]] == old(mem)[fs[i]]
      ensures if g != 0 then Made(sp, sp', Needs(v), true) else |old(free)| < 1 + Missing(sp, v, 1)
    {
      hide WellFormed, FreeList, Leaf, Mapped, Extended, Conserved, MakePte, PtesFor, Untouched, Paid, Made, Needs;
      hide Missing;
      hide HoldsFrames, Distinct, SetOf;
      ghost var m1, f1 := mem, free;
      HeldApart(lo, hi, free, sp, fs);
      NextIsUnmapped(mem0, mem, sp0.root, first, ptes, v);
      g, sp' := AddPage(root, v, page, perm, sp);
      PaidOn(free0, sp0, f1, sp, free, sp', |fs|, if g == 0 then 0 else 1);
      ExtendedStep(mem0, m1, mem, sp0.root, first, ptes, v, MakePte(g, WithValid(perm)));
      ConservedStep(free0, sp0, f1, sp, free, sp', fs, g);
      AddedFrame(lo, hi, free0, f1, sp, free, sp', ptes, fs, g, WithValid(perm));
      UntouchedStep(mem0, m1, mem, free0, f1, sp, sp');
      UntouchedFrames(m1, mem, f1, sp', lo, hi, free, fs);
    }

    /** uvmdealloc: the pages from PGROUNDUP(newsz) up to PGROUNDUP(oldsz) go. */
    method UvmDealloc(root: nat, oldsz: nat, newsz: nat, ghost sp: Space) returns (r: nat)
      requires Has(sp) && root == sp.root && PagesUp(oldsz) <= MAX_PAGE
      requires var a, n := PagesUp(newsz), PagesUp(oldsz) - PagesUp(newsz);
               n > 0 ==> AllLeaves(mem, root, a, n) && OwnsData(sp, a, n)
      modifies this
      ensures Has(sp) && r == if newsz < oldsz then newsz else oldsz
      ensures var a, n := PagesUp(newsz), PagesUp(oldsz) - PagesUp(newsz);
              if n > 0 then
                Unmapped(old(mem), mem, root, a, n) && Gave(old(free), free, Frames(old(mem), root, a, n)) &&
                mem.Keys == old(mem).Keys &&
                (forall f :: f in mem && f !in sp.role && (f in old(free) || f !in free) ==> mem[f] == old(mem)[f])
              else mem == old(mem) && free == old(free)
      ensures Shrinks(old(mem), mem, root, oldsz, newsz)
    {
      hide WellFormed, FreeList, Leaf, Unmapped, Gave, Shrinks, PagesUp;
      if newsz >= oldsz {
        ShrunkView(old(mem), mem, sp, oldsz, newsz);
        return oldsz;
      }
      if PagesUp(newsz) < PagesUp(oldsz) {
        UvmUnmap(root, PagesUp(newsz), PagesUp(oldsz) - PagesUp(newsz), true, sp);
      }
      ShrunkView(old(mem), mem, sp, oldsz, newsz);
      return newsz;
    }

    /** Undoing the pages added so far restores the flat map exactly; page-table
        pages that were added stay linked. */
    method Undo(root: nat, first: nat, n: nat, ghost mem0: Memory, ghost free0: seq<nat>, ghost sp0: Space,
                ghost sp: Space,
                ghost ptes: seq<nat>, ghost fs: seq<nat>)
      requires HasAdded(mem0, free0, sp0, sp, first, ptes, fs) && root == sp.root && n == |ptes| &&
               first + n <= MAX_PAGE
      requires forall w :: first <= w < first + n ==> Leaf(mem0, root, w) == 0
      modifies this
      ensures HasAdded(mem0, free0, sp0, sp, first, [], [])
    {
      hide WellFormed, FreeList, Leaf, Extended, Conserved, MakePte, Untouched, Frames, Unmapped, Gave, Paid;
      ghost var m1, f1 := mem, free;
      AddedAreLeaves(mem0, mem, root, first, ptes, fs);
      assert PagesUp(first * PGSIZE) == first && PagesUp((first + n) * PGSIZE) == first + n by {
        RoundUpPages(first);
        RoundUpPages(first + n);
      }
      var _ := UvmDealloc(root, (first + n) * PGSIZE, first * PGSIZE, sp);
      if n > 0 {
        Undone(mem0, m1, mem, root, first, ptes);
        ConservedBack(free0, sp0, f1, free, sp, fs);
        UntouchedBack(mem0, m1, mem, free0, f1, free, sp);
        PaidBack(free0, sp0, f1, sp, free, fs);
      } else {
        assert ptes == [] && fs == [];
      }
    }

    /** uvmalloc. On success the new pages map zeroed frames of their own; on
        failure the flat map is as before. ghost ok tells the two apart where
        the code's return values coincide. */
    method UvmAlloc(root: nat, oldsz: nat, newsz: nat, xperm: nat, ghost sp: Space)
      returns (r: nat, ghost ok: bool, ghost sp': Space, ghost ptes: seq<nat>, ghost fs: seq<nat>)
      requires Has(sp) && root == sp.root && newsz <= MAX_PAGE * PGSIZE && xperm in {0, PTE_W, PTE_X, PTE_W + PTE_X}
      requires forall w :: PagesUp(oldsz) <= w < PagesUp(newsz) ==> Leaf(mem, root, w) == 0
      modifies this
      ensures r == if !ok then 0 else if newsz < oldsz then oldsz else newsz
      ensures HasAdded(old(mem), old(free), sp, sp', PagesUp(oldsz), ptes, fs)
      ensures !ok ==> ptes == [] && fs == []
      ensures ok ==> |fs| == if PagesUp(oldsz) <= PagesUp(newsz) then PagesUp(newsz) - PagesUp(oldsz) else 0
      ensures forall i :: 0 <= i < |ptes| ==> FlagsOf(ptes[i]) == PTE_R + PTE_U + xperm + PTE_V
      ensures forall i :: 0 <= i < |fs| ==> fs[i] in mem && mem[fs[i]] == Filled(0)
      ensures var first, n := PagesUp(oldsz), PagesUp(newsz) - PagesUp(oldsz);
              ok <==> n <= 0 || |old(free)| >= n + Missing(sp, first, n)
      ensures Grows(old(mem), mem, root, oldsz, if ok then newsz else oldsz, xperm)
    {
      hide WellFormed, FreeList, Leaf, Extended, Conserved, MakePte, Untouched, HoldsFrames, Paid, Made, Needs;
      hide NeedsOf, Missing, Grows, PagesUp;
      PaidNone(free, sp);
      NeedsOne(PagesUp(oldsz));
      ptes, fs, sp', ok := [], [], sp, true;
      var first := PagesUp(oldsz);
      NothingAdded(mem, free, sp, first, lo, hi);
      if newsz < oldsz {
        assert PagesUp(newsz) <= PagesUp(oldsz);
        GrownView(old(mem), mem, sp, sp', oldsz, newsz, ptes, fs, xperm);
        return oldsz, ok, sp', ptes, fs;
      }
      var a := PagesUp(oldsz);
      while a * PGSIZE < newsz
        invariant first <= a && a == first + |ptes| && |fs| == |ptes|
        invariant a <= PagesUp(newsz) || a == first
        invariant HasAdded(old(mem), old(free), sp, sp', first, ptes, fs) &&
                  Made(sp, sp', NeedsOf(first, a - first), true)
        invariant forall i :: 0 <= i < |ptes| ==> FlagsOf(ptes[i]) == PTE_R + PTE_U + xperm + PTE_V
        invariant forall i :: 0 <= i < |fs| ==> fs[i] in mem && mem[fs[i]] == Filled(0)
        decreases newsz - a * PGSIZE
      {
        assert a < PagesUp(newsz);
        var g;
        ghost var f0, s0 := free, sp';
        g, sp' := ExtendByPage(root, first, a, Filled(0), PTE_R + PTE_U + xperm,
                               old(mem), old(free), sp, sp', ptes, fs);
        if g == 0 {
          Short(old(free), sp, f0, s0, first, a - first, PagesUp(newsz) - first);
          Undo(root, first, a - first, old(mem), old(free), sp, sp', ptes, fs);
          GrownView(old(mem), mem, sp, sp', oldsz, oldsz, [], [], xperm);
          return 0, false, sp', [], [];
        }
        MadeMore(sp, s0, sp', first, a - first, a, true);
        ptes, fs := ptes + [MakePte(g, WithValid(PTE_R + PTE_U + xperm))], fs + [g];
        a := a + 1;
      }
      Enough(old(free), sp, free, sp', first, a - first);
      GrownView(old(mem), mem, sp, sp', oldsz, newsz, ptes, fs, xperm);
      return newsz, ok, sp', ptes, fs;
    }

    /** The PTE of a page that is mapped, through walk. */
    method ReadPte(root: nat, v: nat, ghost sp: Space) returns (pte: nat)
      requires Has(sp) && root == sp.root && v < MAX_PAGE && Leaf(mem, root, v) != 0
      modifies this
      ensures Has(sp) && mem == old(mem) && free == old(free) && pte == Leaf(mem, root, v)
    {
      hide WellFormed, FreeList, Leaf, Low, Px0;
      LeafHasTable(mem, root, v);
      var l, _ := Walk(root, v, false, sp);
      ReadLeaf(mem, sp, l, v);
      pte := mem[l][Px0(v)];
    }

    /** uvmcopy from the space spO to the space sp. On success every page of the
        child has the parent's flags and the parent's bytes on a frame of its
        own; on failure the child's flat map is as before. */
    method UvmCopy(oldroot: nat, newroot: nat, sz: nat, ghost spO: Space, ghost sp: Space)
      returns (ok: bool, ghost sp': Space, ghost ptes: seq<nat>, ghost fs: seq<nat>)
      requires Has(spO) && Has(sp) && oldroot == spO.root && newroot == sp.root && spO.role.Keys !! sp.role.Keys
      requires PagesUp(sz) <= MAX_PAGE && AllLeaves(mem, oldroot, 0, PagesUp(sz)) && OwnsData(spO, 0, PagesUp(sz))
      requires forall i :: 0 <= i < PagesUp(sz) ==>
                 FrameOf(Leaf(mem, oldroot, i)) !in sp.role && Leaf(mem, newroot, i) == 0
      modifies this
      ensures HasAdded(old(mem), old(free), sp, sp', 0, ptes, fs)
      ensures Has(spO) && SameMap(old(mem), mem, oldroot)
      ensures if ok then |fs| == PagesUp(sz) else ptes == [] && fs == []
      ensures Copied(old(mem), mem, oldroot, ptes, fs)
      ensures ok <==> |old(free)| >= PagesUp(sz) + Missing(sp, 0, PagesUp(sz))
      ensures Forks(old(mem), mem, oldroot, newroot, if ok then sz else 0)
    {
      hide SetOf, PtesFor, Distinct, Paid, Made, Needs, NeedsOf, Missing, WellFormed, FreeList, Leaf, Extended;
      hide Conserved, MakePte, Untouched, HoldsFrames, Low, Px0, Frames, SameMap, Copied, Forks, PagesUp;
      ptes, fs, sp' := [], [], sp;
      var n := PagesUp(sz);
      NothingAdded(mem, free, sp, 0, lo, hi);
      NothingCopied(mem, oldroot);
      SourceStart(old(mem), old(free), spO, sp, n, lo, hi);
      PaidNone(free, sp);
      NeedsOne(0);
      var i := 0;
      while i * PGSIZE < sz
        invariant 0 <= i <= n && |ptes| == i == |fs|
        invariant HasAdded(old(mem), old(free), sp, sp', 0, ptes, fs) && Made(sp, sp', NeedsOf(0, i), true)
        invariant Copied(old(mem), mem, oldroot, ptes, fs)
        decreases n - i
      {
        assert i < n;
        ghost var pte0 := Leaf(old(mem), oldroot, i);
        SourceKept(old(mem), mem, old(free), free, spO, sp, sp', fs, n, i, lo, hi);
        var pte := ReadPte(oldroot, i, spO);
        var flags, page := pte % 1024, mem[pte / 1024];
        ghost var m1, f0, s0 := mem, free, sp';
        var g;
        g, sp' := ExtendByPage(newroot, 0, i, page, flags, old(mem), old(free), sp, sp', ptes, fs);
        if g == 0 {
          Short(old(free), sp, f0, s0, 0, i, n);
          Undo(newroot, 0, i, old(mem), old(free), sp, sp', ptes, fs);
          SourceKept(old(mem), mem, old(free), free, spO, sp, sp', [], n, i, lo, hi);
          NothingCopied2(old(mem), mem, oldroot);
          ForkedView(old(mem), mem, spO, sp, sp', 0, [], []);
          return false, sp', [], [];
        }
        LastIsFree(fs, g, old(free));
        CopiedStep(old(mem), m1, mem, oldroot, ptes, fs, MakePte(g, WithValid(flags)), g);
        MadeMore(sp, s0, sp', 0, i, i, true);
        ptes, fs := ptes + [MakePte(g, WithValid(flags))], fs + [g];
        i := i + 1;
      }
      SourceKept(old(mem), mem, old(free), free, spO, sp, sp', fs, n, 0, lo, hi);
      Enough(old(free), sp, free, sp', 0, n);
      ForkedView(old(mem), mem, spO, sp, sp', sz, ptes, fs);
      ok := true;
    }

    /** freewalk on the page f, at the given level of a tree without leaves. The
        pages of its subtree, and only they, go to the free list. */
    method FreeWalk(f: nat, level: nat, ghost sp: Space)
      requires Has(sp) && NoLeaves(mem, sp) && f in sp.role && level == LevelOf(sp.role[f])
      modifies this
      ensures Valid() && SetOf(free) == SetOf(old(free)) + Subtree(sp, sp.role[f])
      ensures mem.Keys == old(mem).Keys
      ensures forall g :: g in mem && g !in Subtree(sp, sp.role[f]) ==> mem[g] == old(mem)[g]
      decreases level, 1
    {
      hide WellFormed, FreeList, Subtree, Prune, NoLeaves, Pruned, IsSlot;
      ghost var q, r := sp, sp.role[f];
      var i := 0;
      PrunedNothing(old(mem), old(free), sp, r);
      RoleIsPage(mem, sp, f);
      while i < 512
        invariant 0 <= i <= 512 && Has(q) && NoLeaves(mem, q) && f in q.role && q.role[f] == r
        invariant f in mem && |mem[f]| == WORDS
        invariant forall j :: 0 <= j < i ==> !IsValid(Entry(mem, f, j))
        invariant Pruned(old(mem), old(free), sp, r, mem, free, q)
      {
        var pte := mem[f][i];
        EntryKind(mem, q, f, i);
        if pte % 2 == 1 {
          assert pte % 1024 == 1;
          ghost var m0, f0, k := mem, free, ChildRole(r, i);
          FreeChild(f, i, level, q);
          PrunedMore(old(mem), old(free), sp, r, m0, f0, q, k, mem, free, f);
          q := Prune(q, k);
        }
        i := i + 1;
      }
      EmptyTableIsAlone(mem, q, f);
      PrunedAll(old(mem), old(free), sp, r, mem, free, q, f);
      Kfree(f);
    }

    /** The branch of freewalk's loop for an entry that leads to a lower table. */
    method FreeChild(f: nat, i: nat, level: nat, ghost q: Space)
      requires Has(q) && NoLeaves(mem, q) && f in q.role && level == LevelOf(q.role[f]) && i < WORDS
      requires f in mem && |mem[f]| == WORDS && IsValid(mem[f][i])
      modifies this
      ensures !q.role[f].LowTable?
      ensures var p := Prune(q, ChildRole(q.role[f], i));
              Has(p) && NoLeaves(mem, p) && f in p.role && p.role[f] == q.role[f]
      ensures SetOf(free) == SetOf(old(free)) + Subtree(q, ChildRole(q.role[f], i))
      ensures mem.Keys == old(mem).Keys && |mem[f]| == WORDS
      ensures forall g :: g in mem && g !in Subtree(q, ChildRole(q.role[f], i)) && g != f ==> mem[g] == old(mem)[g]
      ensures Entry(mem, f, i) == 0 && forall j :: j != i ==> Entry(mem, f, j) == Entry(old(mem), f, j)
      decreases level, 0
    {
      hide WellFormed, FreeList, Subtree, Prune, NoLeaves, IsSlot;
      EntryKind(mem, q, f, i);
      FreeWalk(mem[f][i] / 1024, level - 1, q);
      ChildGone(old(mem), old(free), q, f, i, mem, free);
      OutsideKeepsFree(mem, freelist, free, f, i, 0);
      mem := Poke(mem, f, i, 0);
    }

    /** uvmfree. Every frame of the space, data and page tables, is free again. */
    method UvmFree(root: nat, sz: nat, ghost sp: Space)
      requires Has(sp) && root == sp.root && PagesUp(sz) <= MAX_PAGE
      requires AllLeaves(mem, root, 0, PagesUp(sz)) && OwnsData(sp, 0, PagesUp(sz))
      requires forall w :: PagesUp(sz) <= w < MAX_PAGE ==> !IsValid(Leaf(mem, root, w))
      modifies this
      ensures Valid()
      ensures SetOf(free) == SetOf(old(free)) + sp.role.Keys + SetOf(Frames(old(mem), root, 0, PagesUp(sz)))
      ensures mem.Keys == old(mem).Keys && forall f :: f in mem && (f in old(free) || f !in free) ==>
                mem[f] == old(mem)[f]
    {
      hide WellFormed, FreeList, Leaf, NoLeaves;
      GaveNothing(free);
      NothingUnmapped(mem, root);
      if sz > 0 {
        UvmUnmap(root, 0, PagesUp(sz), true, sp);
      }
      ghost var f1 := free;
      assert forall v :: 0 <= v < MAX_PAGE ==> !IsValid(Leaf(mem, root, v));
      EmptyMapHasNoLeaves(mem, sp);
      WholeTree(mem, sp);
      FreeWalk(root, 2, sp);
      assert forall f :: f in SetOf(f1) ==> f in SetOf(free);
    }

    /** uvmcreate */
    method UvmCreate() returns (root: nat, ghost sp: Space)
      requires Valid()
      modifies this
      ensures root == 0 <==> old(free) == []
      ensures root == 0 ==> Valid() && free == old(free) && mem == old(mem)
      ensures root != 0 ==> free == old(free)[1..]
      ensures root != 0 ==> Has(sp) && root == sp.root && sp == Space(root, map[root := TopTable]) && root in old(free)
      ensures root != 0 ==> SetOf(old(free)) == SetOf(free) + {root} && SetOf(free) <= SetOf(old(free))
      ensures root != 0 ==> forall w :: Leaf(mem, root, w) == 0
      ensures mem.Keys == old(mem).Keys && forall f :: f in mem && f != root ==> mem[f] == old(mem)[f]
    {
      hide FreeList, Leaf, WellFormed;
      root := Kalloc();
      sp := Space(root, map[root := TopTable]);
      if root != 0 {
        Fill(root, Filled(0));
        NewRoot(mem, root);
        assert old(free) == [root] + free;
      }
    }

    /** proc_pagetable: an address space with only the trampoline and trapframe
        pages. It takes three frames; if there are fewer, every frame is given
        back. Only frames from the free list are written. */
    method ProcPagetable(trampoline: nat, trapframe: nat) returns (root: nat, ghost sp: Space)
      requires Valid()
      modifies this
      ensures root == 0 <==> |old(free)| < 3
      ensures root == 0 ==> Valid() && SetOf(free) == SetOf(old(free))
      ensures root != 0 ==> Has(sp) && root == sp.root && SetOf(free) + sp.role.Keys == SetOf(old(free))
      ensures root != 0 ==> forall w :: 0 <= w < MAX_PAGE ==>
                Leaf(mem, root, w) == if w == TRAMPOLINE then MakePte(trampoline, PTE_R + PTE_X + PTE_V)
                                      else if w == TRAPFRAME then MakePte(trapframe, PTE_R + PTE_W + PTE_V) else 0
      ensures OnlyFree(old(mem), mem, old(free))
      ensures root != 0 ==> OnlySpecial(mem, root, trampoline, trapframe)
    {
      hide WellFormed, FreeList, Leaf, MakePte, Conserved, Mapped, Unmapped, SetOf, Paid, Made, Needs, Roles;
      hide OnlySpecial;
      root, sp := UvmCreate();
      if root == 0 {
        return;
      }
      ghost var m0, f0, s0 := mem, free, sp;
      var ok;
      ok, sp := MapOne(root, TRAMPOLINE, trampoline, PTE_R + PTE_X, sp);
      ghost var m1, f1, s1, x := mem, free, sp, MakePte(trampoline, WithValid(PTE_R + PTE_X));
      SameTotal(f0, s0, free, sp);
      FirstMapping(m0, mem, root, ok, x);
      FirstCost(f0, root, free, sp, ok);
      OnlyFreeTables(old(mem), m0, mem, old(free), sp);
      if !ok {
        FreeEmpty(root, sp);
        OnlyFreeBack(old(mem), m1, mem, old(free), free);
        return 0, sp;
      }
      ok, sp := MapOne(root, TRAPFRAME, trapframe, PTE_R + PTE_W, sp);
      SameTotal(f1, s1, free, sp);
      ghost var m2, y := mem, MakePte(trapframe, WithValid(PTE_R + PTE_W));
      SecondMapping(m0, m1, mem, root, ok, x, y);
      OnlyFreeTables(old(mem), m1, mem, old(free), sp);
      if !ok {
        ghost var f2 := free;
        UnmapPage(root, TRAMPOLINE, false, sp);
        assert free == f2;
        OneUnmapped(m2, mem, root);
        OnlyFreeTables(old(mem), m2, mem, old(free), sp);
        ghost var m3 := mem;
        FreeEmpty(root, sp);
        OnlyFreeBack(old(mem), m3, mem, old(free), free);
        root := 0;
        SecondCost(s1, sp, ok);
        return;
      }
      SpecialView(mem, sp, trampoline, trapframe);
    }

    /** uvmfree of a space without leaves. */
    method FreeEmpty(root: nat, ghost sp: Space)
      requires Has(sp) && root == sp.root && forall w :: 0 <= w < MAX_PAGE ==> !IsValid(Leaf(mem, root, w))
      modifies this
      ensures Valid() && SetOf(free) == SetOf(old(free)) + sp.role.Keys
      ensures mem.Keys == old(mem).Keys && forall f :: f in mem && (f in old(free) || f !in free) ==>
                mem[f] == old(mem)[f]
    {
      hide WellFormed, FreeList, Leaf;
      NoPages(mem, sp, free, lo, hi);
      UvmFree(root, 0, sp);
    }

    /** proc_freepagetable: the two special mappings are dropped without freeing
        their frames, and everything else of the space is freed. */
    method ProcFreepagetable(root: nat, sz: nat, ghost sp: Space)
      requires Has(sp) && root == sp.root && PagesUp(sz) <= TRAPFRAME
      requires AllLeaves(mem, root, 0, PagesUp(sz)) && OwnsData(sp, 0, PagesUp(sz)) &&
               AllLeaves(mem, root, TRAPFRAME, 2)
      requires forall w :: PagesUp(sz) <= w < TRAPFRAME ==> !IsValid(Leaf(mem, root, w))
      modifies this
      ensures Valid()
      ensures SetOf(free) == SetOf(old(free)) + sp.role.Keys + SetOf(Frames(old(mem), root, 0, PagesUp(sz)))
      ensures mem.Keys == old(mem).Keys && forall f :: f in mem && (f in old(free) || f !in free) ==>
                mem[f] == old(mem)[f]
    {
      hide WellFormed, FreeList, Leaf, Frames;
      UnmapPage(root, TRAMPOLINE, false, sp);
      ghost var m1 := mem;
      UnmapPage(root, TRAPFRAME, false, sp);
      SameFrames(old(mem), mem, root, PagesUp(sz));
      ghost var m2 := mem;
      UvmFree(root, sz, sp);
      AllGivenBack(old(mem), m2, mem, old(free), free, sp);
    }
  }

  const TRAMPOLINE: nat := MAX_PAGE - 1
  const TRAPFRAME: nat := MAX_PAGE - 2

  lemma AllGivenBack(m0: Memory, m1: Memory, m2: Memory, f0: seq<nat>, f1: seq<nat>, sp: Space)
    requires m0.Keys == m1.Keys == m2.Keys && sp.role.Keys <= SetOf(f1) && (forall f :: f in sp.role ==> f !in f0)
    requires forall f :: f in m1 && f !in sp.role ==> m1[f] == m0[f]
    requires forall f :: f in m2 && (f in f0 || f !in f1) ==> m2[f] == m1[f]
    ensures forall f :: f in m2 && (f in f0 || f !in f1) ==> m2[f] == m0[f]
  {
    forall f | f in m2 && (f in f0 || f !in f1) ensures m2[f] == m0[f] {
      assert f !in f0 ==> f !in SetOf(f1);
    }
  }

  /** The three frames of proc_pagetable: the root, and two tables that both pages share. */
  lemma FirstCost(free: seq<nat>, root: nat, free': seq<nat>, sp': Space, ok: bool)
    requires Paid(free, Space(root, map[root := TopTable]), free', sp', 0) && (!ok ==> free' == [])
    requires Made(Space(root, map[root := TopTable]), sp', Needs(TRAMPOLINE), ok)
    ensures if ok then |free| == |free'| + 2 && Needs(TRAPFRAME) <= Roles(sp') else |free| < 2
  {
    hide Needs, Roles;
    var sp := Space(root, map[root := TopTable]);
    SpecialNeeds(root);
    Union(Roles(sp), Needs(TRAMPOLINE));
    if !ok {
      var rest := Roles(sp) + Needs(TRAMPOLINE) - Roles(sp');
      assert Roles(sp) + Needs(TRAMPOLINE) == Roles(sp') + rest && rest != {};
    }
  }

  lemma SpecialNeeds(root: nat)
    ensures Needs(TRAMPOLINE) == Needs(TRAPFRAME) && Roles(Space(root, map[root := TopTable])) == {TopTable}
    ensures |Needs(TRAMPOLINE) - {TopTable}| == 2
  {
    hide Px2, Px1;
    SpecialIndices();
    var x, y := MidTable(255), LowTable(255, 511);
    assert Needs(TRAMPOLINE) == {x, y} && {x, y} - {TopTable} == {x, y} && x != y;
    var role := map[root := TopTable];
    assert role[root] == TopTable;
  }

  lemma SpecialIndices()
    ensures Px2(TRAMPOLINE) == Px2(TRAPFRAME) == 255 && Px1(TRAMPOLINE) == Px1(TRAPFRAME) == 511
  {
  }

  lemma SecondCost(sp: Space, sp': Space, ok: bool)
    requires Needs(TRAPFRAME) <= Roles(sp) && Made(sp, sp', Needs(TRAPFRAME), ok)
    ensures ok
  {
  }

  /** Only frames of the free list have been written. */
  ghost predicate OnlyFree(mem: Memory, mem': Memory, free: seq<nat>) {
    mem'.Keys == mem.Keys && forall f :: f in mem && f !in free ==> mem'[f] == mem[f]
  }

  lemma OnlyFreeTables(m0: Memory, m1: Memory, m2: Memory, free: seq<nat>, sp: Space)
    requires OnlyFree(m0, m1, free) && m2.Keys == m1.Keys && sp.role.Keys <= SetOf(free)
    requires forall f :: f in m1 && f !in sp.role ==> m2[f] == m1[f]
    ensures OnlyFree(m0, m2, free)
  {
    forall f | f in m0 && f !in free ensures m2[f] == m0[f] {
      assert f !in SetOf(free);
    }
  }

  lemma OnlyFreeBack(m0: Memory, m1: Memory, m2: Memory, free: seq<nat>, free': seq<nat>)
    requires OnlyFree(m0, m1, free) && m2.Keys == m1.Keys && SetOf(free') <= SetOf(free)
    requires forall f :: f in m2 && f !in free' ==> m2[f] == m1[f]
    ensures OnlyFree(m0, m2, free)
  {
    forall f | f in m0 && f !in free ensures m2[f] == m0[f] {
      assert f !in SetOf(free');
    }
  }

  lemma SameTotal(f0: seq<nat>, s0: Space, f1: seq<nat>, s1: Space)
    requires Conserved(f0, s0, f1, s1, [])
    ensures SetOf(f1) + s1.role.Keys == SetOf(f0) + s0.role.Keys
  {
    assert SetOf([]) == {};
  }

  lemma FirstMapping(m0: Memory, m1: Memory, root: nat, ok: bool, x: nat)
    requires (forall w :: Leaf(m0, root, w) == 0) && Mapped(m0, m1, root, TRAMPOLINE, if ok then 1 else 0, x)
    ensures forall w :: 0 <= w < MAX_PAGE ==> Leaf(m1, root, w) == if ok && w == TRAMPOLINE then x else 0
  {
    hide Leaf;
  }

  lemma SecondMapping(m0: Memory, m1: Memory, m2: Memory, root: nat, ok: bool, x: nat, y: nat)
    requires forall w :: 0 <= w < MAX_PAGE ==> Leaf(m1, root, w) == if w == TRAMPOLINE then x else 0
    requires Mapped(m1, m2, root, TRAPFRAME, if ok then 1 else 0, y)
    ensures forall w :: 0 <= w < MAX_PAGE ==>
              Leaf(m2, root, w) == if w == TRAMPOLINE then x else if ok && w == TRAPFRAME then y else 0
  {
    hide Leaf;
  }

  lemma OneUnmapped(m1: Memory, m2: Memory, root: nat)
    requires Unmapped(m1, m2, root, TRAMPOLINE, 1)
    requires forall w :: 0 <= w < MAX_PAGE && w != TRAMPOLINE ==> Leaf(m1, root, w) == 0
    ensures forall w :: 0 <= w < MAX_PAGE ==> !IsValid(Leaf(m2, root, w))
  {
    hide Leaf;
  }

  lemma NoPages(mem: Memory, sp: Space, free: seq<nat>, lo: nat, hi: nat)
    ensures PagesUp(0) == 0 && Frames(mem, sp.root, 0, 0) == [] && AllLeaves(mem, sp.root, 0, 0) && SetOf([]) == {}
  {
  }

  lemma {:induction false} SameFrames(mem: Memory, mem': Memory, root: nat, n: nat)
    requires forall w :: 0 <= w < n ==> Leaf(mem', root, w) == Leaf(mem, root, w)
    ensures Frames(mem', root, 0, n) == Frames(mem, root, 0, n)
  {
    hide Leaf;
    if n > 0 {
      SameFrames(mem, mem', root, n - 1);
      assert Leaf(mem', root, n - 1) == Leaf(mem, root, n - 1);
    }
  }

  lemma NothingUnmapped(mem: Memory, root: nat)
    ensures Unmapped(mem, mem, root, 0, 0)
  {
  }

  lemma WholeTree(mem: Memory, sp: Space)
    requires WellFormed(mem, sp)
    ensures sp.root in sp.role && sp.role[sp.root] == TopTable && Subtree(sp, TopTable) == sp.role.Keys
  {
  }

  lemma NewRoot(mem: Memory, root: nat)
    requires IsZeroed(mem, root) && root != 0
    ensures WellFormed(mem, Space(root, map[root := TopTable])) && forall w :: Leaf(mem, root, w) == 0
  {
  }

  function LevelOf(r: Role): nat {
    match r
    case TopTable => 2
    case MidTable(_) => 1
    case LowTable(_, _) => 0
  }

  /** The role of the page that entry i of a page with role r leads to. */
  function ChildRole(r: Role, i: nat): Role
    requires !r.LowTable?
  {
    if r.TopTable? then MidTable(i) else LowTable(r.a, i)
  }

  lemma EntryKind(mem: Memory, sp: Space, f: nat, i: nat)
    requires WellFormed(mem, sp) && NoLeaves(mem, sp) && f in sp.role && i < WORDS
    ensures f in mem && |mem[f]| == WORDS
    ensures IsValid(mem[f][i]) ==>
              && !sp.role[f].LowTable? && PointsTo(sp, mem[f][i], ChildRole(sp.role[f], i))
              && LevelOf(ChildRole(sp.role[f], i)) + 1 == LevelOf(sp.role[f])
              && IsSlot(mem, sp, f, i, ChildRole(sp.role[f], i))
  {
    assert sp.role[f].LowTable? ==> !IsValid(Entry(mem, f, i));
    if IsValid(mem[f][i]) {
      assert PointsTo(sp, mem[f][i], ChildRole(sp.role[f], i));
      if sp.role[f].TopTable? {
        assert mem[sp.root][i] == MakePte(FrameOf(mem[f][i]), PTE_V);
      }
    }
  }

  /** Some subtrees strictly below role r of sp have been freed, leaving q. */
  ghost predicate Pruned(mem0: Memory, free0: seq<nat>, sp: Space, r: Role, mem: Memory, free: seq<nat>, q: Space) {
    && q.root == sp.root && q.role.Keys <= sp.role.Keys && (forall g :: g in q.role ==> q.role[g] == sp.role[g])
    && sp.role.Keys - q.role.Keys <= Subtree(sp, r)
    && SetOf(free) == SetOf(free0) + (sp.role.Keys - q.role.Keys)
    && mem.Keys == mem0.Keys && (forall g :: g in mem && g !in Subtree(sp, r) ==> mem[g] == mem0[g])
  }

  lemma PrunedNothing(mem: Memory, free: seq<nat>, sp: Space, r: Role)
    ensures Pruned(mem, free, sp, r, mem, free, sp)
  {
  }

  /** After the child under entry i of f has been freed, clearing the entry leaves a well-formed tree. */
  lemma ChildGone(m0: Memory, f0: seq<nat>, q: Space, f: nat, i: nat, m1: Memory, f1: seq<nat>)
    requires WellFormed(m0, q) && NoLeaves(m0, q) && f in q.role && !q.role[f].LowTable? && i < WORDS
    requires IsSlot(m0, q, f, i, ChildRole(q.role[f], i)) && m1.Keys == m0.Keys
    requires SetOf(f1) == SetOf(f0) + Subtree(q, ChildRole(q.role[f], i))
    requires forall g :: g in m1 && g !in Subtree(q, ChildRole(q.role[f], i)) ==> m1[g] == m0[g]
    requires forall g :: g in q.role ==> g !in f0
    ensures f in m1 && |m1[f]| == WORDS && f !in f1
    ensures var k, m2 := ChildRole(q.role[f], i), Poke(m1, f, i, 0);
            && WellFormed(m2, Prune(q, k)) && NoLeaves(m2, Prune(q, k)) && f in Prune(q, k).role &&
               Prune(q, k).role[f] == q.role[f]
            && (forall g :: g in Prune(q, k).role ==> g in q.role && g !in f1)
            && Entry(m2, f, i) == 0 && (forall j :: j != i ==> Entry(m2, f, j) == Entry(m0, f, j))
  {
    var k := ChildRole(q.role[f], i);
    assert f !in Subtree(q, k) && f in Prune(q, k).role;
    assert f !in SetOf(f1);
    forall g | g in Prune(q, k).role ensures g in m1 && m1[g] == m0[g] && g !in f1 {
      assert g !in SetOf(f1);
    }
    UnlinkTable(m0, q, f, i, k, m1);
    var m2 := Poke(m1, f, i, 0);
    forall g, j | g in Prune(q, k).role && Prune(q, k).role[g].LowTable? && 0 <= j < WORDS
      ensures !IsValid(Entry(m2, g, j))
    {
      assert !IsValid(Entry(m0, g, j)) && g != f;
    }
  }

  lemma PrunedMore(mem0: Memory, free0: seq<nat>, sp: Space, r: Role, m0: Memory, f0: seq<nat>, q: Space, k: Role,
                   m1: Memory, f1: seq<nat>, f: nat)
    requires Pruned(mem0, free0, sp, r, m0, f0, q) && f in q.role && q.role[f] == r && !r.LowTable?
    requires Below(r, k) && k != r && m1.Keys == m0.Keys
    requires SetOf(f1) == SetOf(f0) + Subtree(q, k)
    requires forall g :: g in m1 && g !in Subtree(q, k) && g != f ==> m1[g] == m0[g]
    ensures Pruned(mem0, free0, sp, r, m1, f1, Prune(q, k))
  {
    assert forall g :: g in Subtree(q, k) ==> g in Subtree(sp, r);
    assert f in Subtree(sp, r);
    var p := Prune(q, k);
    assert sp.role.Keys - p.role.Keys == (sp.role.Keys - q.role.Keys) + Subtree(q, k);
  }

  lemma PrunedAll(mem0: Memory, free0: seq<nat>, sp: Space, r: Role, mem: Memory, free: seq<nat>, q: Space, f: nat)
    requires Pruned(mem0, free0, sp, r, mem, free, q) && f in q.role && q.role[f] == r && Subtree(q, r) == {f}
    ensures SetOf([f] + free) == SetOf(free0) + Subtree(sp, r) && f in Subtree(sp, r)
    ensures mem.Keys == mem0.Keys && forall g :: g in mem && g !in Subtree(sp, r) ==> mem[g] == mem0[g]
  {
    forall g | g in Subtree(sp, r) ensures g == f || g in sp.role.Keys - q.role.Keys {
      assert g in q.role ==> g in Subtree(q, r);
    }
    assert f in Subtree(q, r);
    assert SetOf([f] + free) == {f} + SetOf(free);
  }

  /** ptes[i] on frame fs[i] is a copy of page i of the space at root, as it was in mem0. */
  ghost predicate Copied(mem0: Memory, mem: Memory, root: nat, ptes: seq<nat>, fs: seq<nat>) {
    && |ptes| == |fs|
    && forall i :: 0 <= i < |fs| ==>
         && FlagsOf(ptes[i]) == FlagsOf(Leaf(mem0, root, i)) && FrameOf(Leaf(mem0, root, i)) in mem0
         && fs[i] in mem && mem[fs[i]] == mem0[FrameOf(Leaf(mem0, root, i))] && fs[i] != FrameOf(Leaf(mem0, root, i))
  }

  lemma NothingCopied(mem: Memory, root: nat)
    ensures Copied(mem, mem, root, [], [])
  {
  }

  lemma NothingCopied2(mem0: Memory, mem: Memory, root: nat)
    ensures Copied(mem0, mem, root, [], [])
  {
  }

  lemma CopiedStep(m0: Memory, m1: Memory, m2: Memory, root: nat, ptes: seq<nat>, fs: seq<nat>, x: nat, g: nat)
    requires Copied(m0, m1, root, ptes, fs) && g in m2
    requires forall i :: 0 <= i < |fs| ==> fs[i] in m2 && m2[fs[i]] == m1[fs[i]]
    requires var e := Leaf(m0, root, |fs|);
             FrameOf(e) in m0 && m2[g] == m0[FrameOf(e)] && FlagsOf(x) == FlagsOf(e) && g != FrameOf(e)
    ensures Copied(m0, m2, root, ptes + [x], fs + [g])
  {
    hide Leaf;
  }

  /** What the copy relies on: the parent's tables and data are out of the child's way. */
  ghost predicate Source(mem: Memory, free: seq<nat>, spO: Space, sp: Space, n: nat, lo: nat, hi: nat) {
    && WellFormed(mem, spO) && spO.role.Keys !! sp.role.Keys
    && (forall f :: f in spO.role ==> lo <= f < hi && f !in free)
    && forall i :: 0 <= i < n ==> var f := FrameOf(Leaf(mem, spO.root, i));
         f in mem && |mem[f]| == WORDS && f !in sp.role && f !in free
  }

  lemma SourceStart(mem: Memory, free: seq<nat>, spO: Space, sp: Space, n: nat, lo: nat, hi: nat)
    requires WellFormed(mem, spO) && spO.role.Keys !! sp.role.Keys
    requires forall f :: f in spO.role ==> lo <= f < hi && f !in free
    requires forall f :: lo <= f < hi ==> f in mem && |mem[f]| == WORDS
    requires var fs := Frames(mem, spO.root, 0, n); forall i :: 0 <= i < n ==> lo <= fs[i] < hi && fs[i] !in free
    requires forall i :: 0 <= i < n ==> FrameOf(Leaf(mem, spO.root, i)) !in sp.role
    ensures Source(mem, free, spO, sp, n, lo, hi)
  {
    hide WellFormed, Leaf;
    forall i | 0 <= i < n
      ensures var f := FrameOf(Leaf(mem, spO.root, i)); f in mem && |mem[f]| == WORDS && f !in sp.role && f !in free {
      assert Frames(mem, spO.root, 0, n)[i] == FrameOf(Leaf(mem, spO.root, 0 + i));
    }
  }

  lemma SourceKept(mem0: Memory, mem: Memory, free0: seq<nat>, free: seq<nat>, spO: Space, sp: Space, sp': Space,
                   fs: seq<nat>, n: nat, i: nat, lo: nat, hi: nat)
    requires Source(mem0, free0, spO, sp, n, lo, hi) && Untouched(mem0, mem, free0, sp')
    requires Conserved(free0, sp, free, sp', fs) && SetOf(free) <= SetOf(free0)
    ensures WellFormed(mem, spO) && SameMap(mem0, mem, spO.root) && Leaf(mem, spO.root, i) == Leaf(mem0, spO.root, i)
    ensures forall f :: f in spO.role ==> lo <= f < hi && f !in free
    ensures i < n ==> var f := FrameOf(Leaf(mem0, spO.root, i));
                      f in mem0 && f in mem && |mem[f]| == WORDS && mem[f] == mem0[f] && f !in free0
  {
    hide WellFormed, Leaf;
    forall f | f in spO.role && f in mem0 ensures f in mem && mem[f] == mem0[f] {
      assert f !in SetOf(free0);
    }
    DataWrite(mem0, mem, spO);
    forall f | f in spO.role ensures f !in free {
      assert f !in SetOf(free);
    }
    if i < n {
      assert FrameOf(Leaf(mem0, spO.root, i)) !in SetOf(free0);
    }
  }


  // ----- as the processor sees it

  /** The page of address va starts at an address from a up to b. */
  predicate PageIn(a: nat, b: nat, va: nat) {
    a <= va / 4096 * 4096 < b
  }

  /** For a process the pages that start from oldsz up to newsz have become
      readable, writable or executable as the bits of xperm say, and zero; for
      the kernel they are out of reach. Everywhere else, all is as before. */
  ghost predicate Grows(mem: Memory, mem': Memory, root: nat, oldsz: nat, newsz: nat, xperm: nat) {
    forall va, acc, user :: 0 <= va < MAXVA ==>
      GrowsAt(Sv39.Translate(mem, root, va, acc, user), mem', Sv39.Translate(mem', root, va, acc, user),
        PageIn(oldsz, newsz, va), xperm, acc, user)
  }

  predicate GrowsAt(before: Option<nat>, mem: Memory, after: Option<nat>, new_: bool, xperm: nat, acc: Sv39.Access,
                    user: bool) {
    if new_ then
      && (after.Some? <==> user && Asked(xperm, acc))
      && (after.Some? ==> Sv39.Word(mem, after.value) == 0)
    else after == before
  }

  predicate Asked(xperm: nat, acc: Sv39.Access) {
    match acc
    case Read => true
    case Write => Sv39.Bit(xperm, 2)
    case Execute => Sv39.Bit(xperm, 3)
  }

  lemma LeafFlags(pte: nat, xperm: nat, va: nat, acc: Sv39.Access, user: bool)
    requires FlagsOf(pte) == PTE_R + PTE_U + xperm + PTE_V && xperm in {0, PTE_W, PTE_X, PTE_W + PTE_X}
    ensures Seen(pte, va, acc, user) ==
            if user && Asked(xperm, acc) then Some(FrameOf(pte) * 4096 + va % 4096) else None
  {
    FlagBits(pte);
    hide FrameOf;
  }

  /** A PTE's permission bits are those of its flags. */
  lemma FlagBits(pte: nat)
    ensures forall i :: 0 <= i < 5 ==> Sv39.Bit(pte, i) == Sv39.Bit(FlagsOf(pte), i)
  {
    hide Sv39.Bit;
    forall i | 0 <= i < 5 ensures Sv39.Bit(pte, i) == Sv39.Bit(FlagsOf(pte), i) {
      assert pte == 1024 * (pte / 1024) + pte % 1024;
      LowBits(pte / 1024, pte % 1024, i);
    }
  }

  lemma GrownView(m0: Memory, m1: Memory, sp: Space, sp': Space, oldsz: nat, newsz: nat, ptes: seq<nat>, fs: seq<nat>,
                  xperm: nat)
    requires WellFormed(m0, sp) && WellFormed(m1, sp') && sp'.root == sp.root
    requires Extended(m0, m1, sp.root, PagesUp(oldsz), ptes) && PtesFor(ptes, fs)
    requires |fs| == if PagesUp(oldsz) <= PagesUp(newsz) then PagesUp(newsz) - PagesUp(oldsz) else 0
    requires xperm in {0, PTE_W, PTE_X, PTE_W + PTE_X}
    requires forall i :: 0 <= i < |ptes| ==> FlagsOf(ptes[i]) == PTE_R + PTE_U + xperm + PTE_V
    requires forall i :: 0 <= i < |fs| ==> fs[i] in m1 && m1[fs[i]] == Filled(0)
    ensures Grows(m0, m1, sp.root, oldsz, newsz, xperm)
  {
    hide WellFormed, Leaf, Sv39.Translate, Seen, Asked, Sv39.Word, FlagsOf, FrameOf;
    forall va, acc, user | 0 <= va < MAXVA
      ensures GrowsAt(Sv39.Translate(m0, sp.root, va, acc, user), m1, Sv39.Translate(m1, sp.root, va, acc, user),
                PageIn(oldsz, newsz, va), xperm, acc, user) {
      HardwareSees(m0, sp, va, acc, user);
      HardwareSees(m1, sp', va, acc, user);
      var w := va / 4096;
      assert PageIn(oldsz, newsz, va) <==> PagesUp(oldsz) <= w < PagesUp(newsz);
      if PageIn(oldsz, newsz, va) {
        var i := w - PagesUp(oldsz);
        assert Leaf(m1, sp.root, w) == ptes[i];
        LeafFlags(ptes[i], xperm, va, acc, user);
        ZeroWord(m1, fs[i], va % 4096);
      }
    }
  }

  lemma ZeroWord(mem: Memory, f: nat, off: nat)
    requires f in mem && mem[f] == Filled(0) && off < 4096
    ensures Sv39.Word(mem, f * 4096 + off) == 0
  {
    DivMod(4096, f, off);
  }

  /** Nobody reaches the pages that start from newsz up to oldsz; everywhere
      else, all is as before. */
  ghost predicate Shrinks(mem: Memory, mem': Memory, root: nat, oldsz: nat, newsz: nat) {
    forall va, acc, user :: 0 <= va < MAXVA ==>
      Sv39.Translate(mem', root, va, acc, user) ==
      if PageIn(newsz, oldsz, va) then None else Sv39.Translate(mem, root, va, acc, user)
  }

  lemma ShrunkView(m0: Memory, m1: Memory, sp: Space, oldsz: nat, newsz: nat)
    requires WellFormed(m0, sp) && WellFormed(m1, sp)
    requires var a, n := PagesUp(newsz), PagesUp(oldsz) - PagesUp(newsz);
             if n > 0 then Unmapped(m0, m1, sp.root, a, n) else m1 == m0
    ensures Shrinks(m0, m1, sp.root, oldsz, newsz)
  {
    hide WellFormed, Leaf, Sv39.Translate, Seen;
    forall va, acc, user | 0 <= va < MAXVA
      ensures Sv39.Translate(m1, sp.root, va, acc, user) ==
              if PageIn(newsz, oldsz, va) then None else Sv39.Translate(m0, sp.root, va, acc, user) {
      HardwareSees(m0, sp, va, acc, user);
      HardwareSees(m1, sp, va, acc, user);
      NothingSeen(va, acc, user);
      assert PageIn(newsz, oldsz, va) <==> PagesUp(newsz) <= va / 4096 < PagesUp(oldsz);
    }
  }

  lemma NothingSeen(va: nat, acc: Sv39.Access, user: bool)
    ensures Seen(0, va, acc, user) == None
  {
  }

  /** On every page that starts below sz, the child may do what the parent may,
      and finds the same words at other physical addresses. Everywhere else, all
      is as before; and nothing changes for the parent. */
  ghost predicate Forks(mem: Memory, mem': Memory, oldroot: nat, newroot: nat, sz: nat) {
    forall va, acc, user :: 0 <= va < MAXVA ==>
      && Sv39.Translate(mem', oldroot, va, acc, user) == Sv39.Translate(mem, oldroot, va, acc, user)
      && ForksAt(mem, Sv39.Translate(mem, oldroot, va, acc, user), Sv39.Translate(mem, newroot, va, acc, user),
           mem', Sv39.Translate(mem', newroot, va, acc, user), PageIn(0, sz, va))
  }

  predicate ForksAt(mem: Memory, parent: Option<nat>, before: Option<nat>, mem': Memory, child: Option<nat>,
                    copied: bool) {
    if copied then
      && (child.Some? <==> parent.Some?)
      && (child.Some? ==> child != parent && Sv39.Word(mem', child.value) == Sv39.Word(mem, parent.value))
    else child == before
  }

  lemma SameFlagsSeen(p: nat, q: nat, va: nat, acc: Sv39.Access, user: bool)
    requires FlagsOf(p) == FlagsOf(q)
    ensures Seen(p, va, acc, user).Some? <==> Seen(q, va, acc, user).Some?
    ensures Seen(p, va, acc, user).Some? ==> Seen(p, va, acc, user).value == FrameOf(p) * 4096 + va % 4096
  {
    FlagBits(p);
    FlagBits(q);
    hide Sv39.Bit, FlagsOf, FrameOf;
  }

  lemma SameWord(m0: Memory, f: nat, m1: Memory, g: nat, off: nat)
    requires f in m0 && g in m1 && m1[g] == m0[f] && off < 4096
    ensures Sv39.Word(m1, g * 4096 + off) == Sv39.Word(m0, f * 4096 + off)
    ensures f != g ==> g * 4096 + off != f * 4096 + off
  {
    DivMod(4096, f, off);
    DivMod(4096, g, off);
  }

  lemma ForkedView(m0: Memory, m1: Memory, spO: Space, sp: Space, sp': Space, sz: nat, ptes: seq<nat>, fs: seq<nat>)
    requires WellFormed(m0, spO) && WellFormed(m1, spO) && WellFormed(m0, sp) && WellFormed(m1, sp')
    requires sp'.root == sp.root && SameMap(m0, m1, spO.root)
    requires Extended(m0, m1, sp.root, 0, ptes) && PtesFor(ptes, fs) && Copied(m0, m1, spO.root, ptes, fs)
    requires |fs| == PagesUp(sz) <= MAX_PAGE
    ensures Forks(m0, m1, spO.root, sp.root, sz)
  {
    hide WellFormed, Leaf, Sv39.Translate, Seen, Sv39.Word, FlagsOf, FrameOf;
    forall va, acc, user | 0 <= va < MAXVA
      ensures Sv39.Translate(m1, spO.root, va, acc, user) == Sv39.Translate(m0, spO.root, va, acc, user)
      ensures ForksAt(m0, Sv39.Translate(m0, spO.root, va, acc, user), Sv39.Translate(m0, sp.root, va, acc, user),
                m1, Sv39.Translate(m1, sp.root, va, acc, user), PageIn(0, sz, va)) {
      HardwareSees(m0, spO, va, acc, user);
      HardwareSees(m1, spO, va, acc, user);
      HardwareSees(m0, sp, va, acc, user);
      HardwareSees(m1, sp', va, acc, user);
      var w := va / 4096;
      assert PageIn(0, sz, va) <==> w < PagesUp(sz);
      if w < PagesUp(sz) {
        var x := Leaf(m0, spO.root, w);
        assert Leaf(m1, sp.root, w) == ptes[w];
        SameFlagsSeen(x, ptes[w], va, acc, user);
        SameFlagsSeen(ptes[w], x, va, acc, user);
        SameWord(m0, FrameOf(x), m1, fs[w], va % 4096);
      }
    }
  }

  /** Nobody but the kernel reaches anything, and the kernel reaches just two
      pages: it may run the trampoline and write the trapframe. */
  ghost predicate OnlySpecial(mem: Memory, root: nat, trampoline: nat, trapframe: nat) {
    forall va, acc, user :: 0 <= va < MAXVA ==>
      Sv39.Translate(mem, root, va, acc, user) ==
      if user || va < MAXVA - 0x2000 then None
      else if va >= MAXVA - 0x1000 then (if acc.Write? then None else Some(trampoline * 4096 + va % 4096))
      else if acc.Execute? then None else Some(trapframe * 4096 + va % 4096)
  }

  lemma SpecialSeen(frame: nat, flags: nat, va: nat, acc: Sv39.Access, user: bool)
    requires flags in {PTE_R + PTE_X + PTE_V, PTE_R + PTE_W + PTE_V}
    ensures Seen(MakePte(frame, flags), va, acc, user) ==
            if !user && (acc.Read? || (acc.Write? && Sv39.Bit(flags, 2)) || (acc.Execute? && Sv39.Bit(flags, 3)))
            then Some(frame * 4096 + va % 4096) else None
  {
    FlagBits(MakePte(frame, flags));
    hide FrameOf, MakePte;
  }

  lemma SpecialView(mem: Memory, sp: Space, trampoline: nat, trapframe: nat)
    requires WellFormed(mem, sp)
    requires forall w :: 0 <= w < MAX_PAGE ==>
               Leaf(mem, sp.root, w) == if w == TRAMPOLINE then MakePte(trampoline, PTE_R + PTE_X + PTE_V)
                                        else if w == TRAPFRAME then MakePte(trapframe, PTE_R + PTE_W + PTE_V) else 0
    ensures OnlySpecial(mem, sp.root, trampoline, trapframe)
  {
    hide WellFormed, Leaf, Sv39.Translate, Seen, MakePte;
    forall va, acc, user | 0 <= va < MAXVA
      ensures Sv39.Translate(mem, sp.root, va, acc, user) ==
              if user || va < MAXVA - 0x2000 then None
              else if va >= MAXVA - 0x1000 then (if acc.Write? then None else Some(trampoline * 4096 + va % 4096))
              else if acc.Execute? then None else Some(trapframe * 4096 + va % 4096) {
      HardwareSees(mem, sp, va, acc, user);
      NothingSeen(va, acc, user);
      SpecialSeen(trampoline, PTE_R + PTE_X + PTE_V, va, acc, user);
      SpecialSeen(trapframe, PTE_R + PTE_W + PTE_V, va, acc, user);
    }
  }

  /** PGROUNDUP(sz) / PGSIZE */
  function PagesUp(sz: nat): (n: nat)
    ensures sz <= n * PGSIZE < sz + PGSIZE
  {
    (sz + PGSIZE - 1) / PGSIZE
  }

  lemma RoundUpPages(n: nat)
    ensures PagesUp(n * PGSIZE) == n
  {
  }

  lemma LastIsFree(fs: seq<nat>, g: nat, free: seq<nat>)
    requires SetOf(fs + [g]) <= SetOf(free)
    ensures g in free
  {
    assert (fs + [g])[|fs|] == g && g in SetOf(fs + [g]);
  }

  lemma NothingAdded(mem: Memory, free: seq<nat>, sp: Space, first: nat, lo: nat, hi: nat)
    ensures Conserved(free, sp, free, sp, []) && Extended(mem, mem, sp.root, first, []) && Untouched(mem, mem, free, sp)
    ensures HoldsFrames(lo, hi, free, sp, []) && SetOf([]) <= SetOf(free) && PtesFor([], [])
  {
    hide Leaf;
    ConservedNothing(free, sp);
  }

  lemma AddedAreLeaves(mem0: Memory, mem: Memory, root: nat, a: nat, ptes: seq<nat>, fs: seq<nat>)
    requires Extended(mem0, mem, root, a, ptes) && PtesFor(ptes, fs) && a + |ptes| <= MAX_PAGE
    ensures AllLeaves(mem, root, a, |ptes|) && Frames(mem, root, a, |ptes|) == fs
  {
    hide Leaf;
    forall i | 0 <= i < |ptes| ensures Leaf(mem, root, a + i) == ptes[i] {
    }
  }

  lemma Undone(m0: Memory, m1: Memory, m2: Memory, root: nat, a: nat, ptes: seq<nat>)
    requires Extended(m0, m1, root, a, ptes) && Unmapped(m1, m2, root, a, |ptes|)
    requires forall w :: a <= w < a + |ptes| ==> Leaf(m0, root, w) == 0
    ensures Extended(m0, m2, root, a, [])
  {
    hide Leaf;
  }

  lemma ConservedBack(f0: seq<nat>, s0: Space, f1: seq<nat>, f2: seq<nat>, sp: Space, fs: seq<nat>)
    requires Conserved(f0, s0, f1, sp, fs) && Gave(f1, f2, fs) && SetOf(f1) <= SetOf(f0) && SetOf(fs) <= SetOf(f0)
    ensures Conserved(f0, s0, f2, sp, []) && SetOf(f2) <= SetOf(f0)
  {
    assert SetOf([]) == {};
  }

  lemma UntouchedBack(m0: Memory, m1: Memory, m2: Memory, f0: seq<nat>, f1: seq<nat>, f2: seq<nat>, sp: Space)
    requires Untouched(m0, m1, f0, sp) && m2.Keys == m1.Keys && SetOf(f2) <= SetOf(f0)
    requires forall f :: f in m2 && f !in sp.role && (f in f1 || f !in f2) ==> m2[f] == m1[f]
    ensures Untouched(m0, m2, f0, sp)
  {
    forall f | f in m0 && f !in sp.role && f !in f0 ensures m2[f] == m0[f] {
      assert f !in SetOf(f2);
    }
  }

  /** Frames that are neither page tables of sp nor taken from the free list keep their contents. */
  ghost predicate Untouched(mem: Memory, mem': Memory, free: seq<nat>, sp: Space) {
    mem'.Keys == mem.Keys && forall f :: f in mem && f !in sp.role && f !in free ==> mem'[f] == mem[f]
  }

  lemma UntouchedNothing(mem: Memory, free: seq<nat>, sp: Space)
    ensures Untouched(mem, mem, free, sp)
  {
  }

  lemma UntouchedAdd(m0: Memory, m1: Memory, m2: Memory, m3: Memory, free: seq<nat>, g: nat, sp: Space)
    requires m0.Keys == m1.Keys == m2.Keys == m3.Keys && g in free
    requires forall f :: f in m1 && f != g ==> m1[f] == m0[f]
    requires forall f :: f in m2 && f !in sp.role ==> m2[f] == m1[f]
    requires forall f :: f in m3 && f != g ==> m3[f] == m2[f]
    ensures Untouched(m0, m3, free, sp)
  {
  }

  lemma UntouchedStep(m0: Memory, m1: Memory, m2: Memory, f0: seq<nat>, f1: seq<nat>, s1: Space, s2: Space)
    requires Untouched(m0, m1, f0, s1) && Untouched(m1, m2, f1, s2)
    requires SetOf(f1) <= SetOf(f0) && s1.role.Keys <= s2.role.Keys
    ensures Untouched(m0, m2, f0, s2)
  {
    forall f | f in m0 && f !in s2.role && f !in f0 ensures m2[f] == m0[f] {
      assert f !in SetOf(f1);
    }
  }

  lemma UntouchedFrames(m1: Memory, m2: Memory, f1: seq<nat>, s2: Space, lo: nat, hi: nat, f2: seq<nat>, fs: seq<nat>)
    requires Untouched(m1, m2, f1, s2) && HoldsFrames(lo, hi, f2, s2, fs)
    requires forall i :: 0 <= i < |fs| ==> fs[i] in m1 && fs[i] !in f1
    ensures forall i :: 0 <= i < |fs| ==> fs[i] in m2 && m2[fs[i]] == m1[fs[i]]
  {
  }

  ghost predicate HoldsFrames(lo: nat, hi: nat, free: seq<nat>, sp: Space, fs: seq<nat>) {
    Distinct(fs) && forall i :: 0 <= i < |fs| ==> lo <= fs[i] < hi && fs[i] !in sp.role && fs[i] !in free
  }

  lemma HeldApart(lo: nat, hi: nat, free: seq<nat>, sp: Space, fs: seq<nat>)
    requires HoldsFrames(lo, hi, free, sp, fs)
    ensures forall i :: 0 <= i < |fs| ==> lo <= fs[i] < hi && fs[i] !in free
  {
  }

  lemma AddedFrame(lo: nat, hi: nat, free0: seq<nat>, f1: seq<nat>, s1: Space, f2: seq<nat>, s2: Space,
                   ptes: seq<nat>, fs: seq<nat>, g: nat, flags: nat)
    requires HoldsFrames(lo, hi, f1, s1, fs) && PtesFor(ptes, fs) && flags % 2 == 1 && flags != PTE_V && flags < 1024
    requires SetOf(f2) <= SetOf(f1) <= SetOf(free0) && SetOf(fs) <= SetOf(free0) &&
             s2.role.Keys <= s1.role.Keys + SetOf(f1)
    requires g != 0 ==> g in f1 && HoldsFrames(lo, hi, f2, s2, [g])
    ensures HoldsFrames(lo, hi, f2, s2, fs) && SetOf(f2) <= SetOf(free0)
    ensures g != 0 ==> HoldsFrames(lo, hi, f2, s2, fs + [g]) && PtesFor(ptes + [MakePte(g, flags)], fs + [g])
    ensures g != 0 ==> SetOf(fs + [g]) <= SetOf(free0)
  {
    assert forall f :: f in f2 ==> f in SetOf(f2);
    forall i | 0 <= i < |fs| ensures fs[i] !in f2 && fs[i] !in s2.role {
      assert fs[i] !in SetOf(f1);
    }
    if g != 0 {
      assert [g][0] == g && g in SetOf(f1);
    }
  }

  /** ptes map the frames fs, with permissions. */
  ghost predicate PtesFor(ptes: seq<nat>, fs: seq<nat>) {
    |ptes| == |fs| && forall i :: 0 <= i < |fs| ==>
        FrameOf(ptes[i]) == fs[i] && IsValid(ptes[i]) && FlagsOf(ptes[i]) != PTE_V
  }

  /** The flat map has changed exactly by the PTEs ptes from page a on. */
  ghost predicate Extended(mem: Memory, mem': Memory, root: nat, a: nat, ptes: seq<nat>) {
    forall w :: 0 <= w < MAX_PAGE ==>
      Leaf(mem', root, w) == if a <= w < a + |ptes| then ptes[w - a] else Leaf(mem, root, w)
  }

  lemma NextIsUnmapped(mem: Memory, mem': Memory, root: nat, a: nat, ptes: seq<nat>, v: nat)
    requires Extended(mem, mem', root, a, ptes) && v == a + |ptes| < MAX_PAGE && Leaf(mem, root, v) == 0
    ensures !IsValid(Leaf(mem', root, v))
  {
    hide Leaf;
  }

  lemma ExtendedStep(m0: Memory, m1: Memory, m2: Memory, root: nat, a: nat, ptes: seq<nat>, v: nat, x: nat)
    requires Extended(m0, m1, root, a, ptes) && v == a + |ptes|
    ensures Mapped(m1, m2, root, v, 1, x) ==> Extended(m0, m2, root, a, ptes + [x])
    ensures Mapped(m1, m2, root, v, 0, 0) ==> Extended(m0, m2, root, a, ptes)
  {
    hide Leaf;
  }

  lemma ConservedStep(f0: seq<nat>, s0: Space, f1: seq<nat>, s1: Space, f2: seq<nat>, s2: Space, fs: seq<nat>, g: nat)
    requires Conserved(f0, s0, f1, s1, fs) && Conserved(f1, s1, f2, s2, if g == 0 then [] else [g])
    ensures Conserved(f0, s0, f2, s2, if g == 0 then fs else fs + [g])
    ensures s1.role.Keys <= s2.role.Keys <= s1.role.Keys + SetOf(f1)
  {
    assert SetOf(fs + [g]) == SetOf(fs) + {g};
    assert SetOf([g]) == {g};
  }

  lemma ConservedNothing(free: seq<nat>, sp: Space)
    ensures Conserved(free, sp, free, sp, [])
  {
    assert SetOf([]) == {};
  }

  /** Accounting for the frame at the head of the free list: kept, or given back. */
  lemma ConservedAlloc(free0: seq<nat>, sp: Space, free: seq<nat>, sp': Space)
    requires free0 != [] && Conserved(free0[1..], sp, free, sp', []) && SetOf(free) <= SetOf(free0[1..])
    ensures Conserved(free0, sp, free, sp', [free0[0]]) && Conserved(free0, sp, [free0[0]] + free, sp', [])
    ensures SetOf(free) <= SetOf(free0) && SetOf([free0[0]] + free) <= SetOf(free0)
    ensures forall f :: f in SetOf(free0[1..]) ==> f in free0
    ensures forall f :: f in SetOf(free0) <==> f in free0
  {
    assert free0 == [free0[0]] + free0[1..];
    assert SetOf(free0) == {free0[0]} + SetOf(free0[1..]);
    assert SetOf([free0[0]] + free) == {free0[0]} + SetOf(free);
  }

  lemma OneHeld(lo: nat, hi: nat, free0: seq<nat>, sp: Space, free: seq<nat>, sp': Space)
    requires free0 != [] && lo <= free0[0] < hi && free0[0] !in sp.role && free0[0] !in free0[1..]
    requires SetOf(free) <= SetOf(free0[1..]) && sp'.role.Keys <= sp.role.Keys + SetOf(free0[1..])
    ensures free0[0] !in free && free0[0] !in sp'.role && HoldsFrames(lo, hi, free, sp', [free0[0]])
  {
    assert free0[0] !in SetOf(free0[1..]) && free0[0] !in SetOf(free);
  }

  /** The frame at the head of the free list is one more page. */
  lemma PaidOne(free0: seq<nat>, sp: Space, free: seq<nat>, sp': Space, g: nat)
    requires free0 != [] && Paid(free0[1..], sp, free, sp', 0)
    ensures Paid(free0, sp, free, sp', 1) && Paid(free0, sp, [g] + free, sp', 0)
  {
  }

  lemma PaidBack(f0: seq<nat>, s0: Space, f1: seq<nat>, sp: Space, f2: seq<nat>, fs: seq<nat>)
    requires Paid(f0, s0, f1, sp, |fs|) && Gave(f1, f2, fs)
    ensures Paid(f0, s0, f2, sp, 0)
  {
  }

  /** A table reached by a valid entry has its role already. */
  lemma RoleBelow(mem: Memory, sp: Space, v: nat, level: int, g: nat)
    requires WellFormed(mem, sp) && g != 0 && (level == 2 || level == 1)
    requires g == if level == 2 then Mid(mem, sp.root, v) else Low(mem, sp.root, v)
    ensures level == 2 ==> MidTable(Px2(v)) in Roles(sp)
    ensures level == 1 ==> LowTable(Px2(v), Px1(v)) in Roles(sp)
  {
    WalkRoles(mem, sp, v);
  }

  lemma NothingMapped(mem: Memory, root: nat, v: nat)
    ensures Mapped(mem, mem, root, v, 0, 0)
  {
  }

  lemma SameLeaf(mem: Memory, mem': Memory, root: nat, v: nat)
    requires SameMap(mem, mem', root)
    ensures Leaf(mem', root, v) == Leaf(mem, root, v)
  {
  }

  lemma MappedAfter(m0: Memory, m1: Memory, m2: Memory, root: nat, v: nat, x: nat)
    requires SameMap(m0, m1, root)
    ensures Mapped(m1, m2, root, v, 1, x) ==> Mapped(m0, m2, root, v, 1, x)
    ensures Mapped(m1, m2, root, v, 0, x) ==> Mapped(m0, m2, root, v, 0, 0)
  {
    hide Leaf;
  }

  lemma SameMapAfter(m0: Memory, m1: Memory, m2: Memory, root: nat, v: nat)
    requires Mapped(m0, m1, root, v, 0, 0) && forall w :: Leaf(m2, root, w) == Leaf(m1, root, w)
    ensures Mapped(m0, m2, root, v, 0, 0)
  {
    hide Leaf;
  }

  lemma DataWrite(mem: Memory, mem': Memory, sp: Space)
    requires WellFormed(mem, sp) && SameTables(mem, mem', sp)
    ensures WellFormed(mem', sp) && SameMap(mem, mem', sp.root)
  {
    hide WellFormed, Leaf;
    ElsewhereIsIrrelevant(mem, mem', sp);
    forall w ensures Leaf(mem', sp.root, w) == Leaf(mem, sp.root, w) {
      ElsewhereIsIrrelevantAt(mem, mem', sp, w);
    }
  }

  lemma GrewSets(mem: Memory, free: seq<nat>, sp: Space, mem': Memory, free': seq<nat>, sp': Space)
    requires Grew(mem, free, sp, mem', free', sp')
    ensures SetOf(free) + sp.role.Keys == SetOf(free') + sp'.role.Keys && sp.role.Keys <= sp'.role.Keys
    ensures sp'.role.Keys <= sp.role.Keys + SetOf(free) && SetOf(free') <= SetOf(free)
  {
    var a := |free| - |free'|;
    assert free == free[..a] + free[a..];
    assert SetOf(free) == SetOf(free[..a]) + SetOf(free[a..]);
  }

  /** No frame is lost or made: what was free or in the page table before is
      now free, in the page table, or among the data frames fs. */
  ghost predicate Conserved(free: seq<nat>, sp: Space, free': seq<nat>, sp': Space, fs: seq<nat>) {
    && sp'.root == sp.root && sp.role.Keys <= sp'.role.Keys
    && SetOf(free) + sp.role.Keys == SetOf(free') + sp'.role.Keys + SetOf(fs)
  }

  /** The frames fs have gone back to the free list. */
  ghost predicate Gave(free: seq<nat>, free': seq<nat>, fs: seq<nat>) {
    |free'| == |free| + |fs| && SetOf(free') == SetOf(free) + SetOf(fs)
  }

  lemma GaveNothing(free: seq<nat>)
    ensures Gave(free, free, [])
  {
  }

  lemma GaveOneMore(free0: seq<nat>, free: seq<nat>, fs: seq<nat>, i: nat)
    requires i < |fs| && Distinct(fs) && fs[i] !in free0 && Gave(free0, free, fs[..i])
    ensures fs[i] !in free && Gave(free0, [fs[i]] + free, fs[..i + 1])
  {
    assert fs[..i + 1] == fs[..i] + [fs[i]];
    assert fs[i] !in fs[..i];
    assert fs[i] !in SetOf(free);
    assert SetOf([fs[i]] + free) == {fs[i]} + SetOf(free);
    assert SetOf(fs[..i + 1]) == SetOf(fs[..i]) + {fs[i]};
  }

  ghost function Frames(mem: Memory, root: nat, a: nat, n: nat): (fs: seq<nat>)
    ensures |fs| == n && forall i :: 0 <= i < n ==> fs[i] == FrameOf(Leaf(mem, root, a + i))
  {
    if n == 0 then [] else Frames(mem, root, a, n - 1) + [FrameOf(Leaf(mem, root, a + n - 1))]
  }

  /** Every page of the range is mapped by a leaf PTE. */
  ghost predicate AllLeaves(mem: Memory, root: nat, a: nat, n: nat) {
    forall w :: a <= w < a + n ==> IsValid(Leaf(mem, root, w)) && FlagsOf(Leaf(mem, root, w)) != PTE_V
  }

  ghost predicate Unmapped(mem: Memory, mem': Memory, root: nat, a: nat, n: nat) {
    forall w :: 0 <= w < MAX_PAGE ==> Leaf(mem', root, w) == if a <= w < a + n then 0 else Leaf(mem, root, w)
  }

  lemma LeafHasTable(mem: Memory, root: nat, v: nat)
    ensures Leaf(mem, root, v) != 0 ==> Low(mem, root, v) != 0
  {
  }

  /** perm | PTE_V */
  function WithValid(perm: nat): (r: nat)
    ensures r % 2 == 1 && (perm < 1024 ==> r < 1024)
  {
    if perm % 2 == 0 then perm + 1 else perm
  }

  /** The flat map has changed exactly on the n pages from a on, which now map
      consecutive frames, the first by the PTE x. */
  ghost predicate Mapped(mem: Memory, mem': Memory, root: nat, a: nat, n: nat, x: nat) {
    forall w :: 0 <= w < MAX_PAGE ==>
      Leaf(mem', root, w) == if a <= w < a + n then x + (w - a) * 1024 else Leaf(mem, root, w)
  }

  lemma NothingMappedAt(mem: Memory, root: nat, a: nat, x: nat)
    ensures Mapped(mem, mem, root, a, 0, x)
  {
  }

  /** Walking to the next page changes no translation; that page is still unmapped. */
  lemma StillUnmapped(m: Memory, m0: Memory, m1: Memory, root: nat, a: nat, n: nat, x: nat, v: nat)
    requires Mapped(m, m0, root, a, n, x) && SameMap(m0, m1, root) && v == a + n < MAX_PAGE
    ensures Mapped(m, m1, root, a, n, x) && Leaf(m1, root, v) == Leaf(m, root, v)
  {
    hide Leaf;
  }

  lemma MadeMore(s0: Space, s1: Space, s2: Space, a: nat, n: nat, v: nat, done: bool)
    requires Made(s0, s1, NeedsOf(a, n), true) && Made(s1, s2, Needs(v), done) && v == a + n
    ensures Made(s0, s2, NeedsOf(a, n + 1), done)
  {
    hide Made, Needs, NeedsOf;
    MadeOn(s0, s1, s2, NeedsOf(a, n), Needs(v), done);
    NeedsStep(a, n);
  }

  lemma MappedOne(m: Memory, m0: Memory, m1: Memory, m2: Memory, root: nat, a: nat, n: nat, x: nat, frame: nat,
                  flags: nat)
    requires Mapped(m, m0, root, a, n, x) && SameMap(m0, m1, root) && flags < 1024
    requires x == MakePte(frame, flags) && Mapped(m1, m2, root, a + n, 1, MakePte(frame + n, flags))
    ensures Mapped(m, m2, root, a, n + 1, x)
  {
    hide Leaf;
  }

  lemma ReadLeaf(mem: Memory, sp: Space, l: nat, v: nat)
    requires WellFormed(mem, sp) && l != 0 && l == Low(mem, sp.root, v)
    ensures l in mem && |mem[l]| == WORDS && Px0(v) < WORDS && mem[l][Px0(v)] == Leaf(mem, sp.root, v)
  {
    WalkRoles(mem, sp, v);
  }

  lemma GrewMore(m0: Memory, f0: seq<nat>, s0: Space, m1: Memory, f1: seq<nat>, s1: Space, m2: Memory, f2: seq<nat>,
                 s2: Space)
    requires Grew(m0, f0, s0, m1, f1, s1) && Grew(m1, f1, s1, m2, f2, s2)
    ensures Grew(m0, f0, s0, m2, f2, s2)
  {
    var a, b := |f0| - |f1|, |f1| - |f2|;
    assert f0[..a + b] == f0[..a] + f1[..b];
    assert SetOf(f0[..a + b]) == SetOf(f0[..a]) + SetOf(f1[..b]);
  }

  lemma GrewPoke(m0: Memory, f0: seq<nat>, s0: Space, m1: Memory, f1: seq<nat>, s1: Space, m2: Memory)
    requires Grew(m0, f0, s0, m1, f1, s1) && m2.Keys == m1.Keys
    requires forall f :: f in m1 && f !in s1.role ==> m2[f] == m1[f]
    ensures Grew(m0, f0, s0, m2, f1, s1)
  {
  }

  lemma RootHasRole(mem: Memory, sp: Space)
    requires WellFormed(mem, sp)
    ensures sp.root in sp.role && sp.root in mem && |mem[sp.root]| == WORDS
  {
  }

  lemma RoleIsPage(mem: Memory, sp: Space, f: nat)
    requires WellFormed(mem, sp) && f in sp.role
    ensures f != 0 && f in mem && |mem[f]| == WORDS
  {
  }

  lemma IndexBounds(v: nat)
    ensures Px2(v) < WORDS && Px1(v) < WORDS && Px0(v) < WORDS
    ensures v < MAX_PAGE ==> Px2(v) < TOP_ENTRIES
  {
  }

  /** One level of the walk, when the entry is already valid; otherwise the entry is a slot to fill. */
  lemma StepDown(mem: Memory, sp: Space, v: nat, level: int, f: nat, i: nat)
    requires WellFormed(mem, sp) && (level == 2 || level == 1) && f in sp.role && v < MAX_PAGE
    requires level == 2 ==> f == sp.root && i == Px2(v)
    requires level == 1 ==> f != 0 && f == Mid(mem, sp.root, v) && i == Px1(v)
    ensures i < WORDS && f in mem && |mem[f]| == WORDS
    ensures IsValid(mem[f][i]) ==>
              var g := FrameOf(mem[f][i]);
              g != 0 && g in sp.role && g == if level == 2 then Mid(mem, sp.root, v) else Low(mem, sp.root, v)
    ensures !IsValid(mem[f][i]) ==>
              && Low(mem, sp.root, v) == 0
              && IsSlot(mem, sp, f, i, if level == 2 then MidTable(Px2(v)) else LowTable(Px2(v), Px1(v)))
  {
    hide UpLinks;
    WalkRoles(mem, sp, v);
    if level == 2 {
      assert IsValid(mem[f][i]) ==> PointsTo(sp, mem[f][i], MidTable(i));
    } else {
      assert IsValid(mem[f][i]) ==> PointsTo(sp, mem[f][i], LowTable(Px2(v), i));
    }
  }

  lemma SteppedDown(mem: Memory, mem': Memory, sp: Space, v: nat, level: int, f: nat, i: nat, g: nat)
    requires WellFormed(mem, sp) && (level == 2 || level == 1) && f in sp.role && g != 0
    requires level == 2 ==> f == sp.root && i == Px2(v)
    requires level == 1 ==> f != 0 && f == Mid(mem, sp.root, v) && i == Px1(v)
    requires Entry(mem', f, i) == MakePte(g, PTE_V)
    requires forall h, j :: h in sp.role && (h != f || j != i) ==> Entry(mem', h, j) == Entry(mem, h, j)
    ensures level == 2 ==> Mid(mem', sp.root, v) == g
    ensures level == 1 ==> Low(mem', sp.root, v) == g
  {
    hide UpLinks;
    WalkRoles(mem, sp, v);
    if level == 1 {
      assert f != sp.root && Entry(mem', sp.root, Px2(v)) == Entry(mem, sp.root, Px2(v));
    }
  }

  lemma GrewTwice(m0: Memory, f0: seq<nat>, s0: Space, m1: Memory, f1: seq<nat>, s1: Space, m2: Memory, f2: seq<nat>,
                  s2: Space)
    requires Grew(m0, f0, s0, m1, f1, s1) && Grew(m1, f1, s1, m2, f2, s2)
    requires SameMap(m0, m1, s0.root) && SameMap(m1, m2, s0.root)
    ensures Grew(m0, f0, s0, m2, f2, s2) && SameMap(m0, m2, s0.root)
  {
    hide Leaf, Grew;
    GrewMore(m0, f0, s0, m1, f1, s1, m2, f2, s2);
  }

  lemma NothingGrew(mem: Memory, free: seq<nat>, sp: Space)
    ensures Grew(mem, free, sp, mem, free, sp) && SameMap(mem, mem, sp.root)
  {
  }

  lemma NewTableEffect(mem: Memory, m: Memory, free: seq<nat>, sp: Space, pf: nat, i: nat, r: Role, g: nat)
    requires WellFormed(mem, sp) && IsSlot(mem, sp, pf, i, r) && !IsValid(Entry(mem, pf, i))
    requires free != [] && g == free[0] && g !in sp.role && g != 0 && g in mem && m == mem[g := Filled(0)]
    ensures pf in sp.role && pf in m && |m[pf]| == WORDS && i < WORDS
    ensures var m', sp' := Poke(m, pf, i, MakePte(g, PTE_V)), WithTable(sp, g, r);
            && WellFormed(m', sp') && Grew(mem, free, sp, m', free[1..], sp') && SameMap(mem, m', sp.root)
            && Entry(m', pf, i) == MakePte(g, PTE_V) && IsZeroed(m', g)
            && (forall f, j :: f in sp.role && (f != pf || j != i) ==> Entry(m', f, j) == Entry(mem, f, j))
  {
    hide WellFormed, Leaf;
    assert SameTables(mem, m, sp);
    ElsewhereIsIrrelevant(mem, m, sp);
    LinkTable(m, sp, pf, i, r, g);
    forall w ensures Leaf(Poke(m, pf, i, MakePte(g, PTE_V)), sp.root, w) == Leaf(mem, sp.root, w) {
      ElsewhereIsIrrelevantAt(mem, m, sp, w);
      LinkTableAt(m, sp, pf, i, r, g, w);
    }
    assert free[..1] == [g];
  }

  lemma OutsideKeepsFree(mem: Memory, head: nat, free: seq<nat>, f: nat, i: nat, x: nat)
    requires FreeList(mem, head, free) && f in mem && i < |mem[f]| && f !in free
    ensures FreeList(Poke(mem, f, i, x), head, free)
  {
  }
}
