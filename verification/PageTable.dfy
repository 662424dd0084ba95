/** Sv39 page tables in physical memory, as kernel/vm.c walks them: section 4.4
    of the RISC-V Privileged Architecture specification. A three-level tree of
    512-entry pages refines a flat map from virtual page number to PTE, where 0
    stands for "not mapped".

    Memory is a map from frame number (physical address / 4096) to the 512
    words of the frame. A PTE is frame * 1024 + flags. */
module PageTable {

  const WORDS: nat := 512
  const PTE_V: nat := 1
  /** MAXVA / PGSIZE: one bit less than Sv39 allows. */
  const MAX_PAGE: nat := 0x400_0000
  /** So the upper half of a root is never used. */
  const TOP_ENTRIES: nat := 256

  type Memory = map<nat, seq<nat>>

  predicate IsValid(pte: nat) {
    pte % 2 == 1
  }

  function FrameOf(pte: nat): nat {
    pte / 1024
  }

  function FlagsOf(pte: nat): nat {
    pte % 1024
  }

  function MakePte(frame: nat, flags: nat): (pte: nat)
    requires flags < 1024
    ensures FrameOf(pte) == frame && FlagsOf(pte) == flags && (IsValid(pte) <==> flags % 2 == 1)
  {
    frame * 1024 + flags
  }

  // ----- PX(level, va) on page numbers

  function Px2(v: nat): nat {
    v / 0x4_0000 % 512
  }

  function Px1(v: nat): nat {
    v / 512 % 512
  }

  function Px0(v: nat): nat {
    v % 512
  }

  /** Distinct pages below MAXVA have distinct index triples. */
  lemma IndicesDetermine(v: nat, w: nat)
    requires v < MAX_PAGE && w < MAX_PAGE && Px2(v) == Px2(w) && Px1(v) == Px1(w) && Px0(v) == Px0(w)
    ensures v == w
  {
    assert v / 0x4_0000 == v / 512 / 512;
    assert w / 0x4_0000 == w / 512 / 512;
    assert v == 0x4_0000 * Px2(v) + 512 * Px1(v) + Px0(v);
    assert w == 0x4_0000 * Px2(w) + 512 * Px1(w) + Px0(w);
  }

  // ----- what the hardware and walk() see

  function Entry(mem: Memory, f: nat, i: nat): nat {
    if f in mem && i < |mem[f]| then mem[f][i] else 0
  }

  /** The level-1 and level-0 tables for page v, or 0 if absent. */
  function Mid(mem: Memory, root: nat, v: nat): nat {
    var e := Entry(mem, root, Px2(v));
    if IsValid(e) then FrameOf(e) else 0
  }

  function Low(mem: Memory, root: nat, v: nat): nat {
    var m := Mid(mem, root, v);
    var e := Entry(mem, m, Px1(v));
    if m != 0 && IsValid(e) then FrameOf(e) else 0
  }

  /** The flat map. */
  function Leaf(mem: Memory, root: nat, v: nat): nat {
    var l := Low(mem, root, v);
    if l == 0 then 0 else Entry(mem, l, Px0(v))
  }

  // ----- well-formed trees

  /** What a page-table page is for: the tables below entry a of the root, and
      below entry b of that. */
  datatype Role = TopTable | MidTable(a: nat) | LowTable(a: nat, b: nat)

  /** An address space: its root and the role of each of its page-table pages. */
  datatype Space = Space(root: nat, role: map<nat, Role>)

  ghost predicate PointsTo(sp: Space, pte: nat, r: Role) {
    pte % 1024 == 1 && FrameOf(pte) in sp.role && sp.role[FrameOf(pte)] == r
  }

  ghost predicate Paged(mem: Memory, sp: Space) {
    && sp.root in sp.role && sp.role[sp.root] == TopTable && 0 !in sp.role
    && forall f :: f in sp.role ==> f in mem && |mem[f]| == WORDS && (sp.role[f].TopTable? ==> f == sp.root)
  }

  /** Valid interior entries lead to the page with the right role, with no
      permission bits, so no interior page is shared. */
  ghost predicate DownLinks(mem: Memory, sp: Space)
    requires Paged(mem, sp)
  {
    && (forall a :: 0 <= a < WORDS && IsValid(mem[sp.root][a]) ==> PointsTo(sp, mem[sp.root][a], MidTable(a)))
    && (forall f, b :: f in sp.role && sp.role[f].MidTable? && 0 <= b < WORDS && IsValid(mem[f][b]) ==>
          PointsTo(sp, mem[f][b], LowTable(sp.role[f].a, b)))
  }

  /** Every page with a role is linked in the tree at its place. */
  ghost predicate UpLinks(mem: Memory, sp: Space)
    requires Paged(mem, sp)
  {
    forall f :: f in sp.role ==>
      match sp.role[f]
      case TopTable => true
      case MidTable(a) => a < TOP_ENTRIES && mem[sp.root][a] == MakePte(f, PTE_V)
      case LowTable(a, b) =>
        a < TOP_ENTRIES && b < WORDS && IsValid(mem[sp.root][a]) &&
          Entry(mem, FrameOf(mem[sp.root][a]), b) == MakePte(f, PTE_V)
  }

  ghost predicate WellFormed(mem: Memory, sp: Space) {
    Paged(mem, sp) && DownLinks(mem, sp) && UpLinks(mem, sp)
  }

  lemma WalkRoles(mem: Memory, sp: Space, v: nat)
    requires WellFormed(mem, sp)
    ensures Mid(mem, sp.root, v) != 0 ==>
              Mid(mem, sp.root, v) in sp.role && sp.role[Mid(mem, sp.root, v)] == MidTable(Px2(v))
    ensures Low(mem, sp.root, v) != 0 ==>
              Low(mem, sp.root, v) in sp.role && sp.role[Low(mem, sp.root, v)] == LowTable(Px2(v), Px1(v))
  {
    hide UpLinks;
    var e := Entry(mem, sp.root, Px2(v));
    assert IsValid(e) ==> PointsTo(sp, e, MidTable(Px2(v)));
    var m := Mid(mem, sp.root, v);
    if m != 0 {
      var e1 := Entry(mem, m, Px1(v));
      assert IsValid(e1) ==> PointsTo(sp, e1, LowTable(Px2(v), Px1(v)));
    }
  }

  /** Same level-0 table means same upper indices. */
  lemma LowDetermines(mem: Memory, sp: Space, v: nat, w: nat)
    requires WellFormed(mem, sp) && Low(mem, sp.root, v) != 0 && Low(mem, sp.root, v) == Low(mem, sp.root, w)
    ensures Px2(v) == Px2(w) && Px1(v) == Px1(w)
  {
    hide WellFormed, Low;
    WalkRoles(mem, sp, v);
    WalkRoles(mem, sp, w);
  }

  // ----- the three kinds of memory writes

  function Poke(mem: Memory, f: nat, i: nat, x: nat): Memory
    requires f in mem && i < |mem[f]|
  {
    var page: seq<nat> := mem[f][i := x];
    mem[f := page]
  }

  /** Writing a leaf slot updates the flat map at that page and nowhere else,
      and leaves the tree in shape. */
  lemma PokeLeaf(mem: Memory, sp: Space, v: nat, x: nat)
    requires WellFormed(mem, sp) && Low(mem, sp.root, v) != 0
    ensures var l := Low(mem, sp.root, v);
            l in mem && |mem[l]| == WORDS && WellFormed(Poke(mem, l, Px0(v), x), sp)
  {
    WalkRoles(mem, sp, v);
    var l := Low(mem, sp.root, v);
    var mem' := Poke(mem, l, Px0(v), x);
    assert forall f :: f in sp.role && !sp.role[f].LowTable? ==> mem'[f] == mem[f];
    forall a | 0 <= a < WORDS && IsValid(mem[sp.root][a]) ensures PointsTo(sp, mem[sp.root][a], MidTable(a)) {
    }
  }

  lemma PokeLeafAt(mem: Memory, sp: Space, v: nat, x: nat, w: nat)
    requires WellFormed(mem, sp) && Low(mem, sp.root, v) != 0 && v < MAX_PAGE && w < MAX_PAGE
    ensures var l := Low(mem, sp.root, v);
            l in mem && |mem[l]| == WORDS &&
            var mem' := Poke(mem, l, Px0(v), x);
            && Low(mem', sp.root, w) == Low(mem, sp.root, w)
            && Leaf(mem', sp.root, w) == if w == v then x else Leaf(mem, sp.root, w)
  {
    WalkRoles(mem, sp, v);
    WalkRoles(mem, sp, w);
    var l := Low(mem, sp.root, v);
    var mem' := Poke(mem, l, Px0(v), x);
    assert l != sp.root && Mid(mem', sp.root, w) == Mid(mem, sp.root, w);
    assert Mid(mem, sp.root, w) != l;
    if Low(mem, sp.root, w) == l && Px0(w) == Px0(v) {
      LowDetermines(mem, sp, v, w);
      IndicesDetermine(v, w);
    }
  }

  ghost predicate IsZeroed(mem: Memory, g: nat) {
    g in mem && |mem[g]| == WORDS && forall i :: 0 <= i < WORDS ==> mem[g][i] == 0
  }

  function WithTable(sp: Space, g: nat, r: Role): Space {
    sp.(role := sp.role[g := r])
  }

  /** The place of a page-table page: the table above it and the index there. */
  ghost predicate IsSlot(mem: Memory, sp: Space, pf: nat, i: nat, r: Role)
    requires Paged(mem, sp)
  {
    && i < WORDS
    && match r
       case TopTable => false
       case MidTable(a) => pf == sp.root && a == i < TOP_ENTRIES
       case LowTable(a, b) => pf in sp.role && sp.role[pf] == MidTable(a) && b == i
  }

  /** Hanging a zeroed page into an empty slot keeps the tree in shape. */
  lemma LinkTable(mem: Memory, sp: Space, pf: nat, i: nat, r: Role, g: nat)
    requires WellFormed(mem, sp) && IsSlot(mem, sp, pf, i, r) && !IsValid(Entry(mem, pf, i))
    requires g !in sp.role && g != 0 && IsZeroed(mem, g)
    ensures pf in mem && |mem[pf]| == WORDS && pf in sp.role
    ensures WellFormed(Poke(mem, pf, i, MakePte(g, PTE_V)), WithTable(sp, g, r))
  {
    var mem', sp' := Poke(mem, pf, i, MakePte(g, PTE_V)), WithTable(sp, g, r);
    assert Paged(mem', sp');
    forall a | 0 <= a < WORDS && IsValid(mem'[sp.root][a]) ensures PointsTo(sp', mem'[sp.root][a], MidTable(a)) {
      assert IsValid(mem[sp.root][a]) ==> PointsTo(sp, mem[sp.root][a], MidTable(a));
    }
    forall f, b | f in sp'.role && sp'.role[f].MidTable? && 0 <= b < WORDS && IsValid(mem'[f][b])
      ensures PointsTo(sp', mem'[f][b], LowTable(sp'.role[f].a, b)) {
      if f != g {
        assert IsValid(mem[f][b]) ==> PointsTo(sp, mem[f][b], LowTable(sp.role[f].a, b));
      }
    }
    LinkUp(mem, sp, pf, i, r, g);
  }

  lemma LinkUp(mem: Memory, sp: Space, pf: nat, i: nat, r: Role, g: nat)
    requires WellFormed(mem, sp) && IsSlot(mem, sp, pf, i, r) && !IsValid(Entry(mem, pf, i))
    requires g !in sp.role && g != 0 && IsZeroed(mem, g)
    ensures pf in mem && |mem[pf]| == WORDS
    ensures var mem', sp' := Poke(mem, pf, i, MakePte(g, PTE_V)), WithTable(sp, g, r);
            Paged(mem', sp') && UpLinks(mem', sp')
  {
    var mem', sp' := Poke(mem, pf, i, MakePte(g, PTE_V)), WithTable(sp, g, r);
    forall f | f in sp.role && sp.role[f].LowTable?
      ensures var a, b := sp.role[f].a, sp.role[f].b;
              IsValid(mem'[sp.root][a]) && Entry(mem', FrameOf(mem'[sp.root][a]), b) == MakePte(f, PTE_V) {
      var a := sp.role[f].a;
      assert PointsTo(sp, mem[sp.root][a], MidTable(a));
    }
    if r.LowTable? {
      assert mem[sp.root][r.a] == MakePte(pf, PTE_V);
    }
  }

  /** ... and no translation changes: the new page is full of invalid entries. */
  lemma LinkTableAt(mem: Memory, sp: Space, pf: nat, i: nat, r: Role, g: nat, w: nat)
    requires WellFormed(mem, sp) && IsSlot(mem, sp, pf, i, r) && !IsValid(Entry(mem, pf, i))
    requires g !in sp.role && g != 0 && IsZeroed(mem, g)
    ensures pf in mem && |mem[pf]| == WORDS
    ensures Leaf(Poke(mem, pf, i, MakePte(g, PTE_V)), sp.root, w) == Leaf(mem, sp.root, w)
  {
    WalkRoles(mem, sp, w);
    var mem' := Poke(mem, pf, i, MakePte(g, PTE_V));
    var m := Mid(mem, sp.root, w);
    assert m != g && Low(mem, sp.root, w) != g;
    if r.MidTable? {
      if Px2(w) == i {
        assert Mid(mem', sp.root, w) == g;
        assert Entry(mem', g, Px1(w)) == 0;
      }
    } else {
      assert Mid(mem', sp.root, w) == m;
      if m == pf && Px1(w) == i {
        assert Low(mem', sp.root, w) == g;
        assert Entry(mem', g, Px0(w)) == 0;
      }
    }
  }

  /** Only the pages with a role matter. */
  ghost predicate SameTables(mem: Memory, mem': Memory, sp: Space) {
    forall f :: f in sp.role && f in mem ==> f in mem' && mem'[f] == mem[f]
  }

  lemma ElsewhereIsIrrelevant(mem: Memory, mem': Memory, sp: Space)
    requires WellFormed(mem, sp) && SameTables(mem, mem', sp)
    ensures WellFormed(mem', sp)
  {
    assert forall f :: f in sp.role ==> f in mem' && mem'[f] == mem[f];
    forall f | f in sp.role && sp.role[f].LowTable?
      ensures Entry(mem', FrameOf(mem[sp.root][sp.role[f].a]), sp.role[f].b) == MakePte(f, PTE_V) {
      assert PointsTo(sp, mem[sp.root][sp.role[f].a], MidTable(sp.role[f].a));
    }
  }

  lemma ElsewhereIsIrrelevantAt(mem: Memory, mem': Memory, sp: Space, w: nat)
    requires WellFormed(mem, sp) && SameTables(mem, mem', sp)
    ensures Low(mem', sp.root, w) == Low(mem, sp.root, w) && Leaf(mem', sp.root, w) == Leaf(mem, sp.root, w)
  {
    WalkRoles(mem, sp, w);
  }

  // ----- taking tables away

  /** r's page, or one below it. */
  predicate Below(r: Role, q: Role) {
    q == r || r.TopTable? || (r.MidTable? && q.LowTable? && q.a == r.a)
  }

  function Subtree(sp: Space, r: Role): set<nat> {
    set f | f in sp.role && Below(r, sp.role[f])
  }

  function Prune(sp: Space, r: Role): Space {
    sp.(role := sp.role - Subtree(sp, r))
  }

  /** Clearing the entry of a page and forgetting its subtree leaves a
      well-formed tree, whatever has become of the forgotten pages. */
  lemma UnlinkTable(mem: Memory, sp: Space, pf: nat, i: nat, r: Role, mem': Memory)
    requires WellFormed(mem, sp) && IsSlot(mem, sp, pf, i, r) && pf in mem' && |mem'[pf]| == WORDS
    requires forall f :: f in Prune(sp, r).role ==> f in mem' && mem'[f] == mem[f]
    ensures WellFormed(Poke(mem', pf, i, 0), Prune(sp, r))
  {
    var n, q := Poke(mem', pf, i, 0), Prune(sp, r);
    assert pf in q.role && Paged(n, q);
    forall a | 0 <= a < WORDS && IsValid(n[sp.root][a]) ensures PointsTo(q, n[sp.root][a], MidTable(a)) {
      assert PointsTo(sp, mem[sp.root][a], MidTable(a));
    }
    forall f, b | f in q.role && q.role[f].MidTable? && 0 <= b < WORDS && IsValid(n[f][b])
      ensures PointsTo(q, n[f][b], LowTable(q.role[f].a, b)) {
      assert PointsTo(sp, mem[f][b], LowTable(sp.role[f].a, b));
      if f == pf && b == i {
        assert false;
      }
    }
    UnlinkUp(mem, sp, pf, i, r, mem');
  }

  lemma UnlinkUp(mem: Memory, sp: Space, pf: nat, i: nat, r: Role, mem': Memory)
    requires WellFormed(mem, sp) && IsSlot(mem, sp, pf, i, r) && pf in mem' && |mem'[pf]| == WORDS
    requires forall f :: f in Prune(sp, r).role ==> f in mem' && mem'[f] == mem[f]
    ensures Paged(Poke(mem', pf, i, 0), Prune(sp, r)) && UpLinks(Poke(mem', pf, i, 0), Prune(sp, r))
  {
    var n, q := Poke(mem', pf, i, 0), Prune(sp, r);
    assert pf in q.role;
    forall f | f in q.role && q.role[f].LowTable?
      ensures var a, b := q.role[f].a, q.role[f].b;
              IsValid(n[sp.root][a]) && Entry(n, FrameOf(n[sp.root][a]), b) == MakePte(f, PTE_V) {
      var a := sp.role[f].a;
      assert PointsTo(sp, mem[sp.root][a], MidTable(a));
    }
  }

  /** No level-0 table has a valid entry. */
  ghost predicate NoLeaves(mem: Memory, sp: Space) {
    forall g, i :: g in sp.role && sp.role[g].LowTable? && 0 <= i < WORDS ==> !IsValid(Entry(mem, g, i))
  }

  /** Every level-0 slot belongs to a page below MAXVA, so an empty flat map
      means that no leaf is left anywhere in the tree. */
  lemma EmptyMapHasNoLeaves(mem: Memory, sp: Space)
    requires WellFormed(mem, sp) && forall v :: 0 <= v < MAX_PAGE ==> !IsValid(Leaf(mem, sp.root, v))
    ensures NoLeaves(mem, sp)
  {
    forall g, i | g in sp.role && sp.role[g].LowTable? && 0 <= i < WORDS ensures !IsValid(Entry(mem, g, i)) {
      var a, b := sp.role[g].a, sp.role[g].b;
      var v := 0x4_0000 * a + 512 * b + i;
      IndicesOf(a, b, i);
      assert PointsTo(sp, mem[sp.root][a], MidTable(a));
      assert Low(mem, sp.root, v) == g;
      assert !IsValid(Leaf(mem, sp.root, v));
    }
  }

  lemma IndicesOf(a: nat, b: nat, i: nat)
    requires a < TOP_ENTRIES && b < 512 && i < 512
    ensures var v := 0x4_0000 * a + 512 * b + i; v < MAX_PAGE && Px2(v) == a && Px1(v) == b && Px0(v) == i
  {
    var v := 0x4_0000 * a + 512 * b + i;
    assert v / 512 == 512 * a + b;
    assert v / 0x4_0000 == a;
  }

  /** A table all of whose entries are invalid has nothing below it. */
  lemma EmptyTableIsAlone(mem: Memory, sp: Space, f: nat)
    requires WellFormed(mem, sp) && f in sp.role
    requires !sp.role[f].LowTable? ==> forall i :: 0 <= i < WORDS ==> !IsValid(Entry(mem, f, i))
    ensures Subtree(sp, sp.role[f]) == {f}
  {
    var r := sp.role[f];
    forall g | g in Subtree(sp, r) ensures g == f {
      assert FrameOf(MakePte(g, PTE_V)) == g && FrameOf(MakePte(f, PTE_V)) == f && IsValid(MakePte(g, PTE_V));
      if sp.role[g].LowTable? {
        UpperEntry(mem, sp, g);
      } else if sp.role[g].MidTable? {
        assert Entry(mem, sp.root, sp.role[g].a) == MakePte(g, PTE_V);
      }
      if r.LowTable? {
        UpperEntry(mem, sp, f);
      }
    }
  }

  lemma UpperEntry(mem: Memory, sp: Space, g: nat)
    requires WellFormed(mem, sp) && g in sp.role && sp.role[g].LowTable?
    ensures var a, b := sp.role[g].a, sp.role[g].b;
            && IsValid(Entry(mem, sp.root, a)) && Entry(mem, FrameOf(Entry(mem, sp.root, a)), b) == MakePte(g, PTE_V)
            && (forall m :: m in sp.role && sp.role[m] == MidTable(a) ==> Entry(mem, m, b) == MakePte(g, PTE_V))
  {
    var a := sp.role[g].a;
    assert PointsTo(sp, mem[sp.root][a], MidTable(a));
    assert forall m :: m in sp.role && sp.role[m] == MidTable(a) ==> mem[sp.root][a] == MakePte(m, PTE_V);
  }
}
