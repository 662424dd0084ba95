/** What the processor does with a page table: the address translation of
    sections 4.3.2 and 4.4 of the RISC-V Privileged Architecture specification,
    version 20211203, by addresses and bit positions alone. The kernel's
    operations are stated against it. Accessed and dirty bits are set by the
    processor and do not matter here. */
module Sv39 {
  import opened Common

  datatype Access = Read | Write | Execute

  predicate Bit(x: nat, i: nat) {
    match i
    case 0 => x % 2 == 1
    case 1 => x / 2 % 2 == 1
    case 2 => x / 4 % 2 == 1
    case 3 => x / 8 % 2 == 1
    case 4 => x / 16 % 2 == 1
    case _ => false
  }

  /** The 64-bit word at a physical address; 0 where there is no memory. */
  function Word(mem: map<nat, seq<nat>>, pa: nat): nat {
    var f, i := pa / 4096, pa % 4096 / 8;
    if f in mem && i < |mem[f]| then mem[f][i] else 0
  }

  /** va.vpn[i] */
  function Vpn(va: nat, i: nat): (r: nat)
    ensures r < 512
  {
    if i == 0 then va / 0x1000 % 512 else if i == 1 then va / 0x20_0000 % 512 else va / 0x4000_0000 % 512
  }

  /** Bits V, R, W, X of a PTE: a pointer to the next table, or a leaf. */
  predicate Faults(pte: nat) {
    !Bit(pte, 0) || (!Bit(pte, 1) && Bit(pte, 2))
  }

  predicate IsLeaf(pte: nat) {
    Bit(pte, 1) || Bit(pte, 3)
  }

  predicate Permits(pte: nat, a: Access, user: bool) {
    && (match a case Read => Bit(pte, 1) case Write => Bit(pte, 2) case Execute => Bit(pte, 3))
    && (Bit(pte, 4) <==> user)
  }

  /** The bytes that a leaf at level i spans. */
  function Span(i: nat): nat {
    if i == 0 then 0x1000 else if i == 1 then 0x20_0000 else 0x4000_0000
  }

  /** The walk from the table at physical address a, at level i. */
  function Walk(mem: map<nat, seq<nat>>, a: nat, va: nat, i: nat, acc: Access, user: bool): Option<nat>
    decreases i
  {
    var pte := Word(mem, a + Vpn(va, i) * 8);
    var pa := pte / 1024 * 4096;
    if Faults(pte) then None
    else if IsLeaf(pte) then
      (if Permits(pte, acc, user) && pa % Span(i) == 0 then Some(pa + va % Span(i)) else None)
    else if i == 0 then None
    else Walk(mem, pa, va, i - 1, acc, user)
  }

  /** The physical address for va, or a page fault. root is the physical page
      number in satp. Bits 63 to 39 of va equal bit 38. */
  function Translate(mem: map<nat, seq<nat>>, root: nat, va: nat, acc: Access, user: bool): Option<nat> {
    if va < 0x40_0000_0000 then Walk(mem, root * 4096, va, 2, acc, user) else None
  }
}

/** The trees of PageTable, as the processor walks them. */
module HardwareWalk {
  import opened Common
  import opened PageTable
  import Sv39

  lemma Indices(va: nat)
    ensures Sv39.Vpn(va, 2) == Px2(va / 4096) && Sv39.Vpn(va, 1) == Px1(va / 4096) && Sv39.Vpn(va, 0) == Px0(va / 4096)
  {
  }

  lemma WordIsEntry(mem: Memory, f: nat, i: nat)
    requires i < 512
    ensures Sv39.Word(mem, f * 4096 + i * 8) == Entry(mem, f, i)
  {
    assert (f * 4096 + i * 8) / 4096 == f && (f * 4096 + i * 8) % 4096 == i * 8;
  }

  /** What a level-0 PTE lets the processor do. */
  function Seen(pte: nat, va: nat, acc: Sv39.Access, user: bool): Option<nat> {
    if !Sv39.Faults(pte) && Sv39.IsLeaf(pte) && Sv39.Permits(pte, acc, user)
    then Some(FrameOf(pte) * 4096 + va % 4096)
    else None
  }

  lemma WalkLow(mem: Memory, f: nat, va: nat, acc: Sv39.Access, user: bool)
    ensures Sv39.Walk(mem, f * 4096, va, 0, acc, user) == Seen(Entry(mem, f, Px0(va / 4096)), va, acc, user)
  {
    hide Sv39.Faults, Sv39.IsLeaf, Sv39.Permits, Sv39.Word, Px0;
    Indices(va);
    WordIsEntry(mem, f, Px0(va / 4096));
    Aligned(FrameOf(Entry(mem, f, Px0(va / 4096))));
  }

  lemma Aligned(f: nat)
    ensures f * 4096 % 4096 == 0
  {
  }

  lemma Even(y: nat, z: nat)
    ensures (2 * y + z) % 2 == z % 2
  {
  }

  /** The frame number does not reach into the low bits. */
  lemma LowBits(q: nat, r: nat, i: nat)
    requires r < 1024 && i < 5
    ensures Sv39.Bit(1024 * q + r, i) == Sv39.Bit(r, i)
  {
    var m := if i == 0 then 1 else if i == 1 then 2 else if i == 2 then 4 else if i == 3 then 8 else 16;
    var h := if i == 0 then 512 else if i == 1 then 256 else if i == 2 then 128 else if i == 3 then 64 else 32;
    assert 1024 * q + r == (2 * (h * q) + r / m) * m + r % m by {
      assert r == m * (r / m) + r % m;
    }
    DivMod(m, 2 * (h * q) + r / m, r % m);
    Even(h * q, r / m);
  }

  lemma InteriorIsPointer(pte: nat)
    requires pte % 1024 == 1
    ensures !Sv39.Faults(pte) && !Sv39.IsLeaf(pte)
  {
    hide Sv39.Bit;
    assert pte == 1024 * (pte / 1024) + 1;
    LowBits(pte / 1024, 1, 0);
    LowBits(pte / 1024, 1, 1);
    LowBits(pte / 1024, 1, 2);
    LowBits(pte / 1024, 1, 3);
    OneBit();
  }

  lemma OneBit()
    ensures Sv39.Bit(1, 0) && !Sv39.Bit(1, 1) && !Sv39.Bit(1, 2) && !Sv39.Bit(1, 3)
  {
  }

  /** The flat map is what the processor sees: for every address below MAXVA,
      every kind of access and both modes. */
  lemma HardwareSees(mem: Memory, sp: Space, va: nat, acc: Sv39.Access, user: bool)
    requires WellFormed(mem, sp) && va / 4096 < MAX_PAGE
    ensures Sv39.Translate(mem, sp.root, va, acc, user) == Seen(Leaf(mem, sp.root, va / 4096), va, acc, user)
  {
    hide WellFormed, Sv39.Faults, Sv39.IsLeaf, Sv39.Permits, Sv39.Word, Sv39.Vpn, Px2, Px1, Px0;
    var v := va / 4096;
    Indices(va);
    InteriorEntries(mem, sp, v);
    NullFaults();
    var e := Entry(mem, sp.root, Px2(v));
    WordIsEntry(mem, sp.root, Px2(v));
    if !IsValid(e) {
      InvalidFaults(e);
    } else {
      InteriorIsPointer(e);
      var m := FrameOf(e);
      assert Sv39.Walk(mem, sp.root * 4096, va, 2, acc, user) == Sv39.Walk(mem, m * 4096, va, 1, acc, user);
      var e1 := Entry(mem, m, Px1(v));
      WordIsEntry(mem, m, Px1(v));
      if !IsValid(e1) {
        InvalidFaults(e1);
      } else {
        InteriorIsPointer(e1);
        assert Sv39.Walk(mem, m * 4096, va, 1, acc, user) == Sv39.Walk(mem, FrameOf(e1) * 4096, va, 0, acc, user);
        WalkLow(mem, FrameOf(e1), va, acc, user);
      }
    }
  }

  lemma InvalidFaults(pte: nat)
    requires !IsValid(pte)
    ensures Sv39.Faults(pte)
  {
  }

  lemma NullFaults()
    ensures Sv39.Faults(0)
  {
  }

  lemma InteriorEntries(mem: Memory, sp: Space, v: nat)
    requires WellFormed(mem, sp)
    ensures Px2(v) < 512 && Px1(v) < 512
    ensures var e := Entry(mem, sp.root, Px2(v));
            var e1 := Entry(mem, FrameOf(e), Px1(v));
            && (IsValid(e) ==> e % 1024 == 1 && FrameOf(e) != 0)
            && (IsValid(e) && IsValid(e1) ==> e1 % 1024 == 1 && FrameOf(e1) != 0)
  {
    hide UpLinks;
    var e := Entry(mem, sp.root, Px2(v));
    if IsValid(e) {
      assert PointsTo(sp, e, MidTable(Px2(v)));
      var e1 := Entry(mem, FrameOf(e), Px1(v));
      if IsValid(e1) {
        assert PointsTo(sp, e1, LowTable(Px2(v), Px1(v)));
      }
    }
  }
}
