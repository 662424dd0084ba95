/** Block allocation and inode contents of kernel/fs.c, and the chunked write
    of kernel/file.c, run by a process that holds the inode's lock. Blocks are
    read and written as the log presents them; `logged` collects the block
    numbers passed to log_write by the current operation. */
module FileSystem {
  import opened Common
  import opened BlockMap
  import Bitmap

  type Bytes = map<nat, seq<int>>

  function Zeros(n: nat): (z: seq<nat>)
    ensures |z| == n && forall i :: 0 <= i < n ==> z[i] == 0
  {
    seq(n, _ => 0)
  }

  /** Bits in a bitmap block, and the bitmap block of b. */
  function Bpb(c: Config): nat {
    8 * c.bsize
  }

  function BBlock(c: Config, b: nat): int
    requires c.bsize > 0
  {
    b / Bpb(c) + c.bmapstart
  }

  function IBlock(c: Config, k: nat): int
    requires c.ipb > 0
  {
    k / c.ipb + c.inodestart
  }

  /** The file system's blocks as the log presents them, and the block numbers
      passed to log_write so far, in order. */
  datatype Store = Store(data: Bytes, tables: Tables, bits: seq<bool>, bitmap: Bitmap.Bits, dinodes: seq<seq<Inode>>,
                         calls: seq<int>)

  function Set(s: seq<int>): set<int> {
    set b | b in s
  }

  lemma SetPlus(s: seq<int>, t: seq<int>)
    ensures Set(s + t) == Set(s) + Set(t)
  {
  }

  /** The calls grew from c0 to c1, and with them the set l0 to l1. */
  ghost predicate Called(c0: seq<int>, c1: seq<int>, l0: set<int>, l1: set<int>) {
    c0 <= c1 && l1 == l0 + Set(c1[|c0|..])
  }

  lemma CalledOn(c0: seq<int>, c1: seq<int>, c2: seq<int>, l0: set<int>, l1: set<int>, l2: set<int>)
    requires Called(c0, c1, l0, l1) && Called(c1, c2, l1, l2)
    ensures Called(c0, c2, l0, l2)
  {
    assert c2[|c0|..] == c1[|c0|..] + c2[|c1|..];
    SetPlus(c1[|c0|..], c2[|c1|..]);
  }

  lemma CalledMore(s: seq<int>, more: seq<int>, l: set<int>)
    ensures Called(s, s + more, l, l + Set(more))
  {
    assert (s + more)[|s|..] == more;
  }

  /** Every block changed on the way from x to y has been passed to log_write. */
  ghost predicate Journaled(c: Config, x: Store, y: Store, l0: set<int>, l1: set<int>)
    requires c.bsize > 0
  {
    && Called(x.calls, y.calls, l0, l1) && |y.bits| == |x.bits| && |y.dinodes| == |x.dinodes|
    && x.data.Keys <= y.data.Keys && x.tables.Keys <= y.tables.Keys && |y.bitmap| == |x.bitmap|
    && (forall b :: b in y.data && (b !in x.data || y.data[b] != x.data[b]) ==> b in l1)
    && (forall b :: b in y.tables && (b !in x.tables || y.tables[b] != x.tables[b]) ==> b in l1)
    && (forall b :: 0 <= b < |x.bits| && y.bits[b] != x.bits[b] ==> BBlock(c, b) in l1)
    && (forall i :: 0 <= i < |x.dinodes| && y.dinodes[i] != x.dinodes[i] ==> i + c.inodestart in l1)
    && (forall i :: 0 <= i < |x.bitmap| && y.bitmap[i] != x.bitmap[i] ==> i + c.bmapstart in l1)
  }

  lemma JournaledOn(c: Config, x: Store, y: Store, z: Store, l0: set<int>, l1: set<int>, l2: set<int>)
    requires c.bsize > 0 && Journaled(c, x, y, l0, l1) && Journaled(c, y, z, l1, l2)
    ensures Journaled(c, x, z, l0, l2)
  {
    hide BBlock, Called;
    CalledOn(x.calls, y.calls, z.calls, l0, l1, l2);
    CalledGrows(y.calls, z.calls, l1, l2);
  }

  lemma CalledGrows(c0: seq<int>, c1: seq<int>, l0: set<int>, l1: set<int>)
    requires Called(c0, c1, l0, l1)
    ensures l0 <= l1
  {
  }

  /** Of the bitmap blocks, only the one on disk at BBlock(b) has changed. */
  ghost predicate OneBlock(c: Config, x: Bitmap.Bits, y: Bitmap.Bits, b: nat)
    requires c.bsize > 0
  {
    |y| == |x| && forall i :: 0 <= i < |x| && i + c.bmapstart != BBlock(c, b) ==> y[i] == x[i]
  }

  lemma JournaledBlock(c: Config, x: Store, b: nat, bm: Bitmap.Bits, l: set<int>)
    requires c.bsize > 0 && b < |x.bits| && OneBlock(c, x.bitmap, bm, b)
    ensures Journaled(c, x, x.(data := x.data[b := Zeros(c.bsize)], tables := x.tables[b := Zeros(c.nindirect)],
                               bits := x.bits[b := true], bitmap := bm, calls := x.calls + [BBlock(c, b), b]),
              l, l + {BBlock(c, b), b})
  {
    hide BBlock, Called;
    CalledMore(x.calls, [BBlock(c, b), b], l);
    assert Set([BBlock(c, b), b]) == {BBlock(c, b), b};
  }

  lemma JournaledTable(c: Config, x: Store, t: nat, tb: seq<nat>, l: set<int>)
    requires c.bsize > 0
    ensures Journaled(c, x, x.(tables := x.tables[t := tb], calls := x.calls + [t]), l, l + {t})
  {
    hide BBlock, Called;
    CalledMore(x.calls, [t], l);
    assert Set([t]) == {t};
  }

  lemma JournaledData(c: Config, x: Store, b: nat, d: seq<int>, l: set<int>)
    requires c.bsize > 0
    ensures Journaled(c, x, x.(data := x.data[b := d], calls := x.calls + [b]), l, l + {b})
  {
    hide BBlock, Called;
    CalledMore(x.calls, [b], l);
    assert Set([b]) == {b};
  }

  lemma JournaledBit(c: Config, x: Store, b: nat, bm: Bitmap.Bits, l: set<int>)
    requires c.bsize > 0 && b < |x.bits| && OneBlock(c, x.bitmap, bm, b)
    ensures Journaled(c, x, x.(bits := x.bits[b := false], bitmap := bm, calls := x.calls + [BBlock(c, b)]),
              l, l + {BBlock(c, b)})
  {
    hide BBlock, Called;
    CalledMore(x.calls, [BBlock(c, b)], l);
    assert Set([BBlock(c, b)]) == {BBlock(c, b)};
  }

  lemma JournaledInode(c: Config, x: Store, k: nat, y: seq<seq<Inode>>, l: set<int>)
    requires c.bsize > 0 && c.ipb > 0 && |y| == |x.dinodes|
    requires forall i :: 0 <= i < |y| && i != k / c.ipb ==> y[i] == x.dinodes[i]
    ensures Journaled(c, x, x.(dinodes := y, calls := x.calls + [IBlock(c, k)]), l, l + {IBlock(c, k)})
  {
    hide BBlock, Called;
    CalledMore(x.calls, [IBlock(c, k)], l);
    assert Set([IBlock(c, k)]) == {IBlock(c, k)};
  }

  lemma JournaledCalls(c: Config, x: Store, y: Store, l0: set<int>, l1: set<int>)
    requires c.bsize > 0 && Journaled(c, x, y, l0, l1)
    ensures Called(x.calls, y.calls, l0, l1)
  {
  }

  predicate EndsWith(s: seq<int>, b: int) {
    s != [] && s[|s| - 1] == b
  }

  function Front(s: seq<int>): seq<int> {
    if s == [] then [] else s[..|s| - 1]
  }

  lemma JournaledNone(c: Config, x: Store, l: set<int>)
    requires c.bsize > 0
    ensures Journaled(c, x, x, l, l)
  {
    assert x.calls[|x.calls|..] == [];
  }

  /** Bit b of the bitmap, and what storing to its byte does. */
  lemma BitOf(c: Config, bm: Bitmap.Bits, bits: seq<bool>, b: nat)
    requires ValidConfig(c) && Bitmap.Packed(bm, c.bsize, bits) && b < |bits|
    ensures var p := Bitmap.PlaceOf(c.bsize, b);
            && Bitmap.Has(bm, p) && Bitmap.Bit(bm[p.k][p.y], p.i) == bits[b]
            && forall v :: Bitmap.Packed(Bitmap.Store(bm, p, v), c.bsize, bits[b := v])
  {
    hide Bitmap.PlaceOf, Bitmap.Bit, Bitmap.Put, Bitmap.Store;
    Bitmap.StorePacked(bm, c.bsize, bits, b, true);
    Bitmap.StorePacked(bm, c.bsize, bits, b, false);
  }

  /** The same, as balloc comes to it: bit bi of the q-th bitmap block. */
  lemma BitAt(c: Config, bm: Bitmap.Bits, bits: seq<bool>, q: nat, bi: nat)
    requires ValidConfig(c) && Bitmap.Packed(bm, c.bsize, bits) && bi < Bpb(c) && q * Bpb(c) + bi < |bits|
    ensures q * Bpb(c) / Bpb(c) == q < |bm| && bi / 8 < |bm[q]| &&
            Bitmap.Bit(bm[q][bi / 8], bi % 8) == bits[q * Bpb(c) + bi]
    ensures Bitmap.Packed(bm[q := bm[q][bi / 8 := Bitmap.Put(bm[q][bi / 8], bi % 8, true)]], c.bsize,
              bits[q * Bpb(c) + bi := true])
  {
    hide Bitmap.PlaceOf, Bitmap.Bit, Bitmap.Put, Bitmap.Packed;
    DivMod(Bpb(c), q, 0);
    Bitmap.PlaceIn(c.bsize, q, bi);
    BitOf(c, bm, bits, q * Bpb(c) + bi);
    assert Bitmap.Packed(Bitmap.Store(bm, Bitmap.Place(q, bi / 8, bi % 8), true), c.bsize,
        bits[q * Bpb(c) + bi := true]);
  }

  lemma OneBlockAt(c: Config, bm: Bitmap.Bits, q: nat, bi: nat, block: seq<bv8>)
    requires ValidConfig(c) && q < |bm| && bi < Bpb(c)
    ensures OneBlock(c, bm, bm[q := block], q * Bpb(c) + bi)
  {
    DivMod(Bpb(c), q, bi);
  }

  lemma NextBitmap(c: Config, q: nat)
    requires ValidConfig(c)
    ensures Bpb(c) > 0 && (q + 1) * Bpb(c) == q * Bpb(c) + Bpb(c) && q * Bpb(c) / Bpb(c) == q
  {
    DivMod(Bpb(c), q, 0);
  }

  lemma BitmapRoom(c: Config)
    requires ValidConfig(c)
    ensures c.size <= c.size * (8 * c.bsize)
  {
    assert 1 <= 8 * c.bsize;
    assert c.size * 1 <= c.size * (8 * c.bsize);
  }

  /** The on-disk copy of inode k has a place. */
  predicate HasInode(c: Config, d: seq<seq<Inode>>, k: nat)
    requires c.ipb > 0
  {
    k / c.ipb < |d| && k % c.ipb < |d[k / c.ipb]|
  }

  function Dinode(c: Config, d: seq<seq<Inode>>, k: nat): Inode
    requires c.ipb > 0 && HasInode(c, d, k)
  {
    d[k / c.ipb][k % c.ipb]
  }

  ghost predicate InodeRoom(c: Config, d: seq<seq<Inode>>, n: nat)
    requires c.ipb > 0
  {
    forall k: nat :: k < n ==> HasInode(c, d, k)
  }

  /** The on-disk copy of inode k is x, and the others are as before. */
  ghost predicate Saved(c: Config, d0: seq<seq<Inode>>, d: seq<seq<Inode>>, n: nat, k: nat, x: Inode)
    requires c.ipb > 0
  {
    && InodeRoom(c, d0, n) && InodeRoom(c, d, n)
    && forall m: nat :: m < n ==> Dinode(c, d, m) == if m == k then x else Dinode(c, d0, m)
  }

  /** Different inodes have different slots. */
  lemma OnlyThatInode(c: Config, d: seq<seq<Inode>>, n: nat, k: nat, x: Inode)
    requires c.ipb > 0 && InodeRoom(c, d, n) && k < n
    ensures HasInode(c, d, k) && Saved(c, d, d[k / c.ipb := d[k / c.ipb][k % c.ipb := x]], n, k, x)
  {
    assert HasInode(c, d, k);
    var d' := d[k / c.ipb := d[k / c.ipb][k % c.ipb := x]];
    forall m: nat | m < n ensures HasInode(c, d', m) && Dinode(c, d', m) == if m == k then x else Dinode(c, d, m) {
      assert HasInode(c, d, m);
      assert m == (m / c.ipb) * c.ipb + m % c.ipb && k == (k / c.ipb) * c.ipb + k % c.ipb;
    }
  }

  lemma RoomForAll(c: Config, n: nat)
    requires c.ipb > 0
    ensures InodeRoom(c, seq(n, _ => seq(c.ipb, _ => Inode(NoAddrs(c), 0))), n)
  {
    var d := seq(n, _ => seq(c.ipb, _ => Inode(NoAddrs(c), 0)));
    forall k: nat | k < n ensures HasInode(c, d, k) {
      assert k == (k / c.ipb) * c.ipb + k % c.ipb;
      MulMono(1, c.ipb, k / c.ipb);
    }
  }

  /** An open file: which inode, and where the next byte goes. */
  class File {
    var ip: nat
    var off: nat
  }

  class Fs {
    const c: Config
    var inodes: seq<Inode>    // the in-memory inodes
    var dinodes: seq<seq<Inode>>   // their on-disk copies, block by block
    var bitmap: Bitmap.Bits   // the bitmap blocks
    var data: Bytes
    var tables: Tables
    ghost var bits: seq<bool>   // the bits that they hold, one per block
    ghost var owner: map<nat, Slot>
    ghost var logged: set<int>   // by the current operation
    ghost var calls: seq<int>    // of log_write, in order

    ghost predicate Valid()
      reads this
    {
      && ValidConfig(c) && Owned(c, inodes, tables, owner) && InodeRoom(c, dinodes, |inodes|)
      && BitsOk(c, bits, owner.Keys) && DataOk(c, data, owner.Keys) && Bitmap.Packed(bitmap, c.bsize, bits)
    }

    ghost function Now(): Store
      reads this
    {
      Store(data, tables, bits, bitmap, dinodes, calls)
    }

    /** An empty file system of n empty inodes. */
    constructor (config: Config, n: nat)
      requires ValidConfig(config)
      ensures c == config && Whole() && |inodes| == n && logged == {}
      ensures forall k :: 0 <= k < n ==> Content(k) == []
    {
      c := config;
      inodes := seq(n, _ => Inode(NoAddrs(config), 0));
      dinodes := seq(n, _ => seq(config.ipb, _ => Inode(NoAddrs(config), 0)));
      RoomForAll(config, n);
      bits := seq(config.size, b => b < config.datastart);
      bitmap := Bitmap.Initial(config.bsize, config.size, config.datastart);
      BitmapRoom(config);
      Bitmap.InitialPacked(config.bsize, config.size, config.size, config.datastart);
      data, tables, owner, logged, calls := map[], map[], map[], {}, [];
    }

    /** balloc: the lowest free block, marked, zeroed and logged with its bitmap
        block; 0 if the disk is full. */
    method Balloc() returns (r: nat)
      requires ValidConfig(c) && |bits| == c.size && (forall b :: 0 <= b < c.datastart ==> bits[b]) &&
               Bitmap.Packed(bitmap, c.bsize, bits)
      modifies this`bits, this`bitmap, this`data, this`tables, this`logged, this`calls
      ensures r == 0 ==>
                bits == old(bits) && bitmap == old(bitmap) && data == old(data) && tables == old(tables) &&
                  logged == old(logged) && calls == old(calls)
      ensures r == 0 <==> forall b :: 0 <= b < c.size ==> old(bits)[b]
      ensures r != 0 ==> c.datastart <= r < c.size && !old(bits)[r] && (forall b :: 0 <= b < r ==> old(bits)[b])
      ensures r != 0 ==> bits == old(bits)[r := true] && data == old(data)[r := Zeros(c.bsize)] &&
                         tables == old(tables)[r := Zeros(c.nindirect)]
      ensures r != 0 ==> logged == old(logged) + {BBlock(c, r), r} && calls == old(calls) + [BBlock(c, r), r]
      ensures r != 0 ==> OneBlock(c, old(bitmap), bitmap, r)
      ensures Bitmap.Packed(bitmap, c.bsize, bits)
    {
      hide Bitmap.Packed, Bitmap.Bit, Bitmap.Put, BBlock, Bpb, Zeros, OneBlock;
      var b := 0;
      ghost var q := 0;
      while b < c.size
        invariant 0 <= b == q * Bpb(c) && 0 <= q && |bits| == c.size && forall x :: 0 <= x < b && x < c.size ==> bits[x]
        invariant bits == old(bits) && bitmap == old(bitmap) && data == old(data) && tables == old(tables) &&
                  logged == old(logged) && calls == old(calls)
        decreases c.size - b
      {
        NextBitmap(c, q);
        var bi := 0;
        var k := b / Bpb(c);
        while bi < Bpb(c) && b + bi < c.size
          invariant 0 <= bi <= Bpb(c) && b + bi <= c.size == |bits|
          invariant forall x :: 0 <= x < b + bi ==> bits[x]
          invariant bits == old(bits) && bitmap == old(bitmap) && data == old(data) && tables == old(tables) &&
                    logged == old(logged) && calls == old(calls)
        {
          BitAt(c, bitmap, bits, q, bi);
          if !Bitmap.Bit(bitmap[k][bi / 8], bi % 8) {
            r := b + bi;
            OneBlockAt(c, bitmap, q, bi, bitmap[k][bi / 8 := Bitmap.Put(bitmap[k][bi / 8], bi % 8, true)]);
            bitmap := bitmap[k := bitmap[k][bi / 8 := Bitmap.Put(bitmap[k][bi / 8], bi % 8, true)]];
            bits := bits[r := true];
            data := data[r := Zeros(c.bsize)];
            tables := tables[r := Zeros(c.nindirect)];
            logged, calls := logged + {BBlock(c, r), r}, calls + [BBlock(c, r), r];
            return;
          }
          bi := bi + 1;
        }
        b, q := b + Bpb(c), q + 1;
      }
      r := 0;
    }

    /** bfree. Its panic is a precondition; the callers show it unreachable. */
    method Bfree(b: nat)
      requires ValidConfig(c) && b < |bits| && bits[b] && Bitmap.Packed(bitmap, c.bsize, bits)
      modifies this`bits, this`bitmap, this`logged, this`calls
      ensures bits == old(bits)[b := false] && Bitmap.Packed(bitmap, c.bsize, bits)
      ensures logged == old(logged) + {BBlock(c, b)} && calls == old(calls) + [BBlock(c, b)]
      ensures OneBlock(c, old(bitmap), bitmap, b)
    {
      hide Bitmap.Packed, Bitmap.Bit, Bitmap.Put;
      var k, bi := b / Bpb(c), b % Bpb(c);
      Bitmap.InBlock(Bpb(c), b);
      BitOf(c, bitmap, bits, b);
      assert Bitmap.PlaceOf(c.bsize, b) == Bitmap.Place(k, bi / 8, bi % 8);
      assert Bitmap.Packed(Bitmap.Store(bitmap, Bitmap.PlaceOf(c.bsize, b), false), c.bsize, bits[b := false]);
      bitmap := bitmap[k := bitmap[k][bi / 8 := Bitmap.Put(bitmap[k][bi / 8], bi % 8, false)]];
      bits := bits[b := false];
      logged, calls := logged + {BBlock(c, b)}, calls + [BBlock(c, b)];
    }

    /** A block from balloc, before any slot points to it. */
    method Fresh() returns (b: nat)
      requires Valid()
      modifies this`bits, this`bitmap, this`data, this`tables, this`logged, this`calls
      ensures Bitmap.Packed(bitmap, c.bsize, bits)
      ensures b == 0 ==>
                Valid() && bits == old(bits) && bitmap == old(bitmap) && data == old(data) && tables == old(tables) &&
                  logged == old(logged) && calls == old(calls)
      ensures b == 0 ==> forall x :: 0 <= x < c.size ==> bits[x]
      ensures b != 0 ==> b !in owner && c.datastart <= b < c.size && ZeroTable(c, tables, b)
      ensures b != 0 ==>
                Owned(c, inodes, tables, owner) && BitsOk(c, bits, owner.Keys + {b}) &&
                  DataOk(c, data, owner.Keys + {b})
      ensures b != 0 ==> data == old(data)[b := Zeros(c.bsize)] && logged == old(logged) + {BBlock(c, b), b} &&
                         calls == old(calls) + [BBlock(c, b), b] && OneBlock(c, old(bitmap), bitmap, b)
      ensures b != 0 ==>
                b < |old(bits)| && bits == old(bits)[b := true] && tables == old(tables)[b := Zeros(c.nindirect)]
      ensures forall s :: Legal(c, |inodes|, s) ==> At(c, inodes, tables, s) == At(c, inodes, old(tables), s)
    {
      hide At, Bitmap.Packed;
      b := Balloc();
      if b != 0 {
        FreeTablesIrrelevant(c, inodes, old(tables), tables, owner);
      }
    }

    /** An empty slot gets a fresh block, or stays empty when the disk is full. */
    method FillSlot(s: Slot) returns (b: nat)
      requires Valid() && Legal(c, |inodes|, s) && At(c, inodes, tables, s) == 0
      requires s.Entry? ==> inodes[s.k].addrs[c.ndirect] != 0
      modifies this
      ensures Valid() && dinodes == old(dinodes)
      ensures SlotFilled(c, old(inodes), old(tables), old(data), old(owner), inodes, tables, data, owner, s, b)
      ensures b == 0 ==> logged == old(logged) && forall x :: 0 <= x < c.size ==> bits[x]
      ensures b != 0 ==>
                logged == old(logged) + {BBlock(c, b), b} + (if s.Entry? then {inodes[s.k].addrs[c.ndirect]} else {})
      ensures Journaled(c, old(Now()), Now(), old(logged), logged)
    {
      hide Bitmap.Packed, Owned, At, Journaled, BBlock, BitsOk, DataOk, ZeroTable, SlotFilled, InodeRoom;
      OwnedShaped(c, inodes, tables, owner);
      NotFilled(c, inodes, tables, data, owner, s);
      b := Fresh();
      if b == 0 {
        JournaledNone(c, Now(), logged);
        return;
      }
      JournaledBlock(c, old(Now()), b, bitmap, old(logged));
      FilledOwned(c, inodes, tables, owner, s, b);
      Filling(c, inodes, old(tables), tables, old(data), owner, s, b);
      assert owner[b := s].Keys == owner.Keys + {b};
      if s.Entry? {
        var t := inodes[s.k].addrs[c.ndirect];
        ghost var x1, l1 := Now(), logged;
        tables := PutEntry(tables, t, s.j, b);
        logged, calls := logged + {t}, calls + [t];
        JournaledTable(c, x1, t, tables[t], l1);
        JournaledOn(c, old(Now()), x1, Now(), old(logged), l1, logged);
      } else {
        inodes := PutAddr(inodes, s.k, if s.Direct? then s.i else c.ndirect, b);
      }
      owner := owner[b := s];
    }

    /** bmap. A filled slot is returned as it is; an empty one gets a zeroed
        block of its own, through a new indirect block if necessary; 0 means
        the disk is full. */
    method Bmap(k: nat, bn: nat) returns (addr: nat)
      requires Valid() && k < |inodes| && bn < c.ndirect + c.nindirect
      modifies this
      ensures Valid() && dinodes == old(dinodes)
      ensures Mapped(c, old(inodes), old(tables), old(data), old(owner), inodes, tables, data, owner, k, bn, addr)
      ensures old(At(c, inodes, tables, SlotOf(c, k, bn))) != 0 ==>
                inodes == old(inodes) && tables == old(tables) && data == old(data) && bits == old(bits) &&
                  bitmap == old(bitmap) && owner == old(owner) && logged == old(logged) && calls == old(calls)
      ensures addr == 0 ==> forall x :: 0 <= x < c.size ==> bits[x]
      ensures logged <= old(logged) + NewlyLogged(c, old(inodes), inodes, k, bn, addr)
      ensures Journaled(c, old(Now()), Now(), old(logged), logged)
    {
      hide Bitmap.Packed, Owned, Blocks, Mapped, SlotFilled, At, Journaled;
      JournaledNone(c, Now(), logged);
      OwnedShaped(c, inodes, tables, owner);
      MappedAlready(c, inodes, tables, data, owner, k, bn);
      if bn < c.ndirect {
        addr := inodes[k].addrs[bn];
        if addr == 0 {
          addr := FillSlot(Direct(k, bn));
          OwnedShaped(c, inodes, tables, owner);
          MappedBySlot(c, old(inodes), old(tables), old(data), old(owner), inodes, tables, data, owner, k, bn, addr);
        }
        return;
      }
      var j := bn - c.ndirect;
      var ind := inodes[k].addrs[c.ndirect];
      if ind == 0 {
        ind := FillSlot(Ind(k));
        OwnedShaped(c, inodes, tables, owner);
        MappedByInd(c, old(inodes), old(tables), old(data), old(owner), inodes, tables, data, owner, k, bn, ind);
        if ind == 0 {
          return 0;
        }
      }
      ghost var i1, t1, d1, o1, x1, l1 := inodes, tables, data, owner, Now(), logged;
      addr := EntryOf(ind, j, k);
      if addr == 0 {
        addr := FillSlot(Entry(k, j));
        JournaledOn(c, old(Now()), x1, Now(), old(logged), l1, logged);
        OwnedShaped(c, inodes, tables, owner);
        EntryFilled(c, i1, t1, d1, o1, inodes, tables, data, owner, k, j, addr);
        MappedThrough(c, old(inodes), old(tables), old(data), old(owner), i1, t1, d1, o1, inodes, tables, data, owner,
            k, bn, addr);
      }
    }

    /** a[bn] of the indirect block just read. */
    method EntryOf(ind: nat, j: nat, ghost k: nat) returns (a: nat)
      requires Valid() && k < |inodes| && j < c.nindirect && Shaped(c, inodes) && ind == inodes[k].addrs[c.ndirect] != 0
      ensures a == At(c, inodes, tables, Entry(k, j))
    {
      assert At(c, inodes, tables, Ind(k)) == ind;
      a := tables[ind][j];
    }

    /** iupdate: slot k % IPB of the inode's block. */
    method Iupdate(k: nat)
      requires ValidConfig(c) && k < |inodes| && InodeRoom(c, dinodes, |inodes|)
      modifies this`dinodes, this`logged, this`calls
      ensures Saved(c, old(dinodes), dinodes, |inodes|, k, inodes[k]) && logged == old(logged) + {IBlock(c, k)}
      ensures calls == old(calls) + [IBlock(c, k)] && Journaled(c, old(Now()), Now(), old(logged), logged)
    {
      hide IBlock, Journaled;
      assert HasInode(c, dinodes, k);
      ghost var d0 := dinodes;
      dinodes := dinodes[k / c.ipb := dinodes[k / c.ipb][k % c.ipb := inodes[k]]];
      OnlyThatInode(c, d0, |inodes|, k, inodes[k]);
      JournaledInode(c, Now().(dinodes := d0), k, dinodes, logged);
      logged, calls := logged + {IBlock(c, k)}, calls + [IBlock(c, k)];
    }

    /** itrunc: exactly the blocks of inode k become free. That every block it
        frees is marked in use shows bfree's panic unreachable. */
    method Itrunc(k: nat)
      requires Valid() && k < |inodes|
      modifies this
      ensures Valid() && owner == Disown(old(owner), k) && (old(Whole()) ==> Whole())
      ensures inodes == old(inodes)[k := Inode(NoAddrs(c), 0)] &&
              Saved(c, old(dinodes), dinodes, |inodes|, k, inodes[k])
      ensures data == old(data) && tables == old(tables)
      ensures forall b :: 0 <= b < c.size ==>
                (bits[b] <==> old(bits)[b] && !(b in old(owner) && old(owner)[b].k == k))
      ensures Journaled(c, old(Now()), Now(), old(logged), logged) && IBlock(c, k) in logged
    {
      hide Bitmap.Packed, Owned, BitsLeft, BitsOk, DataOk, Journaled, IBlock, Disown, InodeRoom;
      ghost var o := owner;
      OwnedShaped(c, inodes, tables, owner);
      BitsStart(c, bits, o, k);
      FreeBlocks(k);
      inodes := inodes[k := inodes[k].(size := 0)];
      OwnNothing(c, old(inodes), tables, o, k, 0);
      TruncCovered(c, old(inodes), tables, o, k);
      BitsEnd(c, old(bits), bits, data, old(inodes), tables, o, k);
      assert inodes == old(inodes)[k := Inode(NoAddrs(c), 0)];
      owner := Disown(o, k);
      ghost var x3, l3 := Now(), logged;
      Iupdate(k);
      JournaledOn(c, old(Now()), x3, Now(), old(logged), l3, logged);
    }

    /** itrunc up to the size: all blocks are freed and all slots cleared. */
    method FreeBlocks(k: nat)
      requires Valid() && k < |inodes| && Shaped(c, inodes) && BitsLeft(c, bits, owner, k, 0, 0, false)
      modifies this`inodes, this`bits, this`bitmap, this`logged, this`calls
      ensures Bitmap.Packed(bitmap, c.bsize, bits)
      ensures BitsLeft(c, bits, owner, k, c.ndirect, c.nindirect, true)
      ensures Journaled(c, old(Now()), Now(), old(logged), logged)
      ensures inodes == old(inodes)[k := Inode(NoAddrs(c), old(inodes)[k].size)]
    {
      hide Bitmap.Packed, Owned, BitsLeft, BitsOk, DataOk, Journaled, InodeRoom;
      FreeDirect(k);
      var ind := inodes[k].addrs[c.ndirect];
      if ind != 0 {
        ghost var x2, l2 := Now(), logged;
        FreeIndirect(k, ind, old(inodes));
        JournaledOn(c, old(Now()), x2, Now(), old(logged), l2, logged);
        FilledIsOwned(c, old(inodes), tables, owner, Ind(k));
        LastBit(c, bits, owner, k, ind);
        x2, l2 := Now(), logged;
        Bfree(ind);
        JournaledBit(c, x2, ind, bitmap, l2);
        JournaledOn(c, old(Now()), x2, Now(), old(logged), l2, logged);
        inodes := PutAddr(inodes, k, c.ndirect, 0);
      } else {
        NoEntries(c, bits, old(inodes), tables, owner, k);
      }
      assert inodes[k].addrs == NoAddrs(c);
    }

    /** Every block below a file's size is allocated. */
    ghost predicate Whole()
      reads this
    {
      Valid() && AllCovered(c, inodes, tables)
    }

    ghost function Content(m: nat): (s: seq<int>)
      requires ValidConfig(c) && Shaped(c, inodes) && m < |inodes| && inodes[m].size <= MaxBytes(c)
      reads this
      ensures |s| == inodes[m].size
    {
      ContentOf(c, inodes, tables, data, m)
    }

    lemma HasConfig()
      requires Whole()
      ensures ValidConfig(c)
    {
    }

    /** Where byte p of file k lies: in a direct block, or in a block named by the
        indirect table. */
    lemma Layout(k: nat, p: nat)
      requires Whole() && k < |inodes| && p < inodes[k].size
      ensures var bn, addrs := p / c.bsize, inodes[k].addrs;
              && (if bn < c.ndirect then bn < |addrs|
                  else c.ndirect < |addrs| && addrs[c.ndirect] in tables && bn - c.ndirect < |tables[addrs[c.ndirect]]|)
              && var b := if bn < c.ndirect then addrs[bn] else tables[addrs[c.ndirect]][bn - c.ndirect];
                 b != 0 && b in data && p % c.bsize < |data[b]| && Content(k)[p] == data[b][p % c.bsize]
    {
      hide Bitmap.Packed, Owned, MaxBytes, BitsOk, InodeRoom;
      OwnedShaped(c, inodes, tables, owner);
      CoveredAt(c, inodes, tables, owner, k, p);
      FilledIsOwned(c, inodes, tables, owner, SlotOf(c, k, p / c.bsize));
    }

    /** All files, as byte sequences. */
    ghost function Contents(): (s: seq<seq<int>>)
      requires Whole()
      reads this
      ensures |s| == |inodes|
    {
      seq(|inodes|, m requires 0 <= m < |inodes| && Whole() reads this => Content(m))
    }

    /** readi: the slice of the file, clipped to its size; -1 exactly if the
        destination, of which mapped bytes can be copied to, is too short for
        it. Nothing is allocated, and nothing else changes. */
    method Readi(k: nat, off: nat, n: nat, mapped: nat) returns (r: int, dst: seq<int>)
      requires Whole() && k < |inodes| && off < U32 && n < U32
      requires inodes[k].size < U32
      modifies this
      ensures Whole() && Same() && Content(k) == old(Content(k))
      ensures var size := inodes[k].size;
              var len := if off > size || off + n >= U32 then 0 else if off + n > size then size - off else n;
              if len <= mapped then
                r == |dst| == len && forall i :: 0 <= i < len ==> dst[i] == Content(k)[off + i]
              else r == -1
    {
      hide Bitmap.Packed, Owned, At, Mapped, Byte, Covered, BitsOk, DataOk, Blk, Rem, NewlyLogged, MaxBytes;
      hide SlotOf, ContentOf;
      OwnedShaped(c, inodes, tables, owner);
      r, dst := 0, [];
      if off > inodes[k].size || (off + n) % U32 < off {
        return;
      }
      var ok;
      if off + n > inodes[k].size {
        ok, dst := ReadBlocks(k, off, inodes[k].size - off, mapped);
      } else {
        ok, dst := ReadBlocks(k, off, n, mapped);
      }
      r := if ok then |dst| else -1;
    }

    /** Nothing has changed, for a reader. */
    twostate predicate Same()
      reads this
    {
      && inodes == old(inodes) && tables == old(tables) && data == old(data) && bits == old(bits) &&
         bitmap == old(bitmap)
      && dinodes == old(dinodes) && owner == old(owner) && logged == old(logged) && calls == old(calls)
    }

    /** readi's loop, for bytes that the file has. */
    method ReadBlocks(k: nat, off: nat, len: nat, mapped: nat) returns (ok: bool, dst: seq<int>)
      requires Whole() && k < |inodes| && off + len <= inodes[k].size
      modifies this
      ensures Whole() && Same() && Content(k) == old(Content(k))
      ensures ok <==> len <= mapped
      ensures ok ==> dst == Content(k)[off..off + len]
    {
      hide Bitmap.Packed, Owned, At, Covered, BitsOk, DataOk, Rem, MaxBytes, ContentOf;
      hide Content;
      ok, dst := true, [];
      var off1 := off;
      ghost var s := Content(k);
      while |dst| < len
        invariant Whole() && Same() && Content(k) == s
        invariant |dst| <= len && |dst| <= mapped && off1 == off + |dst| && dst == s[off..off1]
        decreases len - |dst|
      {
        var m := if len - |dst| < c.bsize - Rem(c, off1) then len - |dst| else c.bsize - Rem(c, off1);
        var addr, bytes := ReadBlock(k, off1, m);
        if addr == 0 {
          break;
        }
        if |dst| + m > mapped {
          return false, dst;
        }
        SliceMore(s, off, off1, off1 + m);
        dst := dst + bytes;
        off1 := off1 + m;
      }
    }

    /** One turn of readi's loop. */
    method ReadBlock(k: nat, off: nat, m: nat) returns (addr: nat, bytes: seq<int>)
      requires Whole() && k < |inodes| && off + m <= inodes[k].size && m > 0 && Rem(c, off) + m <= c.bsize
      modifies this
      ensures Whole() && Same() && addr != 0 && Content(k) == old(Content(k))
      ensures bytes == Content(k)[off..off + m]
    {
      hide Bitmap.Packed, Owned, At, Mapped, Byte, Covered, BitsOk, DataOk, Blk, Rem, NewlyLogged, MaxBytes, SlotOf;
      hide ContentOf;
      OwnedShaped(c, inodes, tables, owner);
      CoveredAt(c, inodes, tables, owner, k, off);
      addr := Bmap(k, Blk(c, off));
      MappedAddr(c, old(inodes), old(tables), old(data), old(owner), inodes, tables, data, owner, k, Blk(c, off), addr);
      BlockIsContent(c, inodes, tables, data, owner, k, off, m);
      bytes := data[addr][Rem(c, off)..Rem(c, off) + m];
    }

    /** writei. The first r bytes of src overwrite or extend the file; r falls
        short only when the disk is full or src cannot be copied from beyond
        its first mapped bytes. A write of at most cb blocks' bytes shows the
        log at most 2 * cb + 3 blocks before the inode's, whatever the
        alignment. */
    method Writei(k: nat, src: seq<int>, off: nat, mapped: nat) returns (r: int, ghost before: set<int>)
      requires Whole() && k < |inodes| && off < U32 && |src| < U32
      modifies this
      ensures Whole() && |inodes| == old(|inodes|)
      ensures r == -1 <==>
              || off > old(inodes)[k].size || off + |src| >= U32
              || off + |src| > (c.ndirect + c.nindirect) * c.bsize
      ensures r == -1 ==>
                inodes == old(inodes) && tables == old(tables) && data == old(data) && bits == old(bits) &&
                  bitmap == old(bitmap) &&
                          dinodes == old(dinodes) && owner == old(owner) && logged == old(logged) && calls == old(calls)
      ensures r != -1 ==> 0 <= r <= |src| && Content(k) == Overwrite(old(Content(k)), off, src[..r])
      ensures r <= mapped && (0 <= r < |src| ==> mapped < |src| || forall b :: 0 <= b < c.size ==> bits[b])
      ensures forall m :: 0 <= m < |inodes| && m != k ==> Content(m) == old(Content(m)) && inodes[m] == old(inodes)[m]
      ensures r != -1 ==> Saved(c, old(dinodes), dinodes, |inodes|, k, inodes[k]) && logged == before + {IBlock(c, k)}
      ensures r == -1 ==> before == old(logged)
      ensures r != -1 ==> EndsWith(calls, IBlock(c, k)) && Called(old(calls), Front(calls), old(logged), before)
      ensures Journaled(c, old(Now()), Now(), old(logged), logged)
      ensures forall cb: nat :: r != -1 && |src| <= BytesIn(c, cb) ==> |before| <= old(|logged|) + 2 * cb + 3
    {
      hide Bitmap.Packed, Journaled, IBlock, Owned, At, Mapped, Byte, Covered, BitsOk, DataOk, Blk, Rem, NewlyLogged;
      hide Patched, LogBound, Count, Reached, FirstHeld, Overwrite, BytesIn, MaxBytes, SlotOf, ContentOf;
      OwnedShaped(c, inodes, tables, owner);
      JournaledNone(c, Now(), logged);
      MaxFile(c);
      before := logged;
      if off > inodes[k].size || (off + |src|) % U32 < off {
        return -1, before;
      }
      if off + |src| > MaxBytes(c) {
        return -1, before;
      }
      var tot := WriteBlocks(k, src, off, mapped);
      before := logged;
      WriteEnds(c, old(inodes), old(tables), old(data), inodes, tables, data, owner, k, off, src[..tot]);
      if off + tot > inodes[k].size {
        inodes := inodes[k := inodes[k].(size := off + tot)];
      }
      ghost var x1, l1 := Now(), logged;
      JournaledCalls(c, old(Now()), Now(), old(logged), before);
      Iupdate(k);
      assert Front(calls) == x1.calls;
      JournaledOn(c, old(Now()), x1, Now(), old(logged), l1, logged);
      r := tot;
    }

    /** writei's loop. The size is still the old one. */
    method WriteBlocks(k: nat, src: seq<int>, off: nat, mapped: nat) returns (tot: nat)
      requires Whole() && k < |inodes| && off <= inodes[k].size && off + |src| <= MaxBytes(c)
      modifies this
      ensures Whole() && dinodes == old(dinodes) && |inodes| == old(|inodes|) && tot <= |src|
      ensures forall m :: 0 <= m < |inodes| ==>
                inodes[m].size == old(inodes)[m].size && (m != k ==> inodes[m] == old(inodes)[m])
      ensures Patched(c, old(inodes), old(tables), old(data), inodes, tables, data, k, off, src[..tot])
      ensures Covered(c, inodes, tables, k, off + tot)
      ensures tot <= mapped && (tot < |src| ==> mapped < |src| || forall b :: 0 <= b < c.size ==> bits[b])
      ensures forall cb: nat :: |src| <= BytesIn(c, cb) ==> |logged| <= old(|logged|) + 2 * cb + 3
      ensures Journaled(c, old(Now()), Now(), old(logged), logged)
    {
      hide Bitmap.Packed, Journaled, Owned, At, Byte, Covered, BitsOk, DataOk, Blk, Rem, Patched, LogBound, LogStep;
      hide Count, Reached, FirstHeld, BytesIn, MaxBytes, ContentOf;
      var off1 := off;
      tot := 0;
      ghost var iter: nat, held := 0, |src| > 0 && FirstHeld(c, inodes, tables, k, off);
      WriteStarts(c, inodes, tables, data, k, off, |src|, logged, held);
      JournaledNone(c, Now(), logged);
      while tot < |src|
        invariant Whole() && dinodes == old(dinodes) && |inodes| == old(|inodes|) && Shaped(c, inodes)
        invariant forall m :: 0 <= m < |inodes| ==>
                    inodes[m].size == old(inodes)[m].size && (m != k ==> inodes[m] == old(inodes)[m])
        invariant 0 <= tot <= |src| && tot <= mapped && off1 == off + tot
        invariant Patched(c, old(inodes), old(tables), old(data), inodes, tables, data, k, off, src[..tot])
        invariant Journaled(c, old(Now()), Now(), old(logged), logged)
        invariant Covered(c, inodes, tables, k, off1)
        invariant Progress(c, off, tot, |src|, iter) && (iter > 0 ==> |src| > 0)
        invariant iter == 0 ==> inodes == old(inodes) && tables == old(tables)
        invariant LogBound(c, old(logged), logged, inodes[k].addrs[c.ndirect], Count(iter, held))
      {
        ghost var i0, t0, d0, l0, x0 := inodes, tables, data, logged, Now();
        BlockInRange(c, off1);
        var m := if |src| - tot < c.bsize - Rem(c, off1) then |src| - tot else c.bsize - Rem(c, off1);
        var addr, stored := WriteBlock(k, off1, src[tot..tot + m], tot + m <= mapped);
        JournaledOn(c, old(Now()), x0, Now(), old(logged), l0, logged);
        iter := iter + 1;
        PatchedMore(c, old(inodes), old(tables), old(data), i0, t0, d0, inodes, tables, data, k, off, src[..tot],
                    if stored then src[tot..tot + m] else []);
        LogBlock(c, old(logged), l0, logged, i0, inodes, k, Blk(c, off1), addr, iter, held,
            FirstHeld(c, i0, t0, k, off1));
        Advance(c, off, tot, |src|, iter - 1, m);
        assert src[..tot] + [] == src[..tot] && src[..tot] + src[tot..tot + m] == src[..tot + m];
        if !stored {
          break;
        }
        tot, off1 := tot + m, off1 + m;
      }
      forall cb: nat | |src| <= BytesIn(c, cb) ensures |logged| <= old(|logged|) + 2 * cb + 3 {
        LogTotal(c, old(logged), logged, inodes[k].addrs[c.ndirect], off, |src|, iter, held, cb);
      }
    }

    /** One turn of writei's loop: w goes into the block at off, unless there is
        no block to be had or the copy fails. */
    method WriteBlock(k: nat, off: nat, w: seq<int>, copies: bool) returns (addr: nat, stored: bool)
      requires Whole() && k < |inodes| && Blk(c, off) < c.ndirect + c.nindirect && Rem(c, off) + |w| <= c.bsize
      requires Covered(c, inodes, tables, k, off)
      modifies this
      ensures Whole() && dinodes == old(dinodes) && |inodes| == old(|inodes|)
      ensures forall m :: 0 <= m < |inodes| ==>
                inodes[m].size == old(inodes)[m].size && (m != k ==> inodes[m] == old(inodes)[m])
      ensures Patched(c, old(inodes), old(tables), old(data), inodes, tables, data, k, off, if stored then w else [])
      ensures Covered(c, inodes, tables, k, if stored then off + |w| else off) && stored == (addr != 0 && copies)
      ensures addr == 0 ==> forall b :: 0 <= b < c.size ==> bits[b]
      ensures LogStep(c, old(logged), logged, old(inodes), inodes, k, Blk(c, off), addr,
                old(FirstHeld(c, inodes, tables, k, off)))
      ensures Journaled(c, old(Now()), Now(), old(logged), logged)
    {
      hide Bitmap.Packed, Journaled, Owned, At, Mapped, Byte, Covered, BitsOk, Blk, Rem, NewlyLogged, Patched;
      hide Overwrite, MaxBytes, SlotOf, ContentOf, Zeros;
      ghost var l0 := logged;
      addr := Bmap(k, Blk(c, off));
      AfterBmap(c, old(inodes), old(tables), old(data), old(owner), inodes, tables, data, owner, k, off, addr);
      stored := addr != 0 && copies;
      if stored {
        AfterStore(c, inodes, tables, data, owner, k, off, w);
        ghost var d1, x1, l1 := data, Now(), logged;
        data := data[addr := Overwrite(data[addr], Rem(c, off), w)];
        logged, calls := logged + {addr}, calls + [addr];
        JournaledData(c, x1, addr, data[addr], l1);
        JournaledOn(c, old(Now()), x1, Now(), old(logged), l1, logged);
        PatchedMore(c, old(inodes), old(tables), old(data), inodes, tables, d1, inodes, tables, data, k, off, [], w);
        assert [] + w == w;
      }
    }

    /** Reading back right after a write, through the code of both. */
    method WriteThenRead(k: nat, src: seq<int>, off: nat) returns (r: int, dst: seq<int>)
      requires Whole() && k < |inodes| && off < U32 && |src| < U32 && inodes[k].size < U32
      modifies this
      ensures Whole() && |inodes| == old(|inodes|) && r <= |src|
      ensures r == -1 <==>
              || off > old(inodes)[k].size || off + |src| >= U32
              || off + |src| > (c.ndirect + c.nindirect) * c.bsize
      ensures r >= 0 ==> dst == src[..r] && Content(k) == Overwrite(old(Content(k)), off, src[..r])
      ensures forall m :: 0 <= m < |inodes| && m != k ==> Content(m) == old(Content(m))
    {
      hide Bitmap.Packed, Owned, BitsOk, DataOk, Covered, ContentOf, Overwrite, MaxBytes, BytesIn, At, Byte;
      hide Journaled;
      ghost var before;
      r, before := Writei(k, src, off, |src|);
      dst := [];
      if r >= 0 {
        var got;
        got, dst := Readi(k, off, r, r);
      }
    }

    /** filewrite on a file: chunks small enough for one log transaction each.
        marks has the blocks before the first transaction and after each. */
    method Filewrite(f: File, src: seq<int>, n: int, mapped: nat)
      returns (ret: int, ghost done: nat, ghost marks: seq<Store>)
      requires Whole() && f.ip < |inodes| && f.off < U32 && n <= |src| && n < U32 / 2
      modifies this, f`off
      ensures Whole() && f.off == old(f.off) + done && f.off < U32
      ensures done <= |src| && (done > 0 ==> old(f.off) <= |old(Contents())[f.ip]| && done <= n)
      ensures Contents() == old(Contents())[f.ip := Overwrite(old(Contents())[f.ip], old(f.off), src[..done])]
      ensures ret == if done == n then n else -1
      ensures done < n ==>
                old(f.off) > |old(Contents())[f.ip]| || old(f.off) + n >= U32 ||
                old(f.off) + n > (c.ndirect + c.nindirect) * c.bsize ||
                           mapped < n || Full(bits)
      ensures Transactions(c, f.ip, marks, old(Now()), Now())
      ensures ret == n ==> AsFew(n, ((c.maxop - 1 - 1 - 2) / 2) * c.bsize, |marks| - 1)
    {
      hide AsFew, Whole, Valid, Overwrite, MaxBytes, ChunkMax, Full, Transactions, Transaction, Contents, Now, Upto;
      HasConfig();
      var max := ChunkMax(c);
      ChunkFits(c);
      var i := 0;
      ghost var s, off := Contents(), f.off;
      UptoNone(s, f.ip, off, src);
      done, marks := 0, [Now()];
      ghost var start := Now();
      NoTransaction(c, f.ip, start);
      NoChunk(n, max);
      while i < n
        invariant Whole() && 0 <= i == done <= |src| && (i == 0 || i <= n) && f.ip < |inodes|
        invariant f.off == off + done < U32 && Upto(s, Contents(), f.ip, off, src, done)
        invariant Transactions(c, f.ip, marks, start, Now())
        invariant if i < n then i == (|marks| - 1) * max else AsFew(n, max, |marks| - 1)
      {
        var n1 := n - i;
        if n1 > max {
          n1 := max;
        }
        ghost var x, s1 := Now(), Contents();
        var r, w := WriteChunk(f, src[i..i + n1], if i <= mapped then mapped - i else 0);
        OneMoreTransaction(c, f.ip, marks, start, x, Now());
        marks := marks + [Now()];
        UptoMore(s, s1, Contents(), f.ip, off, src, i, n1, w);
        done := done + |w|;
        if r != n1 {
          break;
        }
        OneChunkMore(n, max, |marks| - 2, i);
        i := i + r;
      }
      UptoDone(s, Contents(), f.ip, off, src, done);
      ret := if i == n then n else -1;
    }

    /** One transaction of filewrite. w is what was written of the chunk. */
    method WriteChunk(f: File, src: seq<int>, mapped: nat)
      returns (r: int, ghost w: seq<int>)
      requires Whole() && f.ip < |inodes| && f.off < U32 && 0 < |src| <= ChunkMax(c) && |src| < U32 / 2
      modifies this, f`off
      ensures Whole() && f.off == old(f.off) + |w| < U32
      ensures -1 <= r <= |src| && w == (if r <= 0 then [] else src[..r]) &&
              (w != [] ==> old(f.off) <= |old(Contents())[f.ip]|)
      ensures Contents() == old(Contents())[f.ip := Overwrite(old(Contents())[f.ip], old(f.off), w)]
      ensures r == |src| || old(f.off) > |old(Contents())[f.ip]| || old(f.off) + |src| >= U32 ||
              old(f.off) + |src| > (c.ndirect + c.nindirect) * c.bsize ||
              mapped < |src| || Full(bits)
      ensures Transaction(c, f.ip, old(Now()), Now()) && (r == -1 ==> Now() == old(Now()))
    {
      hide Bitmap.Packed, Journaled, Owned, DataOk, Covered, ContentOf, Overwrite, MaxBytes, ChunkMax, BytesIn, At;
      hide Byte, Transaction, Called, IBlock, InodeRoom;
      ChunkFits(c);
      ghost var cb := (c.maxop - 4) / 2;
      logged := {};
      ghost var before;
      r, before := Writei(f.ip, src, f.off, mapped);
      assert r != -1 ==> |before| <= 2 * cb + 3;
      ChunkIsTransaction(c, f.ip, old(Now()), Now(), before, logged, r == -1);
      w := if r <= 0 then [] else src[..r];
      if r > 0 {
        f.off := f.off + r;
      }
      assert Contents()[f.ip] == Content(f.ip) == Overwrite(old(Contents())[f.ip], old(f.off), w);
      assert forall m :: 0 <= m < |inodes| && m != f.ip ==>
          Contents()[m] == Content(m) == old(Content(m)) == old(Contents())[m];
    }

    /** itrunc's first loop. */
    method FreeDirect(k: nat)
      requires Valid() && k < |inodes| && Shaped(c, inodes) && BitsLeft(c, bits, owner, k, 0, 0, false)
      modifies this`inodes, this`bits, this`bitmap, this`logged, this`calls
      ensures Bitmap.Packed(bitmap, c.bsize, bits)
      ensures BitsLeft(c, bits, owner, k, c.ndirect, 0, false)
      ensures Journaled(c, old(Now()), Now(), old(logged), logged)
      ensures |inodes| == |old(inodes)| && (forall m :: 0 <= m < |inodes| && m != k ==> inodes[m] == old(inodes)[m])
      ensures |inodes[k].addrs| == c.ndirect + 1 && inodes[k].size == old(inodes)[k].size
      ensures (forall i :: 0 <= i < c.ndirect ==> inodes[k].addrs[i] == 0) &&
              inodes[k].addrs[c.ndirect] == old(inodes)[k].addrs[c.ndirect]
    {
      hide Bitmap.Packed, Owned, BitsLeft, Journaled;
      var i := 0;
      JournaledNone(c, Now(), logged);
      while i < c.ndirect
        invariant Journaled(c, old(Now()), Now(), old(logged), logged)
        invariant 0 <= i <= c.ndirect && BitsLeft(c, bits, owner, k, i, 0, false) &&
                  Bitmap.Packed(bitmap, c.bsize, bits)
        invariant |inodes| == |old(inodes)| && (forall m :: 0 <= m < |inodes| && m != k ==> inodes[m] == old(inodes)[m])
        invariant |inodes[k].addrs| == c.ndirect + 1 && inodes[k].size == old(inodes)[k].size
        invariant forall x :: 0 <= x <= c.ndirect ==> inodes[k].addrs[x] == if x < i then 0 else old(inodes)[k].addrs[x]
      {
        var b := inodes[k].addrs[i];
        DirectBit(c, bits, old(inodes), tables, owner, k, i);
        if b != 0 {
          ghost var x, l := Now(), logged;
          Bfree(b);
          JournaledBit(c, x, b, bitmap, l);
          JournaledOn(c, old(Now()), x, Now(), old(logged), l, logged);
          inodes := PutAddr(inodes, k, i, 0);
        }
        i := i + 1;
      }
    }

    /** itrunc's second loop, over the indirect table. */
    method FreeIndirect(k: nat, ind: nat, ghost i0: seq<Inode>)
      requires ValidConfig(c) && Owned(c, i0, tables, owner) && k < |i0| && Shaped(c, i0) &&
               ind == i0[k].addrs[c.ndirect] != 0
      requires BitsLeft(c, bits, owner, k, c.ndirect, 0, false) && Bitmap.Packed(bitmap, c.bsize, bits)
      modifies this`bits, this`bitmap, this`logged, this`calls
      ensures Bitmap.Packed(bitmap, c.bsize, bits)
      ensures BitsLeft(c, bits, owner, k, c.ndirect, c.nindirect, false)
      ensures Journaled(c, old(Now()), Now(), old(logged), logged)
    {
      hide Bitmap.Packed, Owned, BitsLeft, Journaled;
      FilledIsOwned(c, i0, tables, owner, Ind(k));
      JournaledNone(c, Now(), logged);
      var j := 0;
      while j < c.nindirect
        invariant Journaled(c, old(Now()), Now(), old(logged), logged)
        invariant 0 <= j <= c.nindirect && BitsLeft(c, bits, owner, k, c.ndirect, j, false) &&
                  Bitmap.Packed(bitmap, c.bsize, bits)
      {
        var b := tables[ind][j];
        EntryBit(c, bits, i0, tables, owner, k, j);
        if b != 0 {
          ghost var x, l := Now(), logged;
          Bfree(b);
          JournaledBit(c, x, b, bitmap, l);
          JournaledOn(c, old(Now()), x, Now(), old(logged), l, logged);
        }
        j := j + 1;
      }
    }
  }

  // ----- files as byte sequences

  const U32 := 0x1_0000_0000

  /** MAXFILE*BSIZE */
  function MaxBytes(c: Config): nat {
    (c.ndirect + c.nindirect) * c.bsize
  }

  lemma MaxFile(c: Config)
    ensures MaxBytes(c) == (c.ndirect + c.nindirect) * c.bsize
  {
  }

  /** The block of a file that byte p is in, and its place there. */
  function Blk(c: Config, p: nat): nat
    requires c.bsize > 0
  {
    p / c.bsize
  }

  function Rem(c: Config, p: nat): (r: nat)
    requires c.bsize > 0
    ensures r < c.bsize
  {
    p % c.bsize
  }

  lemma BlockInRange(c: Config, p: nat)
    requires ValidConfig(c) && p < MaxBytes(c)
    ensures Blk(c, p) < c.ndirect + c.nindirect
    ensures p == Blk(c, p) * c.bsize + Rem(c, p)
  {
    var q := Blk(c, p);
    assert p == q * c.bsize + Rem(c, p);
    if q >= c.ndirect + c.nindirect {
      MulMono(c.ndirect + c.nindirect, q, c.bsize);
    }
  }

  lemma BlkRem(c: Config, p: nat)
    requires c.bsize > 0
    ensures p == Blk(c, p) * c.bsize + Rem(c, p)
  {
  }

  lemma NextMultiple(a: nat, b: nat, m: nat)
    requires a < b
    ensures a * m + m <= b * m
  {
    MulMono(a + 1, b, m);
  }

  lemma MulMono(a: nat, b: nat, m: nat)
    requires a <= b
    ensures a * m <= b * m
  {
  }

  /** Byte p of file m; a missing block reads as zeros. */
  ghost function Byte(c: Config, inodes: seq<Inode>, tables: Tables, data: Bytes, m: nat, p: nat): int
    requires ValidConfig(c) && Shaped(c, inodes) && m < |inodes| && p < MaxBytes(c)
  {
    BlockInRange(c, p);
    var b := At(c, inodes, tables, SlotOf(c, m, Blk(c, p)));
    if b != 0 && b in data && |data[b]| == c.bsize then data[b][Rem(c, p)] else 0
  }

  ghost function ContentOf(c: Config, inodes: seq<Inode>, tables: Tables, data: Bytes, m: nat): (s: seq<int>)
    requires ValidConfig(c) && Shaped(c, inodes) && m < |inodes| && inodes[m].size <= MaxBytes(c)
    ensures |s| == inodes[m].size
    ensures forall p :: 0 <= p < |s| ==> s[p] == Byte(c, inodes, tables, data, m, p)
  {
    seq(inodes[m].size, p requires 0 <= p < inodes[m].size => Byte(c, inodes, tables, data, m, p))
  }

  /** The blocks of file m up to byte z are there. */
  ghost predicate Covered(c: Config, inodes: seq<Inode>, tables: Tables, m: nat, z: nat)
    requires Shaped(c, inodes) && m < |inodes|
  {
    forall bn :: 0 <= bn < c.ndirect + c.nindirect && bn * c.bsize < z ==> At(c, inodes, tables, SlotOf(c, m, bn)) != 0
  }

  ghost predicate AllCovered(c: Config, inodes: seq<Inode>, tables: Tables) {
    && Shaped(c, inodes)
    && (forall m :: 0 <= m < |inodes| ==> inodes[m].size <= MaxBytes(c))
    && (forall m :: 0 <= m < |inodes| ==> Covered(c, inodes, tables, m, inodes[m].size))
  }

  lemma MappedAddr(c: Config, i0: seq<Inode>, t0: Tables, d0: Bytes, o0: map<nat, Slot>,
                   i1: seq<Inode>, t1: Tables, d1: Bytes, o1: map<nat, Slot>, k: nat, bn: nat, addr: nat)
    requires Mapped(c, i0, t0, d0, o0, i1, t1, d1, o1, k, bn, addr)
    ensures Shaped(c, i0) && Shaped(c, i1) && k < |i0| == |i1| && At(c, i1, t1, SlotOf(c, k, bn)) == addr
    ensures forall m :: 0 <= m < |i0| ==> i1[m].size == i0[m].size && (m != k ==> i1[m] == i0[m])
    ensures i0[k].addrs[c.ndirect] != 0 ==> i1[k].addrs[c.ndirect] == i0[k].addrs[c.ndirect]
    ensures bn >= c.ndirect && i1[k].addrs[c.ndirect] == 0 ==> addr == 0
  {
    assert At(c, i0, t0, Ind(k)) == i0[k].addrs[c.ndirect];
  }

  /** w put into s at off, extending s if it reaches beyond the end. */
  function Overwrite(s: seq<int>, off: nat, w: seq<int>): (r: seq<int>)
    requires off <= |s| || w == []
    ensures w == [] ==> r == s
    ensures |r| == if |w| > 0 && off + |w| > |s| then off + |w| else |s|
    ensures forall p :: 0 <= p < |r| ==> r[p] == if off <= p < off + |w| then w[p - off] else s[p]
  {
    if w == [] then s else s[..off] + w + (if off + |w| < |s| then s[off + |w|..] else [])
  }

  lemma OverwriteTwice(s: seq<int>, off: nat, v: seq<int>, w: seq<int>)
    requires off <= |s|
    ensures Overwrite(Overwrite(s, off, v), off + |v|, w) == Overwrite(s, off, v + w)
  {
  }

  /** The files s1 are the files s0 with the first n bytes of src in file k. */
  ghost predicate Upto(s0: seq<seq<int>>, s1: seq<seq<int>>, k: nat, off: nat, src: seq<int>, n: nat) {
    && k < |s0| && n <= |src| && (n > 0 ==> off <= |s0[k]|)
    && s1 == s0[k := Overwrite(s0[k], off, src[..n])]
  }

  lemma UptoNone(s: seq<seq<int>>, k: nat, off: nat, src: seq<int>)
    requires k < |s|
    ensures Upto(s, s, k, off, src, 0)
  {
  }

  lemma UptoDone(s0: seq<seq<int>>, s1: seq<seq<int>>, k: nat, off: nat, src: seq<int>, n: nat)
    requires Upto(s0, s1, k, off, src, n)
    ensures k < |s0| && n <= |src| && (n > 0 ==> off <= |s0[k]|)
    ensures s1 == s0[k := Overwrite(s0[k], off, src[..n])]
  {
  }

  lemma UptoMore(s0: seq<seq<int>>, s1: seq<seq<int>>, s2: seq<seq<int>>, k: nat, off: nat, src: seq<int>,
                 i: nat, n: nat, w: seq<int>)
    requires Upto(s0, s1, k, off, src, i) && i + n <= |src| && |w| <= n && w == src[i..i + n][..|w|]
    requires k < |s1| && (w != [] ==> off + i <= |s1[k]|) && s2 == s1[k := Overwrite(s1[k], off + i, w)]
    ensures Upto(s0, s2, k, off, src, i + |w|)
    ensures off > |s1[k]| - i ==> off > |s0[k]|
  {
    hide Overwrite;
    assert src[..i] + w == src[..i + |w|];
    if i + |w| > 0 {
      OverwriteTwice(s0[k], off, src[..i], w);
    }
  }

  /** cb blocks, in bytes */
  function BytesIn(c: Config, cb: nat): nat {
    cb * c.bsize
  }

  /** All files read as before, except that w stands in file k at off. */
  ghost predicate Patched(c: Config, i0: seq<Inode>, t0: Tables, d0: Bytes, i1: seq<Inode>, t1: Tables, d1: Bytes,
                          k: nat, off: nat, w: seq<int>) {
    && ValidConfig(c) && Shaped(c, i0) && Shaped(c, i1) && |i0| == |i1|
    && forall m, p :: 0 <= m < |i0| && 0 <= p < MaxBytes(c) ==>
         Byte(c, i1, t1, d1, m, p) == if m == k && off <= p < off + |w| then w[p - off] else Byte(c, i0, t0, d0, m, p)
  }

  lemma PatchedMore(c: Config, i0: seq<Inode>, t0: Tables, d0: Bytes, i1: seq<Inode>, t1: Tables, d1: Bytes,
                    i2: seq<Inode>, t2: Tables, d2: Bytes, k: nat, off: nat, v: seq<int>, w: seq<int>)
    requires Patched(c, i0, t0, d0, i1, t1, d1, k, off, v) && Patched(c, i1, t1, d1, i2, t2, d2, k, off + |v|, w)
    ensures Patched(c, i0, t0, d0, i2, t2, d2, k, off, v + w)
  {
    hide Byte, MaxBytes;
  }

  /** bmap changes no byte of any file: a new block reads as zeros, as its absence did. */
  lemma MappedBytes(c: Config, i0: seq<Inode>, t0: Tables, d0: Bytes, o0: map<nat, Slot>,
                    i1: seq<Inode>, t1: Tables, d1: Bytes, o1: map<nat, Slot>, k: nat, bn: nat, addr: nat)
    requires ValidConfig(c) && Mapped(c, i0, t0, d0, o0, i1, t1, d1, o1, k, bn, addr)
    requires Owned(c, i0, t0, o0) && DataOk(c, d0, o0.Keys)
    ensures forall off: nat :: Patched(c, i0, t0, d0, i1, t1, d1, k, off, [])
  {
    hide At, Blk, Rem, MaxBytes;
    forall m, p | 0 <= m < |i0| && 0 <= p < MaxBytes(c)
      ensures Byte(c, i1, t1, d1, m, p) == Byte(c, i0, t0, d0, m, p)
    {
      BlockInRange(c, p);
      var q := SlotOf(c, m, Blk(c, p));
      assert Legal(c, |i0|, q);
    }
  }

  /** Bytes stored into the block of a slot appear in that file, there. */
  lemma StoredBytes(c: Config, inodes: seq<Inode>, tables: Tables, data: Bytes, owner: map<nat, Slot>, k: nat,
                    off: nat, w: seq<int>)
    requires ValidConfig(c) && Owned(c, inodes, tables, owner) && DataOk(c, data, owner.Keys) && Shaped(c, inodes)
    requires k < |inodes| && Blk(c, off) < c.ndirect + c.nindirect && Rem(c, off) + |w| <= c.bsize
    requires At(c, inodes, tables, SlotOf(c, k, Blk(c, off))) != 0
    ensures var addr := At(c, inodes, tables, SlotOf(c, k, Blk(c, off)));
            addr in data && addr in owner && |data[addr]| == c.bsize &&
            var d1 := data[addr := Overwrite(data[addr], Rem(c, off), w)];
            DataOk(c, d1, owner.Keys) && Patched(c, inodes, tables, data, inodes, tables, d1, k, off, w)
  {
    hide At, Blk, Rem, MaxBytes;
    var addr := At(c, inodes, tables, SlotOf(c, k, Blk(c, off)));
    var d1 := data[addr := Overwrite(data[addr], Rem(c, off), w)];
    forall m, p | 0 <= m < |inodes| && 0 <= p < MaxBytes(c)
      ensures Byte(c, inodes, tables, d1, m, p) ==
              if m == k && off <= p < off + |w| then w[p - off] else Byte(c, inodes, tables, data, m, p)
    {
      BlockInRange(c, p);
      var q := SlotOf(c, m, Blk(c, p));
      if m == k && off <= p < off + |w| {
        SameBlock(c, off, p - off);
      } else if m == k && Blk(c, p) == Blk(c, off) {
        SamePlace(c, off, p, |w|);
      } else {
        assert q != SlotOf(c, k, Blk(c, off));
      }
    }
  }

  /** Bytes of one block that are outside a range of that block. */
  lemma SamePlace(c: Config, off: nat, p: nat, n: nat)
    requires c.bsize > 0 && Blk(c, p) == Blk(c, off) && Rem(c, off) + n <= c.bsize && !(off <= p < off + n)
    ensures !(Rem(c, off) <= Rem(c, p) < Rem(c, off) + n)
  {
    assert p == Blk(c, p) * c.bsize + Rem(c, p);
    assert off == Blk(c, off) * c.bsize + Rem(c, off);
  }

  lemma MappedCovered(c: Config, i0: seq<Inode>, t0: Tables, d0: Bytes, o0: map<nat, Slot>,
                      i1: seq<Inode>, t1: Tables, d1: Bytes, o1: map<nat, Slot>, k: nat, bn: nat, addr: nat)
    requires Mapped(c, i0, t0, d0, o0, i1, t1, d1, o1, k, bn, addr)
    ensures forall m, z: nat :: 0 <= m < |i0| && Covered(c, i0, t0, m, z) ==> Covered(c, i1, t1, m, z)
    ensures AllCovered(c, i0, t0) ==> AllCovered(c, i1, t1)
  {
    hide At;
  }

  lemma CoveredOn(c: Config, inodes: seq<Inode>, tables: Tables, k: nat, z: nat, z': nat)
    requires ValidConfig(c) && Shaped(c, inodes) && k < |inodes| && Covered(c, inodes, tables, k, z) && z <= z'
    requires Blk(c, z) < c.ndirect + c.nindirect && At(c, inodes, tables, SlotOf(c, k, Blk(c, z))) != 0
    requires z' <= z + (c.bsize - Rem(c, z))
    ensures Covered(c, inodes, tables, k, z')
  {
    hide At, Blk, Rem;
    BlkRem(c, z);
    forall bn | 0 <= bn < c.ndirect + c.nindirect && bn * c.bsize < z'
      ensures At(c, inodes, tables, SlotOf(c, k, bn)) != 0
    {
      if bn > Blk(c, z) {
        NextMultiple(Blk(c, z), bn, c.bsize);
        assert false;
      } else if bn < Blk(c, z) {
        NextMultiple(bn, Blk(c, z), c.bsize);
      }
    }
  }

  // ----- how many blocks a write logs

  /** After iter blocks of a write of n bytes at off, tot of them are in place. */
  predicate Progress(c: Config, off: nat, tot: nat, n: nat, iter: nat)
    requires c.bsize > 0
  {
    && Reached(c, off, n, iter) && tot <= n
    && (if iter == 0 then tot == 0 else tot == n || (Blk(c, off + tot) == Blk(c, off) + iter && Rem(c, off + tot) == 0))
  }

  predicate Reached(c: Config, off: nat, n: nat, iter: nat)
    requires c.bsize > 0
  {
    iter > 0 ==> (Blk(c, off) + iter - 1) * c.bsize < off + n
  }

  lemma Advance(c: Config, off: nat, tot: nat, n: nat, iter: nat, m: nat)
    requires c.bsize > 0 && Progress(c, off, tot, n, iter) && tot < n
    requires var room := c.bsize - Rem(c, off + tot); m == if n - tot < room then n - tot else room
    ensures Reached(c, off, n, iter + 1) && Progress(c, off, tot + m, n, iter + 1)
  {
    var p := off + tot;
    assert p == Blk(c, p) * c.bsize + Rem(c, p);
    assert Blk(c, p) == Blk(c, off) + iter;
    if tot + m < n {
      DivUnique(p + m, c.bsize, Blk(c, p) + 1, 0);
    }
  }

  /** Distinct blocks logged for iter blocks of a file and their bitmap blocks;
      a first block that was there needs no bitmap block. */
  function Count(iter: nat, held: bool): nat {
    if held && iter > 0 then 2 * iter - 1 else 2 * iter
  }

  /** l is l0, count blocks, and the indirect block with its bitmap block. */
  ghost predicate LogBound(c: Config, l0: set<int>, l: set<int>, ind: nat, count: nat)
    requires c.bsize > 0
  {
    exists w: set<int> :: |w| <= count && l <= l0 + w + (if ind == 0 then {} else {ind, BBlock(c, ind)})
  }

  /** What one block of a write adds to the log. */
  ghost predicate LogStep(c: Config, l0: set<int>, l1: set<int>, i0: seq<Inode>, i1: seq<Inode>, k: nat, bn: nat,
                          addr: nat, there: bool) {
    && ValidConfig(c) && Shaped(c, i0) && Shaped(c, i1) && k < |i0| == |i1|
    && (i0[k].addrs[c.ndirect] != 0 ==> i1[k].addrs[c.ndirect] == i0[k].addrs[c.ndirect])
    && (bn >= c.ndirect && i1[k].addrs[c.ndirect] == 0 ==> addr == 0)
    && l1 <= l0 + {addr} + (if there then {} else NewlyLogged(c, i0, i1, k, bn, addr))
  }

  lemma LogBlock(c: Config, lw: set<int>, l0: set<int>, l1: set<int>, i0: seq<Inode>, i1: seq<Inode>, k: nat,
                 bn: nat, addr: nat,
                 iter: nat, held: bool, there: bool)
    requires LogStep(c, l0, l1, i0, i1, k, bn, addr, there) && iter > 0 && (iter == 1 ==> held == there)
    requires LogBound(c, lw, l0, i0[k].addrs[c.ndirect], Count(iter - 1, held))
    ensures LogBound(c, lw, l1, i1[k].addrs[c.ndirect], Count(iter, held))
  {
    hide BBlock;
    var ind0, ind1 := i0[k].addrs[c.ndirect], i1[k].addrs[c.ndirect];
    var w: set<int> :| |w| <= Count(iter - 1, held) &&
      l0 <= lw + w + (if ind0 == 0 then {} else {ind0, BBlock(c, ind0)});
    var x: set<int> := if there then {addr} else {addr, BBlock(c, addr)};
    LogMore(c, lw, l1, ind1, w, x, Count(iter, held));
  }

  lemma LogMore(c: Config, lw: set<int>, l: set<int>, ind: nat, w: set<int>, x: set<int>, count: nat)
    requires c.bsize > 0 && |w| + |x| <= count && l <= lw + w + x + (if ind == 0 then {} else {ind, BBlock(c, ind)})
    ensures LogBound(c, lw, l, ind, count)
  {
    hide BBlock;
    assert |w + x| <= count;
    assert l <= lw + (w + x) + (if ind == 0 then {} else {ind, BBlock(c, ind)});
  }

  ghost predicate Full(bits: seq<bool>) {
    forall b :: 0 <= b < |bits| ==> bits[b]
  }

  /** The calls of log_write on the way from x to y. */
  function Calls(x: Store, y: Store): seq<int> {
    if |x.calls| <= |y.calls| then y.calls[|x.calls|..] else []
  }

  /** One transaction on file k: it changes only blocks that it logs, at most
      MAXOPBLOCKS of them, and the last is the inode's, before which it has
      logged at most MAXOPBLOCKS - 1. */
  ghost predicate Transaction(c: Config, k: nat, x: Store, y: Store)
    requires c.bsize > 0 && c.ipb > 0
  {
    var calls := Calls(x, y);
    && Journaled(c, x, y, {}, Set(calls)) && |Set(calls)| <= c.maxop && |Set(Front(calls))| <= c.maxop - 1
    && (if calls == [] then x == y else EndsWith(calls, IBlock(c, k)))
  }

  /** The way from x to y is a sequence of transactions. */
  ghost predicate Transactions(c: Config, k: nat, marks: seq<Store>, x: Store, y: Store)
    requires c.bsize > 0 && c.ipb > 0
  {
    && |marks| > 0 && marks[0] == x && marks[|marks| - 1] == y
    && forall i :: 0 < i < |marks| ==> Transaction(c, k, marks[i - 1], marks[i])
  }

  /** k transactions of at most max bytes each for n bytes, and not one too many. */
  ghost predicate AsFew(n: int, max: int, k: int) {
    if n <= 0 then k == 0 else k > 0 && (k - 1) * max < n <= k * max
  }

  lemma NoChunk(n: int, max: int)
    ensures n <= 0 ==> AsFew(n, max, 0)
    ensures 0 == 0 * max
  {
  }

  lemma OneChunkMore(n: int, max: int, k: nat, i: int)
    requires 0 <= i == k * max < n && max > 0
    ensures (k + 1) * max == i + max
    ensures n - i <= max ==> AsFew(n, max, k + 1)
  {
  }

  lemma NoTransaction(c: Config, k: nat, x: Store)
    requires c.bsize > 0 && c.ipb > 0
    ensures Transactions(c, k, [x], x, x)
  {
  }

  lemma OneMoreTransaction(c: Config, k: nat, marks: seq<Store>, x: Store, y: Store, z: Store)
    requires c.bsize > 0 && c.ipb > 0 && Transactions(c, k, marks, x, y) && Transaction(c, k, y, z)
    ensures Transactions(c, k, marks + [z], x, z)
  {
    hide Transaction;
    var ms := marks + [z];
    forall i | 0 < i < |ms| ensures Transaction(c, k, ms[i - 1], ms[i]) {
      assert i < |marks| ==> ms[i] == marks[i];
    }
  }

  /** The calls of a transaction, and those before its last. */
  lemma ChunkCalls(c0: seq<int>, c1: seq<int>, before: set<int>, b: int)
    requires EndsWith(c1, b) && Called(c0, Front(c1), {}, before)
    ensures c0 <= c1 && EndsWith(c1[|c0|..], b) && Set(Front(c1[|c0|..])) == before
  {
    assert Front(c1[|c0|..]) == Front(c1)[|c0|..];
  }

  lemma ChunkIsTransaction(c: Config, k: nat, x: Store, y: Store, before: set<int>, all: set<int>, failed: bool)
    requires ValidConfig(c) && Journaled(c, x, y, {}, all) && |before| <= c.maxop - 1
    requires if failed then x == y && before == {} else
               all == before + {IBlock(c, k)} && EndsWith(y.calls, IBlock(c, k)) &&
               Called(x.calls, Front(y.calls), {}, before)
    ensures Transaction(c, k, x, y)
  {
    hide BBlock, IBlock, Journaled, EndsWith, Set;
    JournaledCalls(c, x, y, {}, all);
    assert Set(Calls(x, y)) == all;
    if failed {
      assert Calls(x, y) == [] && Front([]) == [];
      NoCalls();
    } else {
      ChunkCalls(x.calls, y.calls, before, IBlock(c, k));
      NotEmpty(Calls(x, y), IBlock(c, k));
    }
  }

  lemma NoCalls()
    ensures Set([]) == {}
  {
  }

  lemma NotEmpty(s: seq<int>, b: int)
    requires EndsWith(s, b)
    ensures s != []
  {
  }

  /** The largest chunk of filewrite, in bytes. */
  function ChunkMax(c: Config): int {
    ((c.maxop - 1 - 1 - 2) / 2) * c.bsize
  }

  /** A chunk of filewrite has at least one block, and keeps within MAXOPBLOCKS. */
  lemma ChunkFits(c: Config)
    requires ValidConfig(c)
    ensures var cb: nat := (c.maxop - 4) / 2;
            BytesIn(c, cb) == ChunkMax(c) > 0 && 2 * cb + 3 <= c.maxop - 1
  {
    MulMono(1, (c.maxop - 4) / 2, c.bsize);
  }

  lemma LogTotal(c: Config, l0: set<int>, l: set<int>, ind: nat, off: nat, n: nat, iter: nat, held: bool, cb: nat)
    requires c.bsize > 0 && LogBound(c, l0, l, ind, Count(iter, held)) && Reached(c, off, n, iter) &&
             (Rem(c, off) > 0 && iter > 0 ==> held)
    requires n <= BytesIn(c, cb)
    ensures |l| <= |l0| + 2 * cb + 3
  {
    var w: set<int> :| |w| <= Count(iter, held) && l <= l0 + w + (if ind == 0 then {} else {ind, BBlock(c, ind)});
    var e: set<int> := if ind == 0 then {} else {ind, BBlock(c, ind)};
    Subsets(l, l0 + w + e);
    CountBound(c, off, n, iter, held, cb);
  }

  lemma Subsets(a: set<int>, b: set<int>)
    requires a <= b
    ensures |a| <= |b|
  {
    assert b == a + (b - a);
  }

  lemma CountBound(c: Config, off: nat, n: nat, iter: nat, held: bool, cb: nat)
    requires c.bsize > 0 && Reached(c, off, n, iter) && (Rem(c, off) > 0 && iter > 0 ==> held) && n <= BytesIn(c, cb)
    ensures Count(iter, held) <= 2 * cb + 1
  {
    if iter > 0 {
      assert off == Blk(c, off) * c.bsize + Rem(c, off);
      assert (Blk(c, off) + iter - 1) * c.bsize == Blk(c, off) * c.bsize + (iter - 1) * c.bsize;
      if iter - 1 > cb {
        MulMono(cb + 1, iter - 1, c.bsize);
      } else if iter - 1 == cb && Rem(c, off) == 0 {
        assert false;
      }
    }
  }

  /** The block at off is there already. */
  ghost predicate FirstHeld(c: Config, inodes: seq<Inode>, tables: Tables, k: nat, off: nat)
    requires ValidConfig(c) && Shaped(c, inodes) && k < |inodes|
  {
    Blk(c, off) < c.ndirect + c.nindirect && At(c, inodes, tables, SlotOf(c, k, Blk(c, off))) != 0
  }

  lemma UnalignedIsHeld(c: Config, inodes: seq<Inode>, tables: Tables, k: nat, off: nat)
    requires ValidConfig(c) && AllCovered(c, inodes, tables) && k < |inodes| && off <= inodes[k].size && Rem(c, off) > 0
    ensures FirstHeld(c, inodes, tables, k, off)
  {
    hide At;
    assert off == Blk(c, off) * c.bsize + Rem(c, off);
    if Blk(c, off) >= c.ndirect + c.nindirect {
      MulMono(c.ndirect + c.nindirect, Blk(c, off), c.bsize);
    }
  }

  /** bmap at byte off of file k, for the write loop. */
  lemma AfterBmap(c: Config, i0: seq<Inode>, t0: Tables, d0: Bytes, o0: map<nat, Slot>,
                  i1: seq<Inode>, t1: Tables, d1: Bytes, o1: map<nat, Slot>, k: nat, off: nat, addr: nat)
    requires ValidConfig(c) && Mapped(c, i0, t0, d0, o0, i1, t1, d1, o1, k, Blk(c, off), addr)
    requires Owned(c, i0, t0, o0) && DataOk(c, d0, o0.Keys) && AllCovered(c, i0, t0)
    requires Shaped(c, i0) && k < |i0| && Covered(c, i0, t0, k, off)
    ensures Shaped(c, i1) && |i0| == |i1| && Blk(c, off) < c.ndirect + c.nindirect &&
            At(c, i1, t1, SlotOf(c, k, Blk(c, off))) == addr
    ensures forall m :: 0 <= m < |i0| ==> i1[m].size == i0[m].size && (m != k ==> i1[m] == i0[m])
    ensures i0[k].addrs[c.ndirect] != 0 ==> i1[k].addrs[c.ndirect] == i0[k].addrs[c.ndirect]
    ensures Blk(c, off) >= c.ndirect && i1[k].addrs[c.ndirect] == 0 ==> addr == 0
    ensures forall z: nat :: Patched(c, i0, t0, d0, i1, t1, d1, k, z, [])
    ensures AllCovered(c, i1, t1) && Covered(c, i1, t1, k, off)
  {
    hide At, Covered, Patched, Blk, Owned, DataOk;
    MappedAddr(c, i0, t0, d0, o0, i1, t1, d1, o1, k, Blk(c, off), addr);
    MappedBytes(c, i0, t0, d0, o0, i1, t1, d1, o1, k, Blk(c, off), addr);
    MappedCovered(c, i0, t0, d0, o0, i1, t1, d1, o1, k, Blk(c, off), addr);
  }

  lemma AfterStore(c: Config, inodes: seq<Inode>, tables: Tables, data: Bytes, owner: map<nat, Slot>, k: nat,
                   off: nat, w: seq<int>)
    requires ValidConfig(c) && Owned(c, inodes, tables, owner) && DataOk(c, data, owner.Keys) && Shaped(c, inodes)
    requires k < |inodes| && Blk(c, off) < c.ndirect + c.nindirect && Rem(c, off) + |w| <= c.bsize
    requires At(c, inodes, tables, SlotOf(c, k, Blk(c, off))) != 0 && Covered(c, inodes, tables, k, off)
    ensures var addr := At(c, inodes, tables, SlotOf(c, k, Blk(c, off)));
            addr in data && addr in owner && |data[addr]| == c.bsize &&
            var d1 := data[addr := Overwrite(data[addr], Rem(c, off), w)];
            DataOk(c, d1, owner.Keys) && Patched(c, inodes, tables, data, inodes, tables, d1, k, off, w)
    ensures Covered(c, inodes, tables, k, off + |w|)
  {
    hide At, Covered, Patched, Blk, Rem, Owned, DataOk;
    StoredBytes(c, inodes, tables, data, owner, k, off, w);
    CoveredOn(c, inodes, tables, k, off, off + |w|);
  }

  /** The size is set, at the end of writei. */
  lemma WriteEnds(c: Config, i0: seq<Inode>, t0: Tables, d0: Bytes, i1: seq<Inode>, t1: Tables, d1: Bytes,
                  o1: map<nat, Slot>,
                  k: nat, off: nat, w: seq<int>)
    requires ValidConfig(c) && AllCovered(c, i0, t0) && AllCovered(c, i1, t1) && Owned(c, i1, t1, o1)
    requires k < |i0| == |i1| && off <= i0[k].size && off + |w| <= MaxBytes(c) && Covered(c, i1, t1, k, off + |w|)
    requires forall m :: 0 <= m < |i0| ==> i1[m].size == i0[m].size
    requires Patched(c, i0, t0, d0, i1, t1, d1, k, off, w)
    ensures var i2 := if off + |w| > i1[k].size then i1[k := i1[k].(size := off + |w|)] else i1;
            && Owned(c, i2, t1, o1) && AllCovered(c, i2, t1)
            && ContentOf(c, i2, t1, d1, k) == Overwrite(ContentOf(c, i0, t0, d0, k), off, w)
            && forall m :: 0 <= m < |i0| && m != k ==> ContentOf(c, i2, t1, d1, m) == ContentOf(c, i0, t0, d0, m)
  {
    hide At, Owned, Byte, Covered;
    var i2 := if off + |w| > i1[k].size then i1[k := i1[k].(size := off + |w|)] else i1;
    SizeIrrelevant(c, i1, i2, t1, d1, o1);
    forall m | 0 <= m < |i0| && m != k ensures ContentOf(c, i2, t1, d1, m) == ContentOf(c, i0, t0, d0, m) {
      assert i2[m] == i1[m];
    }
    assert AllCovered(c, i2, t1);
    assert |ContentOf(c, i2, t1, d1, k)| == |Overwrite(ContentOf(c, i0, t0, d0, k), off, w)|;
  }

  lemma SizeIrrelevant(c: Config, i1: seq<Inode>, i2: seq<Inode>, tables: Tables, data: Bytes, owner: map<nat, Slot>)
    requires ValidConfig(c) && Owned(c, i1, tables, owner) && |i1| == |i2|
    requires forall m :: 0 <= m < |i1| ==> i2[m].addrs == i1[m].addrs
    ensures Owned(c, i2, tables, owner) && Shaped(c, i1) && Shaped(c, i2)
    ensures forall m, p :: 0 <= m < |i1| && 0 <= p < MaxBytes(c) ==>
              Byte(c, i2, tables, data, m, p) == Byte(c, i1, tables, data, m, p)
    ensures forall m, z: nat :: 0 <= m < |i1| && Covered(c, i1, tables, m, z) ==> Covered(c, i2, tables, m, z)
  {
    assert forall s :: Legal(c, |i1|, s) ==> At(c, i2, tables, s) == At(c, i1, tables, s);
  }

  lemma WriteStarts(c: Config, inodes: seq<Inode>, tables: Tables, data: Bytes, k: nat, off: nat, n: nat,
                    l: set<int>, held: bool)
    requires ValidConfig(c) && AllCovered(c, inodes, tables) && k < |inodes| && off <= inodes[k].size
    ensures Patched(c, inodes, tables, data, inodes, tables, data, k, off, []) && Covered(c, inodes, tables, k, off)
    ensures Rem(c, off) > 0 ==> FirstHeld(c, inodes, tables, k, off)
    ensures Progress(c, off, 0, n, 0) && LogBound(c, l, l, inodes[k].addrs[c.ndirect], Count(0, held))
  {
    hide At, Byte;
    if Rem(c, off) > 0 {
      UnalignedIsHeld(c, inodes, tables, k, off);
    }
    var w: set<int> := {};
    assert |w| <= Count(0, held) && l <= l + w;
  }

  lemma TruncCovered(c: Config, inodes: seq<Inode>, tables: Tables, owner: map<nat, Slot>, k: nat)
    requires Owned(c, inodes, tables, owner) && k < |inodes|
    ensures AllCovered(c, inodes, tables) ==> AllCovered(c, inodes[k := Inode(NoAddrs(c), 0)], tables)
  {
    hide At, Owned;
    OwnNothing(c, inodes, tables, owner, k, 0);
  }

  lemma SliceMore(s: seq<int>, i: nat, j: nat, k: nat)
    requires i <= j <= k <= |s|
    ensures s[i..j] + s[j..k] == s[i..k]
  {
  }

  lemma CoveredAt(c: Config, inodes: seq<Inode>, tables: Tables, owner: map<nat, Slot>, k: nat, off: nat)
    requires ValidConfig(c) && Shaped(c, inodes) && AllCovered(c, inodes, tables) && k < |inodes| &&
             off < inodes[k].size
    ensures Blk(c, off) < c.ndirect + c.nindirect && At(c, inodes, tables, SlotOf(c, k, Blk(c, off))) != 0
  {
    hide At;
    BlockInRange(c, off);
  }

  /** Within a block, the bytes of the block are the bytes of the file. */
  lemma BlockIsContent(c: Config, inodes: seq<Inode>, tables: Tables, data: Bytes, owner: map<nat, Slot>, k: nat,
                       off: nat, m: nat)
    requires ValidConfig(c) && Owned(c, inodes, tables, owner) && DataOk(c, data, owner.Keys) && Shaped(c, inodes)
    requires k < |inodes| && off < inodes[k].size <= MaxBytes(c) && Blk(c, off) < c.ndirect + c.nindirect
    requires At(c, inodes, tables, SlotOf(c, k, Blk(c, off))) != 0 && Rem(c, off) + m <= c.bsize &&
             off + m <= inodes[k].size
    ensures var addr := At(c, inodes, tables, SlotOf(c, k, Blk(c, off)));
            addr in data && |data[addr]| == c.bsize &&
              data[addr][Rem(c, off)..Rem(c, off) + m] == ContentOf(c, inodes, tables, data, k)[off..off + m]
  {
    hide At, Blk, Rem;
    var addr := At(c, inodes, tables, SlotOf(c, k, Blk(c, off)));
    forall p | off <= p < off + m
      ensures Byte(c, inodes, tables, data, k, p) == data[addr][p - off + Rem(c, off)]
    {
      SameBlock(c, off, p - off);
    }
  }

  lemma SameBlock(c: Config, off: nat, d: nat)
    requires c.bsize > 0 && Rem(c, off) + d < c.bsize
    ensures Blk(c, off + d) == Blk(c, off) && Rem(c, off + d) == Rem(c, off) + d
  {
    var q := Blk(c, off);
    assert off == q * c.bsize + Rem(c, off);
    DivUnique(off + d, c.bsize, q, Rem(c, off) + d);
  }

  lemma DivUnique(x: nat, b: nat, q: nat, r: nat)
    requires b > 0 && x == q * b + r && r < b
    ensures x / b == q && x % b == r
  {
    var q', r' := x / b, x % b;
    assert x == q' * b + r';
    if q' > q {
      MulMono(q + 1, q', b);
    } else if q' < q {
      MulMono(q' + 1, q, b);
    }
  }

  /** Slot s of inode k has been given up: the first i direct slots, the first j
      entries, and the indirect block itself if e. */
  predicate Gone(s: Slot, k: nat, i: nat, j: nat, e: bool) {
    s.k == k && match s case Direct(_, x) => x < i case Entry(_, x) => x < j case Ind(_) => e
  }

  ghost predicate BitsLeft(c: Config, bits: seq<bool>, o: map<nat, Slot>, k: nat, i: nat, j: nat, e: bool) {
    && |bits| == c.size
    && forall b :: 0 <= b < c.size ==> (bits[b] <==> b < c.datastart || (b in o && !Gone(o[b], k, i, j, e)))
  }

  lemma BitsStart(c: Config, bits: seq<bool>, o: map<nat, Slot>, k: nat)
    requires BitsOk(c, bits, o.Keys)
    ensures BitsLeft(c, bits, o, k, 0, 0, false)
  {
  }

  lemma FilledIsOwned(c: Config, inodes: seq<Inode>, tables: Tables, o: map<nat, Slot>, s: Slot)
    requires Owned(c, inodes, tables, o) && Legal(c, |inodes|, s) && Shaped(c, inodes) && At(c, inodes, tables, s) != 0
    ensures var b := At(c, inodes, tables, s);
            b in o && o[b] == s && c.datastart <= b < c.size && b in tables && |tables[b]| == c.nindirect
    ensures forall x :: x in o && o[x] == s ==> x == At(c, inodes, tables, s)
  {
  }

  lemma EmptyIsUnowned(c: Config, inodes: seq<Inode>, tables: Tables, o: map<nat, Slot>, s: Slot)
    requires Owned(c, inodes, tables, o) && Legal(c, |inodes|, s) && Shaped(c, inodes) && At(c, inodes, tables, s) == 0
    ensures forall x :: x in o ==> o[x] != s
  {
  }

  /** The block at a direct slot is still marked; clearing its bit gives the slot up. */
  lemma DirectBit(c: Config, bits: seq<bool>, inodes: seq<Inode>, tables: Tables, o: map<nat, Slot>, k: nat, i: nat)
    requires Owned(c, inodes, tables, o) && Shaped(c, inodes) && k < |inodes| && i < c.ndirect &&
             BitsLeft(c, bits, o, k, i, 0, false)
    ensures var b := inodes[k].addrs[i];
            if b != 0 then b < |bits| && bits[b] && BitsLeft(c, bits[b := false], o, k, i + 1, 0, false)
            else BitsLeft(c, bits, o, k, i + 1, 0, false)
  {
    hide Owned;
    if inodes[k].addrs[i] != 0 {
      FilledIsOwned(c, inodes, tables, o, Direct(k, i));
    } else {
      EmptyIsUnowned(c, inodes, tables, o, Direct(k, i));
    }
  }

  lemma EntryBit(c: Config, bits: seq<bool>, inodes: seq<Inode>, tables: Tables, o: map<nat, Slot>, k: nat, j: nat)
    requires Owned(c, inodes, tables, o) && Shaped(c, inodes) && k < |inodes| && j < c.nindirect
    requires inodes[k].addrs[c.ndirect] != 0 && BitsLeft(c, bits, o, k, c.ndirect, j, false)
    ensures var t := inodes[k].addrs[c.ndirect];
            t in tables && |tables[t]| == c.nindirect &&
            var b := tables[t][j];
            if b != 0 then b < |bits| && bits[b] && BitsLeft(c, bits[b := false], o, k, c.ndirect, j + 1, false)
            else BitsLeft(c, bits, o, k, c.ndirect, j + 1, false)
  {
    hide Owned;
    FilledIsOwned(c, inodes, tables, o, Ind(k));
    if At(c, inodes, tables, Entry(k, j)) != 0 {
      FilledIsOwned(c, inodes, tables, o, Entry(k, j));
    } else {
      EmptyIsUnowned(c, inodes, tables, o, Entry(k, j));
    }
  }

  lemma LastBit(c: Config, bits: seq<bool>, o: map<nat, Slot>, k: nat, ind: nat)
    requires ind in o && o[ind] == Ind(k) && c.datastart <= ind < c.size &&
             (forall x :: x in o && o[x] == Ind(k) ==> x == ind)
    requires BitsLeft(c, bits, o, k, c.ndirect, c.nindirect, false)
    ensures ind < |bits| && bits[ind] && BitsLeft(c, bits[ind := false], o, k, c.ndirect, c.nindirect, true)
  {
  }

  lemma NoEntries(c: Config, bits: seq<bool>, inodes: seq<Inode>, tables: Tables, o: map<nat, Slot>, k: nat)
    requires Owned(c, inodes, tables, o) && Shaped(c, inodes) && k < |inodes| && inodes[k].addrs[c.ndirect] == 0
    requires BitsLeft(c, bits, o, k, c.ndirect, 0, false)
    ensures BitsLeft(c, bits, o, k, c.ndirect, c.nindirect, true)
  {
    forall b | b in o ensures !(o[b].k == k && !o[b].Direct?) {
      assert At(c, inodes, tables, o[b]) == b;
    }
  }

  lemma BitsEnd(c: Config, bits0: seq<bool>, bits: seq<bool>, data: Bytes, inodes: seq<Inode>, tables: Tables,
                o: map<nat, Slot>, k: nat)
    requires BitsLeft(c, bits, o, k, c.ndirect, c.nindirect, true) && Owned(c, inodes, tables, o) &&
             BitsOk(c, bits0, o.Keys)
    requires DataOk(c, data, o.Keys)
    ensures BitsOk(c, bits, Disown(o, k).Keys) && DataOk(c, data, Disown(o, k).Keys)
    ensures forall b :: 0 <= b < c.size ==> (bits[b] <==> bits0[b] && !(b in o && o[b].k == k))
  {
    forall b | b in o ensures o[b].k == k <==> Gone(o[b], k, c.ndirect, c.nindirect, true) {
    }
  }

  /** The effect of bmap(k, bn) returning addr: that slot reads addr, only it and
      the indirect pointer can have changed, and a new block is zeroed. */
  ghost predicate Mapped(c: Config, i0: seq<Inode>, t0: Tables, d0: Bytes, o0: map<nat, Slot>,
                         i1: seq<Inode>, t1: Tables, d1: Bytes, o1: map<nat, Slot>, k: nat, bn: nat, addr: nat)
  {
    && Shaped(c, i0) && Shaped(c, i1) && k < |i0| == |i1| && bn < c.ndirect + c.nindirect
    && (forall m :: 0 <= m < |i0| ==> i1[m].size == i0[m].size && (m != k ==> i1[m] == i0[m]))
    && At(c, i1, t1, SlotOf(c, k, bn)) == addr
    && (forall q :: Legal(c, |i0|, q) && (At(c, i0, t0, q) != 0 || (q != SlotOf(c, k, bn) && q != Ind(k))) ==>
          At(c, i1, t1, q) == At(c, i0, t0, q))
    && (forall b :: b in o0 ==> b in o1 && o1[b] == o0[b] && (b in d0 ==> b in d1 && d1[b] == d0[b]))
    && (At(c, i0, t0, SlotOf(c, k, bn)) == 0 && addr != 0 ==> addr !in o0 && addr in d1 && d1[addr] == Zeros(c.bsize))
  }

  lemma MappedAlready(c: Config, inodes: seq<Inode>, tables: Tables, data: Bytes, owner: map<nat, Slot>, k: nat,
                      bn: nat)
    requires Shaped(c, inodes) && k < |inodes| && bn < c.ndirect + c.nindirect
    ensures Mapped(c, inodes, tables, data, owner, inodes, tables, data, owner, k, bn,
              At(c, inodes, tables, SlotOf(c, k, bn))) ||
            At(c, inodes, tables, SlotOf(c, k, bn)) == 0
    ensures At(c, inodes, tables, SlotOf(c, k, bn)) ==
            if bn < c.ndirect then inodes[k].addrs[bn] else At(c, inodes, tables, Entry(k, bn - c.ndirect))
    ensures At(c, inodes, tables, Ind(k)) == inodes[k].addrs[c.ndirect]
    ensures inodes[k].addrs[c.ndirect] == 0 && bn >= c.ndirect ==> At(c, inodes, tables, SlotOf(c, k, bn)) == 0
  {
  }

  lemma MappedBySlot(c: Config, i0: seq<Inode>, t0: Tables, d0: Bytes, o0: map<nat, Slot>,
                     i1: seq<Inode>, t1: Tables, d1: Bytes, o1: map<nat, Slot>, k: nat, bn: nat, addr: nat)
    requires SlotFilled(c, i0, t0, d0, o0, i1, t1, d1, o1, SlotOf(c, k, bn), addr) && Shaped(c, i0)
    requires k < |i0| && bn < c.ndirect + c.nindirect && At(c, i0, t0, SlotOf(c, k, bn)) == 0
    ensures |i1| == |i0| && Mapped(c, i0, t0, d0, o0, i1, t1, d1, o1, k, bn, addr)
  {
    hide At;
  }

  /** With the new indirect block in place, no entry has changed yet. */
  lemma MappedByInd(c: Config, i0: seq<Inode>, t0: Tables, d0: Bytes, o0: map<nat, Slot>,
                    i1: seq<Inode>, t1: Tables, d1: Bytes, o1: map<nat, Slot>, k: nat, bn: nat, ind: nat)
    requires SlotFilled(c, i0, t0, d0, o0, i1, t1, d1, o1, Ind(k), ind) && Shaped(c, i0)
    requires k < |i0| && c.ndirect <= bn < c.ndirect + c.nindirect && i0[k].addrs[c.ndirect] == 0
    ensures |i1| == |i0| && Shaped(c, i1) && Mapped(c, i0, t0, d0, o0, i1, t1, d1, o1, k, bn, 0)
    ensures i1[k].addrs[c.ndirect] == ind && At(c, i1, t1, Entry(k, bn - c.ndirect)) == 0
  {
    assert At(c, i1, t1, Ind(k)) == ind;
    assert At(c, i0, t0, Entry(k, bn - c.ndirect)) == 0;
  }

  lemma EntryFilled(c: Config, i0: seq<Inode>, t0: Tables, d0: Bytes, o0: map<nat, Slot>,
                    i1: seq<Inode>, t1: Tables, d1: Bytes, o1: map<nat, Slot>, k: nat, j: nat, addr: nat)
    requires SlotFilled(c, i0, t0, d0, o0, i1, t1, d1, o1, Entry(k, j), addr)
    ensures i1 == i0
  {
  }

  lemma MappedThrough(c: Config, i0: seq<Inode>, t0: Tables, d0: Bytes, o0: map<nat, Slot>,
                      i1: seq<Inode>, t1: Tables, d1: Bytes, o1: map<nat, Slot>,
                      i2: seq<Inode>, t2: Tables, d2: Bytes, o2: map<nat, Slot>, k: nat, bn: nat, addr: nat)
    requires (i1 == i0 && t1 == t0 && d1 == d0 && o1 == o0 && Shaped(c, i0)) ||
             Mapped(c, i0, t0, d0, o0, i1, t1, d1, o1, k, bn, 0)
    requires k < |i1| && c.ndirect <= bn < c.ndirect + c.nindirect
    requires SlotFilled(c, i1, t1, d1, o1, i2, t2, d2, o2, Entry(k, bn - c.ndirect), addr)
    requires At(c, i1, t1, Entry(k, bn - c.ndirect)) == 0
    ensures |i2| == |i0| && Mapped(c, i0, t0, d0, o0, i2, t2, d2, o2, k, bn, addr)
  {
    hide At;
    MappedBySlot(c, i1, t1, d1, o1, i2, t2, d2, o2, k, bn, addr);
  }

  /** What bmap can log beyond what was logged before. */
  ghost function NewlyLogged(c: Config, i0: seq<Inode>, i1: seq<Inode>, k: nat, bn: nat, addr: nat): set<int>
    requires ValidConfig(c) && Shaped(c, i0) && Shaped(c, i1) && k < |i0| == |i1|
  {
    var ind0, ind1 := i0[k].addrs[c.ndirect], i1[k].addrs[c.ndirect];
    {addr, BBlock(c, addr)} + (if bn < c.ndirect then {} else if ind0 != 0 then {ind0} else {ind1, BBlock(c, ind1)})
  }

  /** The state after block b has been put at the slot s; b == 0 for no change. */
  ghost predicate SlotFilled(c: Config, i0: seq<Inode>, t0: Tables, d0: Bytes, o0: map<nat, Slot>,
                             i1: seq<Inode>, t1: Tables, d1: Bytes, o1: map<nat, Slot>, s: Slot, b: nat)
  {
    && Shaped(c, i0) && Shaped(c, i1) && Legal(c, |i0|, s) && |i1| == |i0|
    && (forall m :: 0 <= m < |i0| ==> i1[m].size == i0[m].size && (m != s.k ==> i1[m] == i0[m]))
    && (s.Entry? ==> i1 == i0)
    && (forall q :: Legal(c, |i0|, q) ==> At(c, i1, t1, q) == if q == s then b else At(c, i0, t0, q))
    && o1 == (if b == 0 then o0 else o0[b := s])
    && (if b == 0 then d1 == d0 && i1 == i0 else b !in o0 && d1 == d0[b := Zeros(c.bsize)])
  }

  lemma NotFilled(c: Config, inodes: seq<Inode>, tables: Tables, data: Bytes, owner: map<nat, Slot>, s: Slot)
    requires Shaped(c, inodes) && Legal(c, |inodes|, s) && At(c, inodes, tables, s) == 0
    ensures SlotFilled(c, inodes, tables, data, owner, inodes, tables, data, owner, s, 0)
  {
    hide At;
  }

  /** The effect of storing a fresh block's number at the slot s. */
  lemma Filling(c: Config, inodes: seq<Inode>, t0: Tables, tables: Tables, d0: Bytes, owner: map<nat, Slot>, s: Slot,
                b: nat)
    requires Owned(c, inodes, tables, owner) && Legal(c, |inodes|, s) && At(c, inodes, tables, s) == 0
    requires b != 0 && b !in owner && c.datastart <= b < c.size && ZeroTable(c, tables, b)
    requires s.Entry? ==> inodes[s.k].addrs[c.ndirect] != 0
    requires forall q :: Legal(c, |inodes|, q) ==> At(c, inodes, tables, q) == At(c, inodes, t0, q)
    ensures if s.Entry? then
              var t := inodes[s.k].addrs[c.ndirect];
              t in tables && s.j < |tables[t]| &&
              SlotFilled(c, inodes, t0, d0, owner, inodes, PutEntry(tables, t, s.j, b), d0[b := Zeros(c.bsize)],
                  owner[b := s], s, b)
            else
              var ni := PutAddr(inodes, s.k, if s.Direct? then s.i else c.ndirect, b);
              SlotFilled(c, inodes, t0, d0, owner, ni, tables, d0[b := Zeros(c.bsize)], owner[b := s], s, b)
  {
    hide At, Owned;
    OwnedShaped(c, inodes, tables, owner);
    FilledOwned(c, inodes, tables, owner, s, b);
  }

  lemma OwnedShaped(c: Config, inodes: seq<Inode>, tables: Tables, owner: map<nat, Slot>)
    requires Owned(c, inodes, tables, owner)
    ensures Shaped(c, inodes)
  {
  }

  /** OwnDirect, OwnInd and OwnEntry in one. */
  lemma FilledOwned(c: Config, inodes: seq<Inode>, tables: Tables, owner: map<nat, Slot>, s: Slot, b: nat)
    requires Owned(c, inodes, tables, owner) && Legal(c, |inodes|, s) && At(c, inodes, tables, s) == 0
    requires b != 0 && b !in owner && c.datastart <= b < c.size && ZeroTable(c, tables, b)
    requires s.Entry? ==> inodes[s.k].addrs[c.ndirect] != 0
    ensures Shaped(c, inodes)
    ensures if s.Entry? then
              var t := inodes[s.k].addrs[c.ndirect];
              t in tables && s.j < |tables[t]| &&
              var tb := PutEntry(tables, t, s.j, b);
              && Owned(c, inodes, tb, owner[b := s])
              && (forall q :: Legal(c, |inodes|, q) ==>
                     At(c, inodes, tb, q) == if q == s then b else At(c, inodes, tables, q))
            else
              var ni := PutAddr(inodes, s.k, if s.Direct? then s.i else c.ndirect, b);
              && Owned(c, ni, tables, owner[b := s])
              && (forall m :: 0 <= m < |inodes| && m != s.k ==> ni[m] == inodes[m])
              && (forall q :: Legal(c, |inodes|, q) ==>
                     At(c, ni, tables, q) == if q == s then b else At(c, inodes, tables, q))
  {
    if s.Direct? {
      OwnDirect(c, inodes, tables, owner, s.k, s.i, b);
    } else if s.Ind? {
      OwnInd(c, inodes, tables, owner, s.k, b);
    } else {
      OwnEntry(c, inodes, tables, owner, s.k, s.j, b);
    }
  }

  ghost predicate BitsOk(c: Config, bits: seq<bool>, used: set<nat>) {
    |bits| == c.size && forall b :: 0 <= b < c.size ==> (bits[b] <==> b < c.datastart || b in used)
  }

  ghost predicate DataOk(c: Config, data: Bytes, used: set<nat>) {
    forall b :: b in used ==> b in data && |data[b]| == c.bsize
  }
}
