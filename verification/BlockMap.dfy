/** Which disk block belongs to which file: the direct slots, indirect pointers
    and indirect tables of kernel/fs.c, for all inodes at once, against the
    set of blocks in use.

    A block has two readings, bytes and block numbers, as the code casts
    bp->data; a zeroed block is zero in both. */
module BlockMap {

  datatype Config = Config(bsize: nat, ndirect: nat, nindirect: nat, size: nat, datastart: nat,
                           bmapstart: nat, inodestart: nat, ipb: nat, maxop: nat)

  predicate ValidConfig(c: Config) {
    c.bsize > 0 && c.nindirect > 0 && 0 < c.datastart <= c.size && c.ipb > 0 && c.maxop >= 6
  }

  datatype Inode = Inode(addrs: seq<nat>, size: nat)

  type Tables = map<nat, seq<nat>>

  /** A place where a block number can stand. */
  datatype Slot = Direct(k: nat, i: nat) | Ind(k: nat) | Entry(k: nat, j: nat)

  predicate Legal(c: Config, n: nat, s: Slot) {
    match s
    case Direct(k, i) => k < n && i < c.ndirect
    case Ind(k) => k < n
    case Entry(k, j) => k < n && j < c.nindirect
  }

  predicate Shaped(c: Config, inodes: seq<Inode>) {
    forall k :: 0 <= k < |inodes| ==> |inodes[k].addrs| == c.ndirect + 1
  }

  /** The block number at a slot, 0 if none. */
  function At(c: Config, inodes: seq<Inode>, tables: Tables, s: Slot): nat
    requires Shaped(c, inodes) && Legal(c, |inodes|, s)
  {
    match s
    case Direct(k, i) => inodes[k].addrs[i]
    case Ind(k) => inodes[k].addrs[c.ndirect]
    case Entry(k, j) =>
      var b := inodes[k].addrs[c.ndirect];
      if b != 0 && b in tables && j < |tables[b]| then tables[b][j] else 0
  }

  /** The slot of block bn of file k. */
  function SlotOf(c: Config, k: nat, bn: nat): Slot {
    if bn < c.ndirect then Direct(k, bn) else Entry(k, bn - c.ndirect)
  }

  ghost predicate Blocks(c: Config, tables: Tables, owner: map<nat, Slot>) {
    forall b :: b in owner ==> c.datastart <= b < c.size && b in tables && |tables[b]| == c.nindirect
  }

  /** The blocks standing at slots are pairwise distinct: each is at exactly the
      slot that owner gives, and owner has no others. */
  ghost predicate Owned(c: Config, inodes: seq<Inode>, tables: Tables, owner: map<nat, Slot>) {
    && Shaped(c, inodes) && Blocks(c, tables, owner) && 0 !in owner
    && (forall s :: Legal(c, |inodes|, s) && At(c, inodes, tables, s) != 0 ==>
          At(c, inodes, tables, s) in owner && owner[At(c, inodes, tables, s)] == s)
    && (forall b :: b in owner ==> Legal(c, |inodes|, owner[b]) && At(c, inodes, tables, owner[b]) == b)
  }

  /** Two different slots never hold the same block. */
  lemma DistinctBlocks(c: Config, inodes: seq<Inode>, tables: Tables, owner: map<nat, Slot>, s: Slot, t: Slot)
    requires Owned(c, inodes, tables, owner) && Legal(c, |inodes|, s) && Legal(c, |inodes|, t) && s != t
    requires At(c, inodes, tables, s) != 0
    ensures At(c, inodes, tables, s) != At(c, inodes, tables, t)
  {
  }

  // ----- putting a block at a slot

  function PutAddr(inodes: seq<Inode>, k: nat, i: nat, b: nat): (r: seq<Inode>)
    requires k < |inodes| && i < |inodes[k].addrs|
    ensures |r| == |inodes| && forall m :: 0 <= m < |r| ==>
              r[m].size == inodes[m].size && |r[m].addrs| == |inodes[m].addrs|
  {
    var a: seq<nat> := inodes[k].addrs[i := b];
    inodes[k := inodes[k].(addrs := a)]
  }

  function PutEntry(tables: Tables, t: nat, j: nat, b: nat): Tables
    requires t in tables && j < |tables[t]|
  {
    var a: seq<nat> := tables[t][j := b];
    tables[t := a]
  }

  ghost predicate ZeroTable(c: Config, tables: Tables, b: nat) {
    b in tables && |tables[b]| == c.nindirect && forall j :: 0 <= j < c.nindirect ==> tables[b][j] == 0
  }

  /** One slot, empty before, has been given a block that nobody had. */
  lemma OwnOne(c: Config, i0: seq<Inode>, t0: Tables, i1: seq<Inode>, t1: Tables, owner: map<nat, Slot>, p: Slot,
               b: nat)
    requires Owned(c, i0, t0, owner) && Shaped(c, i1) && |i1| == |i0| && Legal(c, |i0|, p) && At(c, i0, t0, p) == 0
    requires b != 0 && b !in owner && c.datastart <= b < c.size && Blocks(c, t1, owner[b := p])
    requires forall s :: Legal(c, |i0|, s) ==> At(c, i1, t1, s) == if s == p then b else At(c, i0, t0, s)
    ensures Owned(c, i1, t1, owner[b := p])
  {
    hide At, Blocks;
  }

  /** A fresh block at an empty direct slot. */
  lemma OwnDirect(c: Config, inodes: seq<Inode>, tables: Tables, owner: map<nat, Slot>, k: nat, i: nat, b: nat)
    requires Owned(c, inodes, tables, owner) && k < |inodes| && i < c.ndirect && inodes[k].addrs[i] == 0
    requires b != 0 && b !in owner && c.datastart <= b < c.size && ZeroTable(c, tables, b)
    ensures Owned(c, PutAddr(inodes, k, i, b), tables, owner[b := Direct(k, i)])
    ensures forall s :: Legal(c, |inodes|, s) ==>
              At(c, PutAddr(inodes, k, i, b), tables, s) == if s == Direct(k, i) then b else At(c, inodes, tables, s)
  {
    hide PutAddr;
    var ni, p := PutAddr(inodes, k, i, b), Direct(k, i);
    AddrPut(c, inodes, tables, p, b);
    OwnOne(c, inodes, tables, ni, tables, owner, p, b);
  }

  /** Storing to an address slot of an inode: a direct one, or an empty
      indirect pointer that gets a zeroed table. */
  lemma AddrPut(c: Config, inodes: seq<Inode>, tables: Tables, p: Slot, b: nat)
    requires Shaped(c, inodes) && Legal(c, |inodes|, p) && !p.Entry? &&
             (p.Ind? ==> At(c, inodes, tables, p) == 0 && ZeroTable(c, tables, b))
    ensures var ni := PutAddr(inodes, p.k, if p.Direct? then p.i else c.ndirect, b);
            && Shaped(c, ni)
            && forall s :: Legal(c, |inodes|, s) ==>
                 At(c, ni, tables, s) == if s == p then b else At(c, inodes, tables, s)
  {
  }

  /** A fresh zeroed block as indirect block: no entry appears by it. */
  lemma OwnInd(c: Config, inodes: seq<Inode>, tables: Tables, owner: map<nat, Slot>, k: nat, b: nat)
    requires Owned(c, inodes, tables, owner) && k < |inodes| && inodes[k].addrs[c.ndirect] == 0
    requires b != 0 && b !in owner && c.datastart <= b < c.size && ZeroTable(c, tables, b)
    ensures Owned(c, PutAddr(inodes, k, c.ndirect, b), tables, owner[b := Ind(k)])
    ensures forall s :: Legal(c, |inodes|, s) ==>
              At(c, PutAddr(inodes, k, c.ndirect, b), tables, s) == if s == Ind(k) then b else At(c, inodes, tables, s)
  {
    hide PutAddr;
    var ni, p := PutAddr(inodes, k, c.ndirect, b), Ind(k);
    AddrPut(c, inodes, tables, p, b);
    OwnOne(c, inodes, tables, ni, tables, owner, p, b);
  }

  /** A fresh block in an indirect table. */
  lemma OwnEntry(c: Config, inodes: seq<Inode>, tables: Tables, owner: map<nat, Slot>, k: nat, j: nat, b: nat)
    requires Owned(c, inodes, tables, owner) && k < |inodes| && j < c.nindirect
    requires inodes[k].addrs[c.ndirect] != 0 && At(c, inodes, tables, Entry(k, j)) == 0
    requires b != 0 && b !in owner && c.datastart <= b < c.size && ZeroTable(c, tables, b)
    ensures var t := inodes[k].addrs[c.ndirect];
            t in owner && t in tables && |tables[t]| == c.nindirect && b != t &&
            Owned(c, inodes, PutEntry(tables, t, j, b), owner[b := Entry(k, j)])
    ensures var t := inodes[k].addrs[c.ndirect];
            t in tables && j < |tables[t]| && forall s :: Legal(c, |inodes|, s) ==>
              At(c, inodes, PutEntry(tables, t, j, b), s) == if s == Entry(k, j) then b else At(c, inodes, tables, s)
  {
    var t := inodes[k].addrs[c.ndirect];
    assert At(c, inodes, tables, Ind(k)) == t;
    var tb := PutEntry(tables, t, j, b);
    forall s | Legal(c, |inodes|, s)
      ensures At(c, inodes, tb, s) == if s == Entry(k, j) then b else At(c, inodes, tables, s)
    {
      if s.Entry? && s.k != k {
        assert At(c, inodes, tables, Ind(s.k)) != t by {
          DistinctBlocks(c, inodes, tables, owner, Ind(k), Ind(s.k));
        }
      }
    }
  }

  /** Tables of blocks nobody owns do not matter. */
  lemma FreeTablesIrrelevant(c: Config, inodes: seq<Inode>, tables: Tables, tables': Tables, owner: map<nat, Slot>)
    requires Owned(c, inodes, tables, owner) && forall b :: b in owner ==> b in tables' && tables'[b] == tables[b]
    ensures Owned(c, inodes, tables', owner)
    ensures forall s :: Legal(c, |inodes|, s) ==> At(c, inodes, tables', s) == At(c, inodes, tables, s)
  {
    forall s | Legal(c, |inodes|, s) ensures At(c, inodes, tables', s) == At(c, inodes, tables, s) {
      if s.Entry? {
        assert At(c, inodes, tables, Ind(s.k)) != 0 ==> At(c, inodes, tables, Ind(s.k)) in owner;
      }
    }
  }

  function Disown(owner: map<nat, Slot>, k: nat): map<nat, Slot> {
    map b | b in owner && owner[b].k != k :: owner[b]
  }

  function NoAddrs(c: Config): seq<nat> {
    seq(c.ndirect + 1, _ => 0)
  }

  /** A file with all its slots cleared owns nothing; the others are as before. */
  lemma OwnNothing(c: Config, inodes: seq<Inode>, tables: Tables, owner: map<nat, Slot>, k: nat, size: nat)
    requires Owned(c, inodes, tables, owner) && k < |inodes|
    ensures Owned(c, inodes[k := Inode(NoAddrs(c), size)], tables, Disown(owner, k))
    ensures forall s :: Legal(c, |inodes|, s) ==>
              At(c, inodes[k := Inode(NoAddrs(c), size)], tables, s) == if s.k == k then 0 else At(c, inodes, tables, s)
  {
    var ni, no := inodes[k := Inode(NoAddrs(c), size)], Disown(owner, k);
    assert forall s :: Legal(c, |inodes|, s) ==>
        At(c, ni, tables, s) == if s.k == k then 0 else At(c, inodes, tables, s);
  }
}
