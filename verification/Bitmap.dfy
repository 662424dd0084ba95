/** The free-block bitmap of kernel/fs.c as it lies in its blocks: bit bi of a
    bitmap block is bit bi % 8 of byte bi / 8. */
module Bitmap {
  import opened Common

  type Bits = seq<seq<bv8>>

  /** m = 1 << (bi % 8) */
  function Mask(i: nat): bv8
    requires i < 8
  {
    1 << i
  }

  lemma MaskIs(i: nat)
    requires i < 8
    ensures Mask(i) == if i == 0 then 1 else if i == 1 then 2 else if i == 2 then 4 else if i == 3 then 8
                       else if i == 4 then 16 else if i == 5 then 32 else if i == 6 then 64 else 128
  {
    if i == 0 {
    } else if i == 1 {
    } else if i == 2 {
    } else if i == 3 {
    } else if i == 4 {
    } else if i == 5 {
    } else if i == 6 {
    } else {
      assert i == 7;
    }
  }

  predicate Bit(x: bv8, i: nat)
    requires i < 8
  {
    x & Mask(i) != 0
  }

  function Put(x: bv8, i: nat, v: bool): bv8
    requires i < 8
  {
    if v then x | Mask(i) else x & !Mask(i)
  }

  lemma BitsApart(x: bv8, i: nat, j: nat, v: bool)
    requires i < 8 && j < 8
    ensures Bit(Put(x, i, v), j) == if i == j then v else Bit(x, j)
  {
    hide Mask;
    MaskIs(i);
    MaskIs(j);
  }

  /** Where bit b is: its bitmap block, the byte there, and the bit of the byte. */
  datatype Place = Place(k: nat, y: nat, i: nat)

  lemma InBlock(n: nat, b: nat)
    requires n > 0
    ensures 0 <= b % n < n && b / n >= 0
  {
  }

  function PlaceOf(bsize: nat, b: nat): (p: Place)
    requires bsize > 0
    ensures p.y < bsize && p.i < 8
  {
    InBlock(8 * bsize, b);
    var bi: nat := b % (8 * bsize);
    Place(b / (8 * bsize), bi / 8, bi % 8)
  }

  /** Counting through the blocks, byte by byte, low bits first, bit b is the
      b-th. */
  lemma PlaceIsNumber(bsize: nat, b: nat)
    requires bsize > 0
    ensures var p := PlaceOf(bsize, b); (p.k * bsize + p.y) * 8 + p.i == b
  {
    var n := 8 * bsize;
    assert b == n * (b / n) + b % n;
    var p := PlaceOf(bsize, b);
    assert (p.k * bsize + p.y) * 8 == p.k * n + p.y * 8;
  }

  lemma PlacesDiffer(bsize: nat, a: nat, b: nat)
    requires bsize > 0 && PlaceOf(bsize, a) == PlaceOf(bsize, b)
    ensures a == b
  {
    var n := 8 * bsize;
    assert a == n * (a / n) + a % n && b == n * (b / n) + b % n;
  }

  /** balloc's view of a bit: the block at base, bit bi of it. */
  lemma PlaceIn(bsize: nat, q: nat, bi: nat)
    requires bsize > 0 && bi < 8 * bsize
    ensures PlaceOf(bsize, q * (8 * bsize) + bi) == Place(q, bi / 8, bi % 8)
  {
    DivMod(8 * bsize, q, bi);
  }

  predicate Has(bm: Bits, p: Place) {
    p.k < |bm| && p.y < |bm[p.k]| && p.i < 8
  }

  predicate Test(bm: Bits, p: Place)
    requires Has(bm, p)
  {
    Bit(bm[p.k][p.y], p.i)
  }

  function Store(bm: Bits, p: Place, v: bool): Bits
    requires Has(bm, p)
  {
    bm[p.k := bm[p.k][p.y := Put(bm[p.k][p.y], p.i, v)]]
  }

  /** The blocks hold these bits. */
  ghost predicate Packed(bm: Bits, bsize: nat, bits: seq<bool>) {
    bsize > 0 && forall b :: 0 <= b < |bits| ==> Has(bm, PlaceOf(bsize, b)) && Test(bm, PlaceOf(bsize, b)) == bits[b]
  }

  /** Setting or clearing a bit in its byte changes that bit and no other. */
  lemma StorePacked(bm: Bits, bsize: nat, bits: seq<bool>, b: nat, v: bool)
    requires Packed(bm, bsize, bits) && b < |bits|
    ensures Has(bm, PlaceOf(bsize, b)) && Packed(Store(bm, PlaceOf(bsize, b), v), bsize, bits[b := v])
  {
    hide Mask, PlaceOf, Test, Store, Has;
    var p := PlaceOf(bsize, b);
    assert Has(bm, p);
    var bm' := Store(bm, p, v);
    forall a | 0 <= a < |bits| ensures Has(bm', PlaceOf(bsize, a)) && Test(bm', PlaceOf(bsize, a)) == bits[b := v][a] {
      var q := PlaceOf(bsize, a);
      StoreTest(bm, p, v, q);
      if q == p {
        PlacesDiffer(bsize, a, b);
      }
    }
  }

  lemma StoreTest(bm: Bits, p: Place, v: bool, q: Place)
    requires Has(bm, p) && Has(bm, q)
    ensures Has(Store(bm, p, v), q) && Test(Store(bm, p, v), q) == if q == p then v else Test(bm, q)
  {
    hide Bit, Put;
    BitsApart(bm[p.k][p.y], p.i, q.i, v);
  }

  /** A bitmap of n blocks with the first m bits set. */
  function Initial(bsize: nat, n: nat, m: nat): (bm: Bits)
    requires bsize > 0
  {
    if m == 0 then seq(n, _ => seq(bsize, _ => 0 as bv8))
    else
      var bm, p := Initial(bsize, n, m - 1), PlaceOf(bsize, m - 1);
      if Has(bm, p) then Store(bm, p, true) else bm
  }

  lemma {:induction false} InitialPacked(bsize: nat, n: nat, size: nat, m: nat)
    requires bsize > 0 && m <= size <= n * (8 * bsize)
    ensures Packed(Initial(bsize, n, m), bsize, seq(size, b => b < m))
  {
    hide Packed, PlaceOf, Store, Has;
    if m == 0 {
      InitialBits(bsize, n, size);
    } else {
      InitialPacked(bsize, n, size, m - 1);
      var was := seq(size, b => b < m - 1);
      StorePacked(Initial(bsize, n, m - 1), bsize, was, m - 1, true);
      assert was[m - 1 := true] == seq(size, b => b < m);
    }
  }

  lemma InitialBits(bsize: nat, n: nat, size: nat)
    requires bsize > 0 && size <= n * (8 * bsize)
    ensures Packed(Initial(bsize, n, 0), bsize, seq(size, b => b < 0))
  {
    var bm := Initial(bsize, n, 0);
    forall b | 0 <= b < size ensures Has(bm, PlaceOf(bsize, b)) && !Test(bm, PlaceOf(bsize, b)) {
      var m := 8 * bsize;
      assert b == m * (b / m) + b % m;
      if b / m >= n {
        assert m * (b / m) >= m * n;
      }
    }
  }
}
