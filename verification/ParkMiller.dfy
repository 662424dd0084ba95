/** The Park-Miller generator of user/grind.c, computed by Schrage's method.

    The code never forms the product 7^5 * x; it splits x by the quotient
    127773 and stays inside 31 bits. The reference here is the plain modular
    product, and the results are about whole runs of the generator. */
module ParkMiller {

  const M: nat := 0x7fff_ffff
  const A: nat := 16807
  const Q: nat := 127773
  const R: nat := 2836

  /** The multiplicative inverse of 7^5 modulo 2^31 - 1. */
  const A_INVERSE: nat := 1407677000

  /** One step on the generator's state, by the defining formula. */
  function Next(s: nat): nat {
    var y := A * (s % (M - 1) + 1) % M;
    if y == 0 then 0 else y - 1
  }

  /** One step backwards. */
  function Prev(t: nat): nat {
    var y := A_INVERSE * (t + 1) % M;
    if y == 0 then 0 else y - 1
  }

  function Run(s: nat, k: nat): nat
    decreases k
  {
    if k == 0 then s else Next(Run(s, k - 1))
  }

  function RunBack(t: nat, k: nat): nat
    decreases k
  {
    if k == 0 then t else Prev(RunBack(t, k - 1))
  }

  function Pow(b: nat, e: nat): nat {
    if e == 0 then 1 else b * Pow(b, e - 1)
  }

  lemma ModUnique(a: int, q: int, r: int)
    requires a == M * q + r && 0 <= r < M
    ensures a % M == r
  {
    assert M * (a / M - q) == r - a % M;
  }

  lemma ModTimes(a: nat, b: nat)
    ensures a * (b % M) % M == a * b % M
  {
    var q := a * (b % M) / M;
    assert a * b == a * (M * (b / M) + b % M) == M * (a * (b / M)) + a * (b % M);
    assert a * b == M * (a * (b / M) + q) + a * (b % M) % M by {
      assert M * (a * (b / M) + q) == M * (a * (b / M)) + M * q;
    }
    ModUnique(a * b, a * (b / M) + q, a * (b % M) % M);
  }

  /** Schrage's split: the signed 31-bit combination differs from 7^5 * x by a
      multiple of 2^31 - 1, and one conditional addition reduces it. */
  lemma Schrage(x: nat)
    requires 1 <= x < M
    ensures var t := A * (x % Q) - R * (x / Q);
            0 - M < t < M && (if t < 0 then t + M else t) == A * x % M
  {
    var hi, lo := x / Q, x % Q;
    var t := A * lo - R * hi;
    assert x == Q * hi + lo;
    assert A * x == M * hi + t;
    if t < 0 {
      ModUnique(A * x, hi - 1, t + M);
    } else {
      ModUnique(A * x, hi, t);
    }
  }

  /** Multiplying by 7^5 and by its inverse cancels. */
  lemma Cancel(x: nat)
    requires x < M
    ensures A_INVERSE * (A * x % M) % M == x
    ensures A * (A_INVERSE * x % M) % M == x
  {
    ModTimes(A_INVERSE, A * x);
    ModTimes(A, A_INVERSE * x);
    assert A_INVERSE * (A * x) == M * (11017 * x) + x;
    assert A * (A_INVERSE * x) == A_INVERSE * (A * x);
    ModUnique(A_INVERSE * (A * x), 11017 * x, x);
  }

  /** The product is never 0 modulo 2^31 - 1, so the final decrement cannot go
      negative, and the new state is again in range. */
  lemma NeverZero(x: nat)
    requires 1 <= x < M
    ensures 1 <= A * x % M < M
    ensures 1 <= A_INVERSE * x % M < M
  {
    Cancel(x);
  }

  /** A step permutes the range [0, 2^31 - 3]: Prev undoes Next there and
      Next undoes Prev, so states never merge and none is unreachable. */
  lemma StepIsBijection(s: nat)
    requires s <= M - 2
    ensures Next(s) <= M - 2 && Prev(s) <= M - 2
    ensures Prev(Next(s)) == s && Next(Prev(s)) == s
  {
    NeverZero(s + 1);
    Cancel(s + 1);
    assert s % (M - 1) == s;
    var n, p := Next(s), Prev(s);
    assert n + 1 == A * (s + 1) % M;
    assert p + 1 == A_INVERSE * (s + 1) % M;
    assert p % (M - 1) == p;
  }

  /** k calls from any in-range state s produce (7^5)^k * (s + 1) modulo
      2^31 - 1, shifted down by one. */
  lemma {:induction false} RunIsPower(s: nat, k: nat)
    requires s <= M - 2
    ensures Run(s, k) <= M - 2
    ensures Run(s, k) == Pow(A, k) * (s + 1) % M - 1
    decreases k
  {
    if k == 0 {
      ModUnique(s + 1, 0, s + 1);
    } else {
      RunIsPower(s, k - 1);
      StepMultiplies(Run(s, k - 1), Pow(A, k - 1) * (s + 1));
      PowStep(k, s + 1);
    }
  }

  lemma PowStep(k: nat, n: nat)
    requires k > 0
    ensures A * (Pow(A, k - 1) * n) == Pow(A, k) * n
  {
    var p := Pow(A, k - 1);
    assert A * (p * n) == (A * p) * n;
  }

  lemma StepMultiplies(r: nat, w: nat)
    requires r <= M - 2 && r + 1 == w % M
    ensures Next(r) == A * w % M - 1 && Next(r) <= M - 2
  {
    StepIsBijection(r);
    NeverZero(r + 1);
    ModTimes(A, w);
  }

  /** Any run can be rewound: k steps back undo k steps forward. */
  lemma {:induction false} RunsRewind(s: nat, k: nat)
    requires s <= M - 2
    ensures RunBack(Run(s, k), k) == s
    decreases k
  {
    if k > 0 {
      RunIsPower(s, k - 1);
      StepIsBijection(Run(s, k - 1));
      RunBackShift(Run(s, k), k - 1);
      RunsRewind(s, k - 1);
    }
  }

  lemma {:induction false} RunBackShift(t: nat, k: nat)
    ensures RunBack(t, k + 1) == RunBack(Prev(t), k)
  {
    if k > 0 {
      RunBackShift(t, k - 1);
    }
  }

  /** Two runs from different in-range seeds never meet at the same step. */
  lemma RunsNeverMerge(s: nat, t: nat, k: nat)
    requires s <= M - 2 && t <= M - 2 && s != t
    ensures Run(s, k) != Run(t, k)
  {
    RunsRewind(s, k);
    RunsRewind(t, k);
  }

  /** The generator's state word, `*ctx` in do_rand. */
  class Context {
    var state: nat

    constructor (seed: nat)
      ensures state == seed
    {
      state := seed;
    }

    /** do_rand. values lists every value the code computes on the way, products
        included; each fits 31 bits and a sign, as the code's comment promises. */
    method DoRand() returns (x: int, ghost values: seq<int>)
      modifies this
      ensures x == Next(old(state)) && state == x
      ensures 0 <= x <= 0x7fff_fffd
      ensures |values| == 8 && forall i :: 0 <= i < |values| ==> -0x7fff_ffff <= values[i] <= 0x7fff_ffff
      ensures values[0] == old(state) % 0x7fff_fffe + 1 && values[0] == 127773 * values[1] + values[2]
      ensures values[3] == 16807 * values[2] && values[4] == 2836 * values[1] && values[5] == values[3] - values[4]
      ensures values[6] == (if values[5] < 0 then values[5] + 0x7fff_ffff else values[5]) &&
              x == values[7] == values[6] - 1
    {
      x := state % 0x7fff_fffe + 1;
      values := [x];
      ghost var x0 := x;
      var hi := x / 127773;
      var lo := x % 127773;
      values := values + [hi, lo, 16807 * lo, 2836 * hi];
      x := 16807 * lo - 2836 * hi;
      values := values + [x];
      Schrage(x0);
      if x < 0 {
        x := x + 0x7fff_ffff;
      }
      values := values + [x];
      NeverZero(x0);
      x := x - 1;
      values := values + [x];
      state := x;
    }
  }
}
