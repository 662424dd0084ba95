/** How many frames an address space needs: one for each page, and one for each
    page-table page on the way to it that is not there yet. A page-table page
    is known by its role, and no two pages of a space have the same one. */
module TableBudget {
  import opened PageTable

  ghost function Roles(sp: Space): set<Role> {
    sp.role.Values
  }

  /** The page-table pages below the root on the way to page v. */
  function Needs(v: nat): set<Role> {
    {MidTable(Px2(v)), LowTable(Px2(v), Px1(v))}
  }

  /** The same for the n pages from a on. */
  function NeedsOf(a: nat, n: nat): set<Role> {
    if n == 0 then {} else NeedsOf(a, n - 1) + Needs(a + n - 1)
  }

  /** How many of them are missing. */
  ghost function Missing(sp: Space, a: nat, n: nat): nat {
    |NeedsOf(a, n) - Roles(sp)|
  }

  /** Frames left the free list for new page-table pages and for k other pages, and for nothing else. */
  ghost predicate Paid(free: seq<nat>, sp: Space, free': seq<nat>, sp': Space, k: nat) {
    |free| + |Roles(sp)| == |free'| + |Roles(sp')| + k
  }

  /** The page-table pages for need were made, all of them if done, else not all. */
  ghost predicate Made(sp: Space, sp': Space, need: set<Role>, done: bool) {
    Roles(sp) <= Roles(sp') && if done then Roles(sp') == Roles(sp) + need else Roles(sp') < Roles(sp) + need
  }

  /** The slot of a page that is there is not empty. */
  lemma EmptySlotIsNew(mem: Memory, sp: Space, pf: nat, i: nat, r: Role)
    requires WellFormed(mem, sp) && IsSlot(mem, sp, pf, i, r) && !IsValid(Entry(mem, pf, i))
    ensures r !in Roles(sp)
  {
    hide DownLinks;
    assert r.LowTable? ==> r.a < |mem[sp.root]| && mem[sp.root][r.a] == MakePte(pf, PTE_V);
    assert forall f :: f in sp.role ==> sp.role[f] != r;
  }

  lemma OneMore(sp: Space, free: seq<nat>, g: nat, r: Role)
    requires g !in sp.role && r !in Roles(sp) && free != []
    ensures Roles(WithTable(sp, g, r)) == Roles(sp) + {r}
    ensures Paid(free, sp, free[1..], WithTable(sp, g, r), 0)
  {
    var sp' := WithTable(sp, g, r);
    forall x | x in Roles(sp) ensures x in Roles(sp') {
      var f :| f in sp.role && sp.role[f] == x;
      assert sp'.role[f] == x;
    }
    assert sp'.role[g] == r;
    assert Roles(sp') == Roles(sp) + {r};
  }

  lemma PaidNone(free: seq<nat>, sp: Space)
    ensures Paid(free, sp, free, sp, 0) && Made(sp, sp, {}, true)
  {
  }

  lemma PaidOn(f0: seq<nat>, s0: Space, f1: seq<nat>, s1: Space, f2: seq<nat>, s2: Space, j: nat, k: nat)
    requires Paid(f0, s0, f1, s1, j) && Paid(f1, s1, f2, s2, k)
    ensures Paid(f0, s0, f2, s2, j + k)
  {
  }

  lemma MadeOn(s0: Space, s1: Space, s2: Space, x: set<Role>, y: set<Role>, done: bool)
    requires Made(s0, s1, x, true) && Made(s1, s2, y, done)
    ensures Made(s0, s2, x + y, done)
  {
  }

  lemma NeedsStep(a: nat, k: nat)
    ensures NeedsOf(a, k + 1) == NeedsOf(a, k) + Needs(a + k)
  {
    assert a + (k + 1) - 1 == a + k;
  }

  lemma NeedsOne(v: nat)
    ensures NeedsOf(v, 1) == Needs(v) && NeedsOf(v, 0) == {}
  {
    assert NeedsOf(v, 0) == {};
  }

  /** Running short at page k of n means that the frames do not suffice for all n. */
  lemma Short(free0: seq<nat>, sp0: Space, free: seq<nat>, sp: Space, a: nat, k: nat, n: nat)
    requires Paid(free0, sp0, free, sp, k) && Made(sp0, sp, NeedsOf(a, k), true) && k < n
    requires |free| < 1 + Missing(sp, a + k, 1)
    ensures |free0| < n + Missing(sp0, a, n)
  {
    hide Roles, Needs, NeedsOf;
    var x, y := NeedsOf(a, k), Needs(a + k);
    NeedsStep(a, k);
    NeedsOne(a + k);
    Union(Roles(sp), y);
    Union(Roles(sp0), x + y);
    assert Roles(sp) + y == Roles(sp0) + (x + y);
    NeedsMore(a, k + 1, n);
    Smaller(NeedsOf(a, k + 1) - Roles(sp0), NeedsOf(a, n) - Roles(sp0));
  }

  lemma Union(s: set<Role>, x: set<Role>)
    ensures |s + x| == |s| + |x - s|
  {
    assert s + x == s + (x - s);
  }

  /** And when all are mapped, they did. */
  lemma Enough(free0: seq<nat>, sp0: Space, free: seq<nat>, sp: Space, a: nat, n: nat)
    requires Paid(free0, sp0, free, sp, n) && Made(sp0, sp, NeedsOf(a, n), true)
    ensures |free0| == n + Missing(sp0, a, n) + |free|
  {
    Union(Roles(sp0), NeedsOf(a, n));
  }

  lemma {:induction false} NeedsMore(a: nat, m: nat, n: nat)
    requires m <= n
    ensures NeedsOf(a, m) <= NeedsOf(a, n)
    decreases n
  {
    if m < n {
      NeedsMore(a, m, n - 1);
    }
  }

  lemma Smaller(x: set<Role>, y: set<Role>)
    requires x <= y
    ensures |x| <= |y|
  {
    assert y == x + (y - x);
  }

  /** One page could not be added: no frame for it, or none for a table. */
  lemma ShortOne(free: seq<nat>, sp: Space, free': seq<nat>, sp': Space, v: nat)
    requires Paid(free, sp, free', sp', 1) && free' == [] && Made(sp, sp', Needs(v), false)
    ensures |free| < 1 + Missing(sp, v, 1)
  {
    hide Roles, Needs, NeedsOf;
    NeedsOne(v);
    Union(Roles(sp), Needs(v));
    var rest := Roles(sp) + Needs(v) - Roles(sp');
    assert Roles(sp) + Needs(v) == Roles(sp') + rest;
    assert rest != {};
  }
}
