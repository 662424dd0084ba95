/** The natural merge sort of kernel/list.c on sequences, apart from the links:
    what one merge, one pass and the whole sort compute, and why the result is
    a sorted, stable permutation reached in logarithmically many passes. */
module NaturalMergeSort {

  /** A list_less_func, as a relation on the elements of S. */
  ghost predicate StrictWeakOrder<E>(less: (E, E) -> bool, S: set<E>) {
    && (forall x | x in S :: !less(x, x))
    && (forall x, y, z {:trigger TransitiveAt(less, x, y, z)} | x in S && y in S && z in S ::
          TransitiveAt(less, x, y, z))
  }

  /** Both less and the tie relation are transitive at x, y, z. */
  predicate TransitiveAt<E>(less: (E, E) -> bool, x: E, y: E, z: E) {
    && (less(x, y) && less(y, z) ==> less(x, z))
    && (Tied(less, x, y) && Tied(less, y, z) ==> Tied(less, x, z))
  }

  predicate Tied<E>(less: (E, E) -> bool, x: E, y: E) {
    !less(x, y) && !less(y, x)
  }

  ghost predicate Within<E>(s: seq<E>, S: set<E>) {
    forall i :: 0 <= i < |s| ==> s[i] in S
  }

  ghost predicate Sorted<E>(less: (E, E) -> bool, s: seq<E>) {
    forall i, j :: 0 <= i < j < |s| ==> !less(s[j], s[i])
  }

  /** The elements of s that tie with x, in their order in s. */
  function Ties<E>(less: (E, E) -> bool, s: seq<E>, x: E): seq<E> {
    if s == [] then [] else (if Tied(less, s[0], x) then [s[0]] else []) + Ties(less, s[1..], x)
  }

  /** t is a stable rearrangement of s: the same elements, ties in the same order. */
  ghost predicate StablePermutation<E>(less: (E, E) -> bool, s: seq<E>, t: seq<E>) {
    multiset(t) == multiset(s) && forall x | x in s :: Ties(less, t, x) == Ties(less, s, x)
  }

  // ----- what the code computes

  predicate Descent<E>(less: (E, E) -> bool, s: seq<E>, i: int)
    requires 0 < i < |s|
  {
    less(s[i], s[i - 1])
  }

  /** Length of the first maximal nondecreasing run of s. */
  function RunLength<E>(less: (E, E) -> bool, s: seq<E>): (n: nat)
    requires s != []
    ensures 1 <= n <= |s|
    ensures forall i :: 0 < i < n ==> !Descent(less, s, i)
    ensures n < |s| ==> Descent(less, s, n)
  {
    if |s| == 1 || less(s[1], s[0]) then 1
    else
      var n := 1 + RunLength(less, s[1..]);
      assert forall i :: 1 < i < |s| ==> Descent(less, s, i) == Descent(less, s[1..], i - 1);
      n
  }

  function Merge<E>(less: (E, E) -> bool, a: seq<E>, b: seq<E>): (m: seq<E>)
    ensures |m| == |a| + |b|
    decreases |a| + |b|
  {
    if a == [] then b
    else if b == [] then a
    else if !less(b[0], a[0]) then [a[0]] + Merge(less, a[1..], b)
    else [b[0]] + Merge(less, a, b[1..])
  }

  /** Where the first two runs end. */
  function TwoRuns<E>(less: (E, E) -> bool, s: seq<E>): (m: nat)
    requires s != [] && RunLength(less, s) < |s|
    ensures RunLength(less, s) < m <= |s|
  {
    RunLength(less, s) + RunLength(less, s[RunLength(less, s)..])
  }

  /** One pass: adjacent pairs of runs are merged; a run left over stays. */
  function Pass<E>(less: (E, E) -> bool, s: seq<E>): seq<E> {
    if s == [] then []
    else
      var n := RunLength(less, s);
      if n == |s| then s
      else
        var m := TwoRuns(less, s);
        Merge(less, s[..n], s[n..m]) + Pass(less, s[m..])
  }

  /** The value of output_run_cnt at the end of a pass. */
  function PassRuns<E>(less: (E, E) -> bool, s: seq<E>): nat {
    if s == [] then 0
    else
      var n := RunLength(less, s);
      if n == |s| then 1
      else
        1 + PassRuns(less, s[TwoRuns(less, s)..])
  }

  /** Number of natural runs: one more than the number of descents. */
  function Runs<E>(less: (E, E) -> bool, s: seq<E>): nat {
    if |s| <= 1 then |s| else (if less(s[1], s[0]) then 1 else 0) + Runs(less, s[1..])
  }

  function Sort<E>(less: (E, E) -> bool, s: seq<E>, ghost S: set<E>): (t: seq<E>)
    requires StrictWeakOrder(less, S) && Within(s, S)
    decreases Runs(less, s)
  {
    PassIsStablePermutation(less, s, S);
    PassHalvesRuns(less, s, S);
    var p := Pass(less, s);
    if PassRuns(less, s) > 1 then Sort(less, p, S) else p
  }

  /** How many passes the sort makes. */
  function Passes<E>(less: (E, E) -> bool, s: seq<E>, ghost S: set<E>): nat
    requires StrictWeakOrder(less, S) && Within(s, S)
    decreases Runs(less, s)
  {
    PassIsStablePermutation(less, s, S);
    PassHalvesRuns(less, s, S);
    if PassRuns(less, s) > 1 then 1 + Passes(less, Pass(less, s), S) else 1
  }

  // ----- orders

  lemma NotLessTransitive<E>(less: (E, E) -> bool, S: set<E>, x: E, y: E, z: E)
    requires StrictWeakOrder(less, S) && x in S && y in S && z in S
    requires !less(y, x) && !less(z, y)
    ensures !less(z, x)
  {
    assert TransitiveAt(less, x, y, z) && TransitiveAt(less, z, x, y) && TransitiveAt(less, y, z, x);
  }

  lemma LessThenNotLess<E>(less: (E, E) -> bool, S: set<E>, x: E, y: E, z: E)
    requires StrictWeakOrder(less, S) && x in S && y in S && z in S
    requires less(x, y) && !less(z, y)
    ensures less(x, z) && !less(z, x)
  {
    assert TransitiveAt(less, x, y, x) && TransitiveAt(less, x, z, x);
    if !less(x, z) {
      NotLessTransitive(less, S, y, z, x);
    }
  }

  lemma {:induction false} AdjacentSorted<E>(less: (E, E) -> bool, S: set<E>, s: seq<E>, i: nat, j: nat)
    requires StrictWeakOrder(less, S) && Within(s, S) && i < j < |s|
    requires forall k :: 0 < k < |s| ==> !Descent(less, s, k)
    ensures !less(s[j], s[i])
    decreases j - i
  {
    if i + 1 == j {
      assert !Descent(less, s, j);
    } else {
      AdjacentSorted(less, S, s, i, j - 1);
      assert !Descent(less, s, j);
      NotLessTransitive(less, S, s[i], s[j - 1], s[j]);
    }
  }

  lemma RunIsSorted<E>(less: (E, E) -> bool, S: set<E>, s: seq<E>)
    requires StrictWeakOrder(less, S) && Within(s, S) && s != []
    ensures Sorted(less, s[..RunLength(less, s)])
  {
    var r := s[..RunLength(less, s)];
    assert forall k :: 0 < k < |r| ==> Descent(less, r, k) == Descent(less, s, k);
    forall i, j | 0 <= i < j < |r| ensures !less(r[j], r[i]) {
      AdjacentSorted(less, S, r, i, j);
    }
  }

  // ----- one merge

  lemma MultisetCons<E>(s: seq<E>)
    requires s != []
    ensures multiset(s) == multiset{s[0]} + multiset(s[1..])
  {
    assert s == [s[0]] + s[1..];
  }

  lemma {:induction false} MergeElements<E>(less: (E, E) -> bool, a: seq<E>, b: seq<E>)
    ensures multiset(Merge(less, a, b)) == multiset(a) + multiset(b)
    decreases |a| + |b|
  {
    if a != [] && b != [] {
      if !less(b[0], a[0]) {
        MergeElements(less, a[1..], b);
        MultisetCons(a);
      } else {
        MergeElements(less, a, b[1..]);
        MultisetCons(b);
      }
    }
  }

  lemma ElementsWithin<E>(s: seq<E>, t: seq<E>, S: set<E>)
    requires multiset(t) == multiset(s) && Within(s, S)
    ensures Within(t, S)
  {
    forall i | 0 <= i < |t| ensures t[i] in S {
      assert t[i] in multiset(s);
      assert t[i] in s;
    }
  }

  lemma MergeWithin<E>(less: (E, E) -> bool, S: set<E>, a: seq<E>, b: seq<E>)
    requires Within(a, S) && Within(b, S)
    ensures Within(Merge(less, a, b), S)
  {
    MergeElements(less, a, b);
    assert Within(a + b, S);
    ElementsWithin(a + b, Merge(less, a, b), S);
  }

  /** x is no greater than anything in s. */
  ghost predicate LowerBound<E>(less: (E, E) -> bool, x: E, s: seq<E>) {
    forall i :: 0 <= i < |s| ==> !less(s[i], x)
  }

  lemma {:induction false} MergeLowerBound<E>(less: (E, E) -> bool, x: E, a: seq<E>, b: seq<E>)
    requires LowerBound(less, x, a) && LowerBound(less, x, b)
    ensures LowerBound(less, x, Merge(less, a, b))
  {
    var m := Merge(less, a, b);
    MergeElements(less, a, b);
    forall i | 0 <= i < |m| ensures !less(m[i], x) {
      assert m[i] in multiset(a) + multiset(b);
      assert m[i] in a || m[i] in b;
    }
  }

  lemma SortedCons<E>(less: (E, E) -> bool, x: E, s: seq<E>)
    requires LowerBound(less, x, s) && Sorted(less, s)
    ensures Sorted(less, [x] + s)
  {
  }

  lemma HeadBelow<E>(less: (E, E) -> bool, S: set<E>, x: E, s: seq<E>)
    requires StrictWeakOrder(less, S) && Within(s, S) && x in S && s != []
    requires Sorted(less, s) && !less(s[0], x)
    ensures LowerBound(less, x, s)
  {
    forall i | 0 <= i < |s| ensures !less(s[i], x) {
      if i > 0 {
        NotLessTransitive(less, S, x, s[0], s[i]);
      }
    }
  }

  lemma {:induction false} MergeSorted<E>(less: (E, E) -> bool, S: set<E>, a: seq<E>, b: seq<E>)
    requires StrictWeakOrder(less, S) && Within(a, S) && Within(b, S)
    requires Sorted(less, a) && Sorted(less, b)
    ensures Sorted(less, Merge(less, a, b))
    decreases |a| + |b|
  {
    if a != [] && b != [] {
      if !less(b[0], a[0]) {
        MergeSorted(less, S, a[1..], b);
        HeadBelow(less, S, a[0], b);
        MergeLowerBound(less, a[0], a[1..], b);
        SortedCons(less, a[0], Merge(less, a[1..], b));
      } else {
        MergeSorted(less, S, a, b[1..]);
        assert TransitiveAt(less, b[0], a[0], b[0]);
        HeadBelow(less, S, b[0], a);
        MergeLowerBound(less, b[0], a, b[1..]);
        SortedCons(less, b[0], Merge(less, a, b[1..]));
      }
    }
  }

  lemma {:induction false} TiesAppend<E>(less: (E, E) -> bool, a: seq<E>, b: seq<E>, x: E)
    ensures Ties(less, a + b, x) == Ties(less, a, x) + Ties(less, b, x)
  {
    if a == [] {
      assert a + b == b;
    } else {
      var c := if Tied(less, a[0], x) then [a[0]] else [];
      assert (a + b)[1..] == a[1..] + b;
      TiesAppend(less, a[1..], b, x);
      assert Ties(less, a + b, x) == c + (Ties(less, a[1..], x) + Ties(less, b, x));
    }
  }

  lemma {:induction false} NoTies<E>(less: (E, E) -> bool, s: seq<E>, x: E)
    requires forall i :: 0 <= i < |s| ==> !Tied(less, s[i], x)
    ensures Ties(less, s, x) == []
  {
    if s != [] {
      NoTies(less, s[1..], x);
    }
  }

  /** Everything in a sorted a whose head exceeds y is untied with whatever ties with y. */
  lemma GreaterHasNoTies<E>(less: (E, E) -> bool, S: set<E>, a: seq<E>, y: E, x: E)
    requires StrictWeakOrder(less, S) && Within(a, S) && x in S && y in S && a != []
    requires Sorted(less, a) && less(y, a[0]) && Tied(less, y, x)
    ensures Ties(less, a, x) == []
  {
    forall i | 0 <= i < |a| ensures !Tied(less, a[i], x) {
      assert less(y, a[i]) by {
        if i > 0 {
          LessThenNotLess(less, S, y, a[0], a[i]);
        }
      }
      assert TransitiveAt(less, a[i], x, y);
    }
    NoTies(less, a, x);
  }

  lemma {:induction false} MergeStable<E>(less: (E, E) -> bool, S: set<E>, a: seq<E>, b: seq<E>, x: E)
    requires StrictWeakOrder(less, S) && Within(a, S) && Within(b, S) && x in S
    requires Sorted(less, a) && Sorted(less, b)
    ensures Ties(less, Merge(less, a, b), x) == Ties(less, a, x) + Ties(less, b, x)
    decreases |a| + |b|
  {
    hide StrictWeakOrder, Sorted, Merge, Ties, Tied;
    MergeHead(less, a, b);
    TiesNone(less, x);
    if a != [] && b != [] {
      SortedTail(less, S, a);
      SortedTail(less, S, b);
      TiesHead(less, a[0], a[1..], x);
      TiesHead(less, b[0], b[1..], x);
      assert a == [a[0]] + a[1..] && b == [b[0]] + b[1..];
      if !less(b[0], a[0]) {
        MergeStable(less, S, a[1..], b, x);
        TiesHead(less, a[0], Merge(less, a[1..], b), x);
      } else {
        MergeStable(less, S, a, b[1..], x);
        TiesHead(less, b[0], Merge(less, a, b[1..]), x);
        if Tied(less, b[0], x) {
          GreaterHasNoTies(less, S, a, b[0], x);
        }
      }
    }
  }

  lemma MergeHead<E>(less: (E, E) -> bool, a: seq<E>, b: seq<E>)
    ensures Merge(less, a, b) == if a == [] then b else if b == [] then a
                                 else if !less(b[0], a[0]) then [a[0]] + Merge(less, a[1..], b)
                                 else [b[0]] + Merge(less, a, b[1..])
  {
  }

  lemma TiesHead<E>(less: (E, E) -> bool, h: E, t: seq<E>, x: E)
    ensures Ties(less, [h] + t, x) == if Tied(less, h, x) then [h] + Ties(less, t, x) else Ties(less, t, x)
  {
    assert ([h] + t)[1..] == t;
  }

  lemma TiesNone<E>(less: (E, E) -> bool, x: E)
    ensures Ties(less, [], x) == []
  {
  }

  lemma SortedTail<E>(less: (E, E) -> bool, S: set<E>, s: seq<E>)
    requires Sorted(less, s) && Within(s, S) && s != []
    ensures Sorted(less, s[1..]) && Within(s[1..], S)
  {
  }

  // ----- one pass

  lemma PassUnfold<E>(less: (E, E) -> bool, s: seq<E>, n: nat, m: nat)
    requires s != [] && n == RunLength(less, s) && n < |s| && m == n + RunLength(less, s[n..])
    ensures Pass(less, s) == Merge(less, s[..n], s[n..m]) + Pass(less, s[m..])
    ensures PassRuns(less, s) == 1 + PassRuns(less, s[m..])
  {
    hide Merge, RunLength, Pass, PassRuns;
    PassTwo(less, s);
    PassRunsTwo(less, s);
  }

  lemma PassTwo<E>(less: (E, E) -> bool, s: seq<E>)
    requires s != [] && RunLength(less, s) < |s|
    ensures var n, m := RunLength(less, s), TwoRuns(less, s);
            Pass(less, s) == Merge(less, s[..n], s[n..m]) + Pass(less, s[m..])
  {
    hide Merge, RunLength, PassRuns, TwoRuns;
  }

  lemma PassRunsTwo<E>(less: (E, E) -> bool, s: seq<E>)
    requires s != [] && RunLength(less, s) < |s|
    ensures PassRuns(less, s) == 1 + PassRuns(less, s[TwoRuns(less, s)..])
  {
    hide Merge, RunLength, Pass, TwoRuns;
  }

  /** The two runs a pass merges first. */
  lemma PassSplit<E>(less: (E, E) -> bool, S: set<E>, s: seq<E>) returns (n: nat, m: nat)
    requires StrictWeakOrder(less, S) && Within(s, S) && s != [] && RunLength(less, s) < |s|
    ensures n == RunLength(less, s) && n < m <= |s| && m == n + RunLength(less, s[n..])
    ensures s == s[..n] + s[n..m] + s[m..] && Within(s[..n], S) && Within(s[n..m], S) && Within(s[m..], S)
    ensures Sorted(less, s[..n]) && Sorted(less, s[n..m])
    ensures Pass(less, s) == Merge(less, s[..n], s[n..m]) + Pass(less, s[m..])
  {
    hide Merge, StrictWeakOrder, Pass, RunLength, Sorted, Within;
    n := RunLength(less, s);
    m := n + RunLength(less, s[n..]);
    Parts(s, S, n, m);
    RunIsSorted(less, S, s);
    RunIsSorted(less, S, s[n..]);
    PassUnfold(less, s, n, m);
  }

  lemma Parts<E>(s: seq<E>, S: set<E>, n: nat, m: nat)
    requires n <= m <= |s| && Within(s, S)
    ensures s == s[..n] + s[n..m] + s[m..] && s[n..][..m - n] == s[n..m]
    ensures Within(s[..n], S) && Within(s[n..m], S) && Within(s[n..], S) && Within(s[m..], S)
  {
  }

  lemma {:induction false} PassElements<E>(less: (E, E) -> bool, s: seq<E>, S: set<E>)
    requires StrictWeakOrder(less, S) && Within(s, S)
    ensures multiset(Pass(less, s)) == multiset(s)
    decreases |s|
  {
    hide Merge, StrictWeakOrder;
    if s != [] && RunLength(less, s) < |s| {
      var n, m := PassSplit(less, S, s);
      PassElements(less, s[m..], S);
      MergeElements(less, s[..n], s[n..m]);
    }
  }

  lemma {:induction false} PassStable<E>(less: (E, E) -> bool, s: seq<E>, S: set<E>, x: E)
    requires StrictWeakOrder(less, S) && Within(s, S) && x in S
    ensures Ties(less, Pass(less, s), x) == Ties(less, s, x)
    decreases |s|
  {
    hide Merge, StrictWeakOrder, Ties, Sorted;
    if s != [] && RunLength(less, s) < |s| {
      var n, m := PassSplit(less, S, s);
      PassStable(less, s[m..], S, x);
      MergeStable(less, S, s[..n], s[n..m], x);
      TiesAppend(less, Merge(less, s[..n], s[n..m]), Pass(less, s[m..]), x);
      TiesAppend(less, s[..n] + s[n..m], s[m..], x);
      TiesAppend(less, s[..n], s[n..m], x);
    }
  }

  lemma PassIsStablePermutation<E>(less: (E, E) -> bool, s: seq<E>, S: set<E>)
    requires StrictWeakOrder(less, S) && Within(s, S)
    ensures StablePermutation(less, s, Pass(less, s))
    ensures Within(Pass(less, s), S)
  {
    PassElements(less, s, S);
    ElementsWithin(s, Pass(less, s), S);
    forall x | x in s ensures Ties(less, Pass(less, s), x) == Ties(less, s, x) {
      PassStable(less, s, S, x);
    }
  }

  lemma {:induction false} RunsAppend<E>(less: (E, E) -> bool, a: seq<E>, b: seq<E>)
    ensures Runs(less, a + b) <= Runs(less, a) + Runs(less, b)
  {
    if |a| == 0 {
      assert a + b == b;
    } else if |a| == 1 {
      assert (a + b)[1..] == b;
    } else {
      assert (a + b)[1..] == a[1..] + b;
      RunsAppend(less, a[1..], b);
    }
  }

  lemma {:induction false} RunsOfSorted<E>(less: (E, E) -> bool, s: seq<E>)
    requires Sorted(less, s)
    ensures Runs(less, s) <= 1
  {
    if |s| > 1 {
      RunsOfSorted(less, s[1..]);
    }
  }

  lemma {:induction false} RunsSplit<E>(less: (E, E) -> bool, s: seq<E>)
    requires s != []
    ensures Runs(less, s) == 1 + Runs(less, s[RunLength(less, s)..])
  {
    if |s| > 1 && !less(s[1], s[0]) {
      RunsSplit(less, s[1..]);
      assert s[1..][RunLength(less, s[1..])..] == s[RunLength(less, s)..];
    }
  }

  /** A pass takes two runs for each one it puts out, and what it puts out has
      no more runs than that. */
  lemma {:induction false} PassHalvesRuns<E>(less: (E, E) -> bool, s: seq<E>, S: set<E>)
    requires StrictWeakOrder(less, S) && Within(s, S)
    ensures PassRuns(less, s) == (Runs(less, s) + 1) / 2
    ensures Runs(less, Pass(less, s)) <= (Runs(less, s) + 1) / 2
    decreases |s|
  {
    hide Merge, StrictWeakOrder, Sorted, Pass, PassRuns, Runs, RunLength;
    if s == [] || RunLength(less, s) == |s| {
      PassOne(less, s);
    } else {
      var n, m := PassSplit(less, S, s);
      RunsAfterTwo(less, s, n, m);
      PassHalvesRuns(less, s[m..], S);
      MergedRuns(less, S, s[..n], s[n..m], Pass(less, s[m..]));
      PassUnfold(less, s, n, m);
    }
  }

  /** At most one run: the pass leaves it alone. */
  lemma PassOne<E>(less: (E, E) -> bool, s: seq<E>)
    requires s == [] || RunLength(less, s) == |s|
    ensures Pass(less, s) == s && PassRuns(less, s) == Runs(less, s) == if s == [] then 0 else 1
  {
    if s != [] {
      RunsSplit(less, s);
    }
  }

  lemma RunsAfterTwo<E>(less: (E, E) -> bool, s: seq<E>, n: nat, m: nat)
    requires s != [] && n == RunLength(less, s) && n < |s| && m == n + RunLength(less, s[n..])
    ensures Runs(less, s) == 2 + Runs(less, s[m..])
  {
    hide RunLength;
    RunsSplit(less, s);
    RunsSplit(less, s[n..]);
    assert s[n..][m - n..] == s[m..];
  }

  lemma MergedRuns<E>(less: (E, E) -> bool, S: set<E>, a: seq<E>, b: seq<E>, rest: seq<E>)
    requires StrictWeakOrder(less, S) && Within(a, S) && Within(b, S)
    requires Sorted(less, a) && Sorted(less, b)
    ensures Runs(less, Merge(less, a, b) + rest) <= 1 + Runs(less, rest)
  {
    MergeSorted(less, S, a, b);
    RunsOfSorted(less, Merge(less, a, b));
    RunsAppend(less, Merge(less, a, b), rest);
  }

  /** A pass that puts out at most one run has sorted the sequence. */
  lemma LastPassSorts<E>(less: (E, E) -> bool, s: seq<E>, S: set<E>)
    requires StrictWeakOrder(less, S) && Within(s, S) && PassRuns(less, s) <= 1
    ensures Sorted(less, Pass(less, s))
  {
    hide Merge, StrictWeakOrder;
    if s != [] {
      if RunLength(less, s) == |s| {
        RunIsSorted(less, S, s);
        assert s[..|s|] == s;
      } else {
        var n, m := PassSplit(less, S, s);
        assert PassRuns(less, s[m..]) == 0;
        assert s[m..] == [];
        MergeSorted(less, S, s[..n], s[n..m]);
        assert Pass(less, s) == Merge(less, s[..n], s[n..m]);
      }
    }
  }

  // ----- the sort

  /** The sort leaves a sorted, stable permutation of its input. */
  lemma {:induction false} SortCorrect<E>(less: (E, E) -> bool, s: seq<E>, S: set<E>)
    requires StrictWeakOrder(less, S) && Within(s, S)
    ensures Sorted(less, Sort(less, s, S))
    ensures StablePermutation(less, s, Sort(less, s, S))
    decreases Runs(less, s)
  {
    var p := Pass(less, s);
    PassIsStablePermutation(less, s, S);
    PassHalvesRuns(less, s, S);
    if PassRuns(less, s) > 1 {
      SortCorrect(less, p, S);
      var t := Sort(less, p, S);
      forall x | x in s ensures Ties(less, t, x) == Ties(less, s, x) {
        assert x in multiset(p);
        assert x in p;
      }
    } else {
      LastPassSorts(less, s, S);
    }
  }

  function Exp2(k: nat): nat {
    if k == 0 then 1 else 2 * Exp2(k - 1)
  }

  /** With at most 2^k runs to begin with, at most k + 1 passes are made. */
  lemma {:induction false} PassesLogarithmic<E>(less: (E, E) -> bool, s: seq<E>, S: set<E>, k: nat)
    requires StrictWeakOrder(less, S) && Within(s, S) && Runs(less, s) <= Exp2(k)
    ensures Passes(less, s, S) <= k + 1
    decreases k
  {
    hide Pass, PassRuns, Runs, Passes, StrictWeakOrder, Within;
    var p := NextPass(less, s, S);
    if PassRuns(less, s) > 1 {
      PassesLogarithmic(less, p, S, k - 1);
    }
  }

  lemma NextPass<E>(less: (E, E) -> bool, s: seq<E>, S: set<E>) returns (p: seq<E>)
    requires StrictWeakOrder(less, S) && Within(s, S)
    ensures p == Pass(less, s) && Within(p, S)
    ensures 2 * Runs(less, p) <= Runs(less, s) + 1 && 2 * PassRuns(less, s) <= Runs(less, s) + 1
    ensures Passes(less, s, S) == if PassRuns(less, s) > 1 then 1 + Passes(less, p, S) else 1
  {
    PassIsStablePermutation(less, s, S);
    PassHalvesRuns(less, s, S);
    p := Pass(less, s);
  }

  /** A sorted stable permutation is unique, so the results above fix what
      list_sort computes. */
  lemma {:induction false} SortedStableUnique<E>(less: (E, E) -> bool, S: set<E>, t: seq<E>, u: seq<E>)
    requires StrictWeakOrder(less, S) && Within(t, S) && Within(u, S)
    requires Sorted(less, t) && Sorted(less, u)
    requires forall x | x in S :: Ties(less, t, x) == Ties(less, u, x)
    ensures t == u
    decreases |t|
  {
    if t != [] {
      TiesOwnHead(less, S, t);
    }
    if u != [] {
      TiesOwnHead(less, S, u);
    }
    if t != [] && u != [] {
      SameHead(less, S, t, u);
      forall x | x in S ensures Ties(less, t[1..], x) == Ties(less, u[1..], x) {
        var c := if Tied(less, t[0], x) then [t[0]] else [];
        assert (c + Ties(less, t[1..], x))[|c|..] == Ties(less, t[1..], x);
        assert (c + Ties(less, u[1..], x))[|c|..] == Ties(less, u[1..], x);
      }
      SortedStableUnique(less, S, t[1..], u[1..]);
      assert t == [t[0]] + t[1..] && u == [u[0]] + u[1..];
    }
  }

  lemma TiesOwnHead<E>(less: (E, E) -> bool, S: set<E>, s: seq<E>)
    requires StrictWeakOrder(less, S) && Within(s, S) && s != []
    ensures |Ties(less, s, s[0])| > 0 && Ties(less, s, s[0])[0] == s[0]
  {
  }

  lemma SameHead<E>(less: (E, E) -> bool, S: set<E>, t: seq<E>, u: seq<E>)
    requires StrictWeakOrder(less, S) && Within(t, S) && Within(u, S) && t != [] && u != []
    requires Sorted(less, t) && Sorted(less, u)
    requires forall x | x in S :: Ties(less, t, x) == Ties(less, u, x)
    ensures t[0] == u[0]
  {
    TiesOwnHead(less, S, t);
    TiesOwnHead(less, S, u);
    if less(t[0], u[0]) {
      GreaterHasNoTies(less, S, u, t[0], t[0]);
    } else if less(u[0], t[0]) {
      GreaterHasNoTies(less, S, t, u[0], u[0]);
    } else {
      assert Ties(less, u, t[0])[0] == u[0];
    }
  }
}
