/** The intrusive doubly linked list of kernel/list.c on a heap of elements.

    A list is described by the sequence of its elements from head sentinel to
    tail sentinel. Element-level operations take that sequence as a ghost
    argument, since the code never names the list; the code's ASSERTs appear as
    assertions. */
module LinkedList {
  import opened Common
  import opened NaturalMergeSort

  class Elem {
    var prev: Elem?
    var next: Elem?
    constructor ()
      ensures prev == null && next == null
    {
      prev, next := null, null;
    }
  }

  /** s is a whole list, sentinels included: next and prev are mutually inverse
      along it and null at its ends. */
  ghost predicate Chain(s: seq<Elem>)
    reads s
  {
    && |s| >= 2
    && Distinct(s)
    && s[0].prev == null && s[|s| - 1].next == null
    && Linked(s)
  }

  /** Neighbours in s point at each other. */
  ghost predicate Linked(s: seq<Elem>)
    reads s
  {
    && (forall i {:trigger s[i].next} :: 0 <= i < |s| - 1 ==> s[i].next == s[i + 1])
    && (forall i {:trigger s[i].prev} :: 0 < i < |s| ==> s[i].prev == s[i - 1])
  }

  ghost predicate Joined(a: seq<Elem>, b: seq<Elem>)
    requires a != [] && b != []
    reads a, b
  {
    a[|a| - 1].next == b[0] && b[0].prev == a[|a| - 1]
  }

  lemma LinkedAppend(a: seq<Elem>, b: seq<Elem>)
    requires a != [] && b != [] && Linked(a) && Linked(b) && Joined(a, b)
    ensures Linked(a + b)
  {
  }

  lemma ChainOfThree(a: seq<Elem>, b: seq<Elem>, c: seq<Elem>)
    requires a != [] && b != [] && c != []
    requires Linked(a) && Linked(b) && Linked(c) && Joined(a, b) && Joined(b, c)
    requires Distinct(a + b + c) && a[0].prev == null && c[|c| - 1].next == null
    ensures Chain(a + b + c)
  {
    LinkedAppend(a, b);
    LinkedAppend(a + b, c);
  }

  ghost predicate IsInterior(e: Elem)
    reads e
  {
    e.prev != null && e.next != null
  }

  ghost predicate IsHead(e: Elem)
    reads e
  {
    e.prev == null && e.next != null
  }

  ghost predicate IsTail(e: Elem)
    reads e
  {
    e.prev != null && e.next == null
  }

  /** list_next */
  method Next(e: Elem, ghost s: seq<Elem>, ghost i: nat) returns (r: Elem)
    requires Chain(s) && i + 1 < |s| && s[i] == e
    ensures r == s[i + 1]
  {
    assert IsHead(e) || IsInterior(e);
    r := e.next;
  }

  /** list_prev */
  method Prev(e: Elem, ghost s: seq<Elem>, ghost i: nat) returns (r: Elem)
    requires Chain(s) && 0 < i < |s| && s[i] == e
    ensures r == s[i - 1]
  {
    assert IsInterior(e) || IsTail(e);
    r := e.prev;
  }

  /** list_insert: elem goes just before s[k]. */
  method Insert(before: Elem, elem: Elem, ghost s: seq<Elem>, ghost k: nat)
    requires Chain(s) && 0 < k < |s| && s[k] == before && elem !in s
    modifies s[k - 1], before, elem
    ensures Chain(s[..k] + [elem] + s[k..])
  {
    assert IsInterior(before) || IsTail(before);
    elem.prev := before.prev;
    elem.next := before;
    before.prev.next := elem;
    before.prev := elem;
  }

  /** list_remove: e leaves; its own links keep their old values. */
  method Remove(e: Elem, ghost s: seq<Elem>, ghost k: nat) returns (r: Elem)
    requires Chain(s) && 0 < k < |s| - 1 && s[k] == e
    modifies s[k - 1], s[k + 1]
    ensures Chain(s[..k] + s[k + 1..])
    ensures r == s[k + 1] && e.prev == s[k - 1] && e.next == s[k + 1]
  {
    assert IsInterior(e);
    e.prev.next := e.next;
    e.next.prev := e.prev;
    r := e.next;
  }

  /** s with the elements i up to j moved to just before the element at k. */
  ghost function Moved(s: seq<Elem>, i: nat, j: nat, k: nat): seq<Elem>
    requires i <= j <= |s| && k <= |s| && (k <= i || j <= k)
  {
    if k <= i then s[..k] + s[i..j] + s[k..i] + s[j..]
    else s[..i] + s[j..k] + s[i..j] + s[k..]
  }

  /** list_splice. The elements s[i] up to s[j] (exclusive) move to just before
      d[k], where d is either the same list or another one. The element moved
      before must not itself be among those moved. */
  method Splice(before: Elem, first: Elem, last: Elem,
                ghost s: seq<Elem>, ghost i: nat, ghost j: nat, ghost d: seq<Elem>, ghost k: nat)
    requires Chain(s) && 0 < i <= j < |s| && s[i] == first && s[j] == last
    requires Chain(d) && 0 < k < |d| && d[k] == before
    requires if d == s then k < i || j <= k else Apart(s, d)
    modifies s, d
    ensures d == s ==> Chain(Moved(s, i, j, k))
    ensures d != s ==> Chain(s[..i] + s[j..]) && Chain(d[..k] + s[i..j] + d[k..])
  {
    hide Chain, Linked, Distinct, Moved, Apart;
    Around(d, k);
    Around(s, i);
    assert IsInterior(before) || IsTail(before);
    if first == last {
      NothingMoved(s, i, j, d, k);
      return;
    }
    var end := Prev(last, s, j);
    Around(s, j - 1);
    assert IsInterior(first) && IsInterior(end);
    ghost var into, at := Target(s, i, j, d, k);
    Cut(first, end, s, i, j);
    assert s[i..j][0] == first && s[i..j][|s[i..j]| - 1] == end;
    Paste(before, first, end, into, at, s[i..j]);
  }

  lemma Around(s: seq<Elem>, k: nat)
    requires Chain(s) && k < |s|
    ensures Distinct(s)
    ensures 0 < k ==> s[k].prev == s[k - 1]
    ensures s[k].next == if k + 1 < |s| then s[k + 1] else null
  {
  }

  lemma NothingMoved(s: seq<Elem>, i: nat, j: nat, d: seq<Elem>, k: nat)
    requires Distinct(s) && 0 < i <= j < |s| && s[i] == s[j] && k < |d|
    ensures i == j && s[..i] + s[j..] == s && d[..k] + s[i..j] + d[k..] == d
    ensures d == s ==> Moved(s, i, j, k) == s
  {
  }

  /** No element of a is in b. */
  ghost predicate Apart(a: seq<Elem>, b: seq<Elem>) {
    forall x, y :: 0 <= x < |a| && 0 <= y < |b| ==> a[x] != b[y]
  }

  /** Where the segment is pasted once it has been cut: position at of into. */
  lemma Target(s: seq<Elem>, i: nat, j: nat, d: seq<Elem>, k: nat) returns (into: seq<Elem>, at: nat)
    requires Distinct(s) && Distinct(d) && 0 < i < j < |s| && 0 < k < |d|
    requires if d == s then k < i || j <= k else Apart(s, d)
    ensures 0 < at < |into| && into[at] == d[k] && into[at - 1] in s + d
    ensures Distinct(s[i..j]) && Apart(s[i..j], into)
    ensures d == s ==> into == s[..i] + s[j..] && into[..at] + s[i..j] + into[at..] == Moved(s, i, j, k)
    ensures d != s ==> into == d && at == k && s[i - 1] !in d && s[j] !in d
    ensures d != s ==> {d[k - 1], d[k], s[i], s[j - 1]} !! (set e | e in s[..i] + s[j..])
  {
    CutPieces(s, i, j);
    into, at := d, k;
    if d == s {
      into, at := s[..i] + s[j..], if k < i then k else k - (j - i);
      MovedByCut(s, i, j, k);
    }
  }

  /** The segment taken out and what is left behind share nothing. */
  lemma CutPieces(s: seq<Elem>, i: nat, j: nat)
    requires Distinct(s) && i <= j <= |s|
    ensures Distinct(s[i..j]) && Distinct(s[..i] + s[j..])
    ensures Apart(s[i..j], s[..i] + s[j..])
  {
  }

  lemma MovedByCut(s: seq<Elem>, i: nat, j: nat, k: nat)
    requires i <= j <= |s| && k < |s| && (k < i || j <= k)
    ensures var rest, at := s[..i] + s[j..], if k < i then k else k - (j - i);
            at < |rest| && rest[at] == s[k] && rest[..at] + s[i..j] + rest[at..] == Moved(s, i, j, k)
  {
  }

  /** The first half of list_splice: first through end leave their list, and
      stay linked among themselves. */
  method Cut(first: Elem, end: Elem, ghost s: seq<Elem>, ghost i: nat, ghost j: nat)
    requires Chain(s) && 0 < i < j < |s| && s[i] == first && s[j - 1] == end
    modifies s[i - 1], s[j]
    ensures Chain(s[..i] + s[j..]) && Linked(s[i..j])
  {
    first.prev.next := end.next;
    end.next.prev := first.prev;
    assert Linked(s[..i]) && Linked(s[j..]) && Joined(s[..i], s[j..]);
    LinkedAppend(s[..i], s[j..]);
  }

  /** The second half: the segment b, from first to end, goes in before d[k]. */
  method Paste(before: Elem, first: Elem, end: Elem, ghost d: seq<Elem>, ghost k: nat, ghost b: seq<Elem>)
    requires Chain(d) && 0 < k < |d| && d[k] == before
    requires Linked(b) && Distinct(b) && b != [] && b[0] == first && b[|b| - 1] == end
    requires Apart(b, d)
    modifies d[k - 1], before, first, end
    ensures Chain(d[..k] + b + d[k..])
    ensures forall y :: 0 <= y < |d| && y != k - 1 ==> d[y].next == old(d[y].next)
    ensures forall y :: 0 <= y < |d| && y != k ==> d[y].prev == old(d[y].prev)
  {
    first.prev := before.prev;
    end.next := before;
    before.prev.next := first;
    before.prev := end;
    assert Linked(d[..k]) && Linked(b) && Linked(d[k..]);
    assert Joined(d[..k], b) && Joined(b, d[k..]);
    ChainOfThree(d[..k], b, d[k..]);
  }

  /** is_sorted, on the elements s[i] up to s[j]. */
  method IsSorted(a: Elem, b: Elem, less: (Elem, Elem) -> bool, ghost s: seq<Elem>, ghost i: nat, ghost j: nat)
    returns (r: bool)
    requires Chain(s) && 0 < i <= j < |s| && s[i] == a && s[j] == b
    ensures r <==> NoDescent(less, s[i..j])
  {
    hide Chain, Linked, Distinct;
    if i < j {
      Apart1(s, i, j);
    }
    if a != b {
      var e, k := a, i;
      while true
        invariant i <= k < j && e == s[k]
        invariant forall m :: 0 < m <= k - i ==> !Descent(less, s[i..j], m)
        decreases j - k
      {
        e := Next(e, s, k);
        k := k + 1;
        if k < j {
          Apart1(s, k, j);
        }
        if e == b {
          return true;
        }
        var p := Prev(e, s, k);
        assert Descent(less, s[i..j], k - i) == less(e, p);
        if less(e, p) {
          return false;
        }
      }
    }
    return true;
  }

  lemma Apart1(s: seq<Elem>, i: nat, j: nat)
    requires Chain(s) && i < j < |s|
    ensures s[i] != s[j]
  {
  }

  ghost predicate NoDescent(less: (Elem, Elem) -> bool, x: seq<Elem>) {
    forall m :: 0 < m < |x| ==> !Descent(less, x, m)
  }

  /** find_end_of_run */
  method FindEndOfRun(a: Elem, b: Elem, less: (Elem, Elem) -> bool, ghost s: seq<Elem>, ghost i: nat, ghost j: nat)
    returns (r: Elem)
    requires Chain(s) && 0 < i < j < |s| && s[i] == a && s[j] == b
    ensures r == s[i + RunLength(less, s[i..j])]
  {
    hide Chain, Linked, Distinct, RunLength;
    ghost var k := i;
    r := a;
    while true
      invariant i <= k < j && r == s[k]
      invariant forall m :: 0 < m <= k - i ==> !Descent(less, s[i..j], m)
      decreases j - k
    {
      r := Next(r, s, k);
      k := k + 1;
      if k < j {
        Apart1(s, k, j);
      }
      if r == b {
        RunLengthIs(less, s[i..j], k - i);
        return;
      }
      var p := Prev(r, s, k);
      assert Descent(less, s[i..j], k - i) == less(r, p);
      if less(r, p) {
        RunLengthIs(less, s[i..j], k - i);
        return;
      }
    }
  }

  lemma RunLengthIs(less: (Elem, Elem) -> bool, x: seq<Elem>, n: nat)
    requires 1 <= n <= |x|
    requires forall m :: 0 < m < n ==> !Descent(less, x, m)
    requires n < |x| ==> Descent(less, x, n)
    ensures RunLength(less, x) == n
  {
    hide RunLength;
  }

  /** A merge in progress on the list t: the elements from n up to lo are done,
      and what is still to do is the merge of lo up to mid with mid up to hi. */
  ghost predicate Merging(less: (Elem, Elem) -> bool, t: seq<Elem>, n: nat, lo: nat, mid: nat, hi: nat, m: seq<Elem>) {
    0 < n <= lo <= mid <= hi < |t| && t[n..lo] + Merge(less, t[lo..mid], t[mid..hi]) == m
  }

  /** The list s with its part from n up to hi replaced by m. */
  ghost function WithPart(s: seq<Elem>, n: nat, hi: nat, m: seq<Elem>): seq<Elem>
    requires n <= hi <= |s|
  {
    s[..n] + m + s[hi..]
  }

  /** inplace_merge of the adjacent runs s[n..mid] and s[mid..hi]. */
  method InplaceMerge(first: Elem, second: Elem, b1: Elem, less: (Elem, Elem) -> bool,
                      ghost s: seq<Elem>, ghost n: nat, ghost mid: nat, ghost hi: nat, ghost R: set<Elem>)
    requires Within(s, R)
    requires Chain(s) && 0 < n < mid < hi < |s|
    requires first == s[n] && second == s[mid] && b1 == s[hi]
    requires NoDescent(less, s[n..mid]) && NoDescent(less, s[mid..hi])
    modifies R
    ensures Chain(WithPart(s, n, hi, Merge(less, s[n..mid], s[mid..hi])))
  {
    hide Chain, Linked, Distinct, Merge, Moved, NoDescent, Merging, WithPart;
    var sorted := IsSorted(first, second, less, s, n, mid);
    assert sorted;
    sorted := IsSorted(second, b1, less, s, mid, hi);
    assert sorted;
    var a0, a1b0 := first, second;
    ghost var m := Merge(less, s[n..mid], s[mid..hi]);
    ghost var t, i, j := s, n, mid;
    MergingStart(less, s, n, mid, hi);
    while a0 != a1b0 && a1b0 != b1
      invariant Chain(t) && |t| == |s| && Within(t, R)
      invariant n <= i <= j <= hi
      invariant a0 == t[i] && a1b0 == t[j] && b1 == t[hi]
      invariant Merging(less, t, n, i, j, hi, m) && WithPart(t, n, hi, m) == WithPart(s, n, hi, m)
      decreases hi - i
    {
      if !less(a1b0, a0) {
        MergingAdvance(less, t, n, i, j, hi, m);
        a0 := Next(a0, t, i);
        i := i + 1;
      } else {
        MergingSplice(less, t, n, i, j, hi, m);
        a1b0 := Next(a1b0, t, j);
        var e := Prev(a1b0, t, j + 1);
        Splice(a0, e, a1b0, t, j, j + 1, t, i);
        t, i, j := Moved(t, j, j + 1, i), i + 1, j + 1;
      }
    }
    MergingEnd(less, t, n, i, j, hi, m);
  }

  lemma MergingStart(less: (Elem, Elem) -> bool, s: seq<Elem>, n: nat, mid: nat, hi: nat)
    requires 0 < n < mid < hi < |s|
    ensures Merging(less, s, n, n, mid, hi, Merge(less, s[n..mid], s[mid..hi]))
  {
    hide Merge;
    var m := Merge(less, s[n..mid], s[mid..hi]);
    assert s[n..n] + m == m;
  }

  lemma MergingAdvance(less: (Elem, Elem) -> bool, t: seq<Elem>, n: nat, i: nat, j: nat, hi: nat, m: seq<Elem>)
    requires Merging(less, t, n, i, j, hi, m) && t[i] != t[j] && t[j] != t[hi] && !less(t[j], t[i])
    ensures i < j < hi && Merging(less, t, n, i + 1, j, hi, m)
  {
    hide Merge;
    MergeHead(less, t[i..j], t[j..hi]);
    assert t[i..j][1..] == t[i + 1..j];
    assert t[n..i + 1] == t[n..i] + [t[i]];
  }

  lemma Rebracket(x: seq<Elem>, e: Elem, y: seq<Elem>)
    ensures x + ([e] + y) == x + [e] + y
  {
  }

  lemma MergingSplice(less: (Elem, Elem) -> bool, t: seq<Elem>, n: nat, i: nat, j: nat, hi: nat, m: seq<Elem>)
    requires Merging(less, t, n, i, j, hi, m) && t[i] != t[j] && t[j] != t[hi] && less(t[j], t[i])
    ensures i < j < hi
    ensures var u := Moved(t, j, j + 1, i);
            && |u| == |t| && u[i + 1] == t[i] && u[j + 1] == t[j + 1] && u[hi] == t[hi]
            && (forall S :: Within(t, S) ==> Within(u, S))
            && Merging(less, u, n, i + 1, j + 1, hi, m)
            && WithPart(u, n, hi, m) == WithPart(t, n, hi, m)
  {
    hide Merge, Moved, Within;
    var u := Moved(t, j, j + 1, i);
    MovedOne(t, i, j, n, hi);
    MergeHead(less, t[i..j], t[j..hi]);
    Rebracket(t[n..i], t[j], Merge(less, u[i + 1..j + 1], u[j + 1..hi]));
  }

  lemma MovedOne(t: seq<Elem>, i: nat, j: nat, n: nat, hi: nat)
    requires n <= i < j < hi < |t|
    ensures var u := Moved(t, j, j + 1, i);
            && |u| == |t| && u[i + 1] == t[i] && u[j + 1] == t[j + 1] && u[hi] == t[hi]
            && u[..n] == t[..n] && u[hi..] == t[hi..] && u[n..i + 1] == t[n..i] + [t[j]]
            && u[i + 1..j + 1] == t[i..j] && u[j + 1..hi] == t[j..hi][1..]
            && (forall S :: Within(t, S) ==> Within(u, S))
  {
    hide Moved;
    MovedOneAt(t, i, j);
    var u := Moved(t, j, j + 1, i);
    assert u[..n] == t[..n];
    assert u[hi..] == t[hi..];
    assert u[i + 1..j + 1] == t[i..j];
    assert u[j + 1..hi] == t[j..hi][1..];
  }

  lemma MovedOneAt(t: seq<Elem>, i: nat, j: nat)
    requires i < j < |t|
    ensures var u := Moved(t, j, j + 1, i);
            |u| == |t| && forall k :: 0 <= k < |u| ==>
                u[k] == t[if k < i || j < k then k else if k == i then j else k - 1]
  {
  }

  lemma MergingEnd(less: (Elem, Elem) -> bool, t: seq<Elem>, n: nat, i: nat, j: nat, hi: nat, m: seq<Elem>)
    requires Chain(t) && Merging(less, t, n, i, j, hi, m) && (t[i] == t[j] || t[j] == t[hi])
    ensures WithPart(t, n, hi, m) == t
  {
    hide Merge;
    assert i == j || j == hi;
    MergeHead(less, t[i..j], t[j..hi]);
    ThreeSlices(t, n, i, j, hi);
  }

  lemma ThreeSlices(t: seq<Elem>, n: nat, i: nat, j: nat, hi: nat)
    requires n <= i <= j <= hi <= |t|
    ensures t[n..i] + (t[i..j] + t[j..hi]) == t[n..hi] && t[..n] + t[n..hi] + t[hi..] == t
    ensures (i == j ==> t[i..j] == []) && (j == hi ==> t[j..hi] == [])
  {
  }

  ghost function Reversed(s: seq<Elem>): (r: seq<Elem>)
    ensures |r| == |s| && forall i :: 0 <= i < |s| ==> r[i] == s[|s| - 1 - i]
  {
    if s == [] then [] else Reversed(s[1..]) + [s[0]]
  }

  /** list_reverse's walk: every interior element's two links change places. */
  method SwapLinks(head: Elem, tail: Elem, ghost s: seq<Elem>)
    requires Chain(s) && |s| >= 3 && head == s[0] && tail == s[|s| - 1]
    modifies s[1..|s| - 1]
    ensures forall i {:trigger s[i].next} :: 0 < i < |s| - 1 ==> s[i].next == s[i - 1]
    ensures forall i {:trigger s[i].prev} :: 0 < i < |s| - 1 ==> s[i].prev == s[i + 1]
    ensures head.next == old(head.next) && head.prev == null && tail.prev == old(tail.prev) && tail.next == null
  {
    ghost var n := |s| - 1;
    var e := head.next;
    ghost var k := 1;
    while e != tail
      invariant 1 <= k <= n && e == s[k]
      invariant head.next == s[1] && head.prev == null && tail.prev == s[n - 1] && tail.next == null
      invariant forall i {:trigger s[i].next} :: 1 <= i < k ==> s[i].next == s[i - 1]
      invariant forall i {:trigger s[i].prev} :: 1 <= i < k ==> s[i].prev == s[i + 1]
      invariant forall i {:trigger s[i].next} :: k <= i < n ==> s[i].next == s[i + 1]
      invariant forall i {:trigger s[i].prev} :: k <= i < n ==> s[i].prev == s[i - 1]
      decreases n - k
    {
      assert e == s[1..n][k - 1];
      e.prev, e.next := e.next, e.prev;
      e := e.prev;
      k := k + 1;
    }
  }

  /** list_reverse's last four stores, at the sentinels and the ends. */
  method SwapEnds(head: Elem, tail: Elem, ghost s: seq<Elem>, ghost t: seq<Elem>)
    requires |t| == |s| >= 3 && Distinct(s) && head == t[0] == s[0] && tail == t[|s| - 1] == s[|s| - 1]
    requires forall i :: 0 < i < |s| - 1 ==> t[i] == s[|s| - 1 - i]
    requires forall i {:trigger s[i].next} :: 0 < i < |s| - 1 ==> s[i].next == s[i - 1]
    requires forall i {:trigger s[i].prev} :: 0 < i < |s| - 1 ==> s[i].prev == s[i + 1]
    requires head.next == s[1] && head.prev == null && tail.prev == s[|s| - 2] && tail.next == null
    modifies s
    ensures Chain(t)
  {
    hide Chain, Linked;
    ghost var n := |s| - 1;
    head.next, tail.prev := tail.prev, head.next;
    assert head.next == s[n - 1] && tail.prev == s[1];
    head.next.prev, tail.prev.next := tail.prev.next, head.next.prev;
    MirrorIsChain(s, t);
  }

  /** The links of a reversed list: t is s with its middle turned around. */
  lemma MirrorIsChain(s: seq<Elem>, t: seq<Elem>)
    requires |t| == |s| >= 3 && Distinct(s) && t[0] == s[0] && t[|s| - 1] == s[|s| - 1]
    requires forall i :: 0 < i < |s| - 1 ==> t[i] == s[|s| - 1 - i]
    requires s[0].prev == null && s[|s| - 1].next == null
    requires s[0].next == s[|s| - 2] && s[|s| - 1].prev == s[1]
    requires forall i {:trigger s[i].next} :: 0 < i < |s| - 1 ==> s[i].next == if i == 1 then s[|s| - 1] else s[i - 1]
    requires forall i {:trigger s[i].prev} :: 0 < i < |s| - 1 ==> s[i].prev == if i == |s| - 2 then s[0] else s[i + 1]
    ensures Chain(t)
  {
    var n := |s| - 1;
    forall i, j | 0 <= i < j < |t| ensures t[i] != t[j] {
      assert s[if 0 < i then n - i else 0] != s[if j < n then n - j else n];
    }
    forall i | 0 <= i < n ensures t[i].next == t[i + 1] {
      if 0 < i {
        assert t[i] == s[n - i];
      }
    }
    forall i | 0 < i <= n ensures t[i].prev == t[i - 1] {
      if i < n {
        assert t[i] == s[n - i];
      }
    }
  }

  /** struct list: the two sentinels, and the sequence of its interior elements. */
  class List {
    const head: Elem
    const tail: Elem
    ghost var elems: seq<Elem>

    ghost function Whole(): seq<Elem>
      reads this
    {
      [head] + elems + [tail]
    }

    ghost predicate Valid()
      reads this, Whole()
    {
      Chain(Whole())
    }

    /** list_init */
    constructor ()
      ensures Valid() && elems == [] && fresh(head) && fresh(tail)
    {
      var h := new Elem();
      var t := new Elem();
      h.prev := null;
      h.next := t;
      t.prev := h;
      t.next := null;
      head, tail, elems := h, t, [];
    }

    /** list_reverse. Every element's links are swapped in one walk; the two
        final swaps repair the sentinels and the ends. */
    method Reverse()
      requires Valid()
      modifies this, Whole()
      ensures Valid() && elems == Reversed(old(elems))
    {
      ghost var s, n := Whole(), |Whole()| - 1;
      assert s[0] == head && s[n] == tail;
      if head.next != tail {
        SwapLinks(head, tail, s);
        SwapEnds(head, tail, s, [head] + Reversed(elems) + [tail]);
        elems := Reversed(elems);
      }
    }

    /** Ends of the two runs that start at elems[k], as list_sort finds them. */
    ghost function FirstEnd(less: (Elem, Elem) -> bool, k: nat): (mid: nat)
      requires k < |elems|
      reads this
      ensures k < mid <= |elems|
    {
      k + RunLength(less, elems[k..])
    }

    ghost function SecondEnd(less: (Elem, Elem) -> bool, k: nat): (hi: nat)
      requires k < |elems| && FirstEnd(less, k) < |elems|
      reads this
      ensures FirstEnd(less, k) < hi <= |elems|
    {
      FirstEnd(less, k) + RunLength(less, elems[FirstEnd(less, k)..])
    }

    ghost function MergedRuns(less: (Elem, Elem) -> bool, k: nat): seq<Elem>
      requires k < |elems| && FirstEnd(less, k) < |elems|
      reads this
    {
      var mid, hi := FirstEnd(less, k), SecondEnd(less, k);
      WithPart(elems, k, hi, Merge(less, elems[k..mid], elems[mid..hi]))
    }

    /** The body of list_sort's inner loop: locate two adjacent runs from
        elems[k] on and merge them, or find that the rest is a single run. */
    method SortRound(a0: Elem, less: (Elem, Elem) -> bool, ghost k: nat, ghost R: set<Elem>)
      returns (last: bool, b1: Elem)
      requires Valid() && k < |elems| && a0 == elems[k] && Within(Whole(), R)
      modifies this, R
      ensures Valid() && Within(Whole(), R) && |elems| == |old(elems)|
      ensures last <==> old(FirstEnd(less, k)) == |elems|
      ensures last ==> elems == old(elems)
      ensures !last ==> elems == old(MergedRuns(less, k)) && b1 == Whole()[old(SecondEnd(less, k)) + 1]
    {
      hide Chain, Linked, Distinct, Merge, RunLength, WithPart, Within;
      ghost var n, mid := |elems|, FirstEnd(less, k);
      WholeSlice(head, elems, tail, k, n);
      var a1b0 := FindEndOfRun(a0, tail, less, Whole(), k + 1, n + 1);
      if mid < n {
        Apart1(Whole(), mid + 1, n + 1);
      }
      if a1b0 == tail {
        return true, tail;
      }
      b1 := MergeTwoRuns(a0, a1b0, less, k, R);
      last := false;
    }

    method FindSecondEnd(a1b0: Elem, less: (Elem, Elem) -> bool, ghost k: nat) returns (b1: Elem)
      requires Valid() && k < |elems| && FirstEnd(less, k) < |elems| && a1b0 == elems[FirstEnd(less, k)]
      ensures b1 == Whole()[SecondEnd(less, k) + 1]
    {
      hide Chain, RunLength;
      ghost var mid := FirstEnd(less, k);
      WholeSlice(head, elems, tail, mid, |elems|);
      b1 := FindEndOfRun(a1b0, tail, less, Whole(), mid + 1, |elems| + 1);
    }

    method MergeTwoRuns(a0: Elem, a1b0: Elem, less: (Elem, Elem) -> bool, ghost k: nat, ghost R: set<Elem>)
      returns (b1: Elem)
      requires Valid() && k < |elems| && Within(Whole(), R) && FirstEnd(less, k) < |elems|
      requires a0 == elems[k] && a1b0 == elems[FirstEnd(less, k)]
      modifies this, R
      ensures Valid() && Within(Whole(), R) && |elems| == |old(elems)|
      ensures elems == old(MergedRuns(less, k)) && b1 == Whole()[old(SecondEnd(less, k)) + 1]
    {
      hide Chain, Linked, Distinct, Merge, RunLength, WithPart, NoDescent, Within;
      ghost var h, e, mid, hi := Whole(), MergedRuns(less, k), FirstEnd(less, k), SecondEnd(less, k);
      b1 := FindSecondEnd(a1b0, less, k);
      WholeRuns(head, elems, tail, k, mid, hi, less, R);
      InplaceMerge(a0, a1b0, b1, less, h, k + 1, mid + 1, hi + 1, R);
      elems := e;
    }

    /** One pass of list_sort's outer loop; each round puts out one run. */
    method SortPass(less: (Elem, Elem) -> bool, ghost R: set<Elem>) returns (runs: nat)
      requires Valid() && Within(Whole(), R)
      modifies this, R
      ensures Valid() && Within(Whole(), R)
      ensures elems == Pass(less, old(elems)) && runs == PassRuns(less, old(elems))
    {
      hide Chain, Linked, Distinct, Merge, Pass, PassRuns, RunLength, PassDone, WithPart, Within;
      ghost var s := elems;
      ghost var k: nat := 0;
      runs := 0;
      var a0 := Next(head, Whole(), 0);
      PassStart(less, elems);
      while a0 != tail
        invariant Valid() && Within(Whole(), R) && k <= |elems| && a0 == Whole()[k + 1]
        invariant PassDone(less, s, elems, k, runs)
        decreases |elems| - k
      {
        runs := runs + 1;
        ghost var e := elems;
        ghost var mid := FirstEnd(less, k);
        ghost var hi := if mid < |elems| then SecondEnd(less, k) else 0;
        var last, b1 := SortRound(a0, less, k, R);
        if last {
          PassLast(less, s, e, k, runs - 1);
          k := |elems|;
          break;
        }
        PassMore(less, s, e, k, mid, hi, runs - 1);
        k := hi;
        a0 := b1;
      }
      if k < |elems| {
        Apart1(Whole(), k + 1, |elems| + 1);
      }
      PassFinish(less, s, elems, runs);
    }

    /** list_sort: passes until one puts out at most one run. Its last assertion
        holds, and the passes are as many as PassesLogarithmic bounds. */
    method SortList(less: (Elem, Elem) -> bool, ghost S: set<Elem>) returns (ghost passes: nat)
      requires Valid() && StrictWeakOrder(less, S) && Within(elems, S)
      modifies this, Whole()
      ensures Valid() && elems == Sort(less, old(elems), S) && passes == Passes(less, old(elems), S)
      ensures Sorted(less, elems) && StablePermutation(less, old(elems), elems)
      ensures forall k: nat :: Runs(less, old(elems)) <= Exp2(k) ==> passes <= k + 1
    {
      hide Chain, Linked, Distinct, Pass, PassRuns, Runs, StrictWeakOrder, Sorted, StablePermutation, Passes, Exp2;
      hide NoDescent, Within;
      ghost var s := elems;
      ghost var R := set e | e in Whole();
      SortCorrect(less, s, S);
      AllPasses(less, s, S);
      AllWithin(Whole(), R);
      passes := 0;
      while true
        invariant Valid() && Within(elems, S) && Sort(less, elems, S) == Sort(less, s, S)
        invariant Within(Whole(), R) && passes + Passes(less, elems, S) == Passes(less, s, S)
        decreases Runs(less, elems)
      {
        PassIsStablePermutation(less, elems, S);
        PassHalvesRuns(less, elems, S);
        ghost var p := NextPass(less, elems, S);
        var runs := SortPass(less, R);
        passes := passes + 1;
        if runs <= 1 {
          break;
        }
      }
      var begin := Next(head, Whole(), 0);
      var sorted := IsSorted(begin, tail, less, Whole(), 1, |elems| + 1);
      SortedWhole(less, head, elems, tail);
      assert sorted;
    }
  }

  lemma SortedWhole(less: (Elem, Elem) -> bool, head: Elem, e: seq<Elem>, tail: Elem)
    requires Sorted(less, e)
    ensures NoDescent(less, ([head] + e + [tail])[1..|e| + 1])
  {
    WholeSlice(head, e, tail, 0, |e|);
    assert e[0..|e|] == e;
  }

  lemma AllWithin(s: seq<Elem>, R: set<Elem>)
    requires R == set e | e in s
    ensures Within(s, R)
  {
  }

  lemma AllPasses(less: (Elem, Elem) -> bool, s: seq<Elem>, S: set<Elem>)
    requires StrictWeakOrder(less, S) && Within(s, S)
    ensures forall k: nat :: Runs(less, s) <= Exp2(k) ==> Passes(less, s, S) <= k + 1
  {
    forall k: nat | Runs(less, s) <= Exp2(k) ensures Passes(less, s, S) <= k + 1 {
      PassesLogarithmic(less, s, S, k);
    }
  }

  ghost predicate PassDone(less: (Elem, Elem) -> bool, s: seq<Elem>, e: seq<Elem>, k: nat, runs: nat) {
    k <= |e| && e[..k] + Pass(less, e[k..]) == Pass(less, s) && runs + PassRuns(less, e[k..]) == PassRuns(less, s)
  }

  lemma WholeSlice(head: Elem, e: seq<Elem>, tail: Elem, k: nat, hi: nat)
    requires k <= hi <= |e|
    ensures ([head] + e + [tail])[k + 1..hi + 1] == e[k..hi] && (hi == |e| ==> e[k..hi] == e[k..])
  {
  }

  lemma WholePart(head: Elem, e: seq<Elem>, tail: Elem, k: nat, mid: nat, hi: nat,
                  less: (Elem, Elem) -> bool, S: set<Elem>)
    requires k <= mid <= hi <= |e| && Within([head] + e + [tail], S)
    ensures var m, h := Merge(less, e[k..mid], e[mid..hi]), [head] + e + [tail];
            && |WithPart(e, k, hi, m)| == |e|
            && [head] + WithPart(e, k, hi, m) + [tail] == WithPart(h, k + 1, hi + 1, m)
            && Within([head] + WithPart(e, k, hi, m) + [tail], S)
            && ([head] + WithPart(e, k, hi, m) + [tail])[hi + 1] == h[hi + 1]
  {
    hide Merge;
    var h := [head] + e + [tail];
    WholeSlice(head, e, tail, k, mid);
    WholeSlice(head, e, tail, mid, hi);
    MergeWithin(less, S, e[k..mid], e[mid..hi]);
  }

  lemma WholeRuns(head: Elem, e: seq<Elem>, tail: Elem, k: nat, mid: nat, hi: nat,
                  less: (Elem, Elem) -> bool, S: set<Elem>)
    requires k < |e| && mid == k + RunLength(less, e[k..]) && mid < |e| && hi == mid + RunLength(less, e[mid..])
    requires Within([head] + e + [tail], S)
    ensures var h := [head] + e + [tail];
            var u := WithPart(e, k, hi, Merge(less, e[k..mid], e[mid..hi]));
            && NoDescent(less, h[k + 1..mid + 1]) && NoDescent(less, h[mid + 1..hi + 1])
            && |u| == |e| && Within([head] + u + [tail], S) && ([head] + u + [tail])[hi + 1] == h[hi + 1]
            && [head] + u + [tail] ==
               WithPart(h, k + 1, hi + 1, Merge(less, h[k + 1..mid + 1], h[mid + 1..hi + 1]))
  {
    hide Merge, WithPart, RunLength, NoDescent;
    assert e[k..|e|] == e[k..] && e[mid..|e|] == e[mid..];
    RunHasNoDescent(less, e, k, |e|);
    RunHasNoDescent(less, e, mid, |e|);
    WholeSlice(head, e, tail, k, mid);
    WholeSlice(head, e, tail, mid, hi);
    WholePart(head, e, tail, k, mid, hi, less, S);
  }

  lemma RunHasNoDescent(less: (Elem, Elem) -> bool, e: seq<Elem>, k: nat, n: nat)
    requires k < n <= |e|
    ensures NoDescent(less, e[k..k + RunLength(less, e[k..n])])
  {
    hide RunLength;
    var r := RunLength(less, e[k..n]);
    var x, y := e[k..k + r], e[k..n];
    forall m | 0 < m < |x| ensures !Descent(less, x, m) {
      assert Descent(less, x, m) == Descent(less, y, m);
    }
  }

  lemma PassStart(less: (Elem, Elem) -> bool, s: seq<Elem>)
    ensures PassDone(less, s, s, 0, 0)
  {
    hide Pass, PassRuns;
    assert s[0..] == s;
  }

  lemma PassLast(less: (Elem, Elem) -> bool, s: seq<Elem>, e: seq<Elem>, k: nat, runs: nat)
    requires PassDone(less, s, e, k, runs) && k < |e| && RunLength(less, e[k..]) == |e| - k
    ensures PassDone(less, s, e, |e|, runs + 1)
  {
    hide RunLength;
    assert e[..|e|] + Pass(less, e[|e|..]) == e[..k] + e[k..];
  }

  lemma PassMore(less: (Elem, Elem) -> bool, s: seq<Elem>, e: seq<Elem>, k: nat, mid: nat, hi: nat, runs: nat)
    requires PassDone(less, s, e, k, runs) && k < |e| && mid == k + RunLength(less, e[k..]) && mid < |e|
    requires hi == mid + RunLength(less, e[mid..])
    ensures PassDone(less, s, WithPart(e, k, hi, Merge(less, e[k..mid], e[mid..hi])), hi, runs + 1)
  {
    hide RunLength, Merge;
    hide Pass, PassRuns;
    var m := Merge(less, e[k..mid], e[mid..hi]);
    var u := WithPart(e, k, hi, m);
    assert e[k..][..mid - k] == e[k..mid] && e[k..][mid - k..] == e[mid..];
    PassUnfold(less, e[k..], mid - k, hi - k);
    assert e[k..][mid - k..hi - k] == e[mid..hi] && e[k..][hi - k..] == e[hi..];
    assert u[..hi] == e[..k] + m && u[hi..] == e[hi..];
    assert e[..k] + (m + Pass(less, e[hi..])) == (e[..k] + m) + Pass(less, e[hi..]);
  }

  lemma PassFinish(less: (Elem, Elem) -> bool, s: seq<Elem>, e: seq<Elem>, runs: nat)
    requires PassDone(less, s, e, |e|, runs)
    ensures e == Pass(less, s) && runs == PassRuns(less, s)
  {
    assert e[..|e|] == e;
  }
}
