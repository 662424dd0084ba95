/** What several modules share. */
module Common {
  datatype Option<+T> = None | Some(value: T)

  ghost predicate Distinct<T>(s: seq<T>) {
    forall i, j :: 0 <= i < j < |s| ==> s[i] != s[j]
  }

  lemma DivMod(n: nat, q: nat, r: nat)
    requires r < n
    ensures (q * n + r) / n == q && (q * n + r) % n == r
  {
    var x := q * n + r;
    var d := x / n;
    assert x == n * d + x % n;
    assert d > q ==> n * d >= n * (q + 1);
    assert d < q ==> n * q >= n * (d + 1);
  }
}
