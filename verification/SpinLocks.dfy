/** Spin locks of which a thread holds at most one of a kind: who holds each lock
    against which lock each thread is at a place to hold. */
module SpinLocks {
  import opened Common

  /** A lock or a thread, if any. */
  type Maybe = Option<nat>

  /** h[x] is the holder of spin lock x, and at[p] the lock that p holds. */
  ghost predicate Agree(h: seq<Maybe>, at: seq<Maybe>) {
    && (forall x :: 0 <= x < |h| && h[x].Some? ==> h[x].value < |at| && at[h[x].value] == Some(x))
    && (forall p :: 0 <= p < |at| && at[p].Some? ==> at[p].value < |h| && h[at[p].value] == Some(p))
  }

  /** p, which held a, holds b. */
  ghost predicate Passed(h: seq<Maybe>, h': seq<Maybe>, a: Maybe, b: Maybe, p: nat) {
    && |h'| == |h| && (b.Some? ==> b.value < |h| && (a == b || h[b.value] == None))
    && forall x :: 0 <= x < |h| ==> h'[x] == if b == Some(x) then Some(p) else if a == Some(x) then None else h[x]
  }

  lemma PassedNone(h: seq<Maybe>, a: Maybe, p: nat)
    requires a.Some? ==> a.value < |h| && h[a.value] == Some(p)
    ensures Passed(h, h, a, a, p)
  {
  }

  lemma AgreeOn(h: seq<Maybe>, at: seq<Maybe>, p: nat, b: Maybe, h': seq<Maybe>)
    requires Agree(h, at) && p < |at| && Passed(h, h', at[p], b, p)
    ensures Agree(h', at[p := b])
  {
  }
}
