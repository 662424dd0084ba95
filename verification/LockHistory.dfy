/** Who holds a sleep lock, and who is woken, read off the calls of a run. */
module LockHistory {
  import opened Common
  import opened SpinLocks
  import opened SleepLock

  /** Which process moves, and what it calls if it is outside. */
  datatype Turn = Turn(p: nat, ch: Choice)

  ghost predicate Taken(s: State, h: Turn, t: State) {
    Enabled(s, h.p, h.ch) && t == Next(s, h.p, h.ch)
  }

  ghost predicate TurnRun(tr: seq<State>, hs: seq<Turn>) {
    |tr| == |hs| + 1 && Init(tr[0]) && forall i :: 0 <= i < |hs| ==> Taken(tr[i], hs[i], tr[i + 1])
  }

  /** Every run is one. */
  lemma {:induction false} TurnsOf(tr: seq<State>, n: nat) returns (hs: seq<Turn>)
    requires Run(tr) && n < |tr|
    ensures |hs| == n && forall i :: 0 <= i < n ==> Taken(tr[i], hs[i], tr[i + 1])
  {
    hide Enabled, Next, Init;
    if n == 0 {
      hs := [];
    } else {
      var rest := TurnsOf(tr, n - 1);
      assert Step(tr[n - 1], tr[n - 1 + 1]);
      var p: nat, ch :| Enabled(tr[n - 1], p, ch) && tr[n] == Next(tr[n - 1], p, ch);
      hs := rest + [Turn(p, ch)];
    }
  }

  lemma {:induction false} TurnInv(tr: seq<State>, hs: seq<Turn>, n: nat)
    requires TurnRun(tr, hs) && n <= |hs|
    ensures Inv(tr[n])
  {
    hide Enabled, Next, Inv, Init;
    if n == 0 {
      InitInv(tr[0]);
    } else {
      TurnInv(tr, hs, n - 1);
      assert Taken(tr[n - 1], hs[n - 1], tr[n - 1 + 1]);
      InvKept(tr[n - 1], hs[n - 1].p, hs[n - 1].ch);
    }
  }

  function PlaceAt(tr: seq<State>, hs: seq<Turn>, i: nat): Pc
    requires i < |hs| < |tr|
  {
    if hs[i].p < |tr[i].procs| then tr[i].procs[hs[i].p].pc else Out
  }

  /** Process p has returned from acquiresleep of lock l and not called releasesleep
      of it since. */
  function Has(tr: seq<State>, hs: seq<Turn>, n: nat, p: nat, l: nat): bool
    requires n <= |hs| < |tr|
  {
    if n == 0 then false
    else if hs[n - 1].p == p && PlaceAt(tr, hs, n - 1) == Leave(l) then true
    else if hs[n - 1].p == p && PlaceAt(tr, hs, n - 1).Out? && hs[n - 1].ch == Release(l) then false
    else Has(tr, hs, n - 1, p, l)
  }

  /** How a step moves what process q holds, and its place. */
  lemma HeldMoves(s: State, h: Turn, t: State, q: nat, l: nat)
    requires Taken(s, h, t) && q < |s.procs|
    ensures h.p < |s.procs| == |t.procs|
    ensures l in s.procs[q].held && l !in t.procs[q].held ==> h.p == q && s.procs[q].pc == RHold(l)
  {
  }

  lemma PlaceMoves(s: State, h: Turn, t: State, q: nat, l: nat)
    requires Taken(s, h, t) && q < |s.procs|
    ensures h.p < |s.procs| == |t.procs|
    ensures h.p != q ==> t.procs[q].pc == s.procs[q].pc
    ensures h.p == q && t.procs[q].pc == RHold(l) ==> s.procs[q].pc == RWant(l)
    ensures h.p == q && t.procs[q].pc == RWant(l) ==> s.procs[q].pc == Out && h.ch == Release(l)
    ensures h.p == q && s.procs[q].pc == Leave(l) ==> t.procs[q].pc == Out
  {
  }

  ghost predicate HoldsRight(tr: seq<State>, hs: seq<Turn>, n: nat, p: nat, l: nat)
    requires n <= |hs| < |tr|
  {
    p < |tr[n].procs| && Has(tr, hs, n, p, l) ==>
      l in tr[n].procs[p].held && tr[n].procs[p].pc != RWant(l) && tr[n].procs[p].pc != RHold(l)
  }

  lemma {:induction false} HasIsHeld(tr: seq<State>, hs: seq<Turn>, n: nat, p: nat, l: nat)
    requires TurnRun(tr, hs) && n <= |hs|
    ensures HoldsRight(tr, hs, n, p, l)
  {
    hide Enabled, Next, Init, Inv;
    if n > 0 && p < |tr[n].procs| {
      HasIsHeld(tr, hs, n - 1, p, l);
      TurnInv(tr, hs, n - 1);
      assert Taken(tr[n - 1], hs[n - 1], tr[n - 1 + 1]);
      SameProcs(tr[n - 1], hs[n - 1], tr[n]);
      HeldMoves(tr[n - 1], hs[n - 1], tr[n], p, l);
      PlaceMoves(tr[n - 1], hs[n - 1], tr[n], p, l);
      LeaveHolds(tr[n - 1], p, l);
    }
  }

  lemma SameProcs(s: State, h: Turn, t: State)
    requires Taken(s, h, t)
    ensures |t.procs| == |s.procs|
  {
  }

  lemma LeaveHolds(s: State, p: nat, l: nat)
    requires Inv(s) && p < |s.procs|
    ensures s.procs[p].pc == Leave(l) ==> l in s.procs[p].held
  {
    assert PcRight(s, p);
    hide LocksRight, Exclusive, NoneLost;
  }

  /** Mutual exclusion, from the calls alone: between the return of acquiresleep and
      the call of releasesleep a process is alone, and the lock is marked. */
  lemma AloneWithLock(tr: seq<State>, hs: seq<Turn>, n: nat, p: nat, q: nat, l: nat)
    requires TurnRun(tr, hs) && n <= |hs| && p < |tr[n].procs| && q < |tr[n].procs|
    requires Has(tr, hs, n, p, l) && Has(tr, hs, n, q, l)
    ensures p == q && l < |tr[n].locked| && tr[n].locked[l]
  {
    hide Enabled, Next, Init, LocksRight, NoneLost, PcRight, Has;
    HasIsHeld(tr, hs, n, p, l);
    HasIsHeld(tr, hs, n, q, l);
    TurnInv(tr, hs, n);
  }

  /** A process that sleeps on a lock stops exactly when a wakeup on that lock looks
      at it, or a kill does. */
  lemma StopsSleeping(s: State, h: Turn, t: State, q: nat)
    requires Inv(s) && Taken(s, h, t) && q < |s.procs| && s.procs[q].sleeping
    ensures |t.procs| == |s.procs| && !s.procs[q].pc.Out? && h.p < |s.procs|
    ensures t.procs[q].sleeping <==>
            var pc := s.procs[h.p].pc;
            !(pc == Look(s.procs[q].pc.l, q)) && !(pc.Out? && h.ch == Kill(q))
  {
    hide LocksRight, Exclusive, NoneLost;
    assert PcRight(s, q) && PcRight(s, h.p);
  }
}
