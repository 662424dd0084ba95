/** Sleep locks: acquiresleep and releasesleep of kernel/sleeplock.c over sleep,
    wakeup and kill of kernel/proc.c, for any number of locks and processes.

    A step is one action between two lock operations; any process may take the
    next step. Which CPU runs a process is not part of this module. A lock's
    channel is the lock itself, as the code passes lk to sleep and wakeup. */
module SleepLock {
  import opened Common
  import opened SpinLocks

  /** Where a process is. The comments say which spin locks it holds there. */
  datatype Pc =
    | Out                        // outside both functions
    | Want(l: nat)               // acquiresleep: before acquire(&lk->lk), also after a sleep
    | Test(l: nat)               // at while(lk->locked); inner lock
    | Doze(l: nat)               // in sleep; inner lock
    | Both(l: nat)               // in sleep; inner lock and own p->lock
    | Gap(l: nat)                // in sleep, inner lock given up, not yet SLEEPING; own p->lock
    | Drop(l: nat)               // SLEEPING, in sched; own p->lock
    | Wait(l: nat)               // switched out
    | Back(l: nat)               // sched returned; own p->lock
    | Leave(l: nat)              // lk->locked is set; inner lock
    | RWant(l: nat)              // releasesleep: before acquire(&lk->lk)
    | RHold(l: nat)              // before lk->locked = 0; inner lock
    | Scan(l: nat, i: nat)       // wakeup, about to look at process i; inner lock
    | Look(l: nat, i: nat)       // wakeup; inner lock and process i's lock

  datatype Proc = Proc(pc: Pc, sleeping: bool, chan: Maybe, held: set<nat>)

  /** plock: who holds each process's lock; inner, locked: of each sleep lock, who
      holds lk->lk, and lk->locked. held of a process: the sleep locks it has
      acquired and not yet released. */
  datatype State = State(procs: seq<Proc>, plock: seq<Maybe>, inner: seq<Maybe>, locked: seq<bool>)

  /** What a process outside both functions does next. */
  datatype Choice = Acquire(l: nat) | Release(l: nat) | Kill(q: nat)

  predicate WellFormed(s: State) {
    |s.plock| == |s.procs| && |s.inner| == |s.locked|
  }

  function SetPc(s: State, p: nat, pc: Pc): State
    requires p < |s.procs|
  {
    s.(procs := s.procs[p := s.procs[p].(pc := pc)])
  }

  function SetInner(s: State, l: nat, h: Maybe): State
    requires l < |s.inner|
  {
    s.(inner := s.inner[l := h])
  }

  function SetPlock(s: State, q: nat, h: Maybe): State
    requires q < |s.plock|
  {
    s.(plock := s.plock[q := h])
  }

  /** Process p can take its next step. */
  predicate Enabled(s: State, p: nat, ch: Choice) {
    && WellFormed(s) && p < |s.procs|
    && var pc := s.procs[p].pc;
    && (pc.Out? ==>
          match ch
          case Acquire(l) => l < |s.locked|
          case Release(l) => l in s.procs[p].held && l < |s.locked|
          case Kill(q) => q < |s.procs| && s.plock[q] == None)
    && (!pc.Out? ==> pc.l < |s.locked|)
    && (pc.Want? || pc.RWant? ==> s.inner[pc.l] == None)
    && (pc.Doze? ==> s.plock[p] == None)
    && (pc.Wait? ==> !s.procs[p].sleeping && s.plock[p] == None)
    && (pc.Scan? && pc.i < |s.procs| && pc.i != p ==> s.plock[pc.i] == None)
    && (pc.Look? ==> pc.i < |s.procs|)
  }

  function Next(s: State, p: nat, ch: Choice): State
    requires Enabled(s, p, ch)
  {
    var me := s.procs[p];
    match me.pc
    case Out => (
      match ch
      case Acquire(l) => SetPc(s, p, Want(l))
      case Release(l) => SetPc(s, p, RWant(l))
      case Kill(q) => Wake(s, q))
    case Want(l) => SetInner(SetPc(s, p, Test(l)), l, Some(p))
    case Test(l) =>
      if s.locked[l] then SetPc(s, p, Doze(l))
      else s.(procs := s.procs[p := me.(pc := Leave(l), held := me.held + {l})],
              locked := s.locked[l := true])
    case Doze(l) => SetPlock(SetPc(s, p, Both(l)), p, Some(p))
    case Both(l) => SetInner(SetPc(s, p, Gap(l)), l, None)
    case Gap(l) => s.(procs := s.procs[p := me.(pc := Drop(l), sleeping := true, chan := Some(l))])
    case Drop(l) => SetPlock(SetPc(s, p, Wait(l)), p, None)
    case Wait(l) => SetPlock(SetPc(s, p, Back(l)), p, Some(p))
    case Back(l) => SetPlock(s.(procs := s.procs[p := me.(pc := Want(l), chan := None)]), p, None)
    case Leave(l) => SetInner(SetPc(s, p, Out), l, None)
    case RWant(l) => SetInner(SetPc(s, p, RHold(l)), l, Some(p))
    case RHold(l) => s.(procs := s.procs[p := me.(pc := Scan(l, 0), held := me.held - {l})],
                        locked := s.locked[l := false])
    case Scan(l, i) =>
      if i >= |s.procs| then SetInner(SetPc(s, p, Out), l, None)
      else if i == p then SetPc(s, p, Scan(l, i + 1))
      else SetPlock(SetPc(s, p, Look(l, i)), i, Some(p))
    case Look(l, i) =>
      var s1 := if s.procs[i].sleeping && s.procs[i].chan == Some(l) then Wake(s, i) else s;
      SetPlock(SetPc(s1, p, Scan(l, i + 1)), i, None)
  }

  /** state = RUNNABLE, for a process that is SLEEPING */
  function Wake(s: State, q: nat): State
    requires q < |s.procs|
  {
    s.(procs := s.procs[q := s.procs[q].(sleeping := false)])
  }

  // ----- the invariant

  function InnerOf(pc: Pc): Maybe {
    if pc.Test? || pc.Doze? || pc.Both? || pc.Leave? || pc.RHold? || pc.Scan? || pc.Look? then Some(pc.l) else None
  }

  function PlockOf(pc: Pc, p: nat): Maybe {
    if pc.Both? || pc.Gap? || pc.Drop? || pc.Back? then Some(p) else if pc.Look? then Some(pc.i) else None
  }

  /** Process p is asleep on lock l, or about to be without holding its inner lock. */
  predicate Pending(s: State, l: nat, p: nat)
    requires p < |s.procs|
  {
    s.procs[p].pc == Gap(l) || (s.procs[p].sleeping && s.procs[p].chan == Some(l))
  }

  function Inners(ps: seq<Proc>): (r: seq<Maybe>)
    ensures |r| == |ps| && forall p :: 0 <= p < |ps| ==> r[p] == InnerOf(ps[p].pc)
  {
    seq(|ps|, p requires 0 <= p < |ps| => InnerOf(ps[p].pc))
  }

  function Plocks(ps: seq<Proc>): (r: seq<Maybe>)
    ensures |r| == |ps| && forall p :: 0 <= p < |ps| ==> r[p] == PlockOf(ps[p].pc, p)
  {
    seq(|ps|, p requires 0 <= p < |ps| => PlockOf(ps[p].pc, p))
  }

  /** The spin locks are held exactly where the code says. */
  ghost predicate LocksRight(s: State) {
    WellFormed(s) && Agree(s.inner, Inners(s.procs)) && Agree(s.plock, Plocks(s.procs))
  }

  ghost predicate Exclusive(s: State) {
    && (forall p, l {:trigger l in s.procs[p].held} :: 0 <= p < |s.procs| && l in s.procs[p].held ==>
           l < |s.locked| && s.locked[l])
    && (forall p, q, l :: 0 <= p < |s.procs| && 0 <= q < |s.procs| && l in s.procs[p].held && l in s.procs[q].held ==>
           p == q)
  }

  /** What a process knows at each place. */
  predicate PcRight(s: State, p: nat)
    requires p < |s.procs|
  {
    var me := s.procs[p];
    && (!me.pc.Out? ==> me.pc.l < |s.locked|)
    && (me.pc.Doze? || me.pc.Both? ==> s.locked[me.pc.l])
    && (me.pc.Leave? || me.pc.RHold? || me.pc.RWant? ==> me.pc.l in me.held)
    && (me.pc.Scan? || me.pc.Look? ==> !s.locked[me.pc.l])
    && (me.pc.Look? ==> me.pc.i < |s.procs| && me.pc.i != p)
    && (me.sleeping ==> me.pc.Drop? || me.pc.Wait?)
    && (me.pc.Drop? || me.pc.Wait? || me.pc.Back? ==> me.chan == Some(me.pc.l))
  }

  /** A free lock with a process pending on it is one whose wakeup is still on
      its way to that process. */
  ghost predicate WakeupComing(s: State, l: nat, p: nat)
    requires WellFormed(s) && l < |s.locked| && p < |s.procs|
  {
    && s.inner[l].Some? && s.inner[l].value < |s.procs| && s.inner[l].value != p
    && var pc := s.procs[s.inner[l].value].pc;
    && (pc.Scan? || pc.Look?) && pc.l == l && pc.i <= p
  }

  ghost predicate NoneLost(s: State)
    requires WellFormed(s)
  {
    forall l, p :: 0 <= l < |s.locked| && 0 <= p < |s.procs| && Pending(s, l, p) && !s.locked[l] ==>
        WakeupComing(s, l, p)
  }

  ghost predicate Inv(s: State) {
    LocksRight(s) && Exclusive(s) && (forall p :: 0 <= p < |s.procs| ==> PcRight(s, p)) && NoneLost(s)
  }

  /** Every process outside, every lock free. */
  predicate Init(s: State) {
    && WellFormed(s) && (forall p :: 0 <= p < |s.procs| ==>
           s.procs[p] == Proc(Out, false, None, {}) && s.plock[p] == None)
    && (forall l :: 0 <= l < |s.locked| ==> s.inner[l] == None && !s.locked[l])
  }

  lemma InitInv(s: State)
    requires Init(s)
    ensures Inv(s)
  {
  }

  /** From s to t only p moves, taking and dropping spin locks as its places say. */
  ghost predicate Moves(s: State, t: State, p: nat) {
    && WellFormed(s) && WellFormed(t) && |t.procs| == |s.procs| && |t.locked| == |s.locked| && p < |s.procs|
    && (forall q :: 0 <= q < |s.procs| && q != p ==> t.procs[q].pc == s.procs[q].pc)
    && var a, b := s.procs[p].pc, t.procs[p].pc;
    && Passed(s.inner, t.inner, InnerOf(a), InnerOf(b), p) && Passed(s.plock, t.plock, PlockOf(a, p), PlockOf(b, p), p)
  }

  lemma LocksMoved(s: State, t: State, p: nat)
    requires LocksRight(s) && Moves(s, t, p)
    ensures LocksRight(t)
  {
    hide InnerOf, PlockOf, Agree;
    var b := t.procs[p].pc;
    AgreeOn(s.inner, Inners(s.procs), p, InnerOf(b), t.inner);
    AgreeOn(s.plock, Plocks(s.procs), p, PlockOf(b, p), t.plock);
    assert Inners(t.procs) == Inners(s.procs)[p := InnerOf(b)];
    assert Plocks(t.procs) == Plocks(s.procs)[p := PlockOf(b, p)];
  }

  lemma StepMoves(s: State, p: nat, ch: Choice)
    requires LocksRight(s) && Enabled(s, p, ch) && PcRight(s, p)
    ensures Moves(s, Next(s, p, ch), p)
  {
    hide LocksRight, Next, PcRight, Moves;
    var pc := s.procs[p].pc;
    if pc.Look? || pc.Scan? {
      WakeupMoves(s, p, ch);
    } else if pc.Doze? || pc.Drop? || pc.Wait? || pc.Back? {
      SleepMoves(s, p, ch);
    } else if pc.Out? || pc.Want? || pc.Test? || pc.Both? {
      AcquireMoves(s, p, ch);
    } else {
      ReleaseMoves(s, p, ch);
    }
  }

  lemma WakeupMoves(s: State, p: nat, ch: Choice)
    requires LocksRight(s) && Enabled(s, p, ch) && PcRight(s, p) && (s.procs[p].pc.Look? || s.procs[p].pc.Scan?)
    ensures Moves(s, Next(s, p, ch), p)
  {
    hide LocksRight;
    HeldHere(s, p);
  }

  lemma SleepMoves(s: State, p: nat, ch: Choice)
    requires LocksRight(s) && Enabled(s, p, ch) && PcRight(s, p) && var pc := s.procs[p].pc;
             pc.Doze? || pc.Drop? || pc.Wait? || pc.Back?
    ensures Moves(s, Next(s, p, ch), p)
  {
    hide LocksRight;
    HeldHere(s, p);
  }

  lemma AcquireMoves(s: State, p: nat, ch: Choice)
    requires LocksRight(s) && Enabled(s, p, ch) && PcRight(s, p) && var pc := s.procs[p].pc;
             pc.Out? || pc.Want? || pc.Test? || pc.Both?
    ensures Moves(s, Next(s, p, ch), p)
  {
    hide LocksRight;
    HeldHere(s, p);
  }

  lemma ReleaseMoves(s: State, p: nat, ch: Choice)
    requires LocksRight(s) && Enabled(s, p, ch) && PcRight(s, p) && var pc := s.procs[p].pc;
             pc.Gap? || pc.Leave? || pc.RWant? || pc.RHold?
    ensures Moves(s, Next(s, p, ch), p)
  {
    hide LocksRight;
    HeldHere(s, p);
  }

  lemma HeldHere(s: State, p: nat)
    requires LocksRight(s) && p < |s.procs|
    ensures InnerOf(s.procs[p].pc).Some? ==>
              InnerOf(s.procs[p].pc).value < |s.inner| && s.inner[InnerOf(s.procs[p].pc).value] == Some(p)
    ensures PlockOf(s.procs[p].pc, p).Some? ==>
              PlockOf(s.procs[p].pc, p).value < |s.plock| && s.plock[PlockOf(s.procs[p].pc, p).value] == Some(p)
  {
    assert Inners(s.procs)[p] == InnerOf(s.procs[p].pc);
    assert Plocks(s.procs)[p] == PlockOf(s.procs[p].pc, p);
  }

  lemma InvKept(s: State, p: nat, ch: Choice)
    requires Inv(s) && Enabled(s, p, ch)
    ensures Inv(Next(s, p, ch))
  {
    assert PcRight(s, p);
    StepMoves(s, p, ch);
    LocksMoved(s, Next(s, p, ch), p);
    ExclusiveKept(s, p, ch);
    PcsKept(s, p, ch);
    NoneLostKept(s, p, ch);
  }

  /** What a step can do to other processes, to lk->locked and to who holds what. */
  lemma Effect(s: State, p: nat, ch: Choice)
    requires Enabled(s, p, ch) && PcRight(s, p)
    ensures var t := Next(s, p, ch);
            && |t.procs| == |s.procs| && |t.locked| == |s.locked| && WellFormed(t)
            && (forall q :: 0 <= q < |s.procs| && q != p ==>
                   t.procs[q] == s.procs[q] || t.procs[q] == s.procs[q].(sleeping := false))
            && (if s.procs[p].pc.Test? && !s.locked[s.procs[p].pc.l] then
                  t.locked == s.locked[s.procs[p].pc.l := true] &&
                    t.procs[p].held == s.procs[p].held + {s.procs[p].pc.l}
                else if s.procs[p].pc.RHold? then
                  t.locked == s.locked[s.procs[p].pc.l := false] &&
                    t.procs[p].held == s.procs[p].held - {s.procs[p].pc.l}
                else t.locked == s.locked && t.procs[p].held == s.procs[p].held)
  {
  }

  lemma ExclusiveKept(s: State, p: nat, ch: Choice)
    requires Inv(s) && Enabled(s, p, ch)
    ensures Exclusive(Next(s, p, ch))
  {
    hide LocksRight, NoneLost, Next;
    assert PcRight(s, p);
    Effect(s, p, ch);
  }

  lemma PcsKept(s: State, p: nat, ch: Choice)
    requires Inv(s) && Enabled(s, p, ch)
    ensures |Next(s, p, ch).procs| == |s.procs| && forall q :: 0 <= q < |s.procs| ==> PcRight(Next(s, p, ch), q)
  {
    hide NoneLost, Next, PcRight, Exclusive, LocksRight;
    StepKeepsSize(s, p, ch);
    forall q | 0 <= q < |s.procs| ensures PcRight(Next(s, p, ch), q) {
      assert PcRight(s, p) && PcRight(s, q);
      if q == p {
        OwnPcKept(s, p, ch);
      } else {
        OtherPcKept(s, p, ch, q);
      }
    }
  }

  lemma StepKeepsSize(s: State, p: nat, ch: Choice)
    requires Enabled(s, p, ch)
    ensures |Next(s, p, ch).procs| == |s.procs| && |Next(s, p, ch).locked| == |s.locked| && WellFormed(Next(s, p, ch))
  {
  }

  lemma OwnPcKept(s: State, p: nat, ch: Choice)
    requires Enabled(s, p, ch) && PcRight(s, p)
    ensures p < |Next(s, p, ch).procs| && PcRight(Next(s, p, ch), p)
  {
  }

  lemma OtherPcKept(s: State, p: nat, ch: Choice, q: nat)
    requires LocksRight(s) && Enabled(s, p, ch) && PcRight(s, p) && q < |s.procs| && q != p && PcRight(s, q)
    ensures q < |Next(s, p, ch).procs| && PcRight(Next(s, p, ch), q)
  {
    hide LocksRight, Next;
    Effect(s, p, ch);
    HeldHere(s, p);
    HeldHere(s, q);
  }

  lemma NoneLostKept(s: State, p: nat, ch: Choice)
    requires Inv(s) && Enabled(s, p, ch)
    ensures WellFormed(Next(s, p, ch)) && NoneLost(Next(s, p, ch))
  {
    hide Next, PcRight, Exclusive, LocksRight, Pending, WakeupComing;
    StepKeepsSize(s, p, ch);
    var t := Next(s, p, ch);
    forall l, q | 0 <= l < |t.locked| && 0 <= q < |t.procs| && Pending(t, l, q) && !t.locked[l]
      ensures WakeupComing(t, l, q)
    {
      assert PcRight(s, p) && PcRight(s, q);
      if !Pending(s, l, q) {
        NewlyPending(s, p, ch, l, q);
      } else if s.locked[l] {
        Unlocked(s, p, ch, l, q);
      } else {
        StillComing(s, p, ch, l, q);
      }
    }
  }

  /** A process starts to sleep only on a lock that is taken. */
  lemma NewlyPending(s: State, p: nat, ch: Choice, l: nat, q: nat)
    requires Enabled(s, p, ch) && PcRight(s, p) && q < |s.procs| && PcRight(s, q) && l < |s.locked| && !Pending(s, l, q)
    requires q < |Next(s, p, ch).procs| && Pending(Next(s, p, ch), l, q)
    ensures Next(s, p, ch).locked == s.locked && s.locked[l]
  {
  }

  /** When a lock becomes free, its releaser is about to look at everyone. */
  lemma Unlocked(s: State, p: nat, ch: Choice, l: nat, q: nat)
    requires LocksRight(s) && Enabled(s, p, ch) && PcRight(s, p) && q < |s.procs| && PcRight(s, q) &&
             l < |s.locked| && Pending(s, l, q)
    requires s.locked[l] && l < |Next(s, p, ch).locked| && !Next(s, p, ch).locked[l]
    ensures q < |Next(s, p, ch).procs| && WellFormed(Next(s, p, ch)) && WakeupComing(Next(s, p, ch), l, q)
  {
    hide LocksRight;
    HeldHere(s, p);
    HeldHere(s, q);
  }

  lemma StillComing(s: State, p: nat, ch: Choice, l: nat, q: nat)
    requires LocksRight(s) && Enabled(s, p, ch) && PcRight(s, p) && q < |s.procs| && PcRight(s, q) &&
             l < |s.locked| && Pending(s, l, q)
    requires WakeupComing(s, l, q) && q < |Next(s, p, ch).procs| && Pending(Next(s, p, ch), l, q)
    ensures WellFormed(Next(s, p, ch)) && l < |Next(s, p, ch).locked| && WakeupComing(Next(s, p, ch), l, q)
  {
    hide LocksRight, Next, Enabled;
    StepMoves(s, p, ch);
    HeldHere(s, p);
    if p == s.inner[l].value {
      Coming(s, p, ch, l, q);
    } else {
      HeldHere(s, s.inner[l].value);
    }
  }

  /** The waker itself moves, and does not pass q without waking it. */
  lemma Coming(s: State, p: nat, ch: Choice, l: nat, q: nat)
    requires LocksRight(s) && Enabled(s, p, ch) && PcRight(s, p) && q < |s.procs| && PcRight(s, q) &&
             l < |s.locked| && Pending(s, l, q)
    requires WakeupComing(s, l, q) && s.inner[l] == Some(p) && q < |Next(s, p, ch).procs| &&
             Pending(Next(s, p, ch), l, q)
    ensures WellFormed(Next(s, p, ch)) && l < |Next(s, p, ch).locked| && WakeupComing(Next(s, p, ch), l, q)
  {
    hide LocksRight;
    HeldHere(s, p);
    HeldHere(s, q);
  }

  /** A run: in every step, one process moves. */
  ghost predicate Run(tr: seq<State>) {
    && |tr| > 0 && Init(tr[0])
    && forall i :: 0 <= i < |tr| - 1 ==> Step(tr[i], tr[i + 1])
  }

  ghost predicate Step(s: State, t: State) {
    exists p: nat, ch :: Enabled(s, p, ch) && t == Next(s, p, ch)
  }

  lemma {:induction false} RunInv(tr: seq<State>, i: nat)
    requires Run(tr) && i < |tr|
    ensures Inv(tr[i])
    decreases i
  {
    hide Enabled, Next, Inv, Init;
    if i == 0 {
      InitInv(tr[0]);
    } else {
      RunInv(tr, i - 1);
      assert Step(tr[i - 1], tr[i - 1 + 1]);
      var p: nat, ch :| Enabled(tr[i - 1], p, ch) && tr[i] == Next(tr[i - 1], p, ch);
      InvKept(tr[i - 1], p, ch);
    }
  }

  /** No two processes hold the same sleep lock. */
  lemma MutualExclusion(tr: seq<State>, i: nat, p: nat, q: nat, l: nat)
    requires Run(tr) && i < |tr| && p < |tr[i].procs| && q < |tr[i].procs|
    requires l in tr[i].procs[p].held && l in tr[i].procs[q].held
    ensures p == q
  {
    RunInv(tr, i);
  }

  /** Whenever a lock is free, inside and out, nobody sleeps on it and nobody is
      on the way from giving up its inner lock to sleeping. */
  lemma NoLostWakeup(tr: seq<State>, i: nat, p: nat, l: nat)
    requires Run(tr) && i < |tr| && p < |tr[i].procs| && l < |tr[i].locked|
    requires WellFormed(tr[i]) && tr[i].inner[l] == None && !tr[i].locked[l]
    ensures !Pending(tr[i], l, p)
  {
    RunInv(tr, i);
  }
}
