/** The run-list protocol of kernel/proc.c: scheduler, yield, sleep, wakeup, kill,
    fork, exit and wait on any number of CPUs, processes and containers.

    A step is one action of one CPU between two lock operations. A section that
    does nothing but a list operation under a container's lock or unused_lock
    is one step. The loops of wakeup, kill and wait appear one process at a
    time, in any order, so every order of the code is among the runs. A device
    or the clock may interrupt a process or a scheduler wherever it holds no
    lock, and its handler may call wakeup there. */
module Scheduler {
  import opened Common
  import opened SpinLocks

  datatype Status = UNUSED | USED | RUNNABLE | RUNNING | SLEEPING | ZOMBIE

  /** How far a process is in fork: np taken from unused_list, USED, RUNNABLE. */
  datatype Fork = NoFork | Got(np: nat) | Made(np: nat) | Ready(np: nat)

  datatype Proc = Proc(state: Status, cont: nat, chan: nat, fork: Fork)

  /** Where a CPU is. The comments say which process lock it holds there. */
  datatype Pc =
    | Idle                             // scheduler, before taking from the run list
    | Took(p: nat)                     // scheduler, has removed p's elem
    | Locked(p: nat)                   // scheduler, before the ASSERT; p's lock
    | Returned(p: nat)                 // scheduler, after swtch; p's lock
    | Resumed(p: nat)                  // in process p, just switched in; p's lock
    | Free(p: nat)                     // in process p
    | Yielding(p: nat)                 // yield; p's lock
    | YieldPush(p: nat)                // yield, p RUNNABLE and on no list; p's lock
    | Dozing(p: nat, chan: nat)        // sleep; p's lock
    | Exiting(p: nat)                  // exit; p's lock
    | InSched(p: nat)                  // sched; p's lock
    | Waking(p: nat, q: nat, chan: nat) // wakeup; q's lock
    | Killing(p: nat, q: nat)          // kill; q's lock
    | WakePush(p: nat, q: nat)         // wakeup or kill, q RUNNABLE and on no list; q's lock
    | Forking(p: nat, q: nat)          // allocproc and fork; q's lock
    | Readying(p: nat, q: nat)         // fork, before np->state = RUNNABLE; q's lock
    | Reaping(p: nat, q: nat)          // wait; q's lock
    | FreePush(p: nat, q: nat)         // freeproc, q UNUSED and on no list; q's lock
    | Releasing(p: nat, q: nat)        // before release(&q->lock); q's lock
    | IntrWaking(back: Maybe, q: nat, chan: nat) // wakeup by a handler, the scheduler Idle or at Took(back); q's lock
    | IntrPush(back: Maybe, q: nat)    // there, q RUNNABLE and on no list; q's lock
    | IntrReleasing(back: Maybe, q: nat) // there, before release(&q->lock); q's lock

  datatype Cpu = Cpu(pc: Pc, proc: Maybe)

  /** Who has a process's elem in hand: an auxiliary variable that no step reads. */
  datatype Where =
    | InUnused | InRun | Taken(c: nat) | Active(c: nat) | Asleep | Dead | Born(parent: nat) | Woken(c: nat)
    | Freed(c: nat)

  /** pushed and taken: what was ever appended to and taken from the root
      container's run list, in order. Container 0 is the root. */
  datatype State = State(procs: seq<Proc>, cpus: seq<Cpu>, plock: seq<Maybe>, runs: seq<seq<nat>>, unused: seq<nat>,
                         where: seq<Where>, pushed: seq<nat>, taken: seq<nat>, panicked: bool)

  /** What a process in kernel or user code does next. A handler's wakeup is a
      call of the process or scheduler that it interrupts. */
  datatype Call = Yield | Sleep(chan: nat) | Exit | Wakeup(q: nat, ch: nat) | Kill(q: nat) | Fork | Wait(q: nat)

  // ----- steps

  predicate WellFormed(s: State) {
    && |s.plock| == |s.procs| == |s.where| && |s.runs| > 0
    && forall p :: 0 <= p < |s.procs| ==> s.procs[p].cont < |s.runs|
  }

  predicate InHandler(pc: Pc) {
    pc.IntrWaking? || pc.IntrPush? || pc.IntrReleasing?
  }

  /** The process whose elem a scheduler has removed from the run list. */
  function InHand(pc: Pc): Maybe {
    if pc.Took? || pc.Locked? then Some(pc.p) else if InHandler(pc) then pc.back else None
  }

  /** The process that wakeup or kill is about to append. */
  function ToWake(pc: Pc): Maybe {
    if pc.WakePush? || pc.IntrPush? then Some(pc.q) else None
  }

  /** The process that executes on a CPU, still before sched's swtch. */
  function Runs(pc: Pc): Maybe {
    if pc.Idle? || InHandler(pc) || pc.Took? || pc.Locked? || pc.Returned? || pc.InSched? then None else Some(pc.p)
  }

  /** c->proc */
  function Current(pc: Pc): Maybe {
    if pc.Idle? || InHandler(pc) || pc.Took? || pc.Locked? then None else Some(pc.p)
  }

  /** The second process of a place that has one. */
  function Other(pc: Pc): Maybe {
    if pc.Waking? || pc.Killing? || pc.WakePush? || pc.Forking? || pc.Readying? || pc.Reaping? || pc.FreePush? ||
       pc.Releasing? || InHandler(pc)
    then Some(pc.q)
    else None
  }

  function LockOf(pc: Pc): Maybe {
    if Other(pc).Some? then Other(pc) else if pc.Idle? || pc.Took? || pc.Free? then None else Some(pc.p)
  }

  predicate Bounded(s: State, pc: Pc) {
    && (!pc.Idle? && !InHandler(pc) ==> pc.p < |s.procs|) && (InHand(pc).Some? ==> InHand(pc).value < |s.procs|)
    && (Other(pc).Some? ==> Other(pc).value < |s.procs|)
  }

  function Goto(s: State, c: nat, pc: Pc): State
    requires c < |s.cpus|
  {
    s.(cpus := s.cpus[c := s.cpus[c].(pc := pc)])
  }

  function SetState(s: State, p: nat, st: Status, w: Where): State
    requires WellFormed(s) && p < |s.procs|
  {
    s.(procs := s.procs[p := s.procs[p].(state := st)], where := s.where[p := w])
  }

  function SetFork(s: State, p: nat, f: Fork): State
    requires p < |s.procs|
  {
    s.(procs := s.procs[p := s.procs[p].(fork := f)])
  }

  function SetLock(s: State, p: nat, h: Maybe): State
    requires p < |s.plock|
  {
    s.(plock := s.plock[p := h])
  }

  /** list_push_back of p's elem to its container's run list */
  function Push(s: State, p: nat): State
    requires WellFormed(s) && p < |s.procs|
  {
    var k := s.procs[p].cont;
    s.(runs := s.runs[k := s.runs[k] + [p]], where := s.where[p := InRun],
       pushed := if k == 0 then s.pushed + [p] else s.pushed)
  }

  /** CPU c can take a step; where its process is free to choose, by making the call. */
  predicate Enabled(s: State, c: nat, call: Call, ok: bool, k: nat) {
    && WellFormed(s) && c < |s.cpus| && !s.panicked && k < |s.runs|
    && var pc := s.cpus[c].pc;
    && Bounded(s, pc)
    && ((pc.Idle? || pc.Took?) && call.Wakeup? ==> call.q < |s.procs| && s.plock[call.q] == None)
    && (pc.Idle? && !call.Wakeup? ==> |s.runs[0]| > 0 && s.runs[0][0] < |s.procs|)
    && (pc.Took? && !call.Wakeup? ==> s.plock[pc.p] == None)
    && (pc.Free? ==> FreeEnabled(s, pc.p, call))
  }

  predicate FreeEnabled(s: State, p: nat, call: Call)
    requires WellFormed(s) && p < |s.procs|
  {
    match call
    case Yield => s.plock[p] == None
    case Sleep(ch) => s.plock[p] == None
    case Exit => s.plock[p] == None && s.procs[p].fork == NoFork
    case Wakeup(q, ch) => q < |s.procs| && q != p && s.plock[q] == None
    case Kill(q) => q < |s.procs| && s.plock[q] == None
    case Wait(q) => q < |s.procs| && q != p && s.plock[q] == None
    case Fork => (
      match s.procs[p].fork
      case NoFork => |s.unused| > 0 && s.unused[0] < |s.procs|
      case Got(np) => np < |s.procs| && s.plock[np] == None
      case Made(np) => np < |s.procs| && s.plock[np] == None
      case Ready(np) => np < |s.procs|)
  }

  /** ok: whether fork's allocations succeed, and whether kill's pid matches;
      k: the container that fork is given. */
  function Next(s: State, c: nat, call: Call, ok: bool, k: nat): State
    requires Enabled(s, c, call, ok, k)
  {
    match s.cpus[c].pc
    case Idle => if call.Wakeup? then Interrupted(s, c, None, call.q, call.ch) else Take(s, c)
    case Took(p) =>
      if call.Wakeup? then Interrupted(s, c, Some(p), call.q, call.ch)
      else SetLock(Goto(s, c, Locked(p)), p, Some(c))
    case Locked(p) => Dispatch(s, c, p)
    case Returned(p) => SetLock(s.(cpus := s.cpus[c := Cpu(Idle, None)]), p, None)
    case Resumed(p) => SetLock(Goto(s.(procs := s.procs[p := s.procs[p].(chan := 0)]), c, Free(p)), p, None)
    case Free(p) => CallStep(s, c, p, call)
    case Yielding(p) => Goto(SetState(s, p, RUNNABLE, s.where[p]), c, YieldPush(p))
    case YieldPush(p) => Goto(Push(s, p), c, InSched(p))
    case Dozing(p, ch) =>
      Goto(SetState(s.(procs := s.procs[p := s.procs[p].(chan := ch)]), p, SLEEPING, Asleep), c, InSched(p))
    case Exiting(p) => Goto(SetState(s, p, ZOMBIE, Dead), c, InSched(p))
    case InSched(p) => Sched(s, c, p)
    case Waking(p, q, ch) =>
      if s.procs[q].state == SLEEPING && s.procs[q].chan == ch
        then Goto(SetState(s, q, RUNNABLE, Woken(c)), c, WakePush(p, q))
      else Goto(s, c, Releasing(p, q))
    case Killing(p, q) =>
      if ok && s.procs[q].state == SLEEPING then Goto(SetState(s, q, RUNNABLE, Woken(c)), c, WakePush(p, q))
      else Goto(s, c, Releasing(p, q))
    case WakePush(p, q) => Goto(Push(s, q), c, Releasing(p, q))
    case Forking(p, q) => ForkStep(s, c, p, q, ok, k)
    case Readying(p, q) => Goto(SetFork(SetState(s, q, RUNNABLE, s.where[q]), p, Ready(q)), c, Releasing(p, q))
    case Reaping(p, q) =>
      if s.procs[q].state == ZOMBIE then Goto(SetState(s, q, UNUSED, Freed(c)), c, FreePush(p, q))
      else Goto(s, c, Releasing(p, q))
    case FreePush(p, q) => Goto(s.(unused := s.unused + [q], where := s.where[q := InUnused]), c, Releasing(p, q))
    case Releasing(p, q) => SetLock(Goto(s, c, Free(p)), q, None)
    case IntrWaking(b, q, ch) =>
      if s.procs[q].state == SLEEPING && s.procs[q].chan == ch
        then Goto(SetState(s, q, RUNNABLE, Woken(c)), c, IntrPush(b, q))
      else Goto(s, c, IntrReleasing(b, q))
    case IntrPush(b, q) => Goto(Push(s, q), c, IntrReleasing(b, q))
    case IntrReleasing(b, q) => SetLock(Goto(s, c, if b.Some? then Took(b.value) else Idle), q, None)
  }

  /** A handler begins its wakeup of q, with no process on the CPU to spare. */
  function Interrupted(s: State, c: nat, back: Maybe, q: nat, ch: nat): State
    requires c < |s.cpus| && q < |s.plock|
  {
    SetLock(Goto(s, c, IntrWaking(back, q, ch)), q, Some(c))
  }

  /** The scheduler removes the first element of the root's run list. */
  function Take(s: State, c: nat): State
    requires WellFormed(s) && c < |s.cpus| && |s.runs[0]| > 0 && s.runs[0][0] < |s.procs|
  {
    var p := s.runs[0][0];
    Goto(s.(runs := s.runs[0 := s.runs[0][1..]], where := s.where[p := Taken(c)], taken := s.taken + [p]), c, Took(p))
  }

  /** The ASSERT, and the switch to p. */
  function Dispatch(s: State, c: nat, p: nat): State
    requires WellFormed(s) && c < |s.cpus| && p < |s.procs|
  {
    if s.procs[p].state != RUNNABLE then s.(panicked := true)
    else SetState(s, p, RUNNING, Active(c)).(cpus := s.cpus[c := Cpu(Resumed(p), Some(p))])
  }

  /** sched's checks, and the switch to the scheduler. */
  function Sched(s: State, c: nat, p: nat): State
    requires WellFormed(s) && c < |s.cpus| && p < |s.procs|
  {
    if s.cpus[c].proc != Some(p) || s.plock[p] != Some(c) || s.procs[p].state == RUNNING then s.(panicked := true)
    else Goto(s, c, Returned(p))
  }

  function CallStep(s: State, c: nat, p: nat, call: Call): State
    requires WellFormed(s) && c < |s.cpus| && p < |s.procs| && FreeEnabled(s, p, call)
  {
    match call
    case Yield => SetLock(Goto(s, c, Yielding(p)), p, Some(c))
    case Sleep(ch) => SetLock(Goto(s, c, Dozing(p, ch)), p, Some(c))
    case Exit => SetLock(Goto(s, c, Exiting(p)), p, Some(c))
    case Wakeup(q, ch) => SetLock(Goto(s, c, Waking(p, q, ch)), q, Some(c))
    case Kill(q) => SetLock(Goto(s, c, Killing(p, q)), q, Some(c))
    case Wait(q) => SetLock(Goto(s, c, Reaping(p, q)), q, Some(c))
    case Fork => (
      match s.procs[p].fork
      case NoFork =>
        var np := s.unused[0];
        SetFork(s.(unused := s.unused[1..], where := s.where[np := Born(p)]), p, Got(np))
      case Got(np) => SetLock(Goto(s, c, Forking(p, np)), np, Some(c))
      case Made(np) => SetLock(Goto(s, c, Readying(p, np)), np, Some(c))
      case Ready(np) => SetFork(Push(s, np), p, NoFork))
  }

  /** allocproc and fork with np's lock held: a USED process of container k, or,
      when memory runs out in fork, one to be freed again. */
  function ForkStep(s: State, c: nat, p: nat, np: nat, ok: bool, k: nat): State
    requires WellFormed(s) && c < |s.cpus| && p < |s.procs| && np < |s.procs| && k < |s.runs|
  {
    var s1 := s.(procs := s.procs[np := s.procs[np].(cont := k)]);
    if ok then Goto(SetFork(SetState(s1, np, USED, s.where[np]), p, Made(np)), c, Releasing(p, np))
    else Goto(SetFork(SetState(s1, np, UNUSED, Freed(c)), p, NoFork), c, FreePush(p, np))
  }

  // ----- the invariant

  function LocksOf(cs: seq<Cpu>): (r: seq<Maybe>)
    ensures |r| == |cs| && forall c :: 0 <= c < |cs| ==> r[c] == LockOf(cs[c].pc)
  {
    seq(|cs|, c requires 0 <= c < |cs| => LockOf(cs[c].pc))
  }

  /** What a CPU knows at each place. */
  predicate CpuRight(s: State, c: nat)
    requires WellFormed(s) && c < |s.cpus|
  {
    var pc := s.cpus[c].pc;
    && Bounded(s, pc) && s.cpus[c].proc == Current(pc)
    && (InHand(pc).Some? ==> s.where[InHand(pc).value] == Taken(c))
    && (Runs(pc).Some? ==>
           s.where[pc.p] == Active(c) && s.procs[pc.p].state == if pc.YieldPush? then RUNNABLE else RUNNING)
    && (pc.InSched? || pc.Returned? ==> !s.where[pc.p].Active?)
    && (ToWake(pc).Some? ==> s.where[ToWake(pc).value] == Woken(c))
    && (pc.FreePush? ==> s.where[pc.q] == Freed(c))
    && (pc.Forking? ==> s.procs[pc.p].fork == Got(pc.q))
    && (pc.Readying? ==> s.procs[pc.p].fork == Made(pc.q))
  }

  /** What a process's place says of its state, and of the one that has its elem. */
  predicate ProcRight(s: State, p: nat)
    requires WellFormed(s) && p < |s.procs|
  {
    var st := s.procs[p].state;
    match s.where[p]
    case InUnused => st == UNUSED && p in s.unused
    case InRun => st == RUNNABLE && p in s.runs[s.procs[p].cont]
    case Taken(c) => st == RUNNABLE && c < |s.cpus| && InHand(s.cpus[c].pc) == Some(p)
    case Active(c) => (st == RUNNING || st == RUNNABLE) && c < |s.cpus| && Runs(s.cpus[c].pc) == Some(p)
    case Asleep => st == SLEEPING
    case Dead => st == ZOMBIE
    case Born(f) => f < |s.procs| && (
      (s.procs[f].fork == Got(p) && st == UNUSED) || (s.procs[f].fork == Made(p) && st == USED) ||
        (s.procs[f].fork == Ready(p) && st == RUNNABLE))
    case Woken(c) => st == RUNNABLE && c < |s.cpus| && ToWake(s.cpus[c].pc) == Some(p)
    case Freed(c) => st == UNUSED && c < |s.cpus| && s.cpus[c].pc.FreePush? && s.cpus[c].pc.q == p
  }

  predicate ForkRight(s: State, p: nat)
    requires WellFormed(s) && p < |s.procs|
  {
    !s.procs[p].fork.NoFork? ==> s.procs[p].fork.np < |s.procs| && s.where[s.procs[p].fork.np] == Born(p)
  }

  ghost predicate ListsRight(s: State)
    requires WellFormed(s)
  {
    && Distinct(s.unused)
    && (forall i :: 0 <= i < |s.unused| ==> s.unused[i] < |s.procs| && s.where[s.unused[i]] == InUnused)
    && (forall k :: 0 <= k < |s.runs| ==> Distinct(s.runs[k]))
    && (forall k, i :: 0 <= k < |s.runs| && 0 <= i < |s.runs[k]| ==>
          s.runs[k][i] < |s.procs| && s.where[s.runs[k][i]] == InRun && s.procs[s.runs[k][i]].cont == k)
  }

  ghost predicate CpusRight(s: State)
    requires WellFormed(s)
  {
    forall c :: 0 <= c < |s.cpus| ==> CpuRight(s, c)
  }

  ghost predicate ProcsRight(s: State)
    requires WellFormed(s)
  {
    forall p :: 0 <= p < |s.procs| ==> ProcRight(s, p) && ForkRight(s, p)
  }

  ghost predicate Inv(s: State) {
    && WellFormed(s) && !s.panicked && Agree(s.plock, LocksOf(s.cpus))
    && CpusRight(s) && ProcsRight(s) && ListsRight(s)
    && s.pushed == s.taken + s.runs[0]
  }

  // ----- every step keeps it

  /** The process that a step gives another state or place, if any. */
  function Subject(s: State, c: nat, call: Call, ok: bool): Maybe
    requires c < |s.cpus| && |s.runs| > 0 && Bounded(s, s.cpus[c].pc)
  {
    var pc := s.cpus[c].pc;
    if pc.Idle? then (if !call.Wakeup? && |s.runs[0]| > 0 then Some(s.runs[0][0]) else None)
    else if pc.Locked? || pc.Yielding? || pc.YieldPush? || pc.Dozing? || pc.Exiting? then Some(pc.p)
    else if ToWake(pc).Some? || pc.Forking? || pc.Readying? || pc.FreePush? then Some(pc.q)
    else if pc.Waking? || pc.IntrWaking? then
      (if s.procs[pc.q].state == SLEEPING && s.procs[pc.q].chan == pc.chan then Some(pc.q) else None)
    else if pc.Killing? then (if ok && s.procs[pc.q].state == SLEEPING then Some(pc.q) else None)
    else if pc.Reaping? then (if s.procs[pc.q].state == ZOMBIE then Some(pc.q) else None)
    else if pc.Free? && call.Fork? then (
      if s.procs[pc.p].fork.NoFork? then (if |s.unused| > 0 then Some(s.unused[0]) else None)
      else if s.procs[pc.p].fork.Ready? then Some(s.procs[pc.p].fork.np)
      else None)
    else None
  }

  /** No other CPU has the elem of a process with this place. */
  predicate Mine(w: Where, c: nat, actor: Maybe) {
    && (w.Taken? || w.Active? || w.Woken? || w.Freed? ==> w.c == c)
    && (w.Born? ==> actor == Some(w.parent))
  }

  predicate SameButSubject(s: State, t: State, x: Maybe) {
    && WellFormed(s) && WellFormed(t) && |t.procs| == |s.procs| && |t.runs| == |s.runs|
    && forall y :: 0 <= y < |s.procs| && x != Some(y) ==>
         t.where[y] == s.where[y] && t.procs[y].state == s.procs[y].state && t.procs[y].cont == s.procs[y].cont
  }

  predicate ForksMove(s: State, t: State, actor: Maybe, x: Maybe)
    requires |t.procs| == |s.procs|
  {
    forall y :: 0 <= y < |s.procs| && t.procs[y].fork != s.procs[y].fork ==>
      actor == Some(y) && (s.procs[y].fork == NoFork || x == Some(s.procs[y].fork.np))
  }

  predicate ListsKeep(s: State, t: State, x: Maybe)
    requires |t.runs| == |s.runs|
  {
    && (forall y :: y in s.unused && x != Some(y) ==> y in t.unused)
    && (forall k, y :: 0 <= k < |s.runs| && y in s.runs[k] && x != Some(y) ==> y in t.runs[k])
  }

  /** How the CPU's own place moves on, as far as processes not the subject go. */
  predicate PcMoves(a: Pc, b: Pc, x: Maybe) {
    && (InHand(a).Some? && x != InHand(a) ==> InHand(b) == InHand(a))
    && (Runs(a).Some? && x != Runs(a) ==> Runs(b) == Runs(a))
    && (ToWake(a).Some? || a.FreePush? ==> x == Some(a.q))
  }

  /** A step of CPU c with subject x, as the rest of the system sees it. */
  ghost predicate Moves(s: State, t: State, c: nat, x: Maybe) {
    && c < |s.cpus| == |t.cpus| && (forall d :: 0 <= d < |s.cpus| && d != c ==> t.cpus[d] == s.cpus[d])
    && SameButSubject(s, t, x)
    && var a, b := s.cpus[c].pc, t.cpus[c].pc;
    && ForksMove(s, t, Runs(a), x) && ListsKeep(s, t, x) && PcMoves(a, b, x)
    && Passed(s.plock, t.plock, LockOf(a), LockOf(b), c)
    && (x.Some? ==>
           x.value < |s.procs| && Mine(s.where[x.value], c, Runs(a)) && (t.where[x.value].Active? ==> LockOf(a) == x))
  }

  lemma OtherCpu(s: State, t: State, c: nat, x: Maybe, d: nat)
    requires Moves(s, t, c, x) && d < |s.cpus| && d != c && CpuRight(s, d) && CpuRight(s, c) &&
             Agree(s.plock, LocksOf(s.cpus))
    ensures CpuRight(t, d)
  {
    hide ListsKeep, PcMoves, Passed, Agree;
    LockHeld(s, c);
    LockHeld(s, d);
  }

  lemma LockHeld(s: State, c: nat)
    requires c < |s.cpus| && Agree(s.plock, LocksOf(s.cpus))
    ensures var l := LockOf(s.cpus[c].pc);
            l.Some? ==> l.value < |s.plock| && s.plock[l.value] == Some(c)
  {
    assert LocksOf(s.cpus)[c] == LockOf(s.cpus[c].pc);
  }

  lemma OtherProc(s: State, t: State, c: nat, x: Maybe, y: nat)
    requires Moves(s, t, c, x) && y < |s.procs| && x != Some(y) && ProcRight(s, y)
    ensures ProcRight(t, y)
  {
    hide Passed;
  }

  lemma OtherFork(s: State, t: State, c: nat, x: Maybe, y: nat)
    requires Moves(s, t, c, x) && y < |s.procs| && Runs(s.cpus[c].pc) != Some(y) && ForkRight(s, y)
    ensures ForkRight(t, y)
  {
    hide Passed, PcMoves, ListsKeep;
  }

  lemma LocksMoved(s: State, t: State, c: nat, x: Maybe)
    requires Moves(s, t, c, x) && Agree(s.plock, LocksOf(s.cpus))
    ensures Agree(t.plock, LocksOf(t.cpus))
  {
    hide Agree, LockOf, SameButSubject, ForksMove, ListsKeep, PcMoves;
    AgreeOn(s.plock, LocksOf(s.cpus), c, LockOf(t.cpus[c].pc), t.plock);
    assert LocksOf(t.cpus) == LocksOf(s.cpus)[c := LockOf(t.cpus[c].pc)];
  }

  /** What is left to show of a step, once it is known as a move. */
  ghost predicate OwnRight(s: State, t: State, c: nat, x: Maybe)
    requires Moves(s, t, c, x)
  {
    && CpuRight(t, c) && (x.Some? ==> ProcRight(t, x.value))
    && (Runs(s.cpus[c].pc).Some? && Runs(s.cpus[c].pc).value < |t.procs| ==> ForkRight(t, Runs(s.cpus[c].pc).value))
    && !t.panicked && t.pushed == t.taken + t.runs[0]
  }

  lemma MoveKeeps(s: State, t: State, c: nat, x: Maybe)
    requires Inv(s) && Moves(s, t, c, x) && OwnRight(s, t, c, x) && ListsRight(t)
    ensures Inv(t)
  {
    hide Moves, CpuRight, ProcRight, ForkRight, ListsRight;
    MovesShape(s, t, c, x);
    LocksMoved(s, t, c, x);
    forall d | 0 <= d < |t.cpus| ensures CpuRight(t, d) {
      assert CpuRight(s, d) && CpuRight(s, c);
      if d != c {
        OtherCpu(s, t, c, x, d);
      }
    }
    forall y | 0 <= y < |t.procs| ensures ProcRight(t, y) && ForkRight(t, y) {
      assert ProcRight(s, y) && ForkRight(s, y);
      if x != Some(y) {
        OtherProc(s, t, c, x, y);
      }
      if Runs(s.cpus[c].pc) != Some(y) {
        OtherFork(s, t, c, x, y);
      }
    }
  }

  lemma MovesShape(s: State, t: State, c: nat, x: Maybe)
    requires Moves(s, t, c, x)
    ensures WellFormed(s) && WellFormed(t) && |t.procs| == |s.procs| && |t.cpus| == |s.cpus| && c < |s.cpus|
  {
  }

  // ----- the lists

  predicate OnNoList(w: Where) {
    !w.InUnused? && !w.InRun?
  }

  lemma ListsSame(s: State, t: State, x: Maybe)
    requires SameButSubject(s, t, x) && ListsRight(s) && t.runs == s.runs && t.unused == s.unused
    requires x.Some? ==> x.value < |s.procs| && OnNoList(s.where[x.value])
    ensures ListsRight(t) && ListsKeep(s, t, x)
  {
  }

  lemma ListsPush(s: State, t: State, q: nat)
    requires SameButSubject(s, t, Some(q)) && ListsRight(s) && q < |s.procs| && OnNoList(s.where[q]) &&
             t.unused == s.unused
    requires var k := t.procs[q].cont; t.runs == s.runs[k := s.runs[k] + [q]] && t.where[q] == InRun
    ensures ListsRight(t) && ListsKeep(s, t, Some(q)) && q in t.runs[t.procs[q].cont]
  {
    var k := t.procs[q].cont;
    assert t.runs[k][|s.runs[k]|] == q;
  }

  lemma ListsTake(s: State, t: State)
    requires WellFormed(s) && ListsRight(s) && |s.runs[0]| > 0 && SameButSubject(s, t, Some(s.runs[0][0])) &&
             t.unused == s.unused
    requires t.runs == s.runs[0 := s.runs[0][1..]]
    ensures ListsRight(t) && ListsKeep(s, t, Some(s.runs[0][0]))
  {
    var p := s.runs[0][0];
    assert s.runs[0] == [p] + s.runs[0][1..];
    forall k, i | 0 <= k < |t.runs| && 0 <= i < |t.runs[k]| ensures t.runs[k][i] != p {
      assert k == 0 ==> t.runs[k][i] == s.runs[0][i + 1];
      assert s.where[p] == InRun && s.procs[p].cont == 0;
    }
  }

  lemma UnusedPush(s: State, t: State, q: nat)
    requires SameButSubject(s, t, Some(q)) && ListsRight(s) && q < |s.procs| && OnNoList(s.where[q]) && t.runs == s.runs
    requires t.unused == s.unused + [q] && t.where[q] == InUnused
    ensures ListsRight(t) && ListsKeep(s, t, Some(q)) && q in t.unused
  {
    assert t.unused[|s.unused|] == q;
  }

  lemma UnusedTake(s: State, t: State)
    requires WellFormed(s) && ListsRight(s) && |s.unused| > 0 && SameButSubject(s, t, Some(s.unused[0])) &&
             t.runs == s.runs
    requires t.unused == s.unused[1..]
    ensures ListsRight(t) && ListsKeep(s, t, Some(s.unused[0]))
  {
    assert s.unused == [s.unused[0]] + s.unused[1..];
  }

  // ----- step by step

  /** What the CPU that moves knows. */
  ghost predicate Here(s: State, c: nat) {
    && WellFormed(s) && c < |s.cpus| && CpuRight(s, c) && !s.panicked && ListsRight(s) &&
       s.pushed == s.taken + s.runs[0]
    && var pc := s.cpus[c].pc;
    && (LockOf(pc).Some? ==> s.plock[LockOf(pc).value] == Some(c))
    && (InHand(pc).Some? ==> ProcRight(s, InHand(pc).value))
    && (!pc.Idle? && !InHandler(pc) ==> ProcRight(s, pc.p) && ForkRight(s, pc.p))
    && (Other(pc).Some? ==> ProcRight(s, Other(pc).value) && ForkRight(s, Other(pc).value))
    && (!pc.Idle? && !InHandler(pc) && !s.procs[pc.p].fork.NoFork? ==>
          ProcRight(s, s.procs[pc.p].fork.np))
    && (|s.runs[0]| > 0 ==> s.runs[0][0] < |s.procs| && ProcRight(s, s.runs[0][0]) && s.where[s.runs[0][0]] == InRun)
    && (|s.unused| > 0 ==> s.unused[0] < |s.procs| && ProcRight(s, s.unused[0]) && s.where[s.unused[0]] == InUnused)
  }

  lemma InvHere(s: State, c: nat)
    requires Inv(s) && c < |s.cpus|
    ensures Here(s, c)
  {
    assert CpuRight(s, c);
    LockHeld(s, c);
  }

  /** A step is a move that leaves its own CPU and processes right. */
  ghost predicate GoodStep(s: State, c: nat, call: Call, ok: bool, k: nat)
    requires Enabled(s, c, call, ok, k)
  {
    var t, x := Next(s, c, call, ok, k), Subject(s, c, call, ok);
    Moves(s, t, c, x) && OwnRight(s, t, c, x) && ListsRight(t)
  }

  /** A step that only takes or drops a lock, or sets a channel, and moves on. */
  lemma Quiet(s: State, t: State, c: nat)
    requires Here(s, c) && |t.cpus| == |s.cpus| && t == s.(cpus := t.cpus, plock := t.plock, procs := t.procs) &&
             |t.procs| == |s.procs| && (forall y :: 0 <= y < |s.procs| ==>
               t.procs[y] == s.procs[y].(chan := t.procs[y].chan)) &&
             (forall d :: 0 <= d < |s.cpus| && d != c ==> t.cpus[d] == s.cpus[d])
    requires Passed(s.plock, t.plock, LockOf(s.cpus[c].pc), LockOf(t.cpus[c].pc), c) &&
             PcMoves(s.cpus[c].pc, t.cpus[c].pc, None)
    requires CpuRight(t, c)
    ensures Moves(s, t, c, None) && OwnRight(s, t, c, None) && ListsRight(t)
  {
    hide ListsRight, ListsKeep, PcMoves;
    ListsSame(s, t, None);
  }

  /** What a step that gives process x another state does, but for the lists. */
  ghost predicate Acts(s: State, t: State, c: nat, x: nat)
    requires Here(s, c)
  {
    && |t.cpus| == |s.cpus| && (forall d :: 0 <= d < |s.cpus| && d != c ==> t.cpus[d] == s.cpus[d])
    && SameButSubject(s, t, Some(x)) && t.plock == s.plock && !t.panicked && t.pushed == t.taken + t.runs[0]
    && var a, b := s.cpus[c].pc, t.cpus[c].pc;
    && LockOf(b) == LockOf(a) && ForksMove(s, t, Runs(a), Some(x)) && PcMoves(a, b, Some(x))
    && x < |s.procs| && OnNoList(s.where[x]) && Mine(s.where[x], c, Runs(a))
    && (t.where[x].Active? ==> LockOf(a) == Some(x)) && CpuRight(t, c)
    && (Runs(a).Some? ==> ForkRight(t, Runs(a).value))
  }

  lemma StateStep(s: State, t: State, c: nat, x: nat)
    requires Here(s, c) && Acts(s, t, c, x) && t.runs == s.runs && t.unused == s.unused && ProcRight(t, x)
    ensures Moves(s, t, c, Some(x)) && OwnRight(s, t, c, Some(x)) && ListsRight(t)
  {
    hide ListsRight, ListsKeep, Passed, CpuRight, ProcRight, ForkRight, Mine, PcMoves, ForksMove;
    HereLock(s, c);
    PassedNone(s.plock, LockOf(s.cpus[c].pc), c);
    ListsSame(s, t, Some(x));
  }

  lemma PushStep(s: State, t: State, c: nat, x: nat)
    requires Here(s, c) && Acts(s, t, c, x) && t.unused == s.unused
    requires var k := t.procs[x].cont; t.runs == s.runs[k := s.runs[k] + [x]] && t.where[x] == InRun
    requires t.procs[x].state == RUNNABLE
    ensures Moves(s, t, c, Some(x)) && OwnRight(s, t, c, Some(x)) && ListsRight(t)
  {
    hide ListsRight, ListsKeep, Passed, CpuRight, ForkRight, Mine, PcMoves, ForksMove;
    HereLock(s, c);
    PassedNone(s.plock, LockOf(s.cpus[c].pc), c);
    ListsPush(s, t, x);
  }

  lemma UnusedStep(s: State, t: State, c: nat, x: nat)
    requires Here(s, c) && Acts(s, t, c, x) && t.runs == s.runs && t.unused == s.unused + [x]
    requires t.where[x] == InUnused && t.procs[x].state == UNUSED
    ensures Moves(s, t, c, Some(x)) && OwnRight(s, t, c, Some(x)) && ListsRight(t)
  {
    hide ListsRight, ListsKeep, Passed, CpuRight, ForkRight, Mine, PcMoves, ForksMove;
    HereLock(s, c);
    PassedNone(s.plock, LockOf(s.cpus[c].pc), c);
    UnusedPush(s, t, x);
  }

  lemma HereLock(s: State, c: nat)
    requires Here(s, c)
    ensures var l := LockOf(s.cpus[c].pc); l.Some? ==> l.value < |s.plock| && s.plock[l.value] == Some(c)
  {
  }

  /** The scheduler takes the first process of the list. */
  lemma Taking(s: State, c: nat)
    requires Here(s, c) && s.cpus[c].pc == Idle && |s.runs[0]| > 0
    ensures var t, x := Take(s, c), Some(s.runs[0][0]);
            Moves(s, t, c, x) && OwnRight(s, t, c, x) && ListsRight(t)
  {
    hide ListsRight, ListsKeep;
    ListsTake(s, Take(s, c));
  }

  lemma IdleGood(s: State, c: nat, call: Call, ok: bool, k: nat)
    requires Here(s, c) && Enabled(s, c, call, ok, k) && var pc := s.cpus[c].pc; pc.Idle? && !call.Wakeup?
    ensures GoodStep(s, c, call, ok, k)
  {
    hide Here, ListsRight, Moves, OwnRight;
    Taking(s, c);
  }

  /** A handler begins. */
  lemma Interrupt(s: State, c: nat, back: Maybe, q: nat, ch: nat)
    requires Here(s, c) && s.cpus[c].pc == (if back.Some? then Took(back.value) else Idle)
    requires q < |s.procs| && s.plock[q] == None
    ensures var t := Interrupted(s, c, back, q, ch); Moves(s, t, c, None) && OwnRight(s, t, c, None) && ListsRight(t)
  {
    hide ListsRight, Moves, OwnRight, ProcRight, ForkRight;
    Quiet(s, Interrupted(s, c, back, q, ch), c);
  }

  lemma InterruptGood(s: State, c: nat, call: Call, ok: bool, k: nat)
    requires Here(s, c) && Enabled(s, c, call, ok, k) && var pc := s.cpus[c].pc;
             (pc.Idle? || pc.Took?) && call.Wakeup?
    ensures GoodStep(s, c, call, ok, k)
  {
    hide Here, ListsRight, Moves, OwnRight;
    Interrupt(s, c, InHand(s.cpus[c].pc), call.q, call.ch);
  }

  lemma IntrReleasingGood(s: State, c: nat, call: Call, ok: bool, k: nat)
    requires Here(s, c) && Enabled(s, c, call, ok, k) && var pc := s.cpus[c].pc; pc.IntrReleasing?
    ensures GoodStep(s, c, call, ok, k)
  {
    hide ListsRight, ListsKeep, Moves, OwnRight;
    Quiet(s, Next(s, c, call, ok, k), c);
  }

  lemma TookGood(s: State, c: nat, call: Call, ok: bool, k: nat)
    requires Here(s, c) && Enabled(s, c, call, ok, k) && var pc := s.cpus[c].pc; pc.Took? && !call.Wakeup?
    ensures GoodStep(s, c, call, ok, k)
  {
    hide ListsRight, ListsKeep, Moves, OwnRight;
    Quiet(s, Next(s, c, call, ok, k), c);
  }

  lemma ReturnedGood(s: State, c: nat, call: Call, ok: bool, k: nat)
    requires Here(s, c) && Enabled(s, c, call, ok, k) && var pc := s.cpus[c].pc; pc.Returned?
    ensures GoodStep(s, c, call, ok, k)
  {
    hide ListsRight, ListsKeep, Moves, OwnRight;
    Quiet(s, Next(s, c, call, ok, k), c);
  }

  lemma ReleasingGood(s: State, c: nat, call: Call, ok: bool, k: nat)
    requires Here(s, c) && Enabled(s, c, call, ok, k) && var pc := s.cpus[c].pc; pc.Releasing?
    ensures GoodStep(s, c, call, ok, k)
  {
    hide ListsRight, ListsKeep, Moves, OwnRight;
    Quiet(s, Next(s, c, call, ok, k), c);
  }

  lemma InSchedGood(s: State, c: nat, call: Call, ok: bool, k: nat)
    requires Here(s, c) && Enabled(s, c, call, ok, k) && var pc := s.cpus[c].pc; pc.InSched?
    ensures GoodStep(s, c, call, ok, k)
  {
    hide ListsRight, ListsKeep, Moves, OwnRight;
    Quiet(s, Next(s, c, call, ok, k), c);
  }

  lemma LockedGood(s: State, c: nat, call: Call, ok: bool, k: nat)
    requires Here(s, c) && Enabled(s, c, call, ok, k) && var pc := s.cpus[c].pc; pc.Locked?
    ensures GoodStep(s, c, call, ok, k)
  {
    hide ListsRight, Moves, OwnRight;
    StateStep(s, Next(s, c, call, ok, k), c, s.cpus[c].pc.p);
  }

  /** A process comes back from sched and lets go of its lock. */
  lemma Resume(s: State, c: nat, p: nat)
    requires Here(s, c) && s.cpus[c].pc == Resumed(p)
    ensures var t := SetLock(Goto(s.(procs := s.procs[p := s.procs[p].(chan := 0)]), c, Free(p)), p, None);
            Moves(s, t, c, None) && OwnRight(s, t, c, None) && ListsRight(t)
  {
    hide ListsRight, Moves, OwnRight, ProcRight, ForkRight;
    Quiet(s, SetLock(Goto(s.(procs := s.procs[p := s.procs[p].(chan := 0)]), c, Free(p)), p, None), c);
  }

  lemma ResumedGood(s: State, c: nat, call: Call, ok: bool, k: nat)
    requires Here(s, c) && Enabled(s, c, call, ok, k) && var pc := s.cpus[c].pc; pc.Resumed?
    ensures GoodStep(s, c, call, ok, k)
  {
    hide Here, ListsRight, Moves, OwnRight;
    Resume(s, c, s.cpus[c].pc.p);
  }

  lemma OwnCallGood(s: State, c: nat, call: Call, ok: bool, k: nat)
    requires Here(s, c) && Enabled(s, c, call, ok, k) && var pc := s.cpus[c].pc;
             pc.Free? && (call.Yield? || call.Sleep? || call.Exit?)
    ensures GoodStep(s, c, call, ok, k)
  {
    hide ListsRight, ListsKeep, Moves, OwnRight;
    Quiet(s, Next(s, c, call, ok, k), c);
  }

  lemma OtherCallGood(s: State, c: nat, call: Call, ok: bool, k: nat)
    requires Here(s, c) && Enabled(s, c, call, ok, k) && var pc := s.cpus[c].pc;
             pc.Free? && (call.Wakeup? || call.Kill? || call.Wait?)
    ensures GoodStep(s, c, call, ok, k)
  {
    hide ListsRight, ListsKeep, Moves, OwnRight;
    Quiet(s, Next(s, c, call, ok, k), c);
  }

  lemma YieldingGood(s: State, c: nat, call: Call, ok: bool, k: nat)
    requires Here(s, c) && Enabled(s, c, call, ok, k) && var pc := s.cpus[c].pc; pc.Yielding?
    ensures GoodStep(s, c, call, ok, k)
  {
    hide ListsRight, Moves, OwnRight;
    StateStep(s, Next(s, c, call, ok, k), c, s.cpus[c].pc.p);
  }

  lemma YieldPushGood(s: State, c: nat, call: Call, ok: bool, k: nat)
    requires Here(s, c) && Enabled(s, c, call, ok, k) && var pc := s.cpus[c].pc; pc.YieldPush?
    ensures GoodStep(s, c, call, ok, k)
  {
    hide ListsRight, Moves, OwnRight;
    PushStep(s, Next(s, c, call, ok, k), c, s.cpus[c].pc.p);
  }

  lemma WakePushGood(s: State, c: nat, call: Call, ok: bool, k: nat)
    requires Here(s, c) && Enabled(s, c, call, ok, k) && var pc := s.cpus[c].pc; pc.WakePush?
    ensures GoodStep(s, c, call, ok, k)
  {
    hide ListsRight, Moves, OwnRight;
    PushStep(s, Next(s, c, call, ok, k), c, s.cpus[c].pc.q);
  }

  lemma IntrPushGood(s: State, c: nat, call: Call, ok: bool, k: nat)
    requires Here(s, c) && Enabled(s, c, call, ok, k) && var pc := s.cpus[c].pc; pc.IntrPush?
    ensures GoodStep(s, c, call, ok, k)
  {
    hide ListsRight, Moves, OwnRight;
    PushStep(s, Next(s, c, call, ok, k), c, s.cpus[c].pc.q);
  }

  lemma FreePushGood(s: State, c: nat, call: Call, ok: bool, k: nat)
    requires Here(s, c) && Enabled(s, c, call, ok, k) && var pc := s.cpus[c].pc; pc.FreePush?
    ensures GoodStep(s, c, call, ok, k)
  {
    hide ListsRight, Moves, OwnRight;
    UnusedStep(s, Next(s, c, call, ok, k), c, s.cpus[c].pc.q);
  }

  lemma ForkTakeGood(s: State, c: nat, call: Call, ok: bool, k: nat)
    requires Here(s, c) && Enabled(s, c, call, ok, k) && var pc := s.cpus[c].pc;
             pc.Free? && call.Fork? && s.procs[pc.p].fork.NoFork?
    ensures GoodStep(s, c, call, ok, k)
  {
    hide ListsRight, ListsKeep;
    UnusedTake(s, Next(s, c, call, ok, k));
  }

  lemma ForkLockGood(s: State, c: nat, call: Call, ok: bool, k: nat)
    requires Here(s, c) && Enabled(s, c, call, ok, k) && var pc := s.cpus[c].pc;
             pc.Free? && call.Fork? && (s.procs[pc.p].fork.Got? || s.procs[pc.p].fork.Made?)
    ensures GoodStep(s, c, call, ok, k)
  {
    hide ListsRight, ListsKeep, Moves, OwnRight;
    Quiet(s, Next(s, c, call, ok, k), c);
  }

  lemma ForkPushGood(s: State, c: nat, call: Call, ok: bool, k: nat)
    requires Here(s, c) && Enabled(s, c, call, ok, k) && var pc := s.cpus[c].pc;
             pc.Free? && call.Fork? && s.procs[pc.p].fork.Ready?
    ensures GoodStep(s, c, call, ok, k)
  {
    hide ListsRight, ListsKeep, Moves, OwnRight;
    var p := s.cpus[c].pc.p;
    ForkPush(s, c, p, s.procs[p].fork.np);
  }

  /** fork appends its child. */
  lemma ForkPush(s: State, c: nat, p: nat, np: nat)
    requires Here(s, c) && s.cpus[c].pc == Free(p) && s.procs[p].fork == Ready(np)
    ensures var t := SetFork(Push(s, np), p, NoFork);
            Moves(s, t, c, Some(np)) && OwnRight(s, t, c, Some(np)) && ListsRight(t)
  {
    hide ListsRight, Moves, OwnRight;
    PushStep(s, SetFork(Push(s, np), p, NoFork), c, np);
  }

  /** A sleeping process becomes RUNNABLE. */
  lemma Wake(s: State, c: nat, q: nat, b: Pc)
    requires Here(s, c) && Other(s.cpus[c].pc) == Some(q) && s.procs[q].state == SLEEPING
    requires var pc := s.cpus[c].pc;
             if pc.Waking? || pc.Killing? then b == WakePush(pc.p, q) else pc.IntrWaking? && b == IntrPush(pc.back, q)
    ensures var t := Goto(SetState(s, q, RUNNABLE, Woken(c)), c, b);
            Moves(s, t, c, Some(q)) && OwnRight(s, t, c, Some(q)) && ListsRight(t)
  {
    hide ListsRight, Moves, OwnRight;
    StateStep(s, Goto(SetState(s, q, RUNNABLE, Woken(c)), c, b), c, q);
  }

  /** A zombie is reaped. */
  lemma Reap(s: State, c: nat, p: nat, q: nat)
    requires Here(s, c) && s.cpus[c].pc == Reaping(p, q) && s.procs[q].state == ZOMBIE
    ensures var t := Goto(SetState(s, q, UNUSED, Freed(c)), c, FreePush(p, q));
            Moves(s, t, c, Some(q)) && OwnRight(s, t, c, Some(q)) && ListsRight(t)
  {
    hide ListsRight, Moves, OwnRight;
    StateStep(s, Goto(SetState(s, q, UNUSED, Freed(c)), c, FreePush(p, q)), c, q);
  }

  /** The running process exits. */
  lemma Stop(s: State, c: nat, p: nat)
    requires Here(s, c) && s.cpus[c].pc == Exiting(p)
    ensures var t := Goto(SetState(s, p, ZOMBIE, Dead), c, InSched(p));
            Moves(s, t, c, Some(p)) && OwnRight(s, t, c, Some(p)) && ListsRight(t)
  {
    hide ListsRight, Moves, OwnRight;
    StateStep(s, Goto(SetState(s, p, ZOMBIE, Dead), c, InSched(p)), c, p);
  }

  /** fork makes a USED process. */
  lemma Making(s: State, c: nat, p: nat, q: nat, k: nat)
    requires Here(s, c) && s.cpus[c].pc == Forking(p, q) && k < |s.runs|
    ensures var t := ForkStep(s, c, p, q, true, k);
            Moves(s, t, c, Some(q)) && OwnRight(s, t, c, Some(q)) && ListsRight(t)
  {
    hide ListsRight, Moves, OwnRight;
    StateStep(s, ForkStep(s, c, p, q, true, k), c, q);
  }

  /** fork runs out of memory. */
  lemma Unmaking(s: State, c: nat, p: nat, q: nat, k: nat)
    requires Here(s, c) && s.cpus[c].pc == Forking(p, q) && k < |s.runs|
    ensures var t := ForkStep(s, c, p, q, false, k);
            Moves(s, t, c, Some(q)) && OwnRight(s, t, c, Some(q)) && ListsRight(t)
  {
    hide ListsRight, Moves, OwnRight;
    StateStep(s, ForkStep(s, c, p, q, false, k), c, q);
  }

  /** fork makes its child RUNNABLE. */
  lemma Readies(s: State, c: nat, p: nat, q: nat)
    requires Here(s, c) && s.cpus[c].pc == Readying(p, q)
    ensures var t := Goto(SetFork(SetState(s, q, RUNNABLE, s.where[q]), p, Ready(q)), c, Releasing(p, q));
            Moves(s, t, c, Some(q)) && OwnRight(s, t, c, Some(q)) && ListsRight(t)
  {
    hide ListsRight, Moves, OwnRight;
    StateStep(s, Goto(SetFork(SetState(s, q, RUNNABLE, s.where[q]), p, Ready(q)), c, Releasing(p, q)), c, q);
  }

  /** A process whose lock was taken stays as it is. */
  lemma LetGo(s: State, c: nat, q: nat, b: Pc)
    requires Here(s, c) && Other(s.cpus[c].pc) == Some(q)
    requires var pc := s.cpus[c].pc;
             if pc.Waking? || pc.Killing? || pc.Reaping? then b == Releasing(pc.p, q)
             else pc.IntrWaking? && b == IntrReleasing(pc.back, q)
    ensures var t := Goto(s, c, b); Moves(s, t, c, None) && OwnRight(s, t, c, None) && ListsRight(t)
  {
    hide ListsRight, Moves, OwnRight, ProcRight, ForkRight;
    Quiet(s, Goto(s, c, b), c);
  }

  lemma WakingGood(s: State, c: nat, call: Call, ok: bool, k: nat)
    requires Here(s, c) && Enabled(s, c, call, ok, k) && var pc := s.cpus[c].pc;
             pc.Waking? || pc.Killing? || pc.IntrWaking?
    ensures GoodStep(s, c, call, ok, k)
  {
    hide Here, ListsRight, Moves, OwnRight;
    var pc := s.cpus[c].pc;
    if Subject(s, c, call, ok) == None {
      LetGo(s, c, pc.q, if pc.IntrWaking? then IntrReleasing(pc.back, pc.q) else Releasing(pc.p, pc.q));
    } else {
      Wake(s, c, pc.q, if pc.IntrWaking? then IntrPush(pc.back, pc.q) else WakePush(pc.p, pc.q));
    }
  }

  lemma ReapingGood(s: State, c: nat, call: Call, ok: bool, k: nat)
    requires Here(s, c) && Enabled(s, c, call, ok, k) && var pc := s.cpus[c].pc; pc.Reaping?
    ensures GoodStep(s, c, call, ok, k)
  {
    hide Here, ListsRight, Moves, OwnRight;
    var pc := s.cpus[c].pc;
    if Subject(s, c, call, ok) == None {
      LetGo(s, c, pc.q, Releasing(pc.p, pc.q));
    } else {
      Reap(s, c, pc.p, pc.q);
    }
  }

  lemma ForkingGood(s: State, c: nat, call: Call, ok: bool, k: nat)
    requires Here(s, c) && Enabled(s, c, call, ok, k) && var pc := s.cpus[c].pc; pc.Forking?
    ensures GoodStep(s, c, call, ok, k)
  {
    hide ListsRight, ListsKeep, Moves, OwnRight;
    var pc := s.cpus[c].pc;
    Making(s, c, pc.p, pc.q, k);
    Unmaking(s, c, pc.p, pc.q, k);
  }

  lemma ReadyingGood(s: State, c: nat, call: Call, ok: bool, k: nat)
    requires Here(s, c) && Enabled(s, c, call, ok, k) && var pc := s.cpus[c].pc; pc.Readying?
    ensures GoodStep(s, c, call, ok, k)
  {
    hide ListsRight, ListsKeep, Moves, OwnRight;
    Readies(s, c, s.cpus[c].pc.p, s.cpus[c].pc.q);
  }

  lemma ExitingGood(s: State, c: nat, call: Call, ok: bool, k: nat)
    requires Here(s, c) && Enabled(s, c, call, ok, k) && var pc := s.cpus[c].pc; pc.Exiting?
    ensures GoodStep(s, c, call, ok, k)
  {
    hide ListsRight, ListsKeep, Moves, OwnRight;
    Stop(s, c, s.cpus[c].pc.p);
  }

  /** The running process goes to sleep. */
  lemma Doze(s: State, c: nat, p: nat, ch: nat)
    requires Here(s, c) && s.cpus[c].pc == Dozing(p, ch)
    ensures var t :=
              Goto(SetState(s.(procs := s.procs[p := s.procs[p].(chan := ch)]), p, SLEEPING, Asleep), c, InSched(p));
            Moves(s, t, c, Some(p)) && OwnRight(s, t, c, Some(p)) && ListsRight(t)
  {
    hide ListsRight, Moves, OwnRight;
    var s1 := s.(procs := s.procs[p := s.procs[p].(chan := ch)]);
    StateStep(s, Goto(SetState(s1, p, SLEEPING, Asleep), c, InSched(p)), c, p);
  }

  lemma DozingGood(s: State, c: nat, call: Call, ok: bool, k: nat)
    requires Here(s, c) && Enabled(s, c, call, ok, k) && var pc := s.cpus[c].pc; pc.Dozing?
    ensures GoodStep(s, c, call, ok, k)
  {
    hide Here, ListsRight, Moves, OwnRight;
    Doze(s, c, s.cpus[c].pc.p, s.cpus[c].pc.chan);
  }

  lemma EveryStepGood(s: State, c: nat, call: Call, ok: bool, k: nat)
    requires Here(s, c) && Enabled(s, c, call, ok, k)
    ensures GoodStep(s, c, call, ok, k)
  {
    hide Here, Next, GoodStep;
    match s.cpus[c].pc
    case Idle =>
      if call.Wakeup? {
        InterruptGood(s, c, call, ok, k);
      } else {
        IdleGood(s, c, call, ok, k);
      }
    case Took(_) =>
      if call.Wakeup? {
        InterruptGood(s, c, call, ok, k);
      } else {
        TookGood(s, c, call, ok, k);
      }
    case Locked(_) => LockedGood(s, c, call, ok, k);
    case Returned(_) => ReturnedGood(s, c, call, ok, k);
    case Resumed(_) => ResumedGood(s, c, call, ok, k);
    case Free(p) =>
      if call.Fork? {
        match s.procs[p].fork
        case NoFork => ForkTakeGood(s, c, call, ok, k);
        case Got(_) => ForkLockGood(s, c, call, ok, k);
        case Made(_) => ForkLockGood(s, c, call, ok, k);
        case Ready(_) => ForkPushGood(s, c, call, ok, k);
      } else if call.Yield? || call.Sleep? || call.Exit? {
        OwnCallGood(s, c, call, ok, k);
      } else {
        OtherCallGood(s, c, call, ok, k);
      }
    case Yielding(_) => YieldingGood(s, c, call, ok, k);
    case YieldPush(_) => YieldPushGood(s, c, call, ok, k);
    case Dozing(_, _) => DozingGood(s, c, call, ok, k);
    case Exiting(_) => ExitingGood(s, c, call, ok, k);
    case InSched(_) => InSchedGood(s, c, call, ok, k);
    case Waking(_, _, _) => WakingGood(s, c, call, ok, k);
    case Killing(_, _) => WakingGood(s, c, call, ok, k);
    case WakePush(_, _) => WakePushGood(s, c, call, ok, k);
    case Forking(_, _) => ForkingGood(s, c, call, ok, k);
    case Readying(_, _) => ReadyingGood(s, c, call, ok, k);
    case Reaping(_, _) => ReapingGood(s, c, call, ok, k);
    case FreePush(_, _) => FreePushGood(s, c, call, ok, k);
    case Releasing(_, _) => ReleasingGood(s, c, call, ok, k);
    case IntrWaking(_, _, _) => WakingGood(s, c, call, ok, k);
    case IntrPush(_, _) => IntrPushGood(s, c, call, ok, k);
    case IntrReleasing(_, _) => IntrReleasingGood(s, c, call, ok, k);
  }

  lemma InvKept(s: State, c: nat, call: Call, ok: bool, k: nat)
    requires Inv(s) && Enabled(s, c, call, ok, k)
    ensures Inv(Next(s, c, call, ok, k))
  {
    hide Here, Next, Inv, Moves, OwnRight, ListsRight;
    InvHere(s, c);
    EveryStepGood(s, c, call, ok, k);
    MoveKeeps(s, Next(s, c, call, ok, k), c, Subject(s, c, call, ok));
  }

  // ----- runs

  /** userinit: process 0 on the root's run list, the others on unused_list. */
  ghost predicate Init(s: State) {
    && |s.procs| > 0 && |s.runs| > 0 && !s.panicked
    && s.plock == seq(|s.procs|, _ => None)
    && s.procs == seq(|s.procs|, p => Proc(if p == 0 then RUNNABLE else UNUSED, 0, 0, NoFork))
    && s.where == seq(|s.procs|, p => if p == 0 then InRun else InUnused)
    && s.cpus == seq(|s.cpus|, _ => Cpu(Idle, None))
    && s.runs == seq(|s.runs|, k => if k == 0 then [0] else [])
    && s.unused == seq(|s.procs| - 1, i => i + 1)
    && s.pushed == [0] && s.taken == []
  }

  lemma InitInv(s: State)
    requires Init(s)
    ensures Inv(s)
  {
    forall p | 0 <= p < |s.procs| ensures ProcRight(s, p) && ForkRight(s, p) {
      if p > 0 {
        assert s.unused[p - 1] == p;
      }
    }
    assert forall c :: 0 <= c < |s.cpus| ==> LocksOf(s.cpus)[c] == None;
  }

  ghost predicate Step(s: State, t: State) {
    exists c: nat, call, ok, k: nat :: Enabled(s, c, call, ok, k) && t == Next(s, c, call, ok, k)
  }

  /** A run: in every step, one CPU moves. */
  ghost predicate Run(tr: seq<State>) {
    |tr| > 0 && Init(tr[0]) && forall i :: 0 <= i < |tr| - 1 ==> Step(tr[i], tr[i + 1])
  }

  lemma {:induction false} RunInv(tr: seq<State>, i: nat)
    requires Run(tr) && i < |tr|
    ensures Inv(tr[i])
    decreases i
  {
    hide Enabled, Next, Inv, Init;
    if i == 0 {
      InitInv(tr[0]);
    } else {
      RunInv(tr, i - 1);
      assert Step(tr[i - 1], tr[i - 1 + 1]);
      var c: nat, call, ok, k: nat :| Enabled(tr[i - 1], c, call, ok, k) && tr[i] == Next(tr[i - 1], c, call, ok, k);
      InvKept(tr[i - 1], c, call, ok, k);
    }
  }

  /** A process's elem is on at most one of unused_list and its own container's
      run list, at one place there, and on no other container's. */
  lemma OneList(tr: seq<State>, i: nat, p: nat, k: nat)
    requires Run(tr) && i < |tr| && p < |tr[i].procs| && k < |tr[i].runs|
    ensures p in tr[i].runs[k] ==> p !in tr[i].unused && tr[i].procs[p].cont == k
    ensures multiset(tr[i].runs[k])[p] <= 1 && multiset(tr[i].unused)[p] <= 1
  {
    RunInv(tr, i);
    OnceIn(tr[i].runs[k], p);
    OnceIn(tr[i].unused, p);
  }

  lemma {:induction false} OnceIn(l: seq<nat>, p: nat)
    requires Distinct(l)
    ensures multiset(l)[p] <= 1
  {
    if l != [] {
      assert l == [l[0]] + l[1..];
      OnceIn(l[1..], p);
    }
  }

  /** Whatever is on a run list is RUNNABLE, and whatever is on unused_list is UNUSED. */
  lemma ListedState(tr: seq<State>, i: nat, p: nat, k: nat)
    requires Run(tr) && i < |tr| && p < |tr[i].procs| && k < |tr[i].runs|
    ensures p in tr[i].runs[k] ==> tr[i].procs[p].state == RUNNABLE
    ensures p in tr[i].unused ==> tr[i].procs[p].state == UNUSED
  {
    RunInv(tr, i);
    assert ProcRight(tr[i], p);
  }

  /** No process is c->proc of two CPUs, and none is taken by one scheduler while
      it executes on another. */
  lemma OneCpu(tr: seq<State>, i: nat, c: nat, d: nat)
    requires Run(tr) && i < |tr| && c < |tr[i].cpus| && d < |tr[i].cpus| && c != d
    ensures tr[i].cpus[c].proc.Some? ==> tr[i].cpus[c].proc != tr[i].cpus[d].proc
    ensures Runs(tr[i].cpus[c].pc).Some? ==> Runs(tr[i].cpus[c].pc) != Current(tr[i].cpus[d].pc)
    ensures InHand(tr[i].cpus[c].pc).Some? ==>
              InHand(tr[i].cpus[c].pc) != Runs(tr[i].cpus[d].pc) && InHand(tr[i].cpus[c].pc) != InHand(tr[i].cpus[d].pc)
  {
    RunInv(tr, i);
    assert CpuRight(tr[i], c) && CpuRight(tr[i], d);
    LockHeld(tr[i], c);
    LockHeld(tr[i], d);
  }

  /** The scheduler's ASSERT and sched's panics are never reached. */
  lemma NoPanic(tr: seq<State>, i: nat)
    requires Run(tr) && i < |tr|
    ensures !tr[i].panicked
    ensures forall c :: 0 <= c < |tr[i].cpus| && tr[i].cpus[c].pc.Locked? ==>
              tr[i].cpus[c].pc.p < |tr[i].procs| && tr[i].procs[tr[i].cpus[c].pc.p].state == RUNNABLE
  {
    RunInv(tr, i);
    var s := tr[i];
    forall c | 0 <= c < |s.cpus| && s.cpus[c].pc.Locked?
      ensures s.cpus[c].pc.p < |s.procs| && s.procs[s.cpus[c].pc.p].state == RUNNABLE
    {
      assert CpuRight(s, c) && ProcRight(s, s.cpus[c].pc.p);
    }
  }

  /** Schedulers take processes from the root's run list in the order in which
      they were appended, whichever CPUs do it; those on the list come next. */
  lemma FirstInFirstOut(tr: seq<State>, i: nat)
    requires Run(tr) && i < |tr|
    ensures tr[i].taken <= tr[i].pushed && |tr[i].runs| > 0 && tr[i].pushed[|tr[i].taken|..] == tr[i].runs[0]
  {
    RunInv(tr, i);
  }

  /** A RUNNING process is executing, on the CPU that names it. */
  lemma RunningHasCpu(tr: seq<State>, i: nat, p: nat)
    requires Run(tr) && i < |tr| && p < |tr[i].procs| && tr[i].procs[p].state == RUNNING
    ensures exists c :: 0 <= c < |tr[i].cpus| && tr[i].cpus[c].proc == Some(p)
  {
    RunInv(tr, i);
    assert ProcRight(tr[i], p);
    assert CpuRight(tr[i], tr[i].where[p].c);
  }

  /** No RUNNABLE process is forgotten: it is on its container's run list, a
      scheduler has taken it, or someone is about to append it. */
  lemma RunnableNotLost(tr: seq<State>, i: nat, p: nat)
    requires Run(tr) && i < |tr| && p < |tr[i].procs| && tr[i].procs[p].state == RUNNABLE
    ensures var s := tr[i];
            || (s.procs[p].cont < |s.runs| && p in s.runs[s.procs[p].cont])
            || (exists c :: 0 <= c < |s.cpus| && var pc := s.cpus[c].pc;
                  InHand(pc) == Some(p) || pc == YieldPush(p) || ToWake(pc) == Some(p))
            || (exists f :: 0 <= f < |s.procs| && s.procs[f].fork == Ready(p))
  {
    RunInv(tr, i);
    var s := tr[i];
    assert ProcRight(s, p);
    if s.where[p].Active? {
      assert CpuRight(s, s.where[p].c);
    }
  }
}
