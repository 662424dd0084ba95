/** Whom wakeup, kill, wait and the scheduler move to which state, read off the
    calls of a run: a process sleeps until a wakeup on the channel that it
    passed to sleep, or a kill. */
module ProcessHistory {
  import opened Common
  import opened SpinLocks
  import opened Scheduler

  // ----- the states of one process

  /** The place of CPU c that moves process q from one state to another. */
  predicate Allows(pc: Pc, ok: bool, q: nat, chan: nat, from: Status, to: Status) {
    || (from == RUNNABLE && to == RUNNING && pc == Locked(q))
    || (from == RUNNING && to == RUNNABLE && pc == Yielding(q))
    || (from == RUNNING && to == SLEEPING && pc.Dozing? && pc.p == q)
    || (from == RUNNING && to == ZOMBIE && pc == Exiting(q))
    || (from == SLEEPING && to == RUNNABLE && (pc.Waking? || pc.IntrWaking?) && pc.q == q && pc.chan == chan)
    || (from == SLEEPING && to == RUNNABLE && pc.Killing? && pc.q == q && ok)
    || (from == ZOMBIE && to == UNUSED && pc.Reaping? && pc.q == q)
    || (from == UNUSED && to == USED && pc.Forking? && pc.q == q && ok)
    || (from == USED && to == RUNNABLE && pc.Readying? && pc.q == q)
  }

  /** What the places say of the process that they may move. */
  predicate PlaceKnows(s: State, pc: Pc)
    requires Bounded(s, pc)
  {
    && (pc.Locked? ==> s.procs[pc.p].state == RUNNABLE)
    && (pc.Yielding? || pc.Dozing? || pc.Exiting? ==> s.procs[pc.p].state == RUNNING)
    && (pc.Forking? ==> s.procs[pc.q].state == UNUSED)
    && (pc.Readying? ==> s.procs[pc.q].state == USED)
    && (pc.Free? || pc.Resumed? ==> s.procs[pc.p].state == RUNNING)
  }

  lemma HereKnows(s: State, c: nat)
    requires Here(s, c)
    ensures c < |s.cpus| && Bounded(s, s.cpus[c].pc) && PlaceKnows(s, s.cpus[c].pc)
  {
    hide ListsRight;
  }

  lemma CallKeepsStates(s: State, c: nat, p: nat, call: Call)
    requires WellFormed(s) && c < |s.cpus| && p < |s.procs| && FreeEnabled(s, p, call)
    ensures var t := CallStep(s, c, p, call);
            && |t.procs| == |s.procs|
            && forall q :: 0 <= q < |s.procs| ==>
                 t.procs[q].state == s.procs[q].state && t.procs[q].chan == s.procs[q].chan
  {
  }

  predicate MovesOwn(pc: Pc) {
    pc.Locked? || pc.Yielding? || pc.Dozing? || pc.Exiting?
  }

  predicate MovesOther(pc: Pc) {
    pc.Waking? || pc.IntrWaking? || pc.Killing? || pc.Reaping? || pc.Forking? || pc.Readying?
  }

  /** Anywhere else a step changes no process's state, and no channel but that of
      the process that it resumes. */
  lemma OthersKeepStates(s: State, c: nat, call: Call, ok: bool, k: nat)
    requires Enabled(s, c, call, ok, k) && !MovesOwn(s.cpus[c].pc) && !MovesOther(s.cpus[c].pc)
    ensures var t := Next(s, c, call, ok, k);
            && |t.procs| == |s.procs|
            && forall q :: 0 <= q < |s.procs| ==>
                 && t.procs[q].state == s.procs[q].state
                 && (s.cpus[c].pc != Resumed(q) ==> t.procs[q].chan == s.procs[q].chan)
  {
    hide CallStep, FreeEnabled;
    if s.cpus[c].pc.Free? {
      CallKeepsStates(s, c, s.cpus[c].pc.p, call);
    }
  }

  ghost predicate MovesRight(s: State, c: nat, call: Call, ok: bool, k: nat, q: nat, to: Status)
    requires Enabled(s, c, call, ok, k) && q < |s.procs|
  {
    var t := Next(s, c, call, ok, k);
    && |t.procs| == |s.procs|
    && (to != s.procs[q].state ==>
          (t.procs[q].state == to <==> Allows(s.cpus[c].pc, ok, q, s.procs[q].chan, s.procs[q].state, to)))
  }

  lemma OwnMoves(s: State, c: nat, call: Call, ok: bool, k: nat, q: nat, to: Status)
    requires Enabled(s, c, call, ok, k) && PlaceKnows(s, s.cpus[c].pc) && MovesOwn(s.cpus[c].pc) && q < |s.procs|
    ensures MovesRight(s, c, call, ok, k, q, to)
  {
  }

  lemma OtherMoves(s: State, c: nat, call: Call, ok: bool, k: nat, q: nat, to: Status)
    requires Enabled(s, c, call, ok, k) && PlaceKnows(s, s.cpus[c].pc) && MovesOther(s.cpus[c].pc) && q < |s.procs|
    ensures MovesRight(s, c, call, ok, k, q, to)
  {
  }

  /** A step moves process q to another state if and only if its place allows it. */
  lemma StatesMove(s: State, c: nat, call: Call, ok: bool, k: nat, q: nat, to: Status)
    requires Here(s, c) && Enabled(s, c, call, ok, k) && q < |s.procs|
    ensures MovesRight(s, c, call, ok, k, q, to)
  {
    hide Here, Next, Enabled, PlaceKnows, MovesRight;
    HereKnows(s, c);
    if MovesOwn(s.cpus[c].pc) {
      OwnMoves(s, c, call, ok, k, q, to);
    } else if MovesOther(s.cpus[c].pc) {
      OtherMoves(s, c, call, ok, k, q, to);
    } else {
      ElseMoves(s, c, call, ok, k, q, to);
    }
  }

  lemma ElseMoves(s: State, c: nat, call: Call, ok: bool, k: nat, q: nat, to: Status)
    requires Enabled(s, c, call, ok, k) && !MovesOwn(s.cpus[c].pc) && !MovesOther(s.cpus[c].pc) && q < |s.procs|
    ensures MovesRight(s, c, call, ok, k, q, to)
  {
    hide Next, Enabled;
    OthersKeepStates(s, c, call, ok, k);
  }

  lemma ChansMove(s: State, c: nat, call: Call, ok: bool, k: nat, q: nat)
    requires Enabled(s, c, call, ok, k) && q < |s.procs|
    ensures var t, pc := Next(s, c, call, ok, k), s.cpus[c].pc;
            && |t.procs| == |s.procs|
            && t.procs[q].chan == if pc.Dozing? && pc.p == q then pc.chan else if pc == Resumed(q) then 0
                                  else s.procs[q].chan
  {
    hide CallStep, FreeEnabled;
    if s.cpus[c].pc.Free? {
      CallKeepsStates(s, c, s.cpus[c].pc.p, call);
    }
  }

  // ----- runs with their calls

  /** What a step chooses: the CPU, the call if one is made, and the outcomes. */
  datatype Choice = Choice(c: nat, call: Call, ok: bool, k: nat)

  ghost predicate Chosen(s: State, h: Choice, t: State) {
    Enabled(s, h.c, h.call, h.ok, h.k) && t == Next(s, h.c, h.call, h.ok, h.k)
  }

  ghost predicate ChosenRun(tr: seq<State>, hs: seq<Choice>) {
    |tr| == |hs| + 1 && Init(tr[0]) && forall i :: 0 <= i < |hs| ==> Chosen(tr[i], hs[i], tr[i + 1])
  }

  /** Every run is one. */
  lemma {:induction false} RunsAreChosen(tr: seq<State>) returns (hs: seq<Choice>)
    requires Run(tr)
    ensures ChosenRun(tr, hs)
  {
    hide Enabled, Next, Init;
    hs := ChoicesOf(tr, |tr| - 1);
  }

  lemma {:induction false} ChoicesOf(tr: seq<State>, n: nat) returns (hs: seq<Choice>)
    requires Run(tr) && n < |tr|
    ensures |hs| == n && forall i :: 0 <= i < n ==> Chosen(tr[i], hs[i], tr[i + 1])
  {
    hide Enabled, Next, Init;
    if n == 0 {
      hs := [];
    } else {
      var rest := ChoicesOf(tr, n - 1);
      assert Step(tr[n - 1], tr[n - 1 + 1]);
      var c: nat, call, ok, k: nat :| Enabled(tr[n - 1], c, call, ok, k) && tr[n] == Next(tr[n - 1], c, call, ok, k);
      hs := rest + [Choice(c, call, ok, k)];
    }
  }

  lemma {:induction false} ChosenInv(tr: seq<State>, hs: seq<Choice>, n: nat)
    requires ChosenRun(tr, hs) && n <= |hs|
    ensures Inv(tr[n])
  {
    hide Enabled, Next, Init, Inv;
    if n == 0 {
      InitInv(tr[0]);
    } else {
      ChosenInv(tr, hs, n - 1);
      var h := hs[n - 1];
      assert Chosen(tr[n - 1], hs[n - 1], tr[n - 1 + 1]);
      InvKept(tr[n - 1], h.c, h.call, h.ok, h.k);
    }
  }

  /** The place of the CPU that step i moves. */
  function PlaceAt(tr: seq<State>, hs: seq<Choice>, i: nat): Pc
    requires i < |hs| < |tr|
  {
    if hs[i].c < |tr[i].cpus| then tr[i].cpus[hs[i].c].pc else Idle
  }

  /** The channel that process q passed to its last call of sleep. */
  function SleptOn(tr: seq<State>, hs: seq<Choice>, n: nat, q: nat): Maybe
    requires n <= |hs| < |tr|
  {
    if n == 0 then None
    else if PlaceAt(tr, hs, n - 1) == Free(q) && hs[n - 1].call.Sleep? then Some(hs[n - 1].call.chan)
    else SleptOn(tr, hs, n - 1, q)
  }

  /** The last call made on CPU c, by its process or by a handler. */
  function LastCall(tr: seq<State>, hs: seq<Choice>, n: nat, c: nat): Option<Call>
    requires n <= |hs| < |tr|
  {
    if n == 0 then None
    else if hs[n - 1].c == c && MakesCall(PlaceAt(tr, hs, n - 1)) then Some(hs[n - 1].call)
    else LastCall(tr, hs, n - 1, c)
  }

  predicate MakesCall(pc: Pc) {
    pc.Free? || pc.Idle? || pc.Took?
  }

  // ----- what a CPU does is what it was called for

  predicate CallRight(pc: Pc, last: Option<Call>) {
    && (pc.Waking? || pc.IntrWaking? ==> last == Some(Wakeup(pc.q, pc.chan)))
    && (pc.Killing? ==> last == Some(Kill(pc.q)))
    && (pc.Reaping? ==> last == Some(Wait(pc.q)))
  }

  /** A step moves its own CPU alone. */
  lemma OwnCpuOnly(s: State, h: Choice, t: State)
    requires Chosen(s, h, t)
    ensures h.c < |s.cpus| == |t.cpus| && forall d :: 0 <= d < |s.cpus| && d != h.c ==> t.cpus[d] == s.cpus[d]
  {
    hide CallStep, FreeEnabled;
    if s.cpus[h.c].pc.Free? {
      CallCpu(s, h.c, s.cpus[h.c].pc.p, h.call);
    }
  }

  /** Where a call leads. */
  lemma CallCpu(s: State, c: nat, p: nat, call: Call)
    requires WellFormed(s) && c < |s.cpus| && s.cpus[c].pc == Free(p) && p < |s.procs| && FreeEnabled(s, p, call)
    ensures var t := CallStep(s, c, p, call);
            && |t.cpus| == |s.cpus| && (forall d :: 0 <= d < |s.cpus| && d != c ==> t.cpus[d] == s.cpus[d])
            && CallRight(t.cpus[c].pc, Some(call))
            && (t.cpus[c].pc.Dozing? ==> call == Sleep(t.cpus[c].pc.chan) && t.cpus[c].pc.p == p)
  {
  }

  lemma CallEnters(s: State, h: Choice, t: State)
    requires Chosen(s, h, t) && h.c < |t.cpus|
    ensures MakesCall(s.cpus[h.c].pc) ==> CallRight(t.cpus[h.c].pc, Some(h.call))
    ensures !MakesCall(s.cpus[h.c].pc) ==> forall last :: CallRight(t.cpus[h.c].pc, last)
    ensures t.cpus[h.c].pc.Dozing? ==>
              s.cpus[h.c].pc == Free(t.cpus[h.c].pc.p) && h.call == Sleep(t.cpus[h.c].pc.chan)
  {
    hide CallStep, FreeEnabled;
    if s.cpus[h.c].pc.Free? {
      CallCpu(s, h.c, s.cpus[h.c].pc.p, h.call);
    } else if !MakesCall(s.cpus[h.c].pc) {
      NoCall(s, h, t);
    }
  }

  predicate CallPlace(pc: Pc) {
    pc.Waking? || pc.IntrWaking? || pc.Killing? || pc.Reaping? || pc.Dozing?
  }

  lemma NoCall(s: State, h: Choice, t: State)
    requires Chosen(s, h, t) && !MakesCall(s.cpus[h.c].pc) && h.c < |t.cpus|
    ensures !CallPlace(t.cpus[h.c].pc)
  {
    hide Next, Enabled;
    OwnCpuOnly(s, h, t);
    if MovesOwn(s.cpus[h.c].pc) {
      NoCallOwn(s, h, t);
    } else if MovesOther(s.cpus[h.c].pc) {
      NoCallOther(s, h, t);
    } else {
      NoCallElse(s, h, t);
    }
  }

  lemma NoCallOwn(s: State, h: Choice, t: State)
    requires Chosen(s, h, t) && MovesOwn(s.cpus[h.c].pc) && h.c < |t.cpus|
    ensures !CallPlace(t.cpus[h.c].pc)
  {
  }

  lemma NoCallOther(s: State, h: Choice, t: State)
    requires Chosen(s, h, t) && MovesOther(s.cpus[h.c].pc) && h.c < |t.cpus|
    ensures !CallPlace(t.cpus[h.c].pc)
  {
  }

  lemma NoCallElse(s: State, h: Choice, t: State)
    requires Chosen(s, h, t) && h.c < |t.cpus|
    requires var pc := s.cpus[h.c].pc; !MakesCall(pc) && !MovesOwn(pc) && !MovesOther(pc)
    ensures !CallPlace(t.cpus[h.c].pc)
  {
    hide CallStep, FreeEnabled;
  }

  lemma {:induction false} CallsRight(tr: seq<State>, hs: seq<Choice>, n: nat, c: nat)
    requires ChosenRun(tr, hs) && n <= |hs| && c < |tr[n].cpus|
    ensures CallRight(tr[n].cpus[c].pc, LastCall(tr, hs, n, c))
  {
    hide Enabled, Next, CallRight;
    if n == 0 {
      IdleRight(LastCall(tr, hs, 0, c));
    } else {
      var h := hs[n - 1];
      assert Chosen(tr[n - 1], hs[n - 1], tr[n - 1 + 1]);
      OwnCpuOnly(tr[n - 1], h, tr[n]);
      CallEnters(tr[n - 1], h, tr[n]);
      if c != h.c {
        CallsRight(tr, hs, n - 1, c);
      }
    }
  }

  lemma IdleRight(last: Option<Call>)
    ensures CallRight(Idle, last)
  {
  }

  // ----- who sleeps on what

  ghost predicate SleepRight(tr: seq<State>, hs: seq<Choice>, n: nat, q: nat)
    requires n <= |hs| < |tr|
  {
    q < |tr[n].procs| ==>
      && (tr[n].procs[q].state == SLEEPING ==> SleptOn(tr, hs, n, q) == Some(tr[n].procs[q].chan))
      && forall c :: 0 <= c < |tr[n].cpus| && tr[n].cpus[c].pc.Dozing? && tr[n].cpus[c].pc.p == q ==>
           SleptOn(tr, hs, n, q) == Some(tr[n].cpus[c].pc.chan)
  }

  /** The facts about one step on which SleepRight rests. */
  lemma SleepStep(tr: seq<State>, hs: seq<Choice>, n: nat, q: nat)
    requires 0 < n <= |hs| < |tr| && Chosen(tr[n - 1], hs[n - 1], tr[n]) && Inv(tr[n - 1])
    requires SleepRight(tr, hs, n - 1, q)
    ensures SleepRight(tr, hs, n, q)
  {
    hide Enabled, Next, Inv, CpuRight, ProcRight, CallRight, MovesRight;
    var s, h, t := tr[n - 1], hs[n - 1], tr[n];
    OwnCpuOnly(s, h, t);
    CallEnters(s, h, t);
    EnabledProcs(s, h, t);
    if q < |t.procs| {
      InvHere(s, h.c);
      SleepersMove(s, h, t, q);
      if s.cpus[h.c].pc == Free(q) {
        Alone(s, h.c, q);
      }
    }
  }

  lemma EnabledProcs(s: State, h: Choice, t: State)
    requires Chosen(s, h, t)
    ensures |t.procs| == |s.procs|
  {
    hide Enabled, Next;
    if |s.procs| > 0 {
      ChansMove(s, h.c, h.call, h.ok, h.k, 0);
    } else {
      NoProcs(s, h, t);
    }
  }

  lemma NoProcs(s: State, h: Choice, t: State)
    requires Chosen(s, h, t)
    ensures |t.procs| == |s.procs|
  {
    hide CallStep, FreeEnabled;
    if s.cpus[h.c].pc.Free? {
      CallKeepsStates(s, h.c, s.cpus[h.c].pc.p, h.call);
    }
  }

  /** Who sleeps after a step slept before on the same channel, or has just come
      from sleep; and a process that makes a call does not sleep. */
  lemma SleepersMove(s: State, h: Choice, t: State, q: nat)
    requires Chosen(s, h, t) && Here(s, h.c) && q < |s.procs|
    ensures q < |t.procs| && h.c < |s.cpus|
    ensures t.procs[q].state == SLEEPING ==>
              var pc := s.cpus[h.c].pc;
              if pc.Dozing? && pc.p == q then t.procs[q].chan == pc.chan
              else s.procs[q].state == SLEEPING && t.procs[q].chan == s.procs[q].chan && pc != Free(q)
  {
    hide Here, Enabled, Next, PlaceKnows;
    HereKnows(s, h.c);
    ChansMove(s, h.c, h.call, h.ok, h.k, q);
    StatesMove(s, h.c, h.call, h.ok, h.k, q, SLEEPING);
    StatesMove(s, h.c, h.call, h.ok, h.k, q, RUNNING);
    RunningThere(s, s.cpus[h.c].pc, q);
  }

  lemma RunningThere(s: State, pc: Pc, q: nat)
    requires Bounded(s, pc) && PlaceKnows(s, pc) && q < |s.procs|
    ensures pc == Free(q) || pc == Resumed(q) ==> s.procs[q].state == RUNNING
  {
  }

  /** A process executes on one CPU only. */
  lemma Alone(s: State, c: nat, q: nat)
    requires Inv(s) && c < |s.cpus| && s.cpus[c].pc == Free(q)
    ensures forall d :: 0 <= d < |s.cpus| && s.cpus[d].pc.Dozing? ==> s.cpus[d].pc.p != q
  {
    hide ProcRight, ListsRight, Agree;
    assert CpuRight(s, c);
    forall d | 0 <= d < |s.cpus| && s.cpus[d].pc.Dozing? ensures s.cpus[d].pc.p != q {
      assert CpuRight(s, d);
    }
  }

  lemma {:induction false} SleepsRight(tr: seq<State>, hs: seq<Choice>, n: nat, q: nat)
    requires ChosenRun(tr, hs) && n <= |hs|
    ensures SleepRight(tr, hs, n, q)
  {
    hide Enabled, Next, Inv;
    if n > 0 {
      hide SleepRight, Init;
      SleepsRight(tr, hs, n - 1, q);
      ChosenInv(tr, hs, n - 1);
      assert Chosen(tr[n - 1], hs[n - 1], tr[n - 1 + 1]);
      SleepStep(tr, hs, n, q);
    }
  }

  // ----- results

  /** A process stops sleeping exactly by a wakeup on the channel that it passed to
      its last call of sleep, or by a kill of it; and then it is RUNNABLE. */
  lemma WakesExactly(tr: seq<State>, hs: seq<Choice>, i: nat, q: nat)
    requires ChosenRun(tr, hs) && i < |hs| && q < |tr[i].procs| && tr[i].procs[q].state == SLEEPING
    ensures q < |tr[i + 1].procs|
    ensures var pc, last := PlaceAt(tr, hs, i), LastCall(tr, hs, i, hs[i].c);
            if (pc.Waking? || pc.IntrWaking?) && pc.q == q && SleptOn(tr, hs, i, q) == Some(pc.chan)
            then last == Some(Wakeup(q, pc.chan)) && tr[i + 1].procs[q].state == RUNNABLE
            else if pc.Killing? && pc.q == q && hs[i].ok
            then last == Some(Kill(q)) && tr[i + 1].procs[q].state == RUNNABLE
            else tr[i + 1].procs[q].state == SLEEPING
  {
    hide Enabled, Next, Init, Chosen;
    SleepsRight(tr, hs, i, q);
    StepsAllowed(tr, hs, i, q, RUNNABLE);
    if tr[i + 1].procs[q].state != tr[i].procs[q].state {
      StepsAllowed(tr, hs, i, q, tr[i + 1].procs[q].state);
    }
    CallsRight(tr, hs, i, hs[i].c);
  }

  /** In every run a step moves process q to another state if and only if the
      place of its CPU allows it. */
  lemma StepsAllowed(tr: seq<State>, hs: seq<Choice>, i: nat, q: nat, to: Status)
    requires ChosenRun(tr, hs) && i < |hs| && q < |tr[i].procs| && to != tr[i].procs[q].state
    ensures |tr[i + 1].procs| == |tr[i].procs| && hs[i].c < |tr[i].cpus|
    ensures tr[i + 1].procs[q].state == to <==>
            Allows(PlaceAt(tr, hs, i), hs[i].ok, q, tr[i].procs[q].chan, tr[i].procs[q].state, to)
  {
    hide Enabled, Next, Inv, Here, Init;
    var s, h := tr[i], hs[i];
    assert Chosen(tr[i], hs[i], tr[i + 1]);
    OwnCpuOnly(s, h, tr[i + 1]);
    ChosenInv(tr, hs, i);
    InvHere(s, h.c);
    StatesMove(s, h.c, h.call, h.ok, h.k, q, to);
  }

  /** A zombie goes exactly by a wait that looks at it, and then it is UNUSED. */
  lemma ReapsExactly(tr: seq<State>, hs: seq<Choice>, i: nat, q: nat)
    requires ChosenRun(tr, hs) && i < |hs| && q < |tr[i].procs| && tr[i].procs[q].state == ZOMBIE
    ensures q < |tr[i + 1].procs|
    ensures var pc := PlaceAt(tr, hs, i);
            if pc.Reaping? && pc.q == q
            then LastCall(tr, hs, i, hs[i].c) == Some(Wait(q)) && tr[i + 1].procs[q].state == UNUSED
            else tr[i + 1].procs[q].state == ZOMBIE
  {
    hide Enabled, Next, Init, Chosen;
    StepsAllowed(tr, hs, i, q, UNUSED);
    if tr[i + 1].procs[q].state != tr[i].procs[q].state {
      StepsAllowed(tr, hs, i, q, tr[i + 1].procs[q].state);
    }
    CallsRight(tr, hs, i, hs[i].c);
  }

  /** A process changes its container only where fork gives it one. */
  lemma ContainersMove(s: State, h: Choice, t: State, q: nat)
    requires Chosen(s, h, t) && q < |s.procs|
    ensures h.c < |s.cpus| && |t.procs| == |s.procs| && |t.runs| == |s.runs|
    ensures t.procs[q].cont == if s.cpus[h.c].pc.Forking? && s.cpus[h.c].pc.q == q then h.k else s.procs[q].cont
  {
    hide CallStep, FreeEnabled;
    if s.cpus[h.c].pc.Free? {
      CallContainers(s, h.c, s.cpus[h.c].pc.p, h.call);
    }
  }

  lemma CallContainers(s: State, c: nat, p: nat, call: Call)
    requires WellFormed(s) && c < |s.cpus| && p < |s.procs| && FreeEnabled(s, p, call)
    ensures var t := CallStep(s, c, p, call);
            && |t.procs| == |s.procs| && |t.runs| == |s.runs|
            && forall q :: 0 <= q < |s.procs| ==> t.procs[q].cont == s.procs[q].cont
  {
  }

  // ----- the order of the run lists

  /** The process that a step appends to its container's run list. */
  function Appends(s: State, pc: Pc, call: Call): Maybe {
    if pc.YieldPush? then Some(pc.p)
    else if ToWake(pc).Some? then ToWake(pc)
    else if pc.Free? && call.Fork? && pc.p < |s.procs| && s.procs[pc.p].fork.Ready? then Some(s.procs[pc.p].fork.np)
    else None
  }

  /** The same, for the list of container k. */
  function AppendsTo(s: State, pc: Pc, call: Call, k: nat): seq<nat> {
    var x := Appends(s, pc, call);
    if x.Some? && x.value < |s.procs| && s.procs[x.value].cont == k then [x.value] else []
  }

  /** What was ever appended to the list of container k, by step, after userinit's. */
  function Appended(tr: seq<State>, hs: seq<Choice>, n: nat, k: nat): seq<nat>
    requires n <= |hs| < |tr|
  {
    if n == 0 then (if k == 0 then [0] else [])
    else Appended(tr, hs, n - 1, k) + AppendsTo(tr[n - 1], PlaceAt(tr, hs, n - 1), hs[n - 1].call, k)
  }

  /** What schedulers took, by step: where the CPU is at Took afterwards. They
      take from the root's list, of container 0. */
  function Takes(tr: seq<State>, hs: seq<Choice>, n: nat, k: nat): seq<nat>
    requires n <= |hs| < |tr|
  {
    if n == 0 || k != 0 then []
    else
      var c := hs[n - 1].c;
      Takes(tr, hs, n - 1, k) +
      (if PlaceAt(tr, hs, n - 1).Idle? && c < |tr[n].cpus| && tr[n].cpus[c].pc.Took? then [tr[n].cpus[c].pc.p] else [])
  }

  /** How a step moves the list of container k. */
  lemma ListStep(s: State, h: Choice, t: State, k: nat)
    requires Chosen(s, h, t) && k < |s.runs|
    ensures h.c < |s.cpus| == |t.cpus| && |t.runs| == |s.runs|
    ensures var pc, b := s.cpus[h.c].pc, t.cpus[h.c].pc;
            if k == 0 && pc.Idle? && b.Took? then s.runs[0] == [b.p] + t.runs[0]
            else t.runs[k] == s.runs[k] + AppendsTo(s, pc, h.call, k)
  {
    hide CallStep, FreeEnabled;
    assert s.runs[k] + [] == s.runs[k];
    if s.cpus[h.c].pc.Free? {
      CallLists(s, h.c, s.cpus[h.c].pc.p, h.call, k);
    }
  }

  lemma CallLists(s: State, c: nat, p: nat, call: Call, k: nat)
    requires WellFormed(s) && c < |s.cpus| && s.cpus[c].pc == Free(p) && p < |s.procs| && FreeEnabled(s, p, call)
    requires k < |s.runs|
    ensures var t := CallStep(s, c, p, call);
            && |t.cpus| == |s.cpus| && |t.runs| == |s.runs|
            && t.runs[k] == s.runs[k] + AppendsTo(s, s.cpus[c].pc, call, k)
  {
    assert s.runs[k] + [] == s.runs[k];
  }

  /** First in, first out, from the steps alone: schedulers take processes from the
      root's run list in the order in which they were appended, and every
      container's list holds, in that order, what was appended and not taken. */
  lemma {:induction false} TakenInOrder(tr: seq<State>, hs: seq<Choice>, n: nat, k: nat)
    requires ChosenRun(tr, hs) && n <= |hs| && k < |tr[0].runs|
    ensures |tr[n].runs| == |tr[0].runs| && Appended(tr, hs, n, k) == Takes(tr, hs, n, k) + tr[n].runs[k]
  {
    hide Enabled, Next, AppendsTo;
    if n > 0 {
      hide Init;
      TakenInOrder(tr, hs, n - 1, k);
      assert Chosen(tr[n - 1], hs[n - 1], tr[n - 1 + 1]);
      ListStep(tr[n - 1], hs[n - 1], tr[n], k);
      NoneAtIdle(tr[n - 1], hs[n - 1].call, k);
      var a, l := Takes(tr, hs, n - 1, k), tr[n - 1].runs[k];
      assert forall x :: a + (l + x) == a + l + x;
      assert Appended(tr, hs, n - 1, k) + [] == Appended(tr, hs, n - 1, k) && a + [] == a;
    }
  }

  lemma NoneAtIdle(s: State, call: Call, k: nat)
    ensures AppendsTo(s, Idle, call, k) == []
  {
  }
}
