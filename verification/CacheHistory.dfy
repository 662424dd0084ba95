/** What the buffers and the LRU list hold, read off the steps of a run of the
    cached system: what brings data into a buffer, what log_write makes of it,
    and when each buffer was last released. */
module CacheHistory {
  import opened Common
  import opened WriteAheadLog
  import opened BufferCache
  import WriteHistory

  /** The step halts the machine. */
  predicate Reboots(c: Config, y: Sys, st: CStep) {
    st.NoBuffers? || st.Fail? || (st.LogIt? && LogWritePanics(c, y.log)) || (st.End? && y.log.committing)
  }

  /** A buffer's data changes only by its holder's own stores, by bread's disk
      read, and by a copy of commit, recovery or the header into it. In
      particular log_write leaves it alone. */
  lemma DataComesFrom(c: Config, y: Sys, st: CStep, z: Sys, i: nat)
    requires IsSysStep(c, y, st, z) && !Reboots(c, y, st) && i < |y.bufs|
    ensures |z.bufs| == |y.bufs|
    ensures z.bufs[i].data != y.bufs[i].data ==>
            || (st.Modify? && st.i == i && z.bufs[i].data == st.data)
            || (st.Fill? && st.i == i && 0 <= y.bufs[i].block < |y.log.disk| &&
                z.bufs[i].data == y.log.disk[y.bufs[i].block])
            || (st.WriteOut? && st.k == i)
    ensures st.Modify? && st.i == i ==> z.bufs[i].data == st.data
  {
    hide ValidConfig, LegalHeader, ReadHeader, WriteHeader, Next, AfterLogWrite, AfterEndOp, ToFront;
  }

  /** log_write hands the buffer's contents to the log, for its block and no
      other, and leaves every buffer's data alone. */
  lemma LogItShows(c: Config, y: Sys, st: CStep, z: Sys)
    requires IsSysStep(c, y, st, z) && st.LogIt? && !Reboots(c, y, st)
    ensures st.i < |y.bufs| == |z.bufs| && forall i :: 0 <= i < |y.bufs| ==> z.bufs[i].data == y.bufs[i].data
    ensures var b := y.bufs[st.i];
            && |z.log.view| == |y.log.view| && 0 <= b.block < |z.log.view| && z.log.view[b.block] == b.data
            && (forall x :: 0 <= x < |z.log.view| && x != b.block ==> z.log.view[x] == y.log.view[x])
            && b.block in z.log.lh && z.log.disk == y.log.disk
  {
    hide ValidConfig, ReadHeader;
  }

  // ----- the run of the log inside

  /** The log's states and steps in a run of the cached system. */
  function LogSteps(ys: seq<Sys>, sts: seq<CStep>, n: nat): seq<Step>
    requires n <= |sts| < |ys|
  {
    if n == 0 then []
    else
      var l := LogStepOf(ys[n - 1], sts[n - 1]);
      LogSteps(ys, sts, n - 1) + (if l.Some? then [l.value] else [])
  }

  function LogStates(ys: seq<Sys>, sts: seq<CStep>, n: nat): (r: seq<State>)
    requires n <= |sts| < |ys|
    ensures |r| == |LogSteps(ys, sts, n)| + 1
  {
    if n == 0 then [ys[0].log]
    else LogStates(ys, sts, n - 1) + (if LogStepOf(ys[n - 1], sts[n - 1]).Some? then [ys[n].log] else [])
  }

  lemma {:induction false} InnerRun(c: Config, nproc: nat, nbuf: nat, ys: seq<Sys>, sts: seq<CStep>, n: nat)
    requires ValidConfig(c) && IsSysRun(c, nproc, nbuf, ys, sts) && n <= |sts|
    ensures IsRun(c, nproc, LogStates(ys, sts, n), LogSteps(ys, sts, n))
    ensures LogStates(ys, sts, n)[|LogSteps(ys, sts, n)|] == ys[n].log
  {
    hide ValidConfig, IsSysStep, IsStep, LogStepOf, Init, Boot, CacheInv, ListOk, IsRun;
    if n == 0 {
      FirstRun(c, nproc, ys[0].log);
      BootLog(c, nproc, nbuf);
    } else {
      InnerRun(c, nproc, nbuf, ys, sts, n - 1);
      InvAt(c, nproc, nbuf, ys, sts, n - 1);
      assert IsSysStep(c, ys[n - 1], sts[n - 1], ys[n - 1 + 1]);
      InnerStep(c, ys[n - 1], sts[n - 1], ys[n]);
      var l := LogStepOf(ys[n - 1], sts[n - 1]);
      var ss, us := LogStates(ys, sts, n - 1), LogSteps(ys, sts, n - 1);
      if l.Some? {
        RunOn(c, nproc, ss, us, l.value, ys[n].log);
      } else {
        assert ss + [] == ss && us + [] == us;
      }
    }
  }

  lemma FirstRun(c: Config, nproc: nat, s: State)
    ensures s == Init(c, nproc) ==> IsRun(c, nproc, [s], [])
  {
  }

  lemma BootLog(c: Config, nproc: nat, nbuf: nat)
    ensures Boot(Init(c, nproc), nbuf).log == Init(c, nproc)
  {
    hide Init;
  }

  lemma RunOn(c: Config, nproc: nat, ss: seq<State>, sts: seq<Step>, st: Step, t: State)
    requires IsRun(c, nproc, ss, sts) && IsStep(c, ss[|sts|], st, t)
    ensures IsRun(c, nproc, ss + [t], sts + [st]) && |ss| == |sts| + 1
  {
    hide IsStep, Init;
    var ts, us := ss + [t], sts + [st];
    forall i | 0 <= i < |us| ensures IsStep(c, ts[i], us[i], ts[i + 1]) {
      if i < |sts| {
        assert IsStep(c, ss[i], sts[i], ss[i + 1]);
      }
    }
  }

  lemma InnerStep(c: Config, y: Sys, st: CStep, z: Sys)
    requires IsSysStep(c, y, st, z) && CacheInv(c, y)
    ensures var l := LogStepOf(y, st); if l.Some? then IsStep(c, y.log, l.value, z.log) else z.log == y.log
  {
    hide CacheInv, CEnabled, CNext, Enabled, Next, ValidConfig, Sizes, Shape, LogStepOf;
    StepRefines(c, y, st);
  }

  lemma InvAt(c: Config, nproc: nat, nbuf: nat, ys: seq<Sys>, sts: seq<CStep>, n: nat)
    requires ValidConfig(c) && IsSysRun(c, nproc, nbuf, ys, sts) && n <= |sts|
    ensures CacheInv(c, ys[n]) && ListOk(ys[n].lru, |ys[n].bufs|)
  {
    hide ValidConfig, IsSysStep, CacheInv, ListOk, Inv;
    var zs, us := ys[..n + 1], sts[..n];
    forall i | 0 <= i < |us| ensures IsSysStep(c, zs[i], us[i], zs[i + 1]) {
      assert IsSysStep(c, ys[i], sts[i], ys[i + 1]);
    }
    SysRunInv(c, nproc, nbuf, zs, us);
  }

  lemma OutIsNoWrite(c: Config, y: Sys, st: CStep, z: Sys)
    requires IsSysStep(c, y, st, z)
    ensures st.WriteOut? ==> !st.ls.LogWrite?
  {
  }

  /** Every log_write of that run is one of the cached system's, of the contents
      that the buffer had. */
  lemma {:induction false} WritesAreBuffers(c: Config, nproc: nat, nbuf: nat, ys: seq<Sys>, sts: seq<CStep>, n: nat,
                                            x: nat)
    requires IsSysRun(c, nproc, nbuf, ys, sts) && n <= |sts|
    requires x < |LogSteps(ys, sts, n)| && LogSteps(ys, sts, n)[x].LogWrite?
    ensures exists m :: 0 <= m < n && sts[m].LogIt? && sts[m].i < |ys[m].bufs| &&
                        LogSteps(ys, sts, n)[x] ==
                          LogWrite(sts[m].p, ys[m].bufs[sts[m].i].block, ys[m].bufs[sts[m].i].data)
  {
    hide IsSysStep, Init;
    var l := LogSteps(ys, sts, n - 1);
    if x < |l| {
      WritesAreBuffers(c, nproc, nbuf, ys, sts, n - 1, x);
      var m :| 0 <= m < n - 1 && sts[m].LogIt? && sts[m].i < |ys[m].bufs| &&
               l[x] == LogWrite(sts[m].p, ys[m].bufs[sts[m].i].block, ys[m].bufs[sts[m].i].data);
      assert m < n && LogSteps(ys, sts, n)[x] == l[x];
    } else {
      assert IsSysStep(c, ys[n - 1], sts[n - 1], ys[n - 1 + 1]);
      OutIsNoWrite(c, ys[n - 1], sts[n - 1], ys[n]);
      assert sts[n - 1].LogIt?;
    }
  }

  /** Durability through the cache: after any run with any number of crashes,
      recovery gives every home block the contents of the buffer at the last
      committed log_write of it. */
  lemma CachedLastCommitted(c: Config, nproc: nat, nbuf: nat, ys: seq<Sys>, sts: seq<CStep>, b: int)
    requires ValidConfig(c) && IsSysRun(c, nproc, nbuf, ys, sts) && Home(c, b)
    ensures var ss, us, s := LogStates(ys, sts, |sts|), LogSteps(ys, sts, |sts|), ys[|sts|].log;
            && IsRun(c, nproc, ss, us) && ss[|us|] == s && |s.disk| == |c.image|
            && WriteHistory.IsLatest(c, ss, us, |us|, true, b, RecoveredAt(c, s.disk, b))
  {
    hide IsSysStep, IsStep, LogSteps, LogStates, RecoveredAt, WriteHistory.IsLatest, ValidConfig;
    InnerRun(c, nproc, nbuf, ys, sts, |sts|);
    WriteHistory.LastCommittedWins(c, nproc, LogStates(ys, sts, |sts|), LogSteps(ys, sts, |sts|), b);
  }

  // ----- the order of the list

  /** When buffer i was last released by its last user, as the number of that
      step. Buffers not released since boot come before all others, as binit
      has put them on the list. */
  function Released(c: Config, ys: seq<Sys>, sts: seq<CStep>, n: nat, i: nat): int
    requires n <= |sts| < |ys|
  {
    if n == 0 then i - |ys[0].bufs|
    else if Reboots(c, ys[n - 1], sts[n - 1]) then i - |ys[n - 1].bufs|
    else if sts[n - 1].Drop? && sts[n - 1].i == i && i < |ys[n - 1].bufs| && ys[n - 1].bufs[i].refcnt == 1 then n
    else Released(c, ys, sts, n - 1, i)
  }

  /** The front of the list was released last. */
  ghost predicate ByRelease(c: Config, ys: seq<Sys>, sts: seq<CStep>, n: nat, lru: seq<nat>)
    requires n <= |sts| < |ys|
  {
    forall a, b :: 0 <= a < b < |lru| ==> Released(c, ys, sts, n, lru[a]) > Released(c, ys, sts, n, lru[b])
  }

  lemma {:induction false} ReleasedBefore(c: Config, ys: seq<Sys>, sts: seq<CStep>, n: nat, i: nat)
    requires n <= |sts| < |ys| && forall m :: 0 <= m <= n ==> i < |ys[m].bufs|
    ensures Released(c, ys, sts, n, i) <= n
  {
    hide Reboots;
    if n > 0 {
      ReleasedBefore(c, ys, sts, n - 1, i);
    }
  }

  lemma {:induction false} BootOrder(n: nat, a: nat)
    requires a < n
    ensures |BootList(n)| == n && BootList(n)[a] == n - 1 - a
  {
    if a > 0 {
      BootOrder(n - 1, a - 1);
    } else if n > 1 {
      BootOrder(n - 1, 0);
    }
  }

  /** How a step moves the list. */
  lemma ListMoves(c: Config, y: Sys, st: CStep, z: Sys)
    requires IsSysStep(c, y, st, z)
    ensures |z.bufs| == |y.bufs| && (st.Drop? ==> st.i < |y.bufs|)
    ensures z.lru == if Reboots(c, y, st) then BootList(|y.bufs|)
                     else if st.Drop? && y.bufs[st.i].refcnt == 1 then ToFront(y.lru, st.i) else y.lru
  {
    hide ValidConfig, Sizes, ReadHeader, WriteHeader, Next, AfterLogWrite, AfterEndOp, ToFront, BootList;
  }

  lemma BootSize(s: State, nbuf: nat)
    ensures |Boot(s, nbuf).bufs| == nbuf
  {
  }

  lemma {:induction false} SameBuffers(c: Config, nproc: nat, nbuf: nat, ys: seq<Sys>, sts: seq<CStep>, n: nat)
    requires IsSysRun(c, nproc, nbuf, ys, sts) && n <= |sts|
    ensures |ys[n].bufs| == nbuf
  {
    hide IsSysStep, Init, Boot, Reboots, BootList, ToFront;
    if n == 0 {
      BootSize(Init(c, nproc), nbuf);
    } else {
      SameBuffers(c, nproc, nbuf, ys, sts, n - 1);
      assert IsSysStep(c, ys[n - 1], sts[n - 1], ys[n - 1 + 1]);
      ListMoves(c, ys[n - 1], sts[n - 1], ys[n]);
    }
  }

  lemma {:induction false} WithoutKeepsOrder(c: Config, ys: seq<Sys>, sts: seq<CStep>, n: nat, lru: seq<nat>, i: nat)
    requires n <= |sts| < |ys| && ByRelease(c, ys, sts, n, lru)
    ensures ByRelease(c, ys, sts, n, Without(lru, i)) && i !in Without(lru, i)
    ensures forall j :: j in Without(lru, i) ==> j in lru
  {
    hide Released, ByRelease;
    if lru == [] {
      NoneByRelease(c, ys, sts, n);
    } else {
      var rest, w := lru[1..], Without(lru[1..], i);
      RestByRelease(c, ys, sts, n, lru);
      WithoutKeepsOrder(c, ys, sts, n, rest, i);
      if lru[0] != i {
        HeadByRelease(c, ys, sts, n, lru, w);
      } else {
        assert [] + w == w;
      }
    }
  }

  lemma NoneByRelease(c: Config, ys: seq<Sys>, sts: seq<CStep>, n: nat)
    requires n <= |sts| < |ys|
    ensures ByRelease(c, ys, sts, n, [])
  {
  }

  lemma RestByRelease(c: Config, ys: seq<Sys>, sts: seq<CStep>, n: nat, lru: seq<nat>)
    requires n <= |sts| < |ys| && ByRelease(c, ys, sts, n, lru) && lru != []
    ensures ByRelease(c, ys, sts, n, lru[1..])
  {
    hide Released;
  }

  lemma HeadByRelease(c: Config, ys: seq<Sys>, sts: seq<CStep>, n: nat, lru: seq<nat>, w: seq<nat>)
    requires n <= |sts| < |ys| && ByRelease(c, ys, sts, n, lru) && lru != []
    requires ByRelease(c, ys, sts, n, w) && forall j :: j in w ==> j in lru[1..]
    ensures ByRelease(c, ys, sts, n, [lru[0]] + w)
  {
    hide Released;
    forall b | 0 <= b < |w| ensures Released(c, ys, sts, n, lru[0]) > Released(c, ys, sts, n, w[b]) {
      assert w[b] in lru[1..];
      var x :| 0 <= x < |lru| - 1 && lru[1..][x] == w[b];
      assert lru[x + 1] == w[b];
    }
  }

  /** The LRU list is in order of release, in every state of every run. */
  lemma {:induction false} ListByRelease(c: Config, nproc: nat, nbuf: nat, ys: seq<Sys>, sts: seq<CStep>, n: nat)
    requires ValidConfig(c) && IsSysRun(c, nproc, nbuf, ys, sts) && n <= |sts|
    ensures ByRelease(c, ys, sts, n, ys[n].lru)
  {
    hide ValidConfig, IsSysStep, Init, Reboots, ToFront, BootList, Released, ByRelease;
    SameBuffers(c, nproc, nbuf, ys, sts, n);
    if n == 0 {
      BootByRelease(c, ys, sts, 0);
    } else {
      SameBuffers(c, nproc, nbuf, ys, sts, n - 1);
      assert IsSysStep(c, ys[n - 1], sts[n - 1], ys[n - 1 + 1]);
      ListMoves(c, ys[n - 1], sts[n - 1], ys[n]);
      if Reboots(c, ys[n - 1], sts[n - 1]) {
        BootByRelease(c, ys, sts, n);
      } else {
        ListByRelease(c, nproc, nbuf, ys, sts, n - 1);
        InvAt(c, nproc, nbuf, ys, sts, n - 1);
        forall m | 0 <= m <= n ensures |ys[m].bufs| == nbuf {
          SameBuffers(c, nproc, nbuf, ys, sts, m);
        }
        OneMoreRelease(c, ys, sts, n, ys[n - 1].lru);
      }
    }
  }

  lemma BootByRelease(c: Config, ys: seq<Sys>, sts: seq<CStep>, n: nat)
    requires n <= |sts| < |ys| && (n > 0 ==> Reboots(c, ys[n - 1], sts[n - 1]) && |ys[n - 1].bufs| == |ys[n].bufs|)
    ensures ByRelease(c, ys, sts, n, BootList(|ys[n].bufs|))
  {
    hide Reboots, BootList;
    var l := BootList(|ys[n].bufs|);
    forall a, b | 0 <= a < b < |l| ensures Released(c, ys, sts, n, l[a]) > Released(c, ys, sts, n, l[b]) {
      BootLength(|ys[n].bufs|);
      BootOrder(|l|, a);
      BootOrder(|l|, b);
    }
  }

  lemma {:induction false} BootLength(n: nat)
    ensures |BootList(n)| == n
  {
    if n > 0 {
      BootLength(n - 1);
    }
  }

  lemma OneMoreRelease(c: Config, ys: seq<Sys>, sts: seq<CStep>, n: nat, lru: seq<nat>)
    requires 0 < n <= |sts| < |ys| && !Reboots(c, ys[n - 1], sts[n - 1]) && ByRelease(c, ys, sts, n - 1, lru)
    requires forall m :: 0 <= m <= n ==> |ys[m].bufs| == |ys[n].bufs|
    requires ListOk(lru, |ys[n].bufs|) && (sts[n - 1].Drop? ==> sts[n - 1].i < |ys[n].bufs|)
    ensures var st := sts[n - 1];
            ByRelease(c, ys, sts, n,
              if st.Drop? && ys[n - 1].bufs[st.i].refcnt == 1 then ToFront(lru, st.i) else lru)
  {
    hide Reboots, ListOk;
    var st := sts[n - 1];
    OnList(lru, |ys[n].bufs|);
    if st.Drop? && ys[n - 1].bufs[st.i].refcnt == 1 {
      WithoutKeepsOrder(c, ys, sts, n - 1, lru, st.i);
      var rest := Without(lru, st.i);
      forall j | j in rest ensures Released(c, ys, sts, n, j) == Released(c, ys, sts, n - 1, j) < n {
        var k :| 0 <= k < |lru| && lru[k] == j;
        ReleasedBefore(c, ys, sts, n - 1, j);
      }
    }
  }

  /** bget recycles, of the buffers that nobody uses, the one released longest
      ago. */
  lemma RecyclesOldest(c: Config, nproc: nat, nbuf: nat, ys: seq<Sys>, sts: seq<CStep>, n: nat, j: nat)
    requires ValidConfig(c) && IsSysRun(c, nproc, nbuf, ys, sts) && n < |sts| && sts[n].Miss?
    requires j < |ys[n].bufs| && ys[n].bufs[j].refcnt == 0
    ensures sts[n].i < |ys[n].bufs| && ys[n].bufs[sts[n].i].refcnt == 0
    ensures j != sts[n].i ==> Released(c, ys, sts, n, sts[n].i) < Released(c, ys, sts, n, j)
  {
    hide ValidConfig, Init, Released, ListOk, CacheInv, Sizes, Shape, CNext, Cached;
    var y, i := ys[n], sts[n].i;
    assert IsSysStep(c, ys[n], sts[n], ys[n + 1]);
    ListByRelease(c, nproc, nbuf, ys, sts, n);
    InvAt(c, nproc, nbuf, ys, sts, n);
    OnList(y.lru, |y.bufs|);
    assert LeastRecentUnused(y, i);
    var k :| 0 <= k < |y.lru| && y.lru[k] == i &&
             forall m :: k < m < |y.lru| ==> y.lru[m] < |y.bufs| && y.bufs[y.lru[m]].refcnt != 0;
    assert j in y.lru;
    var m :| 0 <= m < |y.lru| && y.lru[m] == j;
    if j != i {
      assert m < k;
    }
  }

  // ----- users and pending changes

  /** The processes between bget and brelse on buffer i. */
  function UsersFrom(c: Config, ys: seq<Sys>, sts: seq<CStep>, n: nat, i: nat): multiset<nat>
    requires n <= |sts| < |ys|
  {
    if n == 0 || Reboots(c, ys[n - 1], sts[n - 1]) then multiset{}
    else
      var st, before := sts[n - 1], UsersFrom(c, ys, sts, n - 1, i);
      if (st.Hit? || st.Miss?) && st.i == i then before + multiset{st.p}
      else if st.Drop? && st.i == i then before - multiset{st.p}
      else before
  }

  /** Buffer i has been changed and not logged since. */
  function ChangedFrom(c: Config, ys: seq<Sys>, sts: seq<CStep>, n: nat, i: nat): bool
    requires n <= |sts| < |ys|
  {
    if n == 0 || Reboots(c, ys[n - 1], sts[n - 1]) then false
    else if sts[n - 1].Modify? && sts[n - 1].i == i then true
    else if sts[n - 1].LogIt? && sts[n - 1].i == i then false
    else ChangedFrom(c, ys, sts, n - 1, i)
  }

  /** How a step moves the two records. */
  lemma UsersMove(c: Config, y: Sys, st: CStep, z: Sys, i: nat)
    requires IsSysStep(c, y, st, z) && i < |y.bufs|
    ensures |z.users| == |y.bufs| == |y.users|
    ensures z.users[i] == if Reboots(c, y, st) then multiset{}
                          else if st.Hit? && st.i == i then y.users[i] + multiset{st.p}
                          else if st.Miss? && st.i == i then multiset{st.p}
                          else if st.Drop? && st.i == i then y.users[i] - multiset{st.p} else y.users[i]
  {
    hide IsSysStep;
    if st.Hit? || st.Miss? || st.Drop? {
      UserMoves(c, y, st, z, i);
    } else {
      UsersStay(c, y, st, z, i);
    }
  }

  lemma UserMoves(c: Config, y: Sys, st: CStep, z: Sys, i: nat)
    requires IsSysStep(c, y, st, z) && i < |y.bufs| && (st.Hit? || st.Miss? || st.Drop?)
    ensures |z.users| == |y.bufs| == |y.users|
    ensures z.users[i] == if st.i != i then y.users[i]
                          else if st.Hit? then y.users[i] + multiset{st.p}
                          else if st.Miss? then multiset{st.p} else y.users[i] - multiset{st.p}
  {
    hide ValidConfig, Sizes, ToFront, Cached;
  }

  lemma UsersStay(c: Config, y: Sys, st: CStep, z: Sys, i: nat)
    requires IsSysStep(c, y, st, z) && i < |y.bufs| && !st.Hit? && !st.Miss? && !st.Drop?
    ensures |z.users| == |y.bufs| == |y.users|
    ensures z.users[i] == if Reboots(c, y, st) then multiset{} else y.users[i]
  {
    hide ValidConfig, Sizes, ReadHeader, WriteHeader, Next, AfterLogWrite, AfterEndOp, ToFront, BootList, OutData;
    hide Written, LogAfter, Cached, LogWritePanics, Home, Enabled, Crashed;
  }

  lemma DirtyMove(c: Config, y: Sys, st: CStep, z: Sys, i: nat)
    requires IsSysStep(c, y, st, z) && i < |y.bufs|
    ensures |z.dirty| == |z.bufs| == |y.bufs| == |y.dirty|
    ensures z.dirty[i] == if Reboots(c, y, st) then false
                          else if st.Modify? && st.i == i then true
                          else if st.LogIt? && st.i == i then false else y.dirty[i]
  {
    hide ValidConfig, Sizes, ReadHeader, WriteHeader, Next, AfterLogWrite, AfterEndOp, ToFront, BootList, OutData;
    hide Written, LogAfter, Cached, LogWritePanics, Home, Enabled, Crashed;
  }

  lemma NoUsers(c: Config, y: Sys, st: CStep, z: Sys)
    requires IsSysStep(c, y, st, z) && CacheInv(c, y) && st.Miss?
    ensures st.i < |y.users| && y.users[st.i] == multiset{}
  {
    hide ValidConfig, Sizes, Content, PinnedCached, CNext, Unique, Latest, Cached;
    assert BufOk(c, y.log, y.bufs[st.i], y.users[st.i], y.dirty[st.i]);
  }

  /** The records of users and of pending changes are what the steps say. With
      CacheTransparency, refcnt counts the calls of bget not yet undone by
      brelse, and a buffer not changed since it was read or logged shows the
      latest contents. */
  lemma {:induction false} RecordsRight(c: Config, nproc: nat, nbuf: nat, ys: seq<Sys>, sts: seq<CStep>, n: nat, i: nat)
    requires ValidConfig(c) && IsSysRun(c, nproc, nbuf, ys, sts) && n <= |sts| && i < nbuf
    ensures |ys[n].users| == |ys[n].dirty| == |ys[n].bufs| == nbuf
    ensures ys[n].users[i] == UsersFrom(c, ys, sts, n, i) && ys[n].dirty[i] == ChangedFrom(c, ys, sts, n, i)
  {
    hide ValidConfig, IsSysStep, Init, Reboots, CacheInv, ListOk;
    SameBuffers(c, nproc, nbuf, ys, sts, n);
    if n > 0 {
      SameBuffers(c, nproc, nbuf, ys, sts, n - 1);
      RecordsRight(c, nproc, nbuf, ys, sts, n - 1, i);
      InvAt(c, nproc, nbuf, ys, sts, n - 1);
      assert IsSysStep(c, ys[n - 1], sts[n - 1], ys[n - 1 + 1]);
      UsersMove(c, ys[n - 1], sts[n - 1], ys[n], i);
      DirtyMove(c, ys[n - 1], sts[n - 1], ys[n], i);
      if sts[n - 1].Miss? {
        NoUsers(c, ys[n - 1], sts[n - 1], ys[n]);
      }
    }
  }

  /** Cache transparency in terms of the steps. */
  lemma TransparentFromSteps(c: Config, nproc: nat, nbuf: nat, ys: seq<Sys>, sts: seq<CStep>, i: nat)
    requires ValidConfig(c) && IsSysRun(c, nproc, nbuf, ys, sts) && i < nbuf
    ensures var n := |sts|; var y := ys[n];
            && |y.bufs| == nbuf && |y.log.view| == |y.log.disk| == |c.image|
            && (y.bufs[i].valid && !ChangedFrom(c, ys, sts, n, i) ==>
                  0 <= y.bufs[i].block < |c.image| && y.bufs[i].data == Latest(c, y.log, y.bufs[i].block))
            && y.bufs[i].refcnt == |UsersFrom(c, ys, sts, n, i)| + (if IsPinned(y.log, y.bufs[i]) then 1 else 0)
  {
    hide ValidConfig, IsSysStep, Init, UsersFrom, ChangedFrom, Latest;
    RecordsRight(c, nproc, nbuf, ys, sts, |sts|, i);
    CacheTransparency(c, nproc, nbuf, ys, sts, i);
  }
}
