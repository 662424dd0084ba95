/** What the log machine has been told, read off the steps of a run: which
    log_write calls took effect, for which operation, and which of them were
    committed. The machine's own records, what it reads and what it recovers
    are stated against that. */
module WriteHistory {
  import opened Common
  import opened WriteAheadLog

  // ----- from the steps alone

  /** The step halts the machine. */
  predicate Crashes(c: Config, s: State, st: Step) {
    st.Crash? || (st.LogWrite? && LogWritePanics(c, s)) || (st.EndOp? && s.committing)
  }

  predicate IsWrite(c: Config, s: State, st: Step) {
    st.LogWrite? && !LogWritePanics(c, s)
  }

  /** How many operations the first n steps begin. */
  function Begins(sts: seq<Step>, n: nat): nat
    requires n <= |sts|
  {
    if n == 0 then 0 else Begins(sts, n - 1) + (if sts[n - 1].BeginOp? then 1 else 0)
  }

  /** The number of the operation that process p began last. */
  function OpenOp(sts: seq<Step>, n: nat, p: nat): nat
    requires n <= |sts|
  {
    if n == 0 then 0 else if sts[n - 1] == BeginOp(p) then Begins(sts, n - 1) else OpenOp(sts, n - 1, p)
  }

  function WriteOf(sts: seq<Step>, i: nat): Write
    requires i < |sts|
  {
    if sts[i].LogWrite? then Write(OpenOp(sts, i, sts[i].p), sts[i].block, sts[i].data) else Write(0, 0, [])
  }

  predicate Aligned(ss: seq<State>, sts: seq<Step>, n: nat) {
    n <= |sts| < |ss|
  }

  /** The steps that are writes; those since the last commit or crash; and those
      that a commit has made durable. */
  function All(c: Config, ss: seq<State>, sts: seq<Step>, n: nat): seq<nat>
    requires Aligned(ss, sts, n)
  {
    if n == 0 then []
    else All(c, ss, sts, n - 1) + (if IsWrite(c, ss[n - 1], sts[n - 1]) then [n - 1] else [])
  }

  function Pending(c: Config, ss: seq<State>, sts: seq<Step>, n: nat): seq<nat>
    requires Aligned(ss, sts, n)
  {
    if n == 0 || Crashes(c, ss[n - 1], sts[n - 1]) || sts[n - 1].WriteHead? then []
    else Pending(c, ss, sts, n - 1) + (if IsWrite(c, ss[n - 1], sts[n - 1]) then [n - 1] else [])
  }

  function Durable(c: Config, ss: seq<State>, sts: seq<Step>, n: nat): seq<nat>
    requires Aligned(ss, sts, n)
  {
    if n == 0 then []
    else Durable(c, ss, sts, n - 1) + (if sts[n - 1].WriteHead? then Pending(c, ss, sts, n - 1) else [])
  }

  predicate Below(at: seq<nat>, n: nat) {
    forall x :: 0 <= x < |at| ==> at[x] < n
  }

  function WritesOf(sts: seq<Step>, at: seq<nat>): (ws: seq<Write>)
    requires Below(at, |sts|)
    ensures |ws| == |at| && forall x :: 0 <= x < |at| ==> ws[x] == WriteOf(sts, at[x])
  {
    seq(|at|, x requires 0 <= x < |at| => WriteOf(sts, at[x]))
  }

  lemma {:induction false} AllBelow(c: Config, ss: seq<State>, sts: seq<Step>, n: nat)
    requires Aligned(ss, sts, n)
    ensures Below(All(c, ss, sts, n), n) && Below(Pending(c, ss, sts, n), n) && Below(Durable(c, ss, sts, n), n)
  {
    if n > 0 {
      AllBelow(c, ss, sts, n - 1);
    }
  }

  // ----- the machine's records

  /** The records hold exactly those writes, under the numbers of their operations. */
  ghost predicate Recorded(c: Config, ss: seq<State>, sts: seq<Step>, n: nat)
    requires Aligned(ss, sts, n)
  {
    AllBelow(c, ss, sts, n);
    var s := ss[n];
    && s.history == WritesOf(sts, All(c, ss, sts, n))
    && s.current == WritesOf(sts, Pending(c, ss, sts, n))
    && Flat(s.journal) == WritesOf(sts, Durable(c, ss, sts, n))
    && Numbered(s, sts, n)
  }

  ghost predicate Numbered(s: State, sts: seq<Step>, n: nat)
    requires n <= |sts|
  {
    && s.nextOp == Begins(sts, n)
    && forall p :: 0 <= p < |s.procs| && s.procs[p].InOp? ==> s.procs[p].id == OpenOp(sts, n, p)
  }

  lemma WritesPlus(sts: seq<Step>, a: seq<nat>, b: seq<nat>)
    requires Below(a, |sts|) && Below(b, |sts|)
    ensures Below(a + b, |sts|) && WritesOf(sts, a + b) == WritesOf(sts, a) + WritesOf(sts, b)
  {
  }

  lemma FlatNil()
    ensures Flat([]) == []
  {
  }

  lemma FlatPlus(js: seq<Txn>, j: Txn)
    ensures Flat(js + [j]) == Flat(js) + j
  {
    assert (js + [j])[..|js|] == js;
  }

  /** How one step moves the records. */
  lemma RecordsMove(c: Config, s: State, st: Step, t: State)
    requires IsStep(c, s, st, t) && Counters(s)
    ensures t.history == s.history + (if IsWrite(c, s, st) then [Write(s.procs[st.p].id, st.block, st.data)] else [])
    ensures t.current == (if Crashes(c, s, st) || st.WriteHead? then []
                          else s.current +
                               (if IsWrite(c, s, st) then [Write(s.procs[st.p].id, st.block, st.data)] else []))
    ensures Flat(t.journal) == Flat(s.journal) + (if st.WriteHead? then s.current else [])
    ensures t.nextOp == s.nextOp + (if st.BeginOp? then 1 else 0)
    ensures forall p :: 0 <= p < |t.procs| && t.procs[p].InOp? ==>
              p < |s.procs| && (if st == BeginOp(p) then t.procs[p].id == s.nextOp
                                else s.procs[p].InOp? && t.procs[p].id == s.procs[p].id)
  {
    hide ValidConfig, Sizes, WriteHeader, ReadHeader, Flat;
    FlatPlus(s.journal, s.current);
    assert s.history + [] == s.history && s.current + [] == s.current && Flat(s.journal) + [] == Flat(s.journal);
  }

  lemma {:induction false} RunRecorded(c: Config, nproc: nat, ss: seq<State>, sts: seq<Step>, n: nat)
    requires ValidConfig(c) && IsRun(c, nproc, ss, sts) && n <= |sts|
    ensures Recorded(c, ss, sts, n)
  {
    hide ValidConfig, IsStep, Recorded, Inv, Init;
    if n == 0 {
      FirstRecorded(c, nproc, ss, sts);
    } else {
      RunRecorded(c, nproc, ss, sts, n - 1);
      CountersAt(c, nproc, ss, sts, n - 1);
      assert IsStep(c, ss[n - 1], sts[n - 1], ss[n - 1 + 1]);
      StepRecorded(c, ss, sts, n - 1);
    }
  }

  lemma FirstRecorded(c: Config, nproc: nat, ss: seq<State>, sts: seq<Step>)
    requires Aligned(ss, sts, 0) && ss[0] == Init(c, nproc)
    ensures Recorded(c, ss, sts, 0)
  {
    hide Flat;
    FlatNil();
  }

  lemma StepRecorded(c: Config, ss: seq<State>, sts: seq<Step>, i: nat)
    requires Aligned(ss, sts, i + 1) && Recorded(c, ss, sts, i) && Counters(ss[i])
    requires IsStep(c, ss[i], sts[i], ss[i + 1])
    ensures Recorded(c, ss, sts, i + 1)
  {
    hide Flat, Crashes, IsWrite, IsStep, Counters, WritesOf, Numbered;
    var s, st := ss[i], sts[i];
    RecordsMove(c, s, st, ss[i + 1]);
    AllBelow(c, ss, sts, i);
    AllBelow(c, ss, sts, i + 1);
    NumberedStep(c, s, st, ss[i + 1], sts, i);
    Singleton(c, s, st, ss[i + 1], sts, i);
    WritesPlus(sts, All(c, ss, sts, i), if IsWrite(c, s, st) then [i] else []);
    WritesPlus(sts, Pending(c, ss, sts, i), if IsWrite(c, s, st) then [i] else []);
    WritesPlus(sts, Durable(c, ss, sts, i), if st.WriteHead? then Pending(c, ss, sts, i) else []);
  }

  lemma NumberedStep(c: Config, s: State, st: Step, t: State, sts: seq<Step>, i: nat)
    requires IsStep(c, s, st, t) && Counters(s) && i < |sts| && sts[i] == st && Numbered(s, sts, i)
    ensures Numbered(t, sts, i + 1)
  {
    hide IsStep, Counters, Crashes, IsWrite;
    RecordsMove(c, s, st, t);
  }

  lemma Singleton(c: Config, s: State, st: Step, t: State, sts: seq<Step>, i: nat)
    requires IsStep(c, s, st, t) && i < |sts| && sts[i] == st
    requires Numbered(s, sts, i)
    ensures IsWrite(c, s, st) ==> st.p < |s.procs| && s.procs[st.p].InOp?
    ensures IsWrite(c, s, st) ==> WritesOf(sts, [i]) == [Write(s.procs[st.p].id, st.block, st.data)]
    ensures WritesOf(sts, []) == []
  {
    hide ValidConfig, Sizes;
  }

  lemma CountersAt(c: Config, nproc: nat, ss: seq<State>, sts: seq<Step>, n: nat)
    requires ValidConfig(c) && IsRun(c, nproc, ss, sts) && n <= |sts|
    ensures Inv(c, ss[n]) && Counters(ss[n])
  {
    hide IsStep;
    var ts, us := ss[..n + 1], sts[..n];
    forall i | 0 <= i < |us| ensures IsStep(c, ts[i], us[i], ts[i + 1]) {
      assert IsStep(c, ss[i], sts[i], ss[i + 1]);
    }
    RunInv(c, nproc, ts, us);
    hide ValidConfig;
  }

  // ----- which writes last

  /** The write at step i was committed: a header write came after it with no
      crash in between. */
  ghost predicate Persisted(c: Config, ss: seq<State>, sts: seq<Step>, n: nat, i: nat)
    requires Aligned(ss, sts, n)
  {
    && i < n && IsWrite(c, ss[i], sts[i])
    && exists j :: i < j < n && sts[j].WriteHead? && NoCrash(c, ss, sts, i + 1, j)
  }

  ghost predicate NoCrash(c: Config, ss: seq<State>, sts: seq<Step>, i: nat, j: nat)
    requires Aligned(ss, sts, j)
  {
    forall k :: i <= k < j ==> !Crashes(c, ss[k], sts[k])
  }

  /** It was committed, or no crash has come since. */
  ghost predicate Alive(c: Config, ss: seq<State>, sts: seq<Step>, n: nat, i: nat)
    requires Aligned(ss, sts, n)
  {
    Persisted(c, ss, sts, n, i) || (i < n && IsWrite(c, ss[i], sts[i]) && NoCrash(c, ss, sts, i + 1, n))
  }

  lemma {:induction false} PendingAre(c: Config, ss: seq<State>, sts: seq<Step>, n: nat, i: nat)
    requires Aligned(ss, sts, n)
    ensures i in Pending(c, ss, sts, n) <==>
            && i < n && IsWrite(c, ss[i], sts[i]) && NoCrash(c, ss, sts, i + 1, n)
            && forall k :: i < k < n ==> !sts[k].WriteHead?
  {
    hide Crashes, IsWrite;
    if n > 0 {
      PendingAre(c, ss, sts, n - 1, i);
      WritesCrashNot(c, ss[n - 1], sts[n - 1]);
    }
  }

  lemma WritesCrashNot(c: Config, s: State, st: Step)
    ensures IsWrite(c, s, st) ==> !Crashes(c, s, st) && !st.WriteHead?
  {
  }

  lemma {:induction false} DurableAre(c: Config, ss: seq<State>, sts: seq<Step>, n: nat, i: nat)
    requires Aligned(ss, sts, n)
    ensures i in Durable(c, ss, sts, n) <==> Persisted(c, ss, sts, n, i)
  {
    hide Crashes, IsWrite, Pending;
    if n > 0 {
      var m := n - 1;
      DurableAre(c, ss, sts, m, i);
      PendingAre(c, ss, sts, m, i);
      if Persisted(c, ss, sts, m, i) {
        var j :| i < j < m && sts[j].WriteHead? && NoCrash(c, ss, sts, i + 1, j);
        assert i < j < n;
      } else if Persisted(c, ss, sts, n, i) {
        var j :| i < j < n && sts[j].WriteHead? && NoCrash(c, ss, sts, i + 1, j);
        assert j == m;
      }
    }
  }

  ghost predicate Rising(at: seq<nat>) {
    forall x, y :: 0 <= x < y < |at| ==> at[x] < at[y]
  }

  lemma {:induction false} InOrder(c: Config, ss: seq<State>, sts: seq<Step>, n: nat)
    requires Aligned(ss, sts, n)
    ensures Rising(Durable(c, ss, sts, n) + Pending(c, ss, sts, n)) && Rising(Durable(c, ss, sts, n))
  {
    hide Crashes, IsWrite, Rising;
    if n == 0 {
      RisingNone();
    } else {
      var d, p := Durable(c, ss, sts, n - 1), Pending(c, ss, sts, n - 1);
      InOrder(c, ss, sts, n - 1);
      AllBelow(c, ss, sts, n - 1);
      RisingParts(d, p, n - 1);
      WritesCrashNot(c, ss[n - 1], sts[n - 1]);
      assert d + [] == d && d + p + [] == d + p && p + [] == p;
    }
  }

  lemma RisingNone()
    ensures Rising([] + []) && Rising([])
  {
  }

  lemma RisingParts(a: seq<nat>, b: seq<nat>, n: nat)
    requires Rising(a + b) && Below(a, n) && Below(b, n)
    ensures Rising(a) && Rising(a + (b + [n]))
  {
    forall x, y | 0 <= x < y < |a| ensures a[x] < a[y] {
      assert (a + b)[x] == a[x] && (a + b)[y] == a[y];
    }
    var e := a + (b + [n]);
    assert e == a + b + [n];
    forall x, y | 0 <= x < y < |e| ensures e[x] < e[y] {
      if y < |a + b| {
        assert (a + b)[x] < (a + b)[y];
      }
    }
  }

  // ----- what block holds what

  ghost predicate Counts(c: Config, ss: seq<State>, sts: seq<Step>, n: nat, i: nat, committed: bool)
    requires Aligned(ss, sts, n)
  {
    if committed then Persisted(c, ss, sts, n, i) else Alive(c, ss, sts, n, i)
  }

  /** d is what the last write to block b put there, of the committed writes or
      of those that no crash has undone; without one, it is the image's. */
  ghost predicate IsLatest(c: Config, ss: seq<State>, sts: seq<Step>, n: nat, committed: bool, b: int, d: Data)
    requires Aligned(ss, sts, n) && 0 <= b < |c.image|
  {
    || (exists i: nat :: i < n && Counts(c, ss, sts, n, i, committed) && sts[i].block == b && sts[i].data == d &&
                         forall k: nat :: i < k < n && Counts(c, ss, sts, n, k, committed) ==> sts[k].block != b)
    || ((forall i: nat :: i < n && Counts(c, ss, sts, n, i, committed) ==> sts[i].block != b) && d == c.image[b])
  }

  /** Applying writes leaves each block as the last of them put it. */
  lemma {:induction false} ApplyLast(d: seq<Data>, ws: seq<Write>, b: int)
    requires 0 <= b < |d|
    ensures var e := Apply(d, ws)[b];
            || (exists x :: 0 <= x < |ws| && ws[x].block == b && ws[x].data == e &&
                            forall y :: x < y < |ws| ==> ws[y].block != b)
            || ((forall x :: 0 <= x < |ws| ==> ws[x].block != b) && e == d[b])
  {
    if ws != [] {
      var n := |ws| - 1;
      var vs := ws[..n];
      ApplyLast(d, vs, b);
      if ws[n].block == b {
        assert ws[n].data == Apply(d, ws)[b];
      } else if x :| 0 <= x < n && vs[x].block == b && vs[x].data == Apply(d, vs)[b] &&
                     forall y :: x < y < n ==> vs[y].block != b {
        assert ws[x] == vs[x];
        assert forall y :: x < y < n ==> ws[y] == vs[y];
      } else {
        assert forall x :: 0 <= x < n ==> ws[x] == vs[x];
      }
    }
  }

  /** The same for the writes at the steps listed in rising order. */
  lemma LatestOf(c: Config, ss: seq<State>, sts: seq<Step>, n: nat, committed: bool, b: int, at: seq<nat>)
    requires Aligned(ss, sts, n) && 0 <= b < |c.image| && Rising(at) && Below(at, n)
    requires forall i: nat :: i in at <==> Counts(c, ss, sts, n, i, committed)
    ensures IsLatest(c, ss, sts, n, committed, b, Apply(c.image, WritesOf(sts, at))[b])
  {
    hide Apply, OpenOp;
    var ws := WritesOf(sts, at);
    var e := Apply(c.image, ws)[b];
    ApplyLast(c.image, ws, b);
    forall x | 0 <= x < |at| ensures sts[at[x]].LogWrite? && at[x] < n && ws[x] == WriteOf(sts, at[x]) {
      assert at[x] in at;
    }
    if x :| 0 <= x < |ws| && ws[x].block == b && ws[x].data == e && forall y :: x < y < |ws| ==> ws[y].block != b {
      var i := at[x];
      assert i in at;
      forall k: nat | i < k < n && Counts(c, ss, sts, n, k, committed) ensures sts[k].block != b {
        var y :| 0 <= y < |at| && at[y] == k;
        assert x < y;
      }
    } else {
      forall i: nat | i < n && Counts(c, ss, sts, n, i, committed) ensures sts[i].block != b {
        var y :| 0 <= y < |at| && at[y] == i;
      }
    }
  }

  lemma AliveAre(c: Config, ss: seq<State>, sts: seq<Step>, n: nat)
    requires Aligned(ss, sts, n)
    ensures forall i: nat :: i in Durable(c, ss, sts, n) <==> Counts(c, ss, sts, n, i, true)
    ensures forall i: nat ::
              i in Durable(c, ss, sts, n) + Pending(c, ss, sts, n) <==> Counts(c, ss, sts, n, i, false)
  {
    hide Crashes, IsWrite, Pending, Durable;
    forall i: nat
      ensures i in Durable(c, ss, sts, n) <==> Counts(c, ss, sts, n, i, true)
      ensures i in Durable(c, ss, sts, n) + Pending(c, ss, sts, n) <==> Counts(c, ss, sts, n, i, false) {
      DurableAre(c, ss, sts, n, i);
      PendingAre(c, ss, sts, n, i);
      if i < n && IsWrite(c, ss[i], sts[i]) && NoCrash(c, ss, sts, i + 1, n) {
        assert forall k :: i < k < n && sts[k].WriteHead? ==> NoCrash(c, ss, sts, i + 1, k);
      }
    }
  }

  /** Durability, from the steps alone. After any run with any number of crashes,
      recovery from the disk as it stands gives every home block the data of the
      last log_write to it that was committed, and the initial contents if there
      is none. */
  lemma LastCommittedWins(c: Config, nproc: nat, ss: seq<State>, sts: seq<Step>, b: int)
    requires ValidConfig(c) && IsRun(c, nproc, ss, sts) && Home(c, b)
    ensures |ss[|sts|].disk| == |c.image| &&
            IsLatest(c, ss, sts, |sts|, true, b, RecoveredAt(c, ss[|sts|].disk, b))
  {
    hide Apply, Flat, Durable, Pending, IsLatest, Counts, Rising, IsStep, RecoveredAt;
    var n := |sts|;
    CrashAtomicity(c, nproc, ss, sts);
    RunRecorded(c, nproc, ss, sts, n);
    AllBelow(c, ss, sts, n);
    InOrder(c, ss, sts, n);
    AliveAre(c, ss, sts, n);
    LatestOf(c, ss, sts, n, true, b, Durable(c, ss, sts, n));
  }

  /** What is read, outside of recovery: the data of the last log_write that no
      crash has undone. */
  lemma ReadsLatest(c: Config, nproc: nat, ss: seq<State>, sts: seq<Step>, b: int)
    requires ValidConfig(c) && IsRun(c, nproc, ss, sts) && Home(c, b)
    requires !ss[|sts|].phase.Booting? && !ss[|sts|].phase.RecInstall?
    ensures |ss[|sts|].view| == |c.image| && IsLatest(c, ss, sts, |sts|, false, b, ss[|sts|].view[b])
  {
    hide Apply, Flat, Durable, Pending, IsLatest, Counts, Rising, IsStep, RecoveredAt;
    var n := |sts|;
    var s, d, p := ss[n], Durable(c, ss, sts, n), Pending(c, ss, sts, n);
    RunInv(c, nproc, ss, sts);
    RunRecorded(c, nproc, ss, sts, n);
    AllBelow(c, ss, sts, n);
    InOrder(c, ss, sts, n);
    AliveAre(c, ss, sts, n);
    WritesPlus(sts, d, p);
    ApplyAppend(c.image, Flat(s.journal), s.current);
    LatestOf(c, ss, sts, n, false, b, d + p);
  }

  /** Once every operation has ended, disk and readers agree on the last
      committed write to every block. */
  lemma QuiescentHoldsLast(c: Config, nproc: nat, ss: seq<State>, sts: seq<Step>, b: int)
    requires ValidConfig(c) && IsRun(c, nproc, ss, sts) && Home(c, b)
    requires ss[|sts|].phase.Running? && ss[|sts|].outstanding == 0
    ensures |ss[|sts|].disk| == |ss[|sts|].view| == |c.image| && ss[|sts|].view[b] == ss[|sts|].disk[b]
    ensures IsLatest(c, ss, sts, |sts|, true, b, ss[|sts|].disk[b])
  {
    hide IsLatest, IsStep;
    QuiescentIsDurable(c, nproc, ss, sts, b);
    LastCommittedWins(c, nproc, ss, sts, b);
  }

  /** log_write shows at once, in its block and in no other, and writes nothing
      to the disk. */
  lemma WriteShows(c: Config, s: State, st: Step, t: State)
    requires IsStep(c, s, st, t) && IsWrite(c, s, st)
    ensures |t.view| == |s.view| && 0 <= st.block < |t.view| && t.view[st.block] == st.data && t.disk == s.disk
    ensures forall b :: 0 <= b < |t.view| && b != st.block ==> t.view[b] == s.view[b]
    ensures st.block in t.lh && forall b :: b in t.lh ==> b in s.lh || b == st.block
  {
    hide ReadHeader;
  }

  // ----- operations are whole

  /** Those of the listed steps that belong to operation id. */
  function Only(sts: seq<Step>, at: seq<nat>, id: nat): (r: seq<nat>)
    requires Below(at, |sts|)
    ensures Below(r, |sts|)
  {
    if at == [] then []
    else
      var m := |at| - 1;
      Only(sts, at[..m], id) + (if WriteOf(sts, at[m]).op == id then [at[m]] else [])
  }

  lemma {:induction false} OnlyOfOp(sts: seq<Step>, at: seq<nat>, id: nat)
    requires Below(at, |sts|)
    ensures OfOp(WritesOf(sts, at), id) == WritesOf(sts, Only(sts, at, id))
  {
    hide WriteOf;
    if at != [] {
      var m := |at| - 1;
      OnlyOfOp(sts, at[..m], id);
      assert WritesOf(sts, at)[..m] == WritesOf(sts, at[..m]);
    }
  }

  lemma {:induction false} OnlyMember(sts: seq<Step>, at: seq<nat>, id: nat, i: nat)
    requires Below(at, |sts|) && i < |sts|
    ensures i in Only(sts, at, id) <==> i in at && WriteOf(sts, i).op == id
  {
    hide WriteOf;
    if at != [] {
      var m := |at| - 1;
      OnlyMember(sts, at[..m], id, i);
      assert at == at[..m] + [at[m]];
    }
  }

  lemma {:induction false} OnlyRising(sts: seq<Step>, at: seq<nat>, id: nat)
    requires Below(at, |sts|) && Rising(at)
    ensures Rising(Only(sts, at, id))
  {
    hide WriteOf;
    if at != [] {
      var m := |at| - 1;
      OnlyRising(sts, at[..m], id);
      var o := Only(sts, at[..m], id);
      forall x | 0 <= x < |o| ensures o[x] < at[m] {
        OnlyMember(sts, at[..m], id, o[x]);
        assert o[x] in at[..m];
      }
    }
  }

  function SetOf(at: seq<nat>): set<nat> {
    set i | i in at
  }

  lemma {:induction false} RisingCount(at: seq<nat>)
    requires Rising(at)
    ensures |SetOf(at)| == |at|
  {
    if at != [] {
      var m := |at| - 1;
      RisingCount(at[..m]);
      assert SetOf(at) == SetOf(at[..m]) + {at[m]};
      assert at[m] !in at[..m];
    }
  }

  lemma SameMembers(a: seq<nat>, b: seq<nat>, i: nat)
    requires Rising(a) && Rising(b) && |a| == |b| && (forall x :: x in a ==> x in b) && i in b
    ensures i in a
  {
    RisingCount(a);
    RisingCount(b);
    assert SetOf(a) <= SetOf(b);
    if i !in a {
      assert SetOf(a) <= SetOf(b) - {i};
      Smaller(SetOf(a), SetOf(b) - {i});
    }
  }

  lemma Smaller(a: set<nat>, b: set<nat>)
    requires a <= b
    ensures |a| <= |b|
  {
    assert b == a + (b - a);
  }

  lemma {:induction false} AllAre(c: Config, ss: seq<State>, sts: seq<Step>, n: nat, i: nat)
    requires Aligned(ss, sts, n)
    ensures i in All(c, ss, sts, n) <==> i < n && IsWrite(c, ss[i], sts[i])
    ensures Rising(All(c, ss, sts, n))
  {
    hide IsWrite;
    if n > 0 {
      AllAre(c, ss, sts, n - 1, i);
      AllBelow(c, ss, sts, n - 1);
    }
  }

  /** Atomicity, from the steps alone: after any run with any number of crashes,
      of two log_write steps of one operation both are committed or neither is. */
  lemma WholeOperations(c: Config, nproc: nat, ss: seq<State>, sts: seq<Step>, i: nat, k: nat)
    requires ValidConfig(c) && IsRun(c, nproc, ss, sts) && i < |sts| && k < |sts|
    requires IsWrite(c, ss[i], sts[i]) && IsWrite(c, ss[k], sts[k])
    requires OpenOp(sts, i, sts[i].p) == OpenOp(sts, k, sts[k].p)
    requires Persisted(c, ss, sts, |sts|, i)
    ensures Persisted(c, ss, sts, |sts|, k)
  {
    hide Apply, Flat, OfOp, Durable, All, Pending, Rising, IsStep, RecoveredAt, Persisted, IsWrite, OpenOp;
    hide ValidConfig, WritesOf;
    var n := |sts|;
    WriteIs(c, ss[i], sts[i]);
    WriteIs(c, ss[k], sts[k]);
    CrashAtomicity(c, nproc, ss, sts);
    RunRecorded(c, nproc, ss, sts, n);
    AllBelow(c, ss, sts, n);
    InOrder(c, ss, sts, n);
    var d, a := Durable(c, ss, sts, n), All(c, ss, sts, n);
    DurableAre(c, ss, sts, n, i);
    DurableAre(c, ss, sts, n, k);
    AllAre(c, ss, sts, n, k);
    forall x | x in d ensures x in a {
      DurableAre(c, ss, sts, n, x);
      AllAre(c, ss, sts, n, x);
      PersistedIs(c, ss, sts, n, x);
    }
    AllThere(sts, d, a, WriteOf(sts, i).op, i, k);
  }

  /** With one write of an operation in the list d, all are. */
  lemma AllThere(sts: seq<Step>, d: seq<nat>, a: seq<nat>, id: nat, i: nat, k: nat)
    requires Below(d, |sts|) && Below(a, |sts|) && Rising(d) && Rising(a) && forall x :: x in d ==> x in a
    requires var ds := OfOp(WritesOf(sts, d), id); ds == [] || ds == OfOp(WritesOf(sts, a), id)
    requires i in d && i < |sts| && WriteOf(sts, i).op == id && k in a && k < |sts| && WriteOf(sts, k).op == id
    ensures k in d
  {
    hide OfOp, WriteOf, WritesOf, Rising, Only;
    var e, f := Only(sts, d, id), Only(sts, a, id);
    OnlyOfOp(sts, d, id);
    OnlyOfOp(sts, a, id);
    OnlyRising(sts, d, id);
    OnlyRising(sts, a, id);
    OnlyMember(sts, d, id, i);
    OnlyMember(sts, d, id, k);
    OnlyMember(sts, a, id, k);
    OnlySubset(sts, d, a, id);
    SameWrites(sts, e, f, i, k);
  }

  lemma OnlySubset(sts: seq<Step>, d: seq<nat>, a: seq<nat>, id: nat)
    requires Below(d, |sts|) && Below(a, |sts|) && forall x :: x in d ==> x in a
    ensures forall x :: x in Only(sts, d, id) ==> x in Only(sts, a, id)
  {
    hide WriteOf, Only;
    forall x | x in Only(sts, d, id) ensures x in Only(sts, a, id) {
      OnlyMember(sts, d, id, x);
      OnlyMember(sts, a, id, x);
    }
  }

  lemma SameWrites(sts: seq<Step>, d: seq<nat>, a: seq<nat>, i: nat, k: nat)
    requires Below(d, |sts|) && Below(a, |sts|) && Rising(d) && Rising(a) && forall x :: x in d ==> x in a
    requires WritesOf(sts, d) == [] || WritesOf(sts, d) == WritesOf(sts, a)
    requires i in d && k in a
    ensures k in d
  {
    assert |WritesOf(sts, d)| == |d| && |WritesOf(sts, a)| == |a|;
    hide WritesOf, Rising;
    SameMembers(d, a, k);
  }

  lemma WriteIs(c: Config, s: State, st: Step)
    requires IsWrite(c, s, st)
    ensures st.LogWrite?
  {
  }

  lemma PersistedIs(c: Config, ss: seq<State>, sts: seq<Step>, n: nat, i: nat)
    requires Aligned(ss, sts, n) && Persisted(c, ss, sts, n, i)
    ensures i < n && IsWrite(c, ss[i], sts[i])
  {
  }
}
