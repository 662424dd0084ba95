/** The log budget of one operation, from the file system's calls of log_write
    to the space of the log: what kernel/file.c's limit on a chunk is for. */
module OperationBudget {
  import opened WriteAheadLog
  import BlockMap
  import FileSystem

  function BlocksOf(ws: seq<Write>): (r: seq<int>)
    ensures |r| == |ws|
  {
    seq(|ws|, i requires 0 <= i < |ws| => ws[i].block)
  }

  /** What process p has passed to log_write in its open operation, in order. */
  function CallsOf(s: State, p: nat): seq<int>
    requires p < |s.procs| && s.procs[p].InOp?
  {
    BlocksOf(OfOp(s.history, s.procs[p].id))
  }

  /** The callers' side of the bargain, in terms of their calls alone: an
      operation passes at most MAXOPBLOCKS different blocks to log_write. */
  predicate Modest(c: Config, s: State, st: Step) {
    st.LogWrite? && st.p < |s.procs| && s.procs[st.p].InOp? ==>
      |FileSystem.Set(CallsOf(s, st.p) + [st.block])| <= c.maxOp
  }

  /** What an open operation has logged is in the log, and it has added no more
      blocks than it has logged different ones. */
  ghost predicate Tracked(s: State, p: nat)
    requires p < |s.procs|
  {
    s.procs[p].InOp? ==>
      var bs := FileSystem.Set(CallsOf(s, p));
      s.procs[p].added <= |bs| && forall b :: b in bs ==> b in s.lh
  }

  ghost predicate AllTracked(s: State) {
    forall p :: 0 <= p < |s.procs| ==> Tracked(s, p)
  }

  lemma NoneTracked(s: State)
    requires forall p :: 0 <= p < |s.procs| ==> s.procs[p].NoOp?
    ensures AllTracked(s)
  {
  }

  /** What an operation's calls are after one more write. */
  lemma CallsGrow(s: State, t: State, p: nat, w: Write)
    requires p < |s.procs| == |t.procs| && s.procs[p].InOp? && t.procs[p].InOp? && t.procs[p].id == s.procs[p].id
    requires t.history == s.history + [w]
    ensures CallsOf(t, p) == CallsOf(s, p) + (if w.op == s.procs[p].id then [w.block] else [])
  {
    hide OfOp;
    var id := s.procs[p].id;
    OfOpAppend(s.history, [w], id);
    OfOpOne(w, id);
  }

  lemma OfOpOne(w: Write, id: nat)
    ensures OfOp([w], id) == if w.op == id then [w] else []
  {
    assert OfOp([w][..0], id) == [];
  }

  lemma SetAdd(s: seq<int>, b: int)
    ensures FileSystem.Set(s + [b]) == FileSystem.Set(s) + {b}
    ensures |FileSystem.Set(s + [b])| == |FileSystem.Set(s)| + (if b in s then 0 else 1)
  {
    assert FileSystem.Set(s + [b]) == FileSystem.Set(s) + {b};
  }

  lemma TrackedLogWrite(c: Config, s: State, p: nat, b: int, d: Data, q: nat)
    requires Sizes(c, s) && Enabled(c, s, LogWrite(p, b, d)) && Ids(s) && q < |s.procs| && Tracked(s, q)
    ensures var t := AfterLogWrite(c, s, p, b, d); q < |t.procs| && Tracked(t, q)
    ensures var t := AfterLogWrite(c, s, p, b, d);
            q == p ==> t.procs[p].InOp? && CallsOf(t, p) == CallsOf(s, p) + [b]
  {
    hide CallsOf, FileSystem.Set, LegalHeader, ReadHeader;
    var t := AfterLogWrite(c, s, p, b, d);
    if s.procs[q].InOp? {
      CallsGrow(s, t, q, Write(s.procs[p].id, b, d));
      SetAdd(CallsOf(s, q), b);
      if q == p {
        MemberOf(CallsOf(s, q), b);
      } else {
        assert s.procs[q].id != s.procs[p].id;
        assert CallsOf(s, q) + [] == CallsOf(s, q);
      }
    }
  }

  lemma MemberOf(s: seq<int>, b: int)
    ensures b in s <==> b in FileSystem.Set(s)
  {
  }

  lemma TrackedBegin(c: Config, s: State, p: nat)
    requires ValidConfig(c) && Sizes(c, s) && Enabled(c, s, BeginOp(p)) && Ids(s) && AllTracked(s)
    ensures AllTracked(Next(c, s, BeginOp(p))) && CallsOf(Next(c, s, BeginOp(p)), p) == []
  {
    hide OfOp, Sizes, ValidConfig;
    OfOpNone(s.history, s.nextOp);
    var t := Next(c, s, BeginOp(p));
    forall q | 0 <= q < |t.procs| ensures Tracked(t, q) {
      assert Tracked(s, q);
    }
  }

  lemma TrackedKept(c: Config, s: State, st: Step)
    requires ValidConfig(c) && Sizes(c, s) && Counters(s) && Ids(s) && Enabled(c, s, st) && AllTracked(s)
    ensures AllTracked(Next(c, s, st))
  {
    var t := Next(c, s, st);
    if st.BeginOp? {
      TrackedBegin(c, s, st.p);
    } else if st.LogWrite? && !LogWritePanics(c, s) {
      forall q | 0 <= q < |t.procs| ensures Tracked(t, q) {
        TrackedLogWrite(c, s, st.p, st.block, st.data, q);
      }
    } else if st.EndOp? && !s.committing {
      forall q | 0 <= q < |t.procs| ensures Tracked(t, q) {
        assert Tracked(s, q);
      }
    } else {
      IdleAfter(c, s, st);
      NoneTracked(t);
    }
  }

  /** After any other step no operation is open. */
  lemma IdleAfter(c: Config, s: State, st: Step)
    requires ValidConfig(c) && Sizes(c, s) && Counters(s) && Enabled(c, s, st) && !st.BeginOp?
    requires (st.LogWrite? ==> LogWritePanics(c, s)) && (st.EndOp? ==> s.committing)
    ensures forall p :: 0 <= p < |Next(c, s, st).procs| ==> Next(c, s, st).procs[p].NoOp?
  {
    hide Sizes, ValidConfig, WriteHeader, ReadHeader, Home, Open;
    OpenZero(s.procs);
  }

  lemma {:induction false} RunTracked(c: Config, nproc: nat, ss: seq<State>, sts: seq<Step>)
    requires ValidConfig(c) && IsRun(c, nproc, ss, sts)
    ensures AllTracked(ss[|sts|])
    decreases |sts|
  {
    hide Inv, Content, ValidConfig, Next, Enabled, Sizes, AllTracked, Ids;
    if sts == [] {
      NoneTracked(ss[0]);
    } else {
      var n := |sts| - 1;
      var ts, us := ss[..n + 1], sts[..n];
      RunPrefix(c, nproc, ss, sts, n);
      RunTracked(c, nproc, ts, us);
      Parts(c, nproc, ts, us);
      assert IsStep(c, ss[n], sts[n], ss[n + 1]);
      TrackedKept(c, ss[n], sts[n]);
    }
  }

  lemma RunPrefix(c: Config, nproc: nat, ss: seq<State>, sts: seq<Step>, n: nat)
    requires IsRun(c, nproc, ss, sts) && n <= |sts|
    ensures IsRun(c, nproc, ss[..n + 1], sts[..n])
  {
    hide IsStep;
    var ts, us := ss[..n + 1], sts[..n];
    forall i | 0 <= i < |us| ensures IsStep(c, ts[i], us[i], ts[i + 1]) {
      assert IsStep(c, ss[i], sts[i], ss[i + 1]);
    }
  }

  lemma Parts(c: Config, nproc: nat, ss: seq<State>, sts: seq<Step>)
    requires ValidConfig(c) && IsRun(c, nproc, ss, sts)
    ensures Counters(ss[|sts|]) && Ids(ss[|sts|]) && Sizes(c, ss[|sts|])
  {
    RunInv(c, nproc, ss, sts);
    hide IsRun;
  }

  /** Counting different blocks is enough: a step that is modest is obedient. */
  lemma ModestIsObedient(c: Config, s: State, st: Step)
    requires AllTracked(s) && Modest(c, s, st)
    ensures Obedient(c, s, st)
  {
    hide CallsOf, FileSystem.Set;
    if st.LogWrite? && st.p < |s.procs| && s.procs[st.p].InOp? {
      assert Tracked(s, st.p);
      SetAdd(CallsOf(s, st.p), st.block);
      MemberOf(CallsOf(s, st.p), st.block);
    }
  }

  /** A run all of whose operations are modest. */
  ghost predicate ModestRun(c: Config, nproc: nat, ss: seq<State>, sts: seq<Step>) {
    IsRun(c, nproc, ss, sts) && forall i :: 0 <= i < |sts| ==> Modest(c, ss[i], sts[i])
  }

  lemma ModestRunObeys(c: Config, nproc: nat, ss: seq<State>, sts: seq<Step>)
    requires ValidConfig(c) && ModestRun(c, nproc, ss, sts)
    ensures forall i :: 0 <= i < |sts| ==> Obedient(c, ss[i], sts[i])
  {
    hide ValidConfig, Modest, Obedient, AllTracked;
    forall i | 0 <= i < |sts| ensures Obedient(c, ss[i], sts[i]) {
      RunPrefix(c, nproc, ss, sts, i);
      RunTracked(c, nproc, ss[..i + 1], sts[..i]);
      ModestIsObedient(c, ss[i], sts[i]);
    }
  }

  /** A transaction of filewrite in the log machine. After any run of modest
      operations, and however their steps interleave, an operation that has
      made some but not all of the calls of a transaction can make the next
      one: it does not panic, it keeps the promise, and the block is in the
      log afterwards. After the last one, end_op does not panic. */
  lemma ChunkNeverPanics(c: Config, nproc: nat, ss: seq<State>, sts: seq<Step>, p: nat,
                         fc: BlockMap.Config, k: nat, x: FileSystem.Store, y: FileSystem.Store, i: nat, d: Data)
    requires ValidConfig(c) && c.nlog >= c.logSize + 1 && ModestRun(c, nproc, ss, sts)
    requires BlockMap.ValidConfig(fc) && fc.maxop == c.maxOp && FileSystem.Transaction(fc, k, x, y)
    requires p < |ss[|sts|].procs| && ss[|sts|].procs[p].InOp? && i <= |FileSystem.Calls(x, y)|
    requires CallsOf(ss[|sts|], p) == FileSystem.Calls(x, y)[..i] && |d| == c.words
    ensures !ss[|sts|].committing
    ensures i < |FileSystem.Calls(x, y)| && Home(c, FileSystem.Calls(x, y)[i]) ==>
              var s, st := ss[|sts|], LogWrite(p, FileSystem.Calls(x, y)[i], d);
              && !LogWritePanics(c, s) && Modest(c, s, st) && Obedient(c, s, st) && Enabled(c, s, st) && Sizes(c, s)
              && var t := Next(c, s, st);
                 p < |t.procs| && t.procs[p].InOp? && t.procs[p].id == s.procs[p].id && st.block in t.lh &&
                 CallsOf(t, p) == FileSystem.Calls(x, y)[..i + 1]
  {
    hide ValidConfig, CallsOf, FileSystem.Set, FileSystem.Journaled, Sizes, Ids, IsStep, Obedient, Counters;
    hide BlockMap.ValidConfig;
    var s, calls := ss[|sts|], FileSystem.Calls(x, y);
    ModestRunObeys(c, nproc, ss, sts);
    RunTracked(c, nproc, ss, sts);
    Parts(c, nproc, ss, sts);
    NoLogPanic(c, nproc, ss, sts, p);
    if i < |calls| && Home(c, calls[i]) {
      BudgetLeft(calls, i, c.maxOp);
      assert Tracked(s, p);
      ModestIsObedient(c, s, LogWrite(p, calls[i], d));
      TrackedLogWrite(c, s, p, calls[i], d, p);
    }
  }

  /** The first i calls of log_write as steps, with the blocks' contents. */
  function Writes(p: nat, calls: seq<int>, ds: seq<Data>, i: nat): (r: seq<Step>)
    requires i <= |calls| == |ds|
    ensures |r| == i
  {
    if i == 0 then [] else Writes(p, calls, ds, i - 1) + [LogWrite(p, calls[i - 1], ds[i - 1])]
  }

  lemma RunOn(c: Config, nproc: nat, ss: seq<State>, sts: seq<Step>, st: Step)
    requires ValidConfig(c) && ModestRun(c, nproc, ss, sts)
    requires Sizes(c, ss[|sts|]) && Enabled(c, ss[|sts|], st) && Modest(c, ss[|sts|], st)
    ensures ModestRun(c, nproc, ss + [Next(c, ss[|sts|], st)], sts + [st])
  {
    hide Modest, Next, Enabled, Sizes, ValidConfig;
    var ts, us := ss + [Next(c, ss[|sts|], st)], sts + [st];
    forall i | 0 <= i < |us| ensures IsStep(c, ts[i], us[i], ts[i + 1]) && Modest(c, ts[i], us[i]) {
      if i < |sts| {
        assert IsStep(c, ss[i], sts[i], ss[i + 1]);
      }
    }
  }

  /** Operation id of process p is open, has made these calls, and all that it
      has logged is in the log. */
  ghost predicate HasMade(s: State, p: nat, id: nat, calls: seq<int>) {
    && p < |s.procs| && s.procs[p].InOp? && s.procs[p].id == id
    && CallsOf(s, p) == calls && forall b :: b in calls ==> b in s.lh
  }

  lemma InTheLog(c: Config, nproc: nat, ss: seq<State>, sts: seq<Step>, p: nat)
    requires ValidConfig(c) && IsRun(c, nproc, ss, sts) && p < |ss[|sts|].procs| && ss[|sts|].procs[p].InOp?
    ensures forall b :: b in CallsOf(ss[|sts|], p) ==> b in ss[|sts|].lh
  {
    hide CallsOf, ValidConfig, IsStep, FileSystem.Set;
    RunTracked(c, nproc, ss, sts);
    var s := ss[|sts|];
    assert Tracked(s, p);
    forall b | b in CallsOf(s, p) ensures b in s.lh {
      MemberOf(CallsOf(s, p), b);
    }
  }

  /** The whole transaction, from any state in which its operation has begun:
      all its calls go through, as one operation, and its blocks are in the
      log. */
  lemma {:induction false} ChunkRuns(c: Config, nproc: nat, ss: seq<State>, sts: seq<Step>, p: nat,
                                     fc: BlockMap.Config, k: nat, x: FileSystem.Store, y: FileSystem.Store,
                                     ds: seq<Data>, i: nat)
    returns (ts: seq<State>)
    requires ValidConfig(c) && c.nlog >= c.logSize + 1 && ModestRun(c, nproc, ss, sts)
    requires BlockMap.ValidConfig(fc) && fc.maxop == c.maxOp && FileSystem.Transaction(fc, k, x, y)
    requires p < |ss[|sts|].procs| && ss[|sts|].procs[p].InOp? && CallsOf(ss[|sts|], p) == []
    requires i <= |FileSystem.Calls(x, y)| == |ds| && forall d :: d in ds ==> |d| == c.words
    requires forall b :: b in FileSystem.Calls(x, y) ==> Home(c, b)
    ensures ModestRun(c, nproc, ts, sts + Writes(p, FileSystem.Calls(x, y), ds, i)) && |ts| == |ss| + i
    ensures ts[..|ss|] == ss && HasMade(ts[|sts| + i], p, ss[|sts|].procs[p].id, FileSystem.Calls(x, y)[..i])
    decreases i
  {
    hide ValidConfig, CallsOf, Modest, Next, Sizes, FileSystem.Transaction, IsStep, Home, FileSystem.Calls;
    var calls := FileSystem.Calls(x, y);
    if i == 0 {
      ts := ss;
      assert sts + [] == sts;
    } else {
      var rs := ChunkRuns(c, nproc, ss, sts, p, fc, k, x, y, ds, i - 1);
      var us, st := sts + Writes(p, calls, ds, i - 1), LogWrite(p, calls[i - 1], ds[i - 1]);
      assert Home(c, calls[i - 1]) && ds[i - 1] in ds;
      ChunkNeverPanics(c, nproc, rs, us, p, fc, k, x, y, i - 1, ds[i - 1]);
      RunOn(c, nproc, rs, us, st);
      ts := rs + [Next(c, rs[|us|], st)];
      assert us + [st] == sts + Writes(p, calls, ds, i);
      InTheLog(c, nproc, ts, us + [st], p);
    }
  }

  /** Before its last call, the inode's block, a transaction has room for one more. */
  lemma BudgetLeft(calls: seq<int>, i: nat, max: nat)
    requires i < |calls| && |FileSystem.Set(FileSystem.Front(calls))| <= max - 1 && |FileSystem.Set(calls)| <= max
    ensures |FileSystem.Set(calls[..i])| < max && calls[..i] + [calls[i]] == calls[..i + 1]
    ensures |FileSystem.Set(calls[..i] + [calls[i]])| <= max
  {
    FileSystem.Subsets(FileSystem.Set(calls[..i]), FileSystem.Set(FileSystem.Front(calls)));
    FileSystem.Subsets(FileSystem.Set(calls[..i + 1]), FileSystem.Set(calls));
  }
}
