/** The write-ahead log of kernel/log.c as a machine of atomic steps.

    Every bwrite is one step, every critical section of log.lock is one step,
    and a crash may fall between any two steps, also during recovery. A panic
    halts the machine and is a crash as far as the disk is concerned. What
    processes read through the buffer cache is the sequence `view`; the
    BufferCache module shows that the cache provides it. */
module WriteAheadLog {
  import opened Common

  type Data = seq<int>

  /** The disk layout and the compile-time limits, for every size. */
  datatype Config = Config(logStart: nat, nlog: nat, logSize: nat, maxOp: nat, words: nat, image: seq<Data>)

  ghost predicate ValidConfig(c: Config) {
    && c.nlog >= 2 && c.maxOp >= 1 && c.logStart + c.nlog <= |c.image|
    && c.logSize + 1 <= c.words
    && WellSized(c, c.image)
    && ReadHeader(c.image[c.logStart]) == []
  }

  ghost predicate WellSized(c: Config, d: seq<Data>) {
    |d| == |c.image| && forall b :: 0 <= b < |d| ==> |d[b]| == c.words
  }

  /** A block outside the log region. */
  predicate Home(c: Config, b: int) {
    0 <= b < |c.image| && !(c.logStart <= b < c.logStart + c.nlog)
  }

  // ----- the on-disk header

  function ReadHeader(d: Data): seq<int> {
    if |d| > 0 && 0 < d[0] < |d| then d[1..d[0] + 1] else []
  }

  /** write_head changes n and the first n slots of the block it has read. */
  function WriteHeader(d: Data, lh: seq<int>): (r: Data)
    requires |lh| + 1 <= |d|
    ensures |r| == |d| && ReadHeader(r) == lh
  {
    [|lh|] + lh + d[|lh| + 1..]
  }

  /** The format of struct logheader: the count, then the block numbers in
      order; write_head leaves the words behind them alone. */
  lemma HeaderFormat(d: Data, lh: seq<int>)
    ensures |lh| + 1 <= |d| ==>
            var r := WriteHeader(d, lh);
            && |r| == |d| && r[0] == |lh| && (forall i :: 0 <= i < |lh| ==> r[i + 1] == lh[i])
            && forall i :: |lh| < i < |d| ==> r[i] == d[i]
    ensures if |d| > 0 && 0 < d[0] < |d|
            then |ReadHeader(d)| == d[0] && forall i :: 0 <= i < d[0] ==> ReadHeader(d)[i] == d[i + 1]
            else ReadHeader(d) == []
  {
  }

  // ----- what recovery will make of a disk

  function IndexOf(lh: seq<int>, b: int): (i: nat)
    requires b in lh
    ensures i < |lh| && lh[i] == b
  {
    if lh[0] == b then 0 else 1 + IndexOf(lh[1..], b)
  }

  /** lh is a legal header: distinct home blocks that fit the log. */
  ghost predicate LegalHeader(c: Config, lh: seq<int>) {
    && |lh| <= c.logSize && |lh| <= c.nlog - 1 && Distinct(lh)
    && forall i :: 0 <= i < |lh| ==> Home(c, lh[i])
  }

  /** The contents of home block b after recovery from this disk. */
  function RecoveredAt(c: Config, disk: seq<Data>, b: int): Data
    requires c.logStart + c.nlog <= |c.image| && c.nlog >= 1 && |disk| == |c.image| && Home(c, b)
  {
    var lh := ReadHeader(disk[c.logStart]);
    if b in lh && c.logStart + 1 + IndexOf(lh, b) < |disk| then disk[c.logStart + 1 + IndexOf(lh, b)] else disk[b]
  }

  // ----- histories

  datatype Write = Write(op: nat, block: int, data: Data)
  type Txn = seq<Write>

  function Apply(d: seq<Data>, ws: seq<Write>): (r: seq<Data>)
    ensures |r| == |d|
  {
    if ws == [] then d
    else
      var w, e := ws[|ws| - 1], Apply(d, ws[..|ws| - 1]);
      if 0 <= w.block < |d| then e[w.block := w.data] else e
  }

  function Flat(js: seq<Txn>): seq<Write> {
    if js == [] then [] else Flat(js[..|js| - 1]) + js[|js| - 1]
  }

  /** The writes of one operation, in order. */
  function OfOp(ws: seq<Write>, id: nat): seq<Write> {
    if ws == [] then []
    else OfOp(ws[..|ws| - 1], id) + (if ws[|ws| - 1].op == id then [ws[|ws| - 1]] else [])
  }

  // ----- the machine

  datatype Op = NoOp | InOp(id: nat, added: nat)

  datatype Phase =
    | Running                   // no commit in progress
    | LogCopy(tail: nat)        // write_log
    | Install(tail: nat)        // install_trans(0)
    | Finishing                 // commit() done, committing still set
    | Booting                   // after a crash
    | RecInstall(tail: nat)     // install_trans(1)

  /** journal, current, history, base and nextOp are history variables: the
      committed transactions, the writes since, every write ever logged, the
      first operation id of the current transaction, and the next unused id. */
  datatype State = State(
    disk: seq<Data>,
    view: seq<Data>,
    lh: seq<int>,
    outstanding: int,
    committing: bool,
    phase: Phase,
    procs: seq<Op>,
    journal: seq<Txn>,
    current: Txn,
    history: seq<Write>,
    base: nat,
    nextOp: nat)

  function Init(c: Config, nproc: nat): State {
    State(c.image, c.image, [], 0, false, Running, seq(nproc, _ => NoOp), [], [], [], 0, 0)
  }

  datatype Step =
    | BeginOp(p: nat)
    | LogWrite(p: nat, block: int, data: Data)
    | EndOp(p: nat)
    | CopyBlock
    | WriteHead
    | InstallBlock
    | ClearHead
    | Finish
    | Crash
    | ReadHead
    | RecInstallBlock
    | RecClearHead

  function Crashed(s: State): State {
    s.(view := s.disk, lh := [], outstanding := 0, committing := false, phase := Booting,
    procs := seq(|s.procs|, _ => NoOp), current := [], base := s.nextOp)
  }

  /** log_write's two panics (and its first test comes before the absorption scan). */
  predicate LogWritePanics(c: Config, s: State) {
    |s.lh| >= c.logSize || |s.lh| >= c.nlog - 1 || s.outstanding < 1
  }

  predicate Enabled(c: Config, s: State, st: Step) {
    match st
    case BeginOp(p) =>
      && p < |s.procs| && s.procs[p].NoOp? && s.phase.Running? && !s.committing
      && |s.lh| + (s.outstanding + 1) * c.maxOp <= c.logSize
    case LogWrite(p, b, d) => p < |s.procs| && s.procs[p].InOp? && Home(c, b) && |d| == c.words
    case EndOp(p) => p < |s.procs| && s.procs[p].InOp?
    case CopyBlock => s.phase.LogCopy? && s.phase.tail < |s.lh|
    case WriteHead => s.phase.LogCopy? && s.phase.tail == |s.lh|
    case InstallBlock => s.phase.Install? && s.phase.tail < |s.lh|
    case ClearHead => s.phase.Install? && s.phase.tail == |s.lh|
    case Finish => s.phase.Finishing?
    case Crash => true
    case ReadHead => s.phase.Booting?
    case RecInstallBlock => s.phase.RecInstall? && s.phase.tail < |s.lh|
    case RecClearHead => s.phase.RecInstall? && s.phase.tail == |s.lh|
  }

  function AfterLogWrite(c: Config, s: State, p: nat, b: int, d: Data): State
    requires p < |s.procs| && s.procs[p].InOp? && Home(c, b) && |s.view| == |c.image|
  {
    var op := s.procs[p];
    var w := Write(op.id, b, d);
    var s' := s.(view := s.view[b := d], current := s.current + [w], history := s.history + [w]);
    if b in s.lh then s'
    else s'.(lh := s.lh + [b], procs := s.procs[p := op.(added := op.added + 1)])
  }

  function AfterEndOp(s: State, p: nat): State
    requires p < |s.procs|
  {
    var s' := s.(procs := s.procs[p := NoOp], outstanding := s.outstanding - 1);
    if s.outstanding == 1 then
      s'.(committing := true, phase := if |s.lh| > 0 then LogCopy(0) else Finishing)
    else s'
  }

  /** One step. The sizes are part of every reachable state's invariant. */
  function Next(c: Config, s: State, st: Step): State
    requires ValidConfig(c) && Sizes(c, s) && Enabled(c, s, st)
  {
    match st
    case BeginOp(p) =>
      s.(procs := s.procs[p := InOp(s.nextOp, 0)], outstanding := s.outstanding + 1, nextOp := s.nextOp + 1)
    case LogWrite(p, b, d) => if LogWritePanics(c, s) then Crashed(s) else AfterLogWrite(c, s, p, b, d)
    case EndOp(p) => if s.committing then Crashed(s) else AfterEndOp(s, p)
    case CopyBlock =>
      var t := s.phase.tail;
      s.(disk := s.disk[c.logStart + 1 + t := s.view[s.lh[t]]], phase := LogCopy(t + 1))
    case WriteHead =>
      s.(disk := s.disk[c.logStart := WriteHeader(s.disk[c.logStart], s.lh)], phase := Install(0),
      journal := s.journal + [s.current], current := [], base := s.nextOp)
    case InstallBlock =>
      var t := s.phase.tail;
      var d := s.disk[c.logStart + 1 + t];
      s.(disk := s.disk[s.lh[t] := d], view := s.view[s.lh[t] := d], phase := Install(t + 1))
    case ClearHead =>
      s.(lh := [], disk := s.disk[c.logStart := WriteHeader(s.disk[c.logStart], [])], phase := Finishing)
    case Finish => s.(committing := false, phase := Running)
    case Crash => Crashed(s)
    case ReadHead => s.(lh := ReadHeader(s.disk[c.logStart]), phase := RecInstall(0))
    case RecInstallBlock =>
      var t := s.phase.tail;
      var d := s.disk[c.logStart + 1 + t];
      s.(disk := s.disk[s.lh[t] := d], view := s.view[s.lh[t] := d], phase := RecInstall(t + 1))
    case RecClearHead =>
      s.(lh := [], disk := s.disk[c.logStart := WriteHeader(s.disk[c.logStart], [])], phase := Running)
  }

  ghost predicate Sizes(c: Config, s: State) {
    && c.logStart < |c.image| && WellSized(c, s.disk) && WellSized(c, s.view)
    && LegalHeader(c, s.lh) && LegalHeader(c, ReadHeader(s.disk[c.logStart]))
  }

  // ----- counters

  function Open(procs: seq<Op>): nat {
    if procs == [] then 0 else Open(procs[..|procs| - 1]) + (if procs[|procs| - 1].InOp? then 1 else 0)
  }

  lemma {:induction false} OpenUpdate(procs: seq<Op>, p: nat, o: Op)
    requires p < |procs|
    ensures Open(procs[p := o]) ==
            Open(procs) - (if procs[p].InOp? then 1 else 0) + (if o.InOp? then 1 else 0)
  {
    var n := |procs| - 1;
    if p == n {
      assert procs[p := o][..n] == procs[..n];
    } else {
      OpenUpdate(procs[..n], p, o);
      assert procs[p := o][..n] == procs[..n][p := o];
    }
  }

  lemma {:induction false} OpenZero(procs: seq<Op>)
    ensures Open(procs) == 0 <==> forall p :: 0 <= p < |procs| ==> procs[p].NoOp?
  {
    if procs != [] {
      OpenZero(procs[..|procs| - 1]);
      assert forall p :: 0 <= p < |procs| - 1 ==> procs[p] == procs[..|procs| - 1][p];
    }
  }

  ghost predicate Counters(s: State) {
    && s.outstanding == Open(s.procs)
    && (s.committing <==> s.phase.LogCopy? || s.phase.Install? || s.phase.Finishing?)
    && (!s.phase.Running? ==> s.outstanding == 0)
    && (s.phase.LogCopy? || s.phase.Install? || s.phase.RecInstall? ==> s.phase.tail <= |s.lh|)
    && (s.phase.Finishing? || s.phase.Booting? ==> s.lh == [])
    && (s.phase.Running? && s.outstanding == 0 ==> s.lh == [])
  }

  /** Whatever is running finds committing clear, so end_op cannot panic. */
  lemma OpenMeansRunning(s: State, p: nat)
    requires Counters(s) && p < |s.procs| && s.procs[p].InOp?
    ensures s.phase.Running? && !s.committing && s.outstanding >= 1
  {
    OpenZero(s.procs);
  }

  lemma CountersKept(c: Config, s: State, st: Step)
    requires ValidConfig(c) && Sizes(c, s) && Counters(s) && Enabled(c, s, st)
    ensures Counters(Next(c, s, st))
  {
    hide ValidConfig, Sizes, Open, WriteHeader, ReadHeader, Home;
    OpenZero(Crashed(s).procs);
    match st
    case BeginOp(p) => OpenUpdate(s.procs, p, InOp(s.nextOp, 0));
    case LogWrite(p, b, d) =>
      OpenMeansRunning(s, p);
      OpenUpdate(s.procs, p, s.procs[p].(added := s.procs[p].added + 1));
    case EndOp(p) =>
      OpenMeansRunning(s, p);
      OpenUpdate(s.procs, p, NoOp);
    case _ =>
  }

  // ----- sizes

  lemma SizesKept(c: Config, s: State, st: Step)
    requires ValidConfig(c) && Sizes(c, s) && Counters(s) && Enabled(c, s, st)
    ensures Sizes(c, Next(c, s, st))
  {
    hide ReadHeader;
    match st
    case LogWrite(p, b, d) =>
      if !LogWritePanics(c, s) {
        LegalAppend(c, s.lh, b);
      }
    case ReadHead =>
    case CopyBlock =>
    case InstallBlock => HomeIsNotLog(c, s, s.lh[s.phase.tail]);
    case RecInstallBlock => HomeIsNotLog(c, s, s.lh[s.phase.tail]);
    case _ =>
  }

  lemma HomeIsNotLog(c: Config, s: State, b: int)
    requires ValidConfig(c) && Sizes(c, s) && Home(c, b)
    ensures b != c.logStart
  {
  }

  lemma LegalAppend(c: Config, lh: seq<int>, b: int)
    requires LegalHeader(c, lh) && |lh| < c.logSize && |lh| < c.nlog - 1 && Home(c, b)
    ensures b !in lh ==> LegalHeader(c, lh + [b])
  {
  }

  // ----- contents

  /** The committed contents: the image with every committed transaction applied. */
  function Committed(c: Config, s: State): (d: seq<Data>)
    ensures |d| == |c.image|
  {
    Apply(c.image, Flat(s.journal))
  }

  ghost predicate SameHome(c: Config, d: seq<Data>, e: seq<Data>) {
    |d| == |c.image| == |e| && forall b :: Home(c, b) ==> d[b] == e[b]
  }

  /** Crash atomicity for one disk: recovery would leave exactly the contents d. */
  ghost predicate RecoversTo(c: Config, disk: seq<Data>, d: seq<Data>)
    requires c.logStart + c.nlog <= |c.image| && c.nlog >= 1 && |disk| == |c.image| == |d|
  {
    forall b :: Home(c, b) ==> RecoveredAt(c, disk, b) == d[b]
  }

  /** The first n log blocks hold the contents of the first n logged blocks. */
  ghost predicate Logged(c: Config, disk: seq<Data>, view: seq<Data>, lh: seq<int>, n: nat) {
    && LegalHeader(c, lh) && n <= |lh| && |disk| == |c.image| == |view| && c.logStart + c.nlog <= |c.image|
    && forall i :: 0 <= i < n ==> disk[c.logStart + 1 + i] == view[lh[i]]
  }

  /** The first n logged blocks have reached their home locations. */
  ghost predicate Installed(c: Config, disk: seq<Data>, view: seq<Data>, lh: seq<int>, n: nat) {
    && LegalHeader(c, lh) && n <= |lh| && |disk| == |c.image| == |view|
    && forall i :: 0 <= i < n ==> disk[lh[i]] == view[lh[i]]
  }

  /** Only logged blocks can differ between the disk and what is read. */
  ghost predicate CleanElsewhere(c: Config, disk: seq<Data>, view: seq<Data>, lh: seq<int>) {
    |disk| == |c.image| == |view| && forall b :: Home(c, b) && b !in lh ==> disk[b] == view[b]
  }

  ghost predicate Content(c: Config, s: State) {
    && ValidConfig(c) && Sizes(c, s) && Counters(s)
    && RecoversTo(c, s.disk, Committed(c, s))
    && SameHome(c, s.view,
                if s.phase.Booting? || s.phase.RecInstall? then s.disk else Apply(Committed(c, s), s.current))
    && CleanElsewhere(c, s.disk, s.view, s.lh)
    && (forall i :: 0 <= i < |s.current| ==> s.current[i].block in s.lh)
    && (!s.phase.Running? && !s.phase.LogCopy? ==> s.current == [])
    && var h := ReadHeader(s.disk[c.logStart]);
       match s.phase
       case Running => h == []
       case LogCopy(t) => h == [] && Logged(c, s.disk, s.view, s.lh, t)
       case Install(t) => h == s.lh && Logged(c, s.disk, s.view, s.lh, |s.lh|) && Installed(c, s.disk, s.view, s.lh, t)
       case Finishing => h == []
       case Booting => true
       case RecInstall(t) => h == s.lh && Logged(c, s.disk, s.view, s.lh, t)
  }

  lemma {:induction false} ApplyAppend(d: seq<Data>, a: seq<Write>, b: seq<Write>)
    ensures Apply(d, a + b) == Apply(Apply(d, a), b)
  {
    if b == [] {
      assert a + b == a;
    } else {
      var n := |b| - 1;
      ApplyAppend(d, a, b[..n]);
      assert (a + b)[..|a + b| - 1] == a + b[..n];
    }
  }

  lemma CommitPoint(c: Config, s: State)
    ensures Apply(c.image, Flat(s.journal + [s.current])) == Apply(Committed(c, s), s.current)
  {
    assert (s.journal + [s.current])[..|s.journal|] == s.journal;
    ApplyAppend(c.image, Flat(s.journal), s.current);
  }

  lemma {:induction false} IndexUnique(lh: seq<int>, i: nat)
    requires Distinct(lh) && i < |lh|
    ensures IndexOf(lh, lh[i]) == i
  {
  }

  lemma ContentLogWrite(c: Config, s: State, p: nat, b: int, d: Data)
    requires Content(c, s) && Enabled(c, s, LogWrite(p, b, d)) && !LogWritePanics(c, s)
    ensures Content(c, AfterLogWrite(c, s, p, b, d))
  {
    hide RecoveredAt, ReadHeader, LegalHeader, Flat, RecoversTo, WellSized;
    var s' := AfterLogWrite(c, s, p, b, d);
    OpenMeansRunning(s, p);
    SizesKept(c, s, LogWrite(p, b, d));
    CountersKept(c, s, LogWrite(p, b, d));
    assert s'.current[..|s.current|] == s.current;
    assert Apply(Committed(c, s), s'.current) == Apply(Committed(c, s), s.current)[b := d];
  }

  lemma ContentCopyBlock(c: Config, s: State)
    requires Content(c, s) && Enabled(c, s, CopyBlock)
    ensures Content(c, Next(c, s, CopyBlock))
  {
    hide Apply, Flat, ReadHeader;
    SizesKept(c, s, CopyBlock);
    CountersKept(c, s, CopyBlock);
    var s' := Next(c, s, CopyBlock);
    assert s'.disk[c.logStart] == s.disk[c.logStart];
    forall b | Home(c, b) ensures s'.disk[b] == s.disk[b] && RecoveredAt(c, s'.disk, b) == RecoveredAt(c, s.disk, b) {
    }
  }

  /** The commit point: writing the header turns the whole current transaction
      from absent to durable. */
  lemma ContentWriteHead(c: Config, s: State)
    requires Content(c, s) && Enabled(c, s, WriteHead)
    ensures Content(c, Next(c, s, WriteHead))
  {
    hide Apply, Flat, ReadHeader, RecoveredAt, WriteHeader;
    SizesKept(c, s, WriteHead);
    CountersKept(c, s, WriteHead);
    CommitPoint(c, s);
    var s' := Next(c, s, WriteHead);
    assert ReadHeader(s'.disk[c.logStart]) == s.lh;
    assert Apply(Committed(c, s'), []) == Committed(c, s') == Apply(Committed(c, s), s.current) by {
      ApplyNil(Committed(c, s'));
    }
    forall b | Home(c, b) ensures s'.disk[b] == s.disk[b] && RecoveredAt(c, s'.disk, b) == s.view[b] {
      HeaderCommits(c, s.disk, s.view, s.lh, b);
    }
  }

  lemma HeaderCommits(c: Config, disk: seq<Data>, view: seq<Data>, lh: seq<int>, b: int)
    requires ValidConfig(c) && WellSized(c, disk) && Home(c, b)
    requires Logged(c, disk, view, lh, |lh|) && CleanElsewhere(c, disk, view, lh)
    ensures RecoveredAt(c, disk[c.logStart := WriteHeader(disk[c.logStart], lh)], b) == view[b]
  {
    hide ReadHeader;
    if b in lh {
      var i := IndexOf(lh, b);
      assert disk[c.logStart + 1 + i] == view[lh[i]];
    }
  }

  lemma ApplyNil(d: seq<Data>)
    ensures Apply(d, []) == d
  {
  }

  /** Installing one logged block changes nothing that recovery would not change anyway. */
  lemma InstallIdempotent(c: Config, disk: seq<Data>, lh: seq<int>, t: nat, b: int)
    requires ValidConfig(c) && WellSized(c, disk) && LegalHeader(c, lh) && t < |lh| && Home(c, b)
    requires ReadHeader(disk[c.logStart]) == lh
    ensures RecoveredAt(c, disk[lh[t] := disk[c.logStart + 1 + t]], b) == RecoveredAt(c, disk, b)
  {
    hide ReadHeader;
    IndexUnique(lh, t);
    assert lh[t] != c.logStart;
    if b in lh {
      assert c.logStart + 1 + IndexOf(lh, b) != lh[t];
    }
  }

  lemma ContentInstallBlock(c: Config, s: State)
    requires Content(c, s) && Enabled(c, s, InstallBlock)
    ensures Content(c, Next(c, s, InstallBlock))
  {
    hide Apply, Flat, ReadHeader, RecoveredAt, Distinct, Logged, Installed, CleanElsewhere;
    SizesKept(c, s, InstallBlock);
    CountersKept(c, s, InstallBlock);
    InstallEffect(c, s);
    var s', t := Next(c, s, InstallBlock), s.phase.tail;
    forall b | Home(c, b) ensures RecoveredAt(c, s'.disk, b) == Committed(c, s)[b] {
      InstallIdempotent(c, s.disk, s.lh, t, b);
    }
  }

  /** Installing a block leaves the log as it is and changes nothing that is read. */
  lemma InstallEffect(c: Config, s: State)
    requires Content(c, s) && Enabled(c, s, InstallBlock)
    ensures var s', t := Next(c, s, InstallBlock), s.phase.tail;
            && s'.view == s.view && s'.disk[c.logStart] == s.disk[c.logStart]
            && Logged(c, s'.disk, s.view, s.lh, |s.lh|) && Installed(c, s'.disk, s.view, s.lh, t + 1)
            && CleanElsewhere(c, s'.disk, s.view, s.lh)
  {
    hide Apply, Flat, ReadHeader, RecoveredAt, RecoversTo, Counters;
    var t := s.phase.tail;
    assert s.disk[c.logStart + 1 + t] == s.view[s.lh[t]] && Home(c, s.lh[t]);
  }

  lemma ContentRecInstallBlock(c: Config, s: State)
    requires Content(c, s) && Enabled(c, s, RecInstallBlock)
    ensures Content(c, Next(c, s, RecInstallBlock))
  {
    hide Apply, Flat, ReadHeader, RecoveredAt;
    SizesKept(c, s, RecInstallBlock);
    CountersKept(c, s, RecInstallBlock);
    var s', t := Next(c, s, RecInstallBlock), s.phase.tail;
    assert Home(c, s.lh[t]);
    assert s'.disk[c.logStart] == s.disk[c.logStart];
    forall b | Home(c, b) ensures RecoveredAt(c, s'.disk, b) == Committed(c, s)[b] {
      InstallIdempotent(c, s.disk, s.lh, t, b);
    }
    assert forall i :: 0 <= i < t ==> s.lh[i] != s.lh[t];
  }

  /** With every logged block home, erasing the header leaves recovery nothing to do. */
  lemma ClearIdempotent(c: Config, disk: seq<Data>, view: seq<Data>, lh: seq<int>, b: int)
    requires ValidConfig(c) && WellSized(c, disk) && LegalHeader(c, lh) && Home(c, b)
    requires ReadHeader(disk[c.logStart]) == lh
    requires Logged(c, disk, view, lh, |lh|) && Installed(c, disk, view, lh, |lh|)
    ensures RecoveredAt(c, disk[c.logStart := WriteHeader(disk[c.logStart], [])], b) == RecoveredAt(c, disk, b) ==
            disk[b]
  {
    hide ReadHeader;
    if b in lh {
      var i := IndexOf(lh, b);
      assert disk[c.logStart + 1 + i] == view[lh[i]] == disk[lh[i]];
    }
  }

  lemma ContentClearHead(c: Config, s: State)
    requires Content(c, s) && Enabled(c, s, ClearHead)
    ensures Content(c, Next(c, s, ClearHead))
  {
    hide Apply, Flat, ReadHeader, RecoveredAt, WriteHeader;
    SizesKept(c, s, ClearHead);
    CountersKept(c, s, ClearHead);
    var s' := Next(c, s, ClearHead);
    forall b | Home(c, b) ensures RecoveredAt(c, s'.disk, b) == Committed(c, s)[b] && s'.disk[b] == s.view[b] {
      ClearIdempotent(c, s.disk, s.view, s.lh, b);
      if b in s.lh {
        var i := IndexOf(s.lh, b);
        assert s.disk[s.lh[i]] == s.view[s.lh[i]];
      }
    }
  }

  lemma ContentRecClearHead(c: Config, s: State)
    requires Content(c, s) && Enabled(c, s, RecClearHead)
    ensures Content(c, Next(c, s, RecClearHead))
  {
    hide Flat, ReadHeader, RecoveredAt, WriteHeader;
    SizesKept(c, s, RecClearHead);
    CountersKept(c, s, RecClearHead);
    var s' := Next(c, s, RecClearHead);
    assert forall i :: 0 <= i < |s.lh| ==> Home(c, s.lh[i]);
    forall b | Home(c, b) ensures RecoveredAt(c, s'.disk, b) == Committed(c, s)[b] == s'.disk[b] {
      ClearIdempotent(c, s.disk, s.view, s.lh, b);
    }
    ApplyNil(Committed(c, s'));
  }

  lemma Covered(ws: seq<Write>, lh: seq<int>)
    requires forall i :: 0 <= i < |ws| ==> ws[i].block in lh
    ensures lh == [] ==> ws == []
  {
    if |ws| > 0 {
      assert ws[0].block in lh;
    }
  }

  lemma ContentOther(c: Config, s: State, st: Step)
    requires Content(c, s) && Enabled(c, s, st) && (st.BeginOp? || st.EndOp? || st.Finish? || st.ReadHead?)
    ensures Content(c, Next(c, s, st))
  {
    hide Apply, Flat, ReadHeader, RecoveredAt;
    SizesKept(c, s, st);
    CountersKept(c, s, st);
    if st.EndOp? {
      OpenMeansRunning(s, st.p);
      Covered(s.current, s.lh);
    }
  }

  lemma ContentCrash(c: Config, s: State)
    requires Content(c, s)
    ensures Content(c, Crashed(s))
  {
    hide Apply, Flat, ReadHeader, RecoveredAt;
    SizesKept(c, s, Crash);
    CountersKept(c, s, Crash);
  }

  lemma ContentKept(c: Config, s: State, st: Step)
    requires Content(c, s) && Enabled(c, s, st)
    ensures Content(c, Next(c, s, st))
  {
    hide Content;
    assert ValidConfig(c) && Sizes(c, s) && Counters(s) by {
      ContentParts(c, s);
    }
    match st
    case LogWrite(p, b, d) =>
      if LogWritePanics(c, s) {
        ContentCrash(c, s);
      } else {
        ContentLogWrite(c, s, p, b, d);
      }
    case CopyBlock => ContentCopyBlock(c, s);
    case WriteHead => ContentWriteHead(c, s);
    case InstallBlock => ContentInstallBlock(c, s);
    case ClearHead => ContentClearHead(c, s);
    case RecInstallBlock => ContentRecInstallBlock(c, s);
    case RecClearHead => ContentRecClearHead(c, s);
    case Crash => ContentCrash(c, s);
    case _ => ContentOther(c, s, st);
  }

  lemma ContentParts(c: Config, s: State)
    requires Content(c, s)
    ensures ValidConfig(c) && Sizes(c, s) && Counters(s)
  {
  }

  // ----- an operation's writes are all there or all absent

  ghost predicate AllOrNothing(s: State) {
    && (forall id: nat :: s.base <= id ==>
          OfOp(Flat(s.journal), id) == [] && OfOp(s.current, id) == OfOp(s.history, id))
    && (forall id: nat :: id < s.base ==>
          OfOp(Flat(s.journal), id) == [] || OfOp(Flat(s.journal), id) == OfOp(s.history, id))
  }

  /** Operation ids are used once, and belong to the transaction they were begun in. */
  ghost predicate Ids(s: State) {
    && s.base <= s.nextOp
    && (forall i :: 0 <= i < |s.history| ==> s.history[i].op < s.nextOp)
    && (forall i :: 0 <= i < |s.current| ==> s.base <= s.current[i].op)
    && (forall p :: 0 <= p < |s.procs| && s.procs[p].InOp? ==> s.base <= s.procs[p].id < s.nextOp)
    && (forall p, q :: 0 <= p < q < |s.procs| && s.procs[p].InOp? && s.procs[q].InOp? ==>
          s.procs[p].id != s.procs[q].id)
  }

  lemma {:induction false} OfOpAppend(a: seq<Write>, b: seq<Write>, id: nat)
    ensures OfOp(a + b, id) == OfOp(a, id) + OfOp(b, id)
  {
    if b == [] {
      assert a + b == a;
    } else {
      var n := |b| - 1;
      OfOpAppend(a, b[..n], id);
      assert (a + b)[..|a + b| - 1] == a + b[..n];
    }
  }

  lemma {:induction false} OfOpNone(ws: seq<Write>, id: nat)
    requires forall i :: 0 <= i < |ws| ==> ws[i].op != id
    ensures OfOp(ws, id) == []
  {
    if ws != [] {
      OfOpNone(ws[..|ws| - 1], id);
    }
  }

  lemma IdsKept(c: Config, s: State, st: Step)
    requires ValidConfig(c) && Sizes(c, s) && Counters(s) && Enabled(c, s, st) && Ids(s)
    ensures Ids(Next(c, s, st))
  {
    hide Sizes, ValidConfig, WriteHeader, ReadHeader, Home, Open;
    if st.WriteHead? {
      OpenZero(s.procs);
    }
  }

  lemma AllOrNothingLogWrite(c: Config, s: State, p: nat, b: int, d: Data)
    requires Sizes(c, s) && Enabled(c, s, LogWrite(p, b, d)) && Ids(s) && AllOrNothing(s)
    ensures AllOrNothing(AfterLogWrite(c, s, p, b, d))
  {
    hide Flat, OfOp;
    var w := Write(s.procs[p].id, b, d);
    forall id: nat ensures OfOp(s.current + [w], id) == OfOp(s.current, id) + OfOp([w], id)
                        && OfOp(s.history + [w], id) == OfOp(s.history, id) + OfOp([w], id)
                        && (id < s.base ==> OfOp([w], id) == []) {
      OfOpAppend(s.current, [w], id);
      OfOpAppend(s.history, [w], id);
      if id < s.base {
        OfOpNone([w], id);
      }
    }
    var s' := AfterLogWrite(c, s, p, b, d);
    forall id: nat | id < s.base
      ensures OfOp(Flat(s.journal), id) == [] || OfOp(Flat(s.journal), id) == OfOp(s'.history, id) {
      assert OfOp(s'.history, id) == OfOp(s.history, id);
    }
  }

  lemma AllOrNothingWriteHead(c: Config, s: State)
    requires ValidConfig(c) && Sizes(c, s) && Enabled(c, s, WriteHead) && Ids(s) && AllOrNothing(s)
    ensures AllOrNothing(Next(c, s, WriteHead))
  {
    hide Flat, OfOp, Sizes, ValidConfig, WriteHeader;
    var s' := Next(c, s, WriteHead);
    FlatAppend(s.journal, s.current);
    forall id: nat ensures OfOp(Flat(s'.journal), id) == OfOp(Flat(s.journal), id) + OfOp(s.current, id)
                        && (id < s.base ==> OfOp(s.current, id) == [])
                        && (id >= s.nextOp ==> OfOp(s.history, id) == [])
                        && OfOp([], id) == [] {
      OfOpAppend(Flat(s.journal), s.current, id);
      OfOpNone([], id);
      if id < s.base {
        OfOpNone(s.current, id);
      }
      if id >= s.nextOp {
        OfOpNone(s.history, id);
      }
    }
  }

  lemma FlatAppend(js: seq<Txn>, t: Txn)
    ensures Flat(js + [t]) == Flat(js) + t
  {
    assert (js + [t])[..|js|] == js;
  }

  lemma AllOrNothingCrash(s: State)
    requires Ids(s) && AllOrNothing(s)
    ensures AllOrNothing(Crashed(s))
  {
    hide Flat, OfOp;
    forall id: nat ensures (id >= s.nextOp ==> OfOp(s.history, id) == []) && OfOp([], id) == [] {
      OfOpNone([], id);
      if id >= s.nextOp {
        OfOpNone(s.history, id);
      }
    }
  }

  lemma AllOrNothingKept(c: Config, s: State, st: Step)
    requires ValidConfig(c) && Sizes(c, s) && Enabled(c, s, st) && Ids(s) && AllOrNothing(s)
    ensures AllOrNothing(Next(c, s, st))
  {
    hide Flat, OfOp, Sizes, ValidConfig, WriteHeader, Ids;
    match st
    case LogWrite(p, b, d) =>
      if LogWritePanics(c, s) {
        AllOrNothingCrash(s);
      } else {
        AllOrNothingLogWrite(c, s, p, b, d);
      }
    case WriteHead => AllOrNothingWriteHead(c, s);
    case Crash => AllOrNothingCrash(s);
    case EndOp(p) =>
      if s.committing {
        AllOrNothingCrash(s);
      }
    case _ =>
  }

  // ----- whole runs

  ghost predicate Inv(c: Config, s: State) {
    Content(c, s) && Ids(s) && AllOrNothing(s)
  }

  lemma InvInit(c: Config, nproc: nat)
    requires ValidConfig(c)
    ensures Inv(c, Init(c, nproc))
  {
    var s := Init(c, nproc);
    OpenZero(s.procs);
    ApplyNil(c.image);
  }

  lemma InvKept(c: Config, s: State, st: Step)
    requires Inv(c, s) && Enabled(c, s, st)
    ensures Sizes(c, s) && Inv(c, Next(c, s, st))
  {
    hide Content, Ids, AllOrNothing, Sizes, Counters, ValidConfig;
    ContentParts(c, s);
    ContentKept(c, s, st);
    IdsKept(c, s, st);
    AllOrNothingKept(c, s, st);
  }

  /** ss is a run of the machine by the steps sts, from a freshly made disk. */
  ghost predicate IsRun(c: Config, nproc: nat, ss: seq<State>, sts: seq<Step>) {
    && |ss| == |sts| + 1 && ss[0] == Init(c, nproc)
    && forall i :: 0 <= i < |sts| ==> IsStep(c, ss[i], sts[i], ss[i + 1])
  }

  /** Sizes always holds along a run (see RunInv); it is here so that Next is defined. */
  ghost predicate IsStep(c: Config, s: State, st: Step, s': State) {
    ValidConfig(c) && Sizes(c, s) && Enabled(c, s, st) && s' == Next(c, s, st)
  }

  lemma {:induction false} RunInv(c: Config, nproc: nat, ss: seq<State>, sts: seq<Step>)
    requires ValidConfig(c) && IsRun(c, nproc, ss, sts)
    ensures Inv(c, ss[|sts|])
    decreases |sts|
  {
    hide Inv, ValidConfig, Next, Enabled, Sizes;
    if sts == [] {
      InvInit(c, nproc);
    } else {
      var n := |sts| - 1;
      assert forall i :: 0 <= i < n ==> IsStep(c, ss[..n + 1][i], sts[..n][i], ss[..n + 1][i + 1]);
      RunInv(c, nproc, ss[..n + 1], sts[..n]);
      assert IsStep(c, ss[n], sts[n], ss[n + 1]);
      InvKept(c, ss[n], sts[n]);
    }
  }

  /** Crash atomicity. After any run whatsoever, with any number of crashes in
      it, recovery from the disk as it stands yields the initial image with a
      sequence of whole transactions applied, and of every operation ever begun
      either all writes are in it or none. */
  lemma CrashAtomicity(c: Config, nproc: nat, ss: seq<State>, sts: seq<Step>)
    requires ValidConfig(c) && IsRun(c, nproc, ss, sts)
    ensures var s := ss[|sts|];
            && WellSized(c, s.disk)
            && (forall b :: Home(c, b) ==> RecoveredAt(c, s.disk, b) == Apply(c.image, Flat(s.journal))[b])
            && (forall id: nat :: OfOp(Flat(s.journal), id) == [] || OfOp(Flat(s.journal), id) == OfOp(s.history, id))
  {
    hide Apply, Flat, OfOp, RecoveredAt, ReadHeader;
    RunInv(c, nproc, ss, sts);
  }

  /** Committed transactions stay committed, in their order. */
  lemma {:induction false} JournalGrows(c: Config, nproc: nat, ss: seq<State>, sts: seq<Step>, i: nat, j: nat)
    requires IsRun(c, nproc, ss, sts) && i <= j < |ss|
    ensures ss[i].journal <= ss[j].journal
    decreases j - i
  {
    hide IsStep;
    if i < j {
      JournalGrows(c, nproc, ss, sts, i, j - 1);
      assert IsStep(c, ss[j - 1], sts[j - 1], ss[j]);
      StepGrows(c, ss[j - 1], sts[j - 1], ss[j]);
    }
  }

  lemma StepGrows(c: Config, s: State, st: Step, s': State)
    requires IsStep(c, s, st, s')
    ensures s.journal <= s'.journal
  {
    hide ValidConfig, Sizes, WriteHeader, ReadHeader;
  }

  /** Whenever no operation is open and no commit or recovery is under way,
      everything logged so far is committed and home: what is read, what is on
      the disk and what recovery would produce are the same. */
  lemma QuiescentIsDurable(c: Config, nproc: nat, ss: seq<State>, sts: seq<Step>, b: int)
    requires ValidConfig(c) && IsRun(c, nproc, ss, sts) && Home(c, b)
    requires ss[|sts|].phase.Running? && ss[|sts|].outstanding == 0
    ensures var s := ss[|sts|];
            && s.current == [] && WellSized(c, s.disk) && WellSized(c, s.view)
            && s.view[b] == s.disk[b] == RecoveredAt(c, s.disk, b) == Apply(c.image, Flat(s.journal))[b]
  {
    hide Flat, ReadHeader;
    RunInv(c, nproc, ss, sts);
    var s := ss[|sts|];
    Covered(s.current, s.lh);
    ApplyNil(Committed(c, s));
  }

  // ----- log space

  /** Blocks still promised to an operation, and to all open operations. */
  function Promise(c: Config, o: Op): nat {
    if o.InOp? && o.added < c.maxOp then c.maxOp - o.added else 0
  }

  function Unused(c: Config, procs: seq<Op>): nat {
    if procs == [] then 0 else Unused(c, procs[..|procs| - 1]) + Promise(c, procs[|procs| - 1])
  }

  lemma {:induction false} UnusedUpdate(c: Config, procs: seq<Op>, p: nat, o: Op)
    requires p < |procs|
    ensures Unused(c, procs[p := o]) == Unused(c, procs) - Promise(c, procs[p]) + Promise(c, o)
    ensures Promise(c, procs[p]) <= Unused(c, procs)
  {
    var n := |procs| - 1;
    if p == n {
      assert procs[p := o][..n] == procs[..n];
    } else {
      UnusedUpdate(c, procs[..n], p, o);
      assert procs[p := o][..n] == procs[..n][p := o];
    }
  }

  lemma {:induction false} UnusedBound(c: Config, procs: seq<Op>)
    ensures Unused(c, procs) <= Open(procs) * c.maxOp
  {
    if procs != [] {
      var rest, o := procs[..|procs| - 1], procs[|procs| - 1];
      UnusedBound(c, rest);
      assert (Open(rest) + 1) * c.maxOp == Open(rest) * c.maxOp + c.maxOp;
      assert Open(procs) == if o.InOp? then Open(rest) + 1 else Open(rest);
    }
  }

  /** Used plus promised log blocks fit the log. */
  ghost predicate Reserved(c: Config, s: State) {
    |s.lh| + Unused(c, s.procs) <= c.logSize && forall p :: 0 <= p < |s.procs| ==> Kept(c, s.procs[p])
  }

  predicate Kept(c: Config, o: Op) {
    o.InOp? ==> o.added <= c.maxOp
  }

  /** The promise made to log_write: an operation adds at most MAXOPBLOCKS blocks.
      It may log what the log already holds as often as it likes. */
  predicate Obedient(c: Config, s: State, st: Step) {
    st.LogWrite? && st.p < |s.procs| && s.procs[st.p].InOp? ==> s.procs[st.p].added < c.maxOp || st.block in s.lh
  }

  lemma ReservedBegin(c: Config, s: State, p: nat)
    requires Counters(s) && p < |s.procs| && s.procs[p].NoOp?
    requires |s.lh| + (s.outstanding + 1) * c.maxOp <= c.logSize
    ensures |s.lh| + Unused(c, s.procs[p := InOp(s.nextOp, 0)]) <= c.logSize
  {
    UnusedBound(c, s.procs);
    UnusedUpdate(c, s.procs, p, InOp(s.nextOp, 0));
    assert (s.outstanding + 1) * c.maxOp == Open(s.procs) * c.maxOp + c.maxOp;
  }

  lemma UnusedNone(c: Config, procs: seq<Op>)
    requires Open(procs) == 0
    ensures Unused(c, procs) == 0
  {
    UnusedBound(c, procs);
  }

  lemma ReservedKept(c: Config, s: State, st: Step)
    requires ValidConfig(c) && Sizes(c, s) && Counters(s) && Enabled(c, s, st) && Reserved(c, s) && Obedient(c, s, st)
    ensures Reserved(c, Next(c, s, st))
  {
    hide ReadHeader, Distinct, WriteHeader, Unused, Open, WellSized, ValidConfig;
    OpenZero(Crashed(s).procs);
    UnusedNone(c, Crashed(s).procs);
    match st
    case BeginOp(p) => ReservedBegin(c, s, p);
    case LogWrite(p, b, d) =>
      UnusedUpdate(c, s.procs, p, s.procs[p].(added := s.procs[p].added + 1));
    case EndOp(p) => UnusedUpdate(c, s.procs, p, NoOp);
    case ReadHead => UnusedNone(c, s.procs);
    case _ =>
  }

  lemma {:induction false} RunReserved(c: Config, nproc: nat, ss: seq<State>, sts: seq<Step>)
    requires ValidConfig(c) && IsRun(c, nproc, ss, sts)
    requires forall i :: 0 <= i < |sts| ==> Obedient(c, ss[i], sts[i])
    ensures Reserved(c, ss[|sts|]) && Counters(ss[|sts|])
    decreases |sts|
  {
    RunInv(c, nproc, ss, sts);
    hide Inv, Content, ValidConfig, Next, Enabled, Sizes, Obedient;
    if sts == [] {
      UnusedBound(c, ss[0].procs);
      OpenZero(ss[0].procs);
    } else {
      var n := |sts| - 1;
      var ts, us := ss[..n + 1], sts[..n];
      assert forall i :: 0 <= i < n ==> ts[i] == ss[i] && us[i] == sts[i] && IsStep(c, ts[i], us[i], ts[i + 1]);
      RunReserved(c, nproc, ts, us);
      assert IsStep(c, ss[n], sts[n], ss[n + 1]);
      ReservedKept(c, ss[n], sts[n]);
    }
  }

  /** Log space. In every run whose operations keep their promise, with a log
      region of at least LOGSIZE + 1 blocks, an open operation that has added
      fewer than MAXOPBLOCKS blocks can log another without a panic, and
      end_op's panic is unreachable too. */
  lemma NoLogPanic(c: Config, nproc: nat, ss: seq<State>, sts: seq<Step>, p: nat)
    requires ValidConfig(c) && c.nlog >= c.logSize + 1 && IsRun(c, nproc, ss, sts)
    requires forall i :: 0 <= i < |sts| ==> Obedient(c, ss[i], sts[i])
    requires p < |ss[|sts|].procs| && ss[|sts|].procs[p].InOp?
    ensures !ss[|sts|].committing
    ensures ss[|sts|].procs[p].added < c.maxOp ==> !LogWritePanics(c, ss[|sts|])
  {
    PanicsExactlyWhenFull(c, nproc, ss, sts, p);
  }

  /** The exact condition: log_write of an open operation panics if and only if
      the log is full, even for a block that the log already holds; and then
      every open operation has added MAXOPBLOCKS blocks. */
  lemma PanicsExactlyWhenFull(c: Config, nproc: nat, ss: seq<State>, sts: seq<Step>, p: nat)
    requires ValidConfig(c) && c.nlog >= c.logSize + 1 && IsRun(c, nproc, ss, sts)
    requires forall i :: 0 <= i < |sts| ==> Obedient(c, ss[i], sts[i])
    requires p < |ss[|sts|].procs| && ss[|sts|].procs[p].InOp?
    ensures !ss[|sts|].committing
    ensures LogWritePanics(c, ss[|sts|]) <==> |ss[|sts|].lh| >= c.logSize
    ensures LogWritePanics(c, ss[|sts|]) ==>
              |ss[|sts|].lh| == c.logSize &&
              forall q :: 0 <= q < |ss[|sts|].procs| && ss[|sts|].procs[q].InOp? ==> ss[|sts|].procs[q].added == c.maxOp
  {
    hide ValidConfig;
    RunReserved(c, nproc, ss, sts);
    var s := ss[|sts|];
    OpenMeansRunning(s, p);
    forall q | 0 <= q < |s.procs| && s.procs[q].InOp? && |s.lh| >= c.logSize ensures s.procs[q].added == c.maxOp {
      UnusedUpdate(c, s.procs, q, NoOp);
      assert Kept(c, s.procs[q]);
    }
  }

  // ----- the corner of log_write's test order, on the smallest disk that has it

  function CornerConfig(): Config {
    Config(0, 3, 2, 1, 3, seq(5, _ => [0, 0, 0]))
  }

  /** Two operations, each of which may add one block. The first logs block 3
      twice; the second fills the log with block 4. */
  function CornerSteps(): seq<Step> {
    var d := [7, 7, 7];
    [BeginOp(0), BeginOp(1), LogWrite(0, 3, d), LogWrite(0, 3, d), LogWrite(1, 4, d)]
  }

  function CornerStates(): seq<State> {
    var image, d := CornerConfig().image, [7, 7, 7];
    var w, v := Write(0, 3, d), Write(1, 4, d);
    var s0 := Init(CornerConfig(), 2);
    var s1 := s0.(procs := [InOp(0, 0), NoOp], outstanding := 1, nextOp := 1);
    var s2 := s1.(procs := [InOp(0, 0), InOp(1, 0)], outstanding := 2, nextOp := 2);
    var s3 := s2.(view := image[3 := d], current := [w], history := [w], lh := [3], procs := [InOp(0, 1), InOp(1, 0)]);
    var s4 := s3.(current := [w, w], history := [w, w]);
    var s5 := s4.(view := image[3 := d][4 := d], current := [w, w, v], history := [w, w, v], lh := [3, 4],
                  procs := [InOp(0, 1), InOp(1, 1)]);
    [s0, s1, s2, s3, s4, s5]
  }

  lemma CornerIsRun()
    ensures ValidConfig(CornerConfig()) && CornerConfig().nlog >= CornerConfig().logSize + 1
    ensures IsRun(CornerConfig(), 2, CornerStates(), CornerSteps())
    ensures forall i :: 0 <= i < |CornerSteps()| ==> Obedient(CornerConfig(), CornerStates()[i], CornerSteps()[i])
  {
    hide ValidConfig, Sizes;
    var c, ss, sts := CornerConfig(), CornerStates(), CornerSteps();
    CornerSizes();
    assert IsStep(c, ss[0], sts[0], ss[1]);
    assert IsStep(c, ss[1], sts[1], ss[2]);
    assert IsStep(c, ss[2], sts[2], ss[3]);
    assert IsStep(c, ss[3], sts[3], ss[4]);
    assert IsStep(c, ss[4], sts[4], ss[5]);
  }

  lemma CornerSizes()
    ensures ValidConfig(CornerConfig()) && |CornerStates()| == 6
    ensures forall i :: 0 <= i < 6 ==> Sizes(CornerConfig(), CornerStates()[i])
  {
    var c, ss := CornerConfig(), CornerStates();
    assert Sizes(c, ss[0]) && Sizes(c, ss[1]) && Sizes(c, ss[2]);
    assert Sizes(c, ss[3]) && Sizes(c, ss[4]) && Sizes(c, ss[5]);
  }

  /** Both sides of the exact condition are reached by one obedient run, with an
      operation that has added all of its MAXOPBLOCKS blocks and logs one of
      them again: with room in the log it is absorbed, with the log full it
      panics, because the capacity test comes before the absorption scan. */
  lemma AbsorptionCanPanic()
    ensures var c, ss := CornerConfig(), CornerStates();
            && IsRun(c, 2, ss, CornerSteps())
            && ss[3].procs[0] == ss[5].procs[0] == InOp(0, c.maxOp) && 3 in ss[3].lh && 3 in ss[5].lh
            && !LogWritePanics(c, ss[3]) && LogWritePanics(c, ss[5])
  {
    CornerIsRun();
  }
}
