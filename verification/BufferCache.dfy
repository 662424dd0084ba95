/** The buffer cache of kernel/bio.c under the log, for any number of buffers
    and processes, as a machine whose steps are the critical sections of
    bcache.lock and the actions of a buffer's lock holder.

    The machine carries the log's state; every step leaves it alone or takes one
    of the log's own steps, so all results about the log hold of the cache. Who
    holds a sleep lock is recorded by process, not by pid. The contract asked of
    clients is that of the source: change a buffer only inside an operation
    while holding it, and log the change before letting go. */
module BufferCache {
  import opened Common
  import opened WriteAheadLog

  datatype Buf = Buf(dev: nat, block: int, valid: bool, refcnt: int, data: Data, holder: Option<nat>)

  /** users[i] are the processes between bget and the end of brelse on buffer i;
      dirty[i] says that its holder has changed it and not yet logged it. */
  datatype Sys = Sys(log: State, bufs: seq<Buf>, lru: seq<nat>, users: seq<multiset<nat>>, dirty: seq<bool>)

  const FRESH_BUF := Buf(0, 0, false, 0, [], None)

  /** binit pushes each buffer at the front of the list. */
  function BootList(nbuf: nat): seq<nat> {
    if nbuf == 0 then [] else [nbuf - 1] + BootList(nbuf - 1)
  }

  function Boot(log: State, nbuf: nat): Sys {
    Sys(log, seq(nbuf, _ => FRESH_BUF), BootList(nbuf), seq(nbuf, _ => multiset{}), seq(nbuf, _ => false))
  }

  /** The latest contents of a block: as logged for home blocks, as on disk for the log region. */
  function Latest(c: Config, s: State, b: int): Data
    requires 0 <= b < |c.image| == |s.view| == |s.disk|
  {
    if Home(c, b) then s.view[b] else s.disk[b]
  }

  /** Blocks that have been logged and not yet installed; each is pinned once. */
  function Pinned(s: State): seq<int> {
    match s.phase
    case Running => s.lh
    case LogCopy(_) => s.lh
    case Install(t) => if t <= |s.lh| then s.lh[t..] else []
    case _ => []
  }

  // ----- the machine

  datatype CStep =
    | Hit(p: nat, i: nat)                    // bget finds the block
    | Miss(p: nat, b: int, i: nat)           // bget recycles buffer i
    | NoBuffers                              // bget panics
    | Lock(p: nat, i: nat)                   // acquiresleep
    | Fill(p: nat, i: nat)                   // bread's disk read
    | Modify(p: nat, i: nat, data: Data)     // the holder changes the contents
    | LogIt(p: nat, i: nat)                  // log_write, with bpin
    | Unlock(p: nat, i: nat)                 // brelse: releasesleep
    | Drop(p: nat, i: nat)                   // brelse: refcnt and the LRU list
    | Begin(p: nat)
    | End(p: nat)
    | WriteOut(ls: Step, p: nat, i: nat, k: nat) // a disk write of commit or recovery, from buffer i through buffer k
    | Done
    | Fail                                   // a crash
    | Load(p: nat, i: nat)                   // read_head

  /** The log steps that write the disk. */
  predicate Writes(ls: Step) {
    ls.CopyBlock? || ls.WriteHead? || ls.InstallBlock? || ls.ClearHead? || ls.RecInstallBlock? || ls.RecClearHead?
  }

  predicate WritesHeader(ls: Step) {
    ls.WriteHead? || ls.ClearHead? || ls.RecClearHead?
  }

  /** The block such a step writes, and the block it takes the contents from. */
  function Target(c: Config, s: State, ls: Step): int
    requires Writes(ls) && Enabled(c, s, ls)
  {
    if WritesHeader(ls) then c.logStart
    else if ls.CopyBlock? then c.logStart + 1 + s.phase.tail
    else s.lh[s.phase.tail]
  }

  function Source(c: Config, s: State, ls: Step): int
    requires Writes(ls) && Enabled(c, s, ls)
  {
    if WritesHeader(ls) then c.logStart
    else if ls.CopyBlock? then s.lh[s.phase.tail]
    else c.logStart + 1 + s.phase.tail
  }

  /** p holds buffer i, which has the contents of block b. */
  predicate Holds(y: Sys, p: nat, i: nat, b: int) {
    i < |y.bufs| && y.bufs[i].holder == Some(p) && y.bufs[i].dev == 1 && y.bufs[i].valid && y.bufs[i].block == b
  }

  predicate Cached(y: Sys, b: int) {
    exists i :: 0 <= i < |y.bufs| && y.bufs[i].dev == 1 && y.bufs[i].block == b
  }

  /** i is the unused buffer nearest the least recently used end of the list. */
  predicate LeastRecentUnused(y: Sys, i: nat) {
    && i < |y.bufs| && y.bufs[i].refcnt == 0
    && exists k :: 0 <= k < |y.lru| && y.lru[k] == i &&
                   forall m :: k < m < |y.lru| ==> y.lru[m] < |y.bufs| && y.bufs[y.lru[m]].refcnt != 0
  }

  predicate CEnabled(c: Config, y: Sys, st: CStep) {
    match st
    case Hit(p, i) => i < |y.bufs| && y.bufs[i].dev == 1
    case Miss(p, b, i) => 0 <= b < |c.image| && !Cached(y, b) && LeastRecentUnused(y, i)
    case NoBuffers => forall i :: 0 <= i < |y.bufs| ==> y.bufs[i].refcnt != 0
    case Lock(p, i) => i < |y.bufs| && i < |y.users| && p in y.users[i] && y.bufs[i].holder == None
    case Fill(p, i) => i < |y.bufs| && y.bufs[i].holder == Some(p) && y.bufs[i].dev == 1 && !y.bufs[i].valid
    case Modify(p, i, d) =>
      && i < |y.bufs| && Holds(y, p, i, y.bufs[i].block) && Home(c, y.bufs[i].block) && |d| == c.words
      && p < |y.log.procs| && y.log.procs[p].InOp?
    case LogIt(p, i) =>
      && i < |y.bufs| && Holds(y, p, i, y.bufs[i].block)
      && Enabled(c, y.log, LogWrite(p, y.bufs[i].block, y.bufs[i].data))
    case Unlock(p, i) => i < |y.bufs| && i < |y.dirty| && y.bufs[i].holder == Some(p) && !y.dirty[i]
    case Drop(p, i) => i < |y.bufs| && i < |y.users| && p in y.users[i] && y.bufs[i].holder != Some(p)
    case Begin(p) => Enabled(c, y.log, BeginOp(p))
    case End(p) =>
      && Enabled(c, y.log, EndOp(p))
      && forall i :: 0 <= i < |y.bufs| && i < |y.dirty| && y.dirty[i] ==> y.bufs[i].holder != Some(p)
    case WriteOut(ls, p, i, k) =>
      && Writes(ls) && Enabled(c, y.log, ls)
      && Holds(y, p, i, Source(c, y.log, ls)) && Holds(y, p, k, Target(c, y.log, ls))
    case Done => Enabled(c, y.log, Finish)
    case Fail => true
    case Load(p, i) => Enabled(c, y.log, ReadHead) && Holds(y, p, i, c.logStart)
  }

  function ToFront(lru: seq<nat>, i: nat): seq<nat> {
    [i] + Without(lru, i)
  }

  function Without(lru: seq<nat>, i: nat): seq<nat> {
    if lru == [] then [] else (if lru[0] == i then [] else [lru[0]]) + Without(lru[1..], i)
  }

  function PutBuf(y: Sys, i: nat, b: Buf): Sys
    requires i < |y.bufs|
  {
    y.(bufs := y.bufs[i := b])
  }

  /** A crash or a panic: the log keeps its disk, the cache starts over. */
  function Rebooted(y: Sys): Sys {
    Boot(Crashed(y.log), |y.bufs|)
  }

  /** The step's effect in terms of what the code touches: buffers, and the log
      and disk with the data found in the buffers. */
  function CNext(c: Config, y: Sys, st: CStep): Sys
    requires ValidConfig(c) && Sizes(c, y.log) && Shape(c, y) && CEnabled(c, y, st)
  {
    match st
    case Hit(p, i) =>
      PutBuf(y, i, y.bufs[i].(refcnt := y.bufs[i].refcnt + 1)).(users := y.users[i := y.users[i] + multiset{p}])
    case Miss(p, b, i) =>
      PutBuf(y, i, y.bufs[i].(dev := 1, block := b, valid := false, refcnt := 1)).(users := y.users[i := multiset{p}])
    case NoBuffers => Rebooted(y)
    case Lock(p, i) => PutBuf(y, i, y.bufs[i].(holder := Some(p)))
    case Fill(p, i) => PutBuf(y, i, y.bufs[i].(data := y.log.disk[y.bufs[i].block], valid := true))
    case Modify(p, i, d) => PutBuf(y, i, y.bufs[i].(data := d)).(dirty := y.dirty[i := true])
    case LogIt(p, i) =>
      var b := y.bufs[i];
      if LogWritePanics(c, y.log) then Rebooted(y)
      else
        PutBuf(y, i, if b.block in y.log.lh then b else b.(refcnt := b.refcnt + 1))
        .(dirty := y.dirty[i := false], log := AfterLogWrite(c, y.log, p, b.block, b.data))
    case Unlock(p, i) => PutBuf(y, i, y.bufs[i].(holder := None))
    case Drop(p, i) =>
      var b := y.bufs[i].(refcnt := y.bufs[i].refcnt - 1);
      PutBuf(y, i, b).(users := y.users[i := y.users[i] - multiset{p}],
                       lru := if b.refcnt == 0 then ToFront(y.lru, i) else y.lru)
    case Begin(p) => y.(log := Next(c, y.log, BeginOp(p)))
    case End(p) => if y.log.committing then Rebooted(y) else y.(log := AfterEndOp(y.log, p))
    case Done => y.(log := Next(c, y.log, Finish))
    case Fail => Rebooted(y)
    case Load(p, i) => y.(log := y.log.(lh := ReadHeader(y.bufs[i].data), phase := RecInstall(0)))
    case WriteOut(ls, p, i, k) =>
      var d := OutData(c, y, ls, i, k);
      PutBuf(y, k, Written(y.bufs[k], ls, d)).(log := LogAfter(c, y.log, ls, d))
  }

  /** The contents written: those of buffer i, or buffer k's header brought up to date. */
  function OutData(c: Config, y: Sys, ls: Step, i: nat, k: nat): (d: Data)
    requires ValidConfig(c) && Sizes(c, y.log) && Shape(c, y) && i < |y.bufs| && k < |y.bufs|
    requires y.bufs[i].valid && y.bufs[k].valid
    ensures |d| == c.words
  {
    if WritesHeader(ls) then WriteHeader(y.bufs[k].data, if ls.WriteHead? then y.log.lh else []) else y.bufs[i].data
  }

  /** The buffer written through: install_trans(0) also unpins it. */
  function Written(b: Buf, ls: Step, d: Data): Buf {
    b.(data := d, refcnt := if ls.InstallBlock? then b.refcnt - 1 else b.refcnt)
  }

  /** The log after a step that puts d on the disk. */
  function LogAfter(c: Config, s: State, ls: Step, d: Data): State
    requires ValidConfig(c) && Sizes(c, s) && Writes(ls) && Enabled(c, s, ls)
  {
    var b := Target(c, s, ls);
    Next(c, s, ls).(disk := s.disk[b := d],
                    view := if ls.InstallBlock? || ls.RecInstallBlock? then s.view[b := d] else s.view)
  }

  /** Sizes of the arrays and of what is in the buffers. */
  ghost predicate Shape(c: Config, y: Sys) {
    && |y.users| == |y.bufs| == |y.dirty|
    && forall i :: 0 <= i < |y.bufs| ==>
         && (y.bufs[i].dev == 1 ==> 0 <= y.bufs[i].block < |c.image|)
         && (y.bufs[i].valid ==> |y.bufs[i].data| == c.words)
  }

  // ----- the invariant

  predicate IsPinned(s: State, b: Buf) {
    b.dev == 1 && b.block in Pinned(s)
  }

  ghost predicate BufOk(c: Config, s: State, b: Buf, u: multiset<nat>, d: bool) {
    && |s.view| == |s.disk| == |c.image|
    && (if b.dev == 1 then 0 <= b.block < |c.image| else u == multiset{})
    && (b.valid ==> b.dev == 1 && |b.data| == c.words)
    && b.refcnt == |u| + (if IsPinned(s, b) then 1 else 0)
    && (b.holder.Some? ==> b.holder.value in u)
    && (b.valid && !d ==> b.data == Latest(c, s, b.block))
    && (d ==>
           b.valid && b.holder.Some? && Home(c, b.block) && b.holder.value < |s.procs| && s.procs[b.holder.value].InOp?)
  }

  ghost predicate BufsOk(c: Config, y: Sys) {
    && |y.users| == |y.bufs| == |y.dirty|
    && forall i :: 0 <= i < |y.bufs| ==> BufOk(c, y.log, y.bufs[i], y.users[i], y.dirty[i])
  }

  /** At most one buffer for a block of a real device. */
  ghost predicate Unique(bufs: seq<Buf>) {
    forall i, j :: 0 <= i < j < |bufs| && bufs[i].dev == 1 && bufs[j].dev == 1 ==> bufs[i].block != bufs[j].block
  }

  ghost predicate CachedValid(bufs: seq<Buf>, b: int) {
    exists i :: 0 <= i < |bufs| && bufs[i].dev == 1 && bufs[i].block == b && bufs[i].valid
  }

  ghost predicate PinnedCached(s: State, bufs: seq<Buf>) {
    forall x :: 0 <= x < |Pinned(s)| ==> CachedValid(bufs, Pinned(s)[x])
  }

  ghost predicate ListOk(lru: seq<nat>, n: nat) {
    multiset(lru) == multiset(seq(n, i => i))
  }

  ghost predicate CacheInv(c: Config, y: Sys) {
    && Content(c, y.log) && BufsOk(c, y) && Unique(y.bufs) && PinnedCached(y.log, y.bufs)
  }

  lemma CacheInvShape(c: Config, y: Sys)
    requires CacheInv(c, y)
    ensures ValidConfig(c) && Sizes(c, y.log) && Counters(y.log) && Shape(c, y)
  {
    hide Content, Sizes, ValidConfig, Counters;
    ContentParts(c, y.log);
  }

  /** A block whose disk copy is out of date is pinned. */
  lemma StaleIsPinned(c: Config, s: State, b: int)
    requires Content(c, s) && Home(c, b) && s.disk[b] != s.view[b]
    ensures b in Pinned(s)
  {
    hide Apply, Flat, ReadHeader, RecoveredAt, RecoversTo, Sizes, Logged;
    var x := IndexOf(s.lh, b);
    if s.phase.Install? {
      assert s.lh[s.phase.tail..][x - s.phase.tail] == b;
    }
  }

  /** Cache transparency: whenever a process holds a buffer with a block's
      contents and has not changed it, they are the latest contents; also right
      after a disk read, since a stale block is never without its buffer. */
  lemma FillIsLatest(c: Config, y: Sys, i: nat)
    requires CacheInv(c, y) && i < |y.bufs| && y.bufs[i].dev == 1 && !y.bufs[i].valid
    ensures Content(c, y.log) && 0 <= y.bufs[i].block < |y.log.disk| == |y.log.view| == |c.image|
    ensures y.log.disk[y.bufs[i].block] == Latest(c, y.log, y.bufs[i].block)
  {
    hide Content;
    ContentParts(c, y.log);
    InvalidNotPinned(c, y, i);
    if Home(c, y.bufs[i].block) && y.log.disk[y.bufs[i].block] != y.log.view[y.bufs[i].block] {
      StaleIsPinned(c, y.log, y.bufs[i].block);
    }
  }

  /** A buffer still waiting for its disk read is not that of a pinned block. */
  lemma InvalidNotPinned(c: Config, y: Sys, i: nat)
    requires CacheInv(c, y) && i < |y.bufs| && y.bufs[i].dev == 1 && !y.bufs[i].valid
    ensures y.bufs[i].block !in Pinned(y.log)
  {
    hide Content, BufsOk;
  }

  // ----- every step keeps the invariant

  /** The log has moved from s to t, and only block b0 can have new contents or
      a new pin. */
  ghost predicate SameExcept(c: Config, s: State, t: State, b0: int) {
    && |s.view| == |s.disk| == |c.image| == |t.view| == |t.disk| && |t.procs| == |s.procs|
    && (forall b :: 0 <= b < |c.image| && b != b0 ==> Latest(c, t, b) == Latest(c, s, b))
    && (forall b :: b != b0 ==> (b in Pinned(t) <==> b in Pinned(s)))
    && (forall p :: 0 <= p < |s.procs| && s.procs[p].InOp? ==> t.procs[p].InOp?)
  }

  lemma OthersOk(c: Config, y: Sys, t: State, i: nat, k: nat)
    requires CacheInv(c, y) && i < |y.bufs| && y.bufs[i].dev == 1 && SameExcept(c, y.log, t, y.bufs[i].block)
    requires k < |y.bufs| && k != i
    ensures BufOk(c, t, y.bufs[k], y.users[k], y.dirty[k])
  {
    hide Content, Pinned, PinnedCached, Latest;
    assert BufOk(c, y.log, y.bufs[k], y.users[k], y.dirty[k]);
    assert y.bufs[k].dev == 1 ==> y.bufs[k].block != y.bufs[i].block;
  }

  /** Replacing one buffer, with the log moving on around it. */
  lemma Replace(c: Config, y: Sys, t: State, i: nat, b: Buf, u: multiset<nat>, d: bool, lru: seq<nat>)
    requires CacheInv(c, y) && Content(c, t) && i < |y.bufs|
    requires y.bufs[i].dev == 1 && b.dev == 1 && b.block == y.bufs[i].block && (y.bufs[i].valid ==> b.valid)
    requires SameExcept(c, y.log, t, b.block) && BufOk(c, t, b, u, d) && (b.block in Pinned(t) ==> b.valid)
    ensures CacheInv(c, Sys(t, y.bufs[i := b], lru, y.users[i := u], y.dirty[i := d]))
  {
    hide Content, Pinned, BufOk, Latest;
    var z := Sys(t, y.bufs[i := b], lru, y.users[i := u], y.dirty[i := d]);
    forall k | 0 <= k < |z.bufs| ensures BufOk(c, z.log, z.bufs[k], z.users[k], z.dirty[k]) {
      if k != i {
        OthersOk(c, y, t, i, k);
      }
    }
    PinnedStay(c, y, t, i, b);
  }

  lemma PinnedStay(c: Config, y: Sys, t: State, i: nat, b: Buf)
    requires CacheInv(c, y) && i < |y.bufs|
    requires y.bufs[i].dev == 1 && b.dev == 1 && b.block == y.bufs[i].block && (y.bufs[i].valid ==> b.valid)
    requires SameExcept(c, y.log, t, b.block) && (b.block in Pinned(t) ==> b.valid)
    ensures PinnedCached(t, y.bufs[i := b])
  {
    hide Content, Pinned, BufsOk, Latest;
    var bs := y.bufs[i := b];
    forall x | 0 <= x < |Pinned(t)| ensures CachedValid(bs, Pinned(t)[x]) {
      var q := Pinned(t)[x];
      if q == b.block {
        assert bs[i].valid;
      } else {
        assert q in Pinned(y.log);
        var z :| 0 <= z < |Pinned(y.log)| && Pinned(y.log)[z] == q;
        var k :| 0 <= k < |y.bufs| && y.bufs[k].dev == 1 && y.bufs[k].block == q && y.bufs[k].valid;
        assert bs[k] == y.bufs[k];
      }
    }
  }

  lemma SameLog(c: Config, s: State, b: int)
    requires |s.view| == |s.disk| == |c.image|
    ensures SameExcept(c, s, s, b)
  {
  }

  predicate IsLocal(st: CStep) {
    st.Hit? || st.Lock? || st.Fill? || st.Modify? || st.Unlock? || st.Drop?
  }

  lemma LocalKept(c: Config, y: Sys, st: CStep)
    requires CacheInv(c, y) && CEnabled(c, y, st) && IsLocal(st)
    ensures ValidConfig(c) && Sizes(c, y.log) && Shape(c, y) && CacheInv(c, CNext(c, y, st))
  {
    hide Content, Sizes, ValidConfig, Counters, PinnedCached, Pinned, Unique, CNext, Latest, BufOk, IsPinned;
    CacheInvShape(c, y);
    var i := st.i;
    assert BufOk(c, y.log, y.bufs[i], y.users[i], y.dirty[i]);
    LocalIsReal(c, y, st);
    SameLog(c, y.log, y.bufs[i].block);
    if st.Fill? {
      FillIsLatest(c, y, i);
      FullBlock(c, y.log, y.bufs[i].block);
    }
    if !y.bufs[i].valid {
      InvalidNotPinned(c, y, i);
    }
    LocalBuf(c, y, st);
    var z := CNext(c, y, st);
    Replace(c, y, y.log, i, z.bufs[i], z.users[i], z.dirty[i], z.lru);
  }

  /** The buffer of a local step shows a block of the disk. */
  lemma LocalIsReal(c: Config, y: Sys, st: CStep)
    requires Shape(c, y) && CEnabled(c, y, st) && IsLocal(st)
    requires BufOk(c, y.log, y.bufs[st.i], y.users[st.i], y.dirty[st.i])
    ensures y.bufs[st.i].dev == 1 && |y.log.view| == |y.log.disk| == |c.image|
  {
    hide Latest, IsPinned;
  }

  /** A local step replaces one buffer by one that is right again. */
  lemma LocalBuf(c: Config, y: Sys, st: CStep)
    requires ValidConfig(c) && Sizes(c, y.log) && Shape(c, y) && CEnabled(c, y, st) && IsLocal(st) &&
             y.bufs[st.i].dev == 1
    requires BufOk(c, y.log, y.bufs[st.i], y.users[st.i], y.dirty[st.i])
    requires st.Fill? ==> var b := y.bufs[st.i].block;
             y.log.disk[b] == Latest(c, y.log, b) && |y.log.disk[b]| == c.words
    requires !y.bufs[st.i].valid ==> y.bufs[st.i].block !in Pinned(y.log)
    ensures var i, z := st.i, CNext(c, y, st);
            && |z.bufs| == |y.bufs| == |z.users| == |z.dirty| && BufOk(c, y.log, z.bufs[i], z.users[i], z.dirty[i])
            && z.bufs[i].dev == 1 && z.bufs[i].block == y.bufs[i].block && (y.bufs[i].valid ==> z.bufs[i].valid)
            && (z.bufs[i].block in Pinned(y.log) ==> z.bufs[i].valid)
            && z == Sys(y.log, y.bufs[i := z.bufs[i]], z.lru, y.users[i := z.users[i]], y.dirty[i := z.dirty[i]])
  {
    hide Sizes, ValidConfig, Pinned, Latest, ToFront, BufOk, IsPinned;
    var i := st.i;
    if st.Hit? {
      UserAdded(c, y.log, y.bufs[i], y.users[i], y.dirty[i], st.p);
    } else if st.Drop? {
      UserGone(c, y.log, y.bufs[i], y.users[i], y.dirty[i], st.p);
    } else {
      HolderActs(c, y.log, y.bufs[i], y.users[i], y.dirty[i], st);
    }
  }

  lemma UserAdded(c: Config, s: State, b: Buf, u: multiset<nat>, d: bool, p: nat)
    requires BufOk(c, s, b, u, d) && b.dev == 1
    ensures BufOk(c, s, b.(refcnt := b.refcnt + 1), u + multiset{p}, d)
  {
    hide Pinned, Latest;
  }

  lemma UserGone(c: Config, s: State, b: Buf, u: multiset<nat>, d: bool, p: nat)
    requires BufOk(c, s, b, u, d) && b.dev == 1 && p in u && b.holder != Some(p)
    ensures BufOk(c, s, b.(refcnt := b.refcnt - 1), u - multiset{p}, d)
  {
    hide Pinned, Latest;
  }

  /** acquiresleep, the disk read, a change, releasesleep. */
  lemma HolderActs(c: Config, s: State, b: Buf, u: multiset<nat>, d: bool, st: CStep)
    requires BufOk(c, s, b, u, d) && b.dev == 1
    ensures st.Lock? && st.p in u && b.holder == None ==> BufOk(c, s, b.(holder := Some(st.p)), u, d)
    ensures st.Fill? && !b.valid && s.disk[b.block] == Latest(c, s, b.block) && |s.disk[b.block]| == c.words ==>
              BufOk(c, s, b.(data := s.disk[b.block], valid := true), u, d)
    ensures st.Modify? && b.valid && b.holder == Some(st.p) && Home(c, b.block) && |st.data| == c.words ==>
              st.p < |s.procs| && s.procs[st.p].InOp? ==> BufOk(c, s, b.(data := st.data), u, true)
    ensures st.Unlock? && !d ==> BufOk(c, s, b.(holder := None), u, d)
  {
    hide Pinned, Latest;
  }

  lemma FullBlock(c: Config, s: State, b: int)
    requires Content(c, s) && 0 <= b < |s.disk|
    ensures |s.disk[b]| == c.words
  {
  }

  /** bget recycles a buffer: it is unpinned, so no stale block loses its copy. */
  lemma MissKept(c: Config, y: Sys, p: nat, b: int, i: nat)
    requires CacheInv(c, y) && CEnabled(c, y, Miss(p, b, i))
    ensures ValidConfig(c) && Sizes(c, y.log) && Shape(c, y) && CacheInv(c, CNext(c, y, Miss(p, b, i)))
  {
    hide Content, Sizes, ValidConfig, Counters, Pinned, Latest;
    CacheInvShape(c, y);
    var z := CNext(c, y, Miss(p, b, i));
    assert BufOk(c, y.log, y.bufs[i], y.users[i], y.dirty[i]);
    assert !IsPinned(y.log, y.bufs[i]) && y.users[i] == multiset{};
    assert b !in Pinned(y.log) by {
      UncachedNotPinned(y, b);
    }
    forall k | 0 <= k < |z.bufs| ensures BufOk(c, z.log, z.bufs[k], z.users[k], z.dirty[k]) {
      assert BufOk(c, y.log, y.bufs[k], y.users[k], y.dirty[k]);
    }
    forall x | 0 <= x < |Pinned(y.log)| ensures CachedValid(z.bufs, Pinned(y.log)[x]) {
      var q := Pinned(y.log)[x];
      assert CachedValid(y.bufs, q);
      var k :| 0 <= k < |y.bufs| && y.bufs[k].dev == 1 && y.bufs[k].block == q && y.bufs[k].valid;
      assert k != i && z.bufs[k] == y.bufs[k];
    }
  }

  lemma UncachedNotPinned(y: Sys, b: int)
    requires PinnedCached(y.log, y.bufs) && !Cached(y, b)
    ensures b !in Pinned(y.log)
  {
  }

  lemma RebootKept(c: Config, y: Sys)
    requires CacheInv(c, y)
    ensures CacheInv(c, Rebooted(y))
  {
    hide Content;
    ContentCrash(c, y.log);
    ContentParts(c, Crashed(y.log));
    hide Sizes, ValidConfig, Counters;
    var z := Rebooted(y);
    assert Pinned(z.log) == [];
  }

  /** log_write: the buffer's contents become the block's latest contents, and a
      block new to the log takes exactly one pin. */
  lemma LogItKept(c: Config, y: Sys, p: nat, i: nat)
    requires CacheInv(c, y) && CEnabled(c, y, LogIt(p, i))
    ensures ValidConfig(c) && Sizes(c, y.log) && Shape(c, y) && CacheInv(c, CNext(c, y, LogIt(p, i)))
  {
    hide Content, Sizes, ValidConfig, PinnedCached, Unique;
    CacheInvShape(c, y);
    if LogWritePanics(c, y.log) {
      RebootKept(c, y);
    } else {
      var b := y.bufs[i];
      OpenMeansRunning(y.log, p);
      ContentLogWrite(c, y.log, p, b.block, b.data);
      var t := AfterLogWrite(c, y.log, p, b.block, b.data);
      assert BufOk(c, y.log, b, y.users[i], y.dirty[i]);
      LogWriteSame(c, y.log, p, b.block, b.data);
      var z := CNext(c, y, LogIt(p, i));
      Replace(c, y, t, i, z.bufs[i], y.users[i], false, y.lru);
      assert z == Sys(t, y.bufs[i := z.bufs[i]], y.lru, y.users[i := y.users[i]], y.dirty[i := false]);
    }
  }

  lemma LogWriteSame(c: Config, s: State, p: nat, b: int, d: Data)
    requires p < |s.procs| && s.procs[p].InOp? && Home(c, b) && |s.view| == |s.disk| == |c.image| && s.phase.Running?
    ensures SameExcept(c, s, AfterLogWrite(c, s, p, b, d), b)
    ensures b in Pinned(AfterLogWrite(c, s, p, b, d))
  {
    var t := AfterLogWrite(c, s, p, b, d);
    assert t.lh == s.lh || t.lh == s.lh + [b];
  }

  /** Steps of the log that touch no buffer. */
  lemma LogOnlyKept(c: Config, y: Sys, st: CStep)
    requires CacheInv(c, y) && CEnabled(c, y, st) && (st.Begin? || st.End? || st.Done? || st.Load?)
    ensures ValidConfig(c) && Sizes(c, y.log) && Shape(c, y) && CacheInv(c, CNext(c, y, st))
  {
    hide Content, Sizes, ReadHeader, WellSized, PinnedCached, Unique;
    CacheInvShape(c, y);
    var s := y.log;
    if st.End? {
      OpenMeansRunning(s, st.p);
    }
    var ws := if st.Begin? then BeginOp(st.p) else if st.End? then EndOp(st.p) else if st.Done? then Finish
      else ReadHead;
    if st.Load? {
      HeldIsDisk(c, y, st.i, c.logStart);
    }
    var z := CNext(c, y, st);
    assert z.log == Next(c, s, ws);
    ContentKept(c, s, ws);
    assert Pinned(z.log) == Pinned(s) && z.bufs == y.bufs;
    forall k | 0 <= k < |y.bufs| ensures BufOk(c, z.log, y.bufs[k], y.users[k], y.dirty[k]) {
      assert BufOk(c, s, y.bufs[k], y.users[k], y.dirty[k]);
    }
    assert PinnedCached(z.log, z.bufs) by {
      PinnedSame(s, z.log, y.bufs);
    }
  }

  lemma PinnedSame(s: State, t: State, bufs: seq<Buf>)
    requires PinnedCached(s, bufs) && Pinned(t) == Pinned(s)
    ensures PinnedCached(t, bufs)
  {
  }

  /** Outside operations nothing is dirty. */
  lemma NotDirty(c: Config, y: Sys, i: nat)
    requires CacheInv(c, y) && i < |y.bufs| && !y.log.phase.Running?
    ensures i < |y.dirty| && !y.dirty[i]
  {
    hide Content, PinnedCached, Unique;
    CacheInvShape(c, y);
    OpenZero(y.log.procs);
    assert BufOk(c, y.log, y.bufs[i], y.users[i], y.dirty[i]);
  }

  /** What commit and recovery find in a buffer they hold. */
  lemma HeldIsDisk(c: Config, y: Sys, i: nat, b: int)
    requires CacheInv(c, y) && i < |y.bufs| && y.bufs[i].valid && y.bufs[i].block == b && !y.log.phase.Running?
    ensures 0 <= b < |c.image| == |y.log.view| == |y.log.disk| && y.bufs[i].data == Latest(c, y.log, b)
    ensures |y.bufs[i].data| == c.words
  {
    hide Content, PinnedCached, Unique;
    NotDirty(c, y, i);
    assert BufOk(c, y.log, y.bufs[i], y.users[i], y.dirty[i]);
  }

  /** What the log's step puts on the disk. */
  function StepData(c: Config, s: State, ls: Step): Data
    requires ValidConfig(c) && Sizes(c, s) && Writes(ls) && Enabled(c, s, ls)
  {
    if ls.WriteHead? then WriteHeader(s.disk[c.logStart], s.lh)
    else if WritesHeader(ls) then WriteHeader(s.disk[c.logStart], [])
    else if ls.CopyBlock? then s.view[s.lh[s.phase.tail]]
    else s.disk[c.logStart + 1 + s.phase.tail]
  }

  lemma LogAfterIsNext(c: Config, s: State, ls: Step)
    requires ValidConfig(c) && Sizes(c, s) && Writes(ls) && Enabled(c, s, ls)
    ensures LogAfter(c, s, ls, StepData(c, s, ls)) == Next(c, s, ls)
  {
    hide ReadHeader, WellSized, WriteHeader, Distinct;
  }

  /** Commit and recovery put on the disk, through the cache, exactly what the log's steps say. */
  lemma WriteOutData(c: Config, y: Sys, ls: Step, p: nat, i: nat, k: nat)
    requires CacheInv(c, y) && CEnabled(c, y, WriteOut(ls, p, i, k))
    ensures ValidConfig(c) && Sizes(c, y.log) && Shape(c, y) && Enabled(c, y.log, ls)
    ensures CNext(c, y, WriteOut(ls, p, i, k)).log == Next(c, y.log, ls)
  {
    hide CacheInv, CNext, CEnabled, ReadHeader, WellSized, WriteHeader, Distinct, LogAfter, Next;
    CacheInvShape(c, y);
    WriteOutIs(c, y, ls, p, i, k);
    LogAfterIsNext(c, y.log, ls);
    TargetIsLegal(c, y.log, ls);
    HeldIsDisk(c, y, i, Source(c, y.log, ls));
    HeldIsDisk(c, y, k, Target(c, y.log, ls));
    assert OutData(c, y, ls, i, k) == StepData(c, y.log, ls);
  }

  lemma WriteOutIs(c: Config, y: Sys, ls: Step, p: nat, i: nat, k: nat)
    requires ValidConfig(c) && Sizes(c, y.log) && Shape(c, y) && CEnabled(c, y, WriteOut(ls, p, i, k))
    ensures Writes(ls) && Enabled(c, y.log, ls) && !y.log.phase.Running?
    ensures Holds(y, p, i, Source(c, y.log, ls)) && Holds(y, p, k, Target(c, y.log, ls))
    ensures var d := OutData(c, y, ls, i, k);
            CNext(c, y, WriteOut(ls, p, i, k)) ==
            Sys(LogAfter(c, y.log, ls, d), y.bufs[k := Written(y.bufs[k], ls, d)], y.lru, y.users, y.dirty)
  {
    hide ValidConfig, Sizes, Shape, LogAfter, Next;
  }

  lemma TargetIsLegal(c: Config, s: State, ls: Step)
    requires ValidConfig(c) && Sizes(c, s) && Writes(ls) && Enabled(c, s, ls)
    ensures 0 <= Target(c, s, ls) < |c.image| && 0 <= Source(c, s, ls) < |c.image|
    ensures Home(c, Target(c, s, ls)) <==> ls.InstallBlock? || ls.RecInstallBlock?
    ensures Home(c, Source(c, s, ls)) <==> ls.CopyBlock?
    ensures !Home(c, Target(c, s, ls)) ==> Target(c, s, ls) !in s.lh
  {
    hide ReadHeader, Distinct, WellSized;
  }

  /** Only install_trans(0) takes a pin away, and takes it from the block it has just installed. */
  lemma WriteOutPins(c: Config, s: State, ls: Step, d: Data)
    requires ValidConfig(c) && Sizes(c, s) && Writes(ls) && Enabled(c, s, ls)
    ensures var b, t := Target(c, s, ls), LogAfter(c, s, ls, d);
            && (forall q :: q != b ==> (q in Pinned(t) <==> q in Pinned(s)))
            && b !in Pinned(t) && (b in Pinned(s) <==> ls.InstallBlock?)
  {
    hide ReadHeader, WellSized, WriteHeader, Distinct;
    TargetIsLegal(c, s, ls);
    if ls.InstallBlock? {
      TailPins(s.lh, s.phase.tail);
    } else {
      OtherPins(c, s, ls, d);
    }
  }

  /** Only install_trans(0) unpins. */
  lemma OtherPins(c: Config, s: State, ls: Step, d: Data)
    requires ValidConfig(c) && Sizes(c, s) && Writes(ls) && Enabled(c, s, ls) && !ls.InstallBlock?
    ensures var b, t := Target(c, s, ls), LogAfter(c, s, ls, d);
            (forall q :: q in Pinned(t) <==> q in Pinned(s)) && b !in Pinned(s)
  {
    hide ReadHeader, WellSized, WriteHeader, Distinct, ValidConfig;
    assert s.lh[0..] == s.lh && s.lh[|s.lh|..] == [];
    assert forall q :: q in s.lh ==> Home(c, q);
  }

  lemma TailPins(lh: seq<int>, t: nat)
    requires Distinct(lh) && t < |lh|
    ensures lh[t] in lh[t..] && lh[t] !in lh[t + 1..]
    ensures forall q :: q != lh[t] ==> (q in lh[t + 1..] <==> q in lh[t..])
  {
    assert lh[t..] == [lh[t]] + lh[t + 1..];
  }

  lemma WriteOutSame(c: Config, s: State, ls: Step, d: Data)
    requires ValidConfig(c) && Sizes(c, s) && Writes(ls) && Enabled(c, s, ls)
    ensures SameExcept(c, s, LogAfter(c, s, ls, d), Target(c, s, ls))
    ensures |d| == c.words ==> Latest(c, LogAfter(c, s, ls, d), Target(c, s, ls)) == d
  {
    hide ReadHeader, WriteHeader, Distinct, Pinned, LegalHeader;
    WriteOutPins(c, s, ls, d);
    TargetIsLegal(c, s, ls);
  }

  lemma WriteOutBuf(c: Config, s: State, ls: Step, d: Data, b: Buf, u: multiset<nat>)
    requires ValidConfig(c) && Sizes(c, s) && Writes(ls) && Enabled(c, s, ls) && |d| == c.words
    requires BufOk(c, s, b, u, false) && b.valid && b.block == Target(c, s, ls)
    ensures BufOk(c, LogAfter(c, s, ls, d), Written(b, ls, d), u, false)
    ensures b.block !in Pinned(LogAfter(c, s, ls, d))
  {
    hide ValidConfig, Sizes, Enabled, Pinned, LogAfter, Target, Latest;
    WriteOutSame(c, s, ls, d);
    WriteOutPins(c, s, ls, d);
  }

  lemma WriteOutKept(c: Config, y: Sys, ls: Step, p: nat, i: nat, k: nat)
    requires CacheInv(c, y) && CEnabled(c, y, WriteOut(ls, p, i, k))
    ensures ValidConfig(c) && Sizes(c, y.log) && Shape(c, y) && CacheInv(c, CNext(c, y, WriteOut(ls, p, i, k)))
  {
    hide CacheInv, ValidConfig, Sizes, Shape, Counters, Enabled, Next, LogAfter, Pinned, SameExcept;
    hide BufOk, Latest, Target, Source, CNext, CEnabled, OutData, Written, Content;
    CacheInvShape(c, y);
    WriteOutIs(c, y, ls, p, i, k);
    WriteOutData(c, y, ls, p, i, k);
    CacheInvAt(c, y, k);
    var d, b := OutData(c, y, ls, i, k), y.bufs[k];
    ContentKept(c, y.log, ls);
    NotDirty(c, y, k);
    WriteOutBuf(c, y.log, ls, d, b, y.users[k]);
    WriteOutSame(c, y.log, ls, d);
    WrittenKeeps(b, ls, d);
    Replace(c, y, LogAfter(c, y.log, ls, d), k, Written(b, ls, d), y.users[k], false, y.lru);
    assert y.users[k := y.users[k]] == y.users && y.dirty[k := false] == y.dirty;
  }

  lemma CacheInvAt(c: Config, y: Sys, k: nat)
    requires CacheInv(c, y) && k < |y.bufs|
    ensures |y.users| == |y.bufs| == |y.dirty| && Content(c, y.log)
    ensures BufOk(c, y.log, y.bufs[k], y.users[k], y.dirty[k])
  {
    hide Content, BufOk;
  }

  lemma WrittenKeeps(b: Buf, ls: Step, d: Data)
    ensures var w := Written(b, ls, d); w.dev == b.dev && w.block == b.block && w.valid == b.valid
  {
  }

  lemma CacheInvKept(c: Config, y: Sys, st: CStep)
    requires CacheInv(c, y) && CEnabled(c, y, st)
    ensures ValidConfig(c) && Sizes(c, y.log) && Shape(c, y) && CacheInv(c, CNext(c, y, st))
  {
    hide CacheInv, ValidConfig, Sizes, Shape;
    CacheInvShape(c, y);
    if IsLocal(st) {
      LocalKept(c, y, st);
    } else if st.WriteOut? {
      WriteOutKept(c, y, st.ls, st.p, st.i, st.k);
    } else if st.Miss? {
      MissKept(c, y, st.p, st.b, st.i);
    } else if st.LogIt? {
      LogItKept(c, y, st.p, st.i);
    } else if st.NoBuffers? || st.Fail? {
      RebootKept(c, y);
    } else {
      LogOnlyKept(c, y, st);
    }
  }

  // ----- bget's two searches

  datatype Found = FoundBlock(i: nat) | FoundUnused(i: nat) | NoneUnused

  /** bget's search of the list, front to back for the block and then back to
      front for an unused buffer; its outcome is the step the machine takes. */
  method Search(y: Sys, b: int) returns (r: Found)
    requires ListOk(y.lru, |y.bufs|)
    ensures r.FoundBlock? <==> Cached(y, b)
    ensures r.FoundBlock? ==> r.i < |y.bufs| && y.bufs[r.i].dev == 1 && y.bufs[r.i].block == b
    ensures r.FoundUnused? ==> LeastRecentUnused(y, r.i)
    ensures r.NoneUnused? ==> forall i :: 0 <= i < |y.bufs| ==> y.bufs[i].refcnt != 0
  {
    OnList(y.lru, |y.bufs|);
    var k := 0;
    while k < |y.lru|
      invariant 0 <= k <= |y.lru|
      invariant forall m :: 0 <= m < k ==> !(y.bufs[y.lru[m]].dev == 1 && y.bufs[y.lru[m]].block == b)
    {
      var i := y.lru[k];
      if y.bufs[i].dev == 1 && y.bufs[i].block == b {
        return FoundBlock(i);
      }
      k := k + 1;
    }
    forall i | 0 <= i < |y.bufs| ensures !(y.bufs[i].dev == 1 && y.bufs[i].block == b) {
      assert i in y.lru;
    }
    k := |y.lru|;
    while k > 0
      invariant 0 <= k <= |y.lru|
      invariant forall m :: k <= m < |y.lru| ==> y.bufs[y.lru[m]].refcnt != 0
    {
      k := k - 1;
      if y.bufs[y.lru[k]].refcnt == 0 {
        return FoundUnused(y.lru[k]);
      }
    }
    forall i | 0 <= i < |y.bufs| ensures y.bufs[i].refcnt != 0 {
      assert i in y.lru;
    }
    return NoneUnused;
  }

  lemma OnList(lru: seq<nat>, n: nat)
    requires ListOk(lru, n)
    ensures forall k :: 0 <= k < |lru| ==> lru[k] < n
    ensures forall i :: 0 <= i < n ==> i in lru
  {
    var s := seq(n, i => i);
    forall k | 0 <= k < |lru| ensures lru[k] < n {
      assert lru[k] in multiset(s);
      assert lru[k] in s;
    }
    forall i | 0 <= i < n ensures i in lru {
      assert s[i] in multiset(s);
    }
  }

  // ----- refinement

  /** The step of the log that a step of the whole system takes, if any. */
  function LogStepOf(y: Sys, st: CStep): Option<Step> {
    if IsLocal(st) || st.Miss? then None
    else if st.WriteOut? then Some(st.ls)
    else if st.LogIt? then
      if st.i < |y.bufs| then Some(LogWrite(st.p, y.bufs[st.i].block, y.bufs[st.i].data)) else None
    else if st.Begin? then Some(BeginOp(st.p))
    else if st.End? then Some(EndOp(st.p))
    else if st.Done? then Some(Finish)
    else if st.Load? then Some(ReadHead)
    else Some(Crash)
  }

  /** z's log follows y's log by the step ls, or does not move. */
  ghost predicate Follows(c: Config, y: Sys, z: Sys, ls: Option<Step>)
    requires ValidConfig(c) && Sizes(c, y.log)
  {
    match ls
    case None => z.log == y.log
    case Some(l) => Enabled(c, y.log, l) && z.log == Next(c, y.log, l)
  }

  /** Refinement: seen through the log, every step of the cached system is
      either invisible or the corresponding step of the log. */
  lemma StepRefines(c: Config, y: Sys, st: CStep)
    requires CacheInv(c, y) && CEnabled(c, y, st)
    ensures ValidConfig(c) && Sizes(c, y.log) && Shape(c, y)
    ensures Follows(c, y, CNext(c, y, st), LogStepOf(y, st))
  {
    hide CacheInv, Sizes, Shape, ValidConfig, Counters, Next, Enabled, CNext;
    CacheInvShape(c, y);
    if st.WriteOut? {
      WriteOutData(c, y, st.ls, st.p, st.i, st.k);
    } else if IsLocal(st) || st.Miss? {
      LocalRefines(c, y, st);
    } else if st.Load? {
      LoadRefines(c, y, st.p, st.i);
    } else {
      OpRefines(c, y, st);
    }
  }

  lemma LocalRefines(c: Config, y: Sys, st: CStep)
    requires ValidConfig(c) && Sizes(c, y.log) && Shape(c, y) && CEnabled(c, y, st) && (IsLocal(st) || st.Miss?)
    ensures CNext(c, y, st).log == y.log
  {
    hide Sizes, Shape, ValidConfig, CEnabled, Next;
  }

  lemma LoadRefines(c: Config, y: Sys, p: nat, i: nat)
    requires CacheInv(c, y) && CEnabled(c, y, Load(p, i))
    ensures ValidConfig(c) && Sizes(c, y.log) && Shape(c, y)
    ensures Enabled(c, y.log, ReadHead) && CNext(c, y, Load(p, i)).log == Next(c, y.log, ReadHead)
  {
    hide CacheInv, ReadHeader, Sizes, Counters, WriteHeader;
    CacheInvShape(c, y);
    HeldIsDisk(c, y, i, c.logStart);
  }

  lemma OpRefines(c: Config, y: Sys, st: CStep)
    requires ValidConfig(c) && Sizes(c, y.log) && Shape(c, y) && CEnabled(c, y, st)
    requires !IsLocal(st) && !st.Miss? && !st.WriteOut? && !st.Load?
    ensures Follows(c, y, CNext(c, y, st), LogStepOf(y, st))
  {
    hide Sizes, Shape, ValidConfig, WriteHeader, ReadHeader;
  }

  ghost predicate SysInv(c: Config, y: Sys) {
    CacheInv(c, y) && Inv(c, y.log) && ListOk(y.lru, |y.bufs|)
  }

  lemma SysInvKept(c: Config, y: Sys, st: CStep)
    requires SysInv(c, y) && CEnabled(c, y, st)
    ensures ValidConfig(c) && Sizes(c, y.log) && Shape(c, y) && SysInv(c, CNext(c, y, st))
  {
    hide CacheInv, Inv, ListOk, Sizes, Shape, ValidConfig, CNext, Next, CEnabled, Enabled;
    CacheInvKept(c, y, st);
    StepRefines(c, y, st);
    ListKept(c, y, st);
    var ls := LogStepOf(y, st);
    if ls.Some? {
      InvKept(c, y.log, ls.value);
    }
  }

  lemma {:induction false} WithoutMultiset(lru: seq<nat>, i: nat)
    ensures multiset(Without(lru, i)) == multiset(lru)[i := 0]
  {
    if lru != [] {
      WithoutMultiset(lru[1..], i);
      assert lru == [lru[0]] + lru[1..];
    }
  }

  lemma {:induction false} RangeOnce(n: nat, i: nat)
    requires i < n
    ensures multiset(seq(n, k => k))[i] == 1
    decreases n
  {
    var s := seq(n, k => k);
    var t := seq(n - 1, k => k);
    assert s == t + [n - 1];
    if i < n - 1 {
      RangeOnce(n - 1, i);
    } else {
      assert i !in t;
    }
  }

  /** Every buffer stays on the LRU list exactly once. */
  lemma ListKept(c: Config, y: Sys, st: CStep)
    requires ValidConfig(c) && Sizes(c, y.log) && Shape(c, y) && CEnabled(c, y, st) && ListOk(y.lru, |y.bufs|)
    ensures ListOk(CNext(c, y, st).lru, |CNext(c, y, st).bufs|)
  {
    hide ValidConfig, Sizes, Shape, Next, ListOk, ToFront;
    if st.Drop? {
      FrontKept(y.lru, |y.bufs|, st.i);
    } else if st.NoBuffers? || st.Fail? || st.LogIt? || st.End? {
      FreshList(|y.bufs|);
    }
  }

  lemma {:induction false} FreshList(n: nat)
    ensures ListOk(BootList(n), n)
  {
    if n > 0 {
      FreshList(n - 1);
      assert seq(n, i => i) == seq(n - 1, i => i) + [n - 1];
    }
  }

  lemma FrontKept(lru: seq<nat>, n: nat, i: nat)
    requires ListOk(lru, n) && i < n
    ensures ListOk(ToFront(lru, i), n)
  {
    WithoutMultiset(lru, i);
    OnceOnList(lru, n, i);
    assert multiset(ToFront(lru, i)) == multiset{i} + multiset(Without(lru, i));
    SameList(lru, ToFront(lru, i), n);
  }

  lemma OnceOnList(lru: seq<nat>, n: nat, i: nat)
    requires ListOk(lru, n) && i < n
    ensures multiset(lru)[i] == 1
  {
    RangeOnce(n, i);
  }

  lemma SameList(a: seq<nat>, b: seq<nat>, n: nat)
    requires ListOk(a, n) && multiset(a) == multiset(b)
    ensures ListOk(b, n)
  {
  }

  ghost predicate IsSysRun(c: Config, nproc: nat, nbuf: nat, ys: seq<Sys>, sts: seq<CStep>) {
    && |ys| == |sts| + 1 && ys[0] == Boot(Init(c, nproc), nbuf)
    && forall i :: 0 <= i < |sts| ==> IsSysStep(c, ys[i], sts[i], ys[i + 1])
  }

  ghost predicate IsSysStep(c: Config, y: Sys, st: CStep, z: Sys) {
    ValidConfig(c) && Sizes(c, y.log) && Shape(c, y) && CEnabled(c, y, st) && z == CNext(c, y, st)
  }

  lemma SysInvBoot(c: Config, nproc: nat, nbuf: nat)
    requires ValidConfig(c)
    ensures SysInv(c, Boot(Init(c, nproc), nbuf))
  {
    InvInit(c, nproc);
    var y := Boot(Init(c, nproc), nbuf);
    ContentParts(c, y.log);
    hide Inv, Content, Sizes, ValidConfig, Counters, WellSized;
    assert Pinned(y.log) == [];
    FreshList(nbuf);
  }

  lemma {:induction false} SysRunInv(c: Config, nproc: nat, nbuf: nat, ys: seq<Sys>, sts: seq<CStep>)
    requires ValidConfig(c) && IsSysRun(c, nproc, nbuf, ys, sts)
    ensures SysInv(c, ys[|sts|])
    decreases |sts|
  {
    hide SysInv, ValidConfig, CNext, CEnabled, Sizes, Shape;
    if sts == [] {
      SysInvBoot(c, nproc, nbuf);
    } else {
      var n := |sts| - 1;
      var zs, us := ys[..n + 1], sts[..n];
      assert forall i :: 0 <= i < n ==> zs[i] == ys[i] && us[i] == sts[i] && IsSysStep(c, zs[i], us[i], zs[i + 1]);
      SysRunInv(c, nproc, nbuf, zs, us);
      assert IsSysStep(c, ys[n], sts[n], ys[n + 1]);
      SysInvKept(c, ys[n], sts[n]);
    }
  }

  /** Cache transparency over whole runs, with any number of crashes: a buffer
      that has been read and has no pending change shows its block's latest
      contents, no two buffers of the disk show the same block, and the
      reference count is exactly the number of users plus one pin for a block
      that is logged and not yet installed. */
  lemma CacheTransparency(c: Config, nproc: nat, nbuf: nat, ys: seq<Sys>, sts: seq<CStep>, i: nat)
    requires ValidConfig(c) && IsSysRun(c, nproc, nbuf, ys, sts) && i < |ys[|sts|].bufs|
    ensures var y := ys[|sts|];
            && |y.users| == |y.dirty| == |y.bufs| && |y.log.view| == |y.log.disk| == |c.image|
            && (y.bufs[i].valid && !y.dirty[i] ==>
                  0 <= y.bufs[i].block < |c.image| && y.bufs[i].data == Latest(c, y.log, y.bufs[i].block))
            && y.bufs[i].refcnt == |y.users[i]| + (if IsPinned(y.log, y.bufs[i]) then 1 else 0)
            && (forall j :: 0 <= j < |y.bufs| && j != i && y.bufs[i].dev == 1 && y.bufs[j].dev == 1 ==>
                  y.bufs[j].block != y.bufs[i].block)
  {
    hide Content, Inv, ListOk, Pinned, PinnedCached, IsSysStep, ValidConfig;
    SysRunInv(c, nproc, nbuf, ys, sts);
    assert BufOk(c, ys[|sts|].log, ys[|sts|].bufs[i], ys[|sts|].users[i], ys[|sts|].dirty[i]);
  }

  /** A block whose disk copy is stale always has a valid buffer that cannot be recycled. */
  lemma StaleNeverRecycled(c: Config, nproc: nat, nbuf: nat, ys: seq<Sys>, sts: seq<CStep>, b: int)
    requires ValidConfig(c) && IsSysRun(c, nproc, nbuf, ys, sts) && Home(c, b)
    ensures var y := ys[|sts|];
            && |y.log.view| == |y.log.disk| == |c.image|
            && (y.log.disk[b] != y.log.view[b] ==>
                  exists i :: 0 <= i < |y.bufs| && y.bufs[i].dev == 1 && y.bufs[i].block == b && y.bufs[i].valid &&
                    y.bufs[i].refcnt > 0)
  {
    hide Content, Inv, ListOk, Pinned, IsSysStep;
    SysRunInv(c, nproc, nbuf, ys, sts);
    var y := ys[|sts|];
    ContentParts(c, y.log);
    if y.log.disk[b] != y.log.view[b] {
      StaleIsPinned(c, y.log, b);
      var x :| 0 <= x < |Pinned(y.log)| && Pinned(y.log)[x] == b;
      var i :| 0 <= i < |y.bufs| && y.bufs[i].dev == 1 && y.bufs[i].block == b && y.bufs[i].valid;
      assert BufOk(c, y.log, y.bufs[i], y.users[i], y.dirty[i]);
    }
  }

  /** Crash atomicity of the log as it runs through the cache. */
  lemma CachedCrashAtomicity(c: Config, nproc: nat, nbuf: nat, ys: seq<Sys>, sts: seq<CStep>)
    requires ValidConfig(c) && IsSysRun(c, nproc, nbuf, ys, sts)
    ensures var s := ys[|sts|].log;
            && WellSized(c, s.disk)
            && (forall b :: Home(c, b) ==> RecoveredAt(c, s.disk, b) == Apply(c.image, Flat(s.journal))[b])
            && (forall id: nat :: OfOp(Flat(s.journal), id) == [] || OfOp(Flat(s.journal), id) == OfOp(s.history, id))
  {
    hide CacheInv, ListOk, Apply, Flat, OfOp, RecoveredAt, ReadHeader, IsSysStep;
    SysRunInv(c, nproc, nbuf, ys, sts);
  }
}
