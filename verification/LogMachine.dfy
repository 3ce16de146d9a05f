/** The whole logging file-system core as one interleaved machine: processes that
    read and update blocks through the buffer cache (kernel/bio.c), operations that
    reserve log space and log their updates, the process that runs commit
    (kernel/log.c), and a machine that may crash before or after any block write and
    then recover, possibly crashing again inside recovery.

    A step is one critical section of the source, or one access to a buffer whose
    sleep-lock the acting process holds.  Where the source fixes an order that safety
    does not need (which free buffer is recycled, when commit gives its buffers back)
    the machine allows any order. */
module LogMachine {
  import opened Prelude
  import opened LogRecovery
  import R = LogReservation

  type Pid = R.Pid

  /** struct buf.  `refs` are the processes counted in refcnt that do not hold the
      lock: between bget and acquiresleep, or between releasesleep and the decrement
      in brelse.  `dirty` marks a buffer changed and not passed to log_write since. */
  datatype Buf = Buf(dev: nat, blockno: nat, valid: bool, refcnt: int, data: Block,
                     lock: Option<Pid>, refs: set<Pid>, dirty: bool)

  /** Where commit() is. */
  datatype CommitPc =
    | Idle
    | WriteLog(tail: nat)
    | Install(tail: nat)
    | Unpin(tail: nat)
    | Clearing(hdr: seq<int>)
    | Cleared

  /** The history of file-system operations. */
  datatype Event = Begin(pid: Pid) | Update(blockno: int, data: Block) | End(pid: Pid)

  /** `logical` is the disk as file-system code sees it; `durable` is the part of it
      that is promised to survive a crash, namely the effect of events[..ck];
      `pins` are the blocks whose buffer log_write has pinned. */
  datatype Sys =
    | Up(disk: Disk, bufs: seq<Buf>, log: R.Log, pc: CommitPc, committer: Pid, pins: set<int>,
         logical: Disk, durable: Disk, events: seq<Event>, ck: nat)
    | Down(disk: Disk, durable: Disk, events: seq<Event>)

  datatype Config = Config(g: Geometry, p: R.Params, dev: nat, disk0: Disk) {
    /** dev is the root device, which is not 0; disk0 is the image mkfs made. */
    predicate Ok() {
      && g.DiskOk(disk0)
      && HeaderOf(disk0[g.start]) == []
      && dev != 0
      && p.logsize == g.logsize && p.size == g.size && p.budget <= p.maxop
    }
  }

  /** Steps that touch one buffer only: the two outcomes of bget, acquiresleep, the
      disk read of bread, the two halves of brelse, and an update in place. */
  datatype CacheStep =
    | BGetHit(pid: Pid, i: nat, b: nat)
    | BGetMiss(pid: Pid, i: nat, b: nat)
    | Acquire(pid: Pid, i: nat)
    | Fill(pid: Pid, i: nat)
    | Release(pid: Pid, i: nat)
    | Drop(pid: Pid, i: nat)
    | Modify(pid: Pid, i: nat, data: Block)

  /** begin_op, log_write and end_op; and the brelse of a changed buffer that nobody passed
      to log_write, but whose block is in the log already: commit will write the change. */
  datatype OpStep =
    | BeginOp(pid: Pid)
    | LogWrite(pid: Pid, i: nat)
    | Absorb(pid: Pid, i: nat)
    | EndOp(pid: Pid)

  /** Steps of commit(), in program order. */
  datatype CommitStep =
    | CopyToLog(i: nat, j: nat)
    | WriteHead(i: nat)
    | InstallBlock(i: nat, j: nat)
    | UnpinBlock(j: nat)
    | ClearHeader
    | EraseHead(i: nat)
    | EndCommit

  datatype Step =
    | Cache(cache: CacheStep)
    | Op(op: OpStep)
    | Commit(commit: CommitStep)
    | Crash
    | FailedRecovery(k: nat)
    | Boot(bufs: seq<Buf>)

  /** A buffer as the cache stands after boot: never used, or read by recovery. */
  predicate BootBuf(c: Config, d: Disk, b: Buf) {
    && b.refcnt == 0 && b.lock.None? && b.refs == {} && !b.dirty && |b.data| == c.g.words
    && (b.dev == 0 || (b.dev == c.dev && b.blockno < |d| && b.valid && b.data == d[b.blockno]))
  }

  predicate BootCache(c: Config, d: Disk, cache: seq<Buf>) {
    && (forall i :: 0 <= i < |cache| ==> BootBuf(c, d, cache[i]))
    && UniqueKeys(c, cache)
  }

  predicate UniqueKeys(c: Config, bufs: seq<Buf>) {
    forall i, j :: 0 <= i < j < |bufs| && bufs[i].dev == c.dev && bufs[j].dev == c.dev ==>
      bufs[i].blockno != bufs[j].blockno
  }

  predicate Holds(c: Config, s: Sys, pid: Pid, i: nat)
    requires s.Up?
  {
    i < |s.bufs| && s.bufs[i].lock == Some(pid) && s.bufs[i].dev == c.dev
  }

  /** The committing process holds buffer i, filled, for block b. */
  predicate HoldsBlock(c: Config, s: Sys, i: nat, b: int)
    requires s.Up?
  {
    Holds(c, s, s.committer, i) && s.bufs[i].valid && s.bufs[i].blockno == b
  }

  /** Only commit touches the blocks of the log region. */
  predicate MayRead(c: Config, s: Sys, pid: Pid, b: nat)
    requires s.Up?
  {
    c.g.Home(b) || (b < c.g.nblocks && s.log.committing && pid == s.committer)
  }

  predicate CacheEnabled(c: Config, s: Sys, step: CacheStep)
    requires s.Up?
  {
    && step.i < |s.bufs|
    && var buf := s.bufs[step.i];
       match step
       case BGetHit(pid, _, b) =>
         && MayRead(c, s, pid, b) && buf.dev == c.dev && buf.blockno == b
         && pid !in buf.refs && buf.lock != Some(pid)
       case BGetMiss(pid, _, b) =>
         && MayRead(c, s, pid, b) && buf.refcnt == 0
         && forall j :: 0 <= j < |s.bufs| ==> !(s.bufs[j].dev == c.dev && s.bufs[j].blockno == b)
       case Acquire(pid, _) => pid in buf.refs && buf.lock.None?
       case Fill(pid, i) => Holds(c, s, pid, i) && !buf.valid && buf.blockno < |s.disk|
       case Release(pid, i) => Holds(c, s, pid, i) && !(buf.dirty && buf.blockno in s.pins)
       case Drop(pid, _) => pid in buf.refs
       case Modify(pid, i, data) =>
         && Holds(c, s, pid, i) && buf.valid && c.g.Home(buf.blockno)
         && pid in s.log.unspent && |data| == c.g.words
  }

  /** What a cache step makes of its buffer. */
  function CacheApply(c: Config, s: Sys, step: CacheStep): Buf
    requires s.Up? && CacheEnabled(c, s, step)
  {
    var buf := s.bufs[step.i];
    match step
    case BGetHit(pid, _, _) => buf.(refcnt := buf.refcnt + 1, refs := buf.refs + {pid})
    case BGetMiss(pid, _, b) => Buf(c.dev, b, false, 1, buf.data, buf.lock, {pid}, false)
    case Acquire(pid, _) => buf.(lock := Some(pid), refs := buf.refs - {pid})
    case Fill(_, _) => buf.(valid := true, data := s.disk[buf.blockno])
    case Release(pid, _) => buf.(lock := None, refs := buf.refs + {pid})
    case Drop(pid, _) => buf.(refcnt := buf.refcnt - 1, refs := buf.refs - {pid})
    case Modify(_, _, data) => buf.(data := data, dirty := true)
  }

  /** An operation has released its changed buffers by the time it ends. */
  predicate OpEnabled(c: Config, s: Sys, step: OpStep)
    requires s.Up?
  {
    match step
    case BeginOp(pid) => R.Enabled(c.p, s.log, R.BeginOp(pid))
    case LogWrite(pid, i) =>
      && Holds(c, s, pid, i) && s.bufs[i].valid && c.g.Home(s.bufs[i].blockno)
      && s.bufs[i].blockno < |s.logical|
      && R.Enabled(c.p, s.log, R.LogWrite(pid, s.bufs[i].blockno))
    case Absorb(pid, i) =>
      Holds(c, s, pid, i) && s.bufs[i].dirty && s.bufs[i].blockno in s.pins && s.bufs[i].blockno < |s.logical|
    case EndOp(pid) => R.Enabled(c.p, s.log, R.EndOp(pid)) && NoneChanged(s, pid)
  }

  /** The process holds no buffer whose change commit would write. */
  predicate NoneChanged(s: Sys, pid: Pid)
    requires s.Up?
  {
    forall i :: 0 <= i < |s.bufs| && s.bufs[i].lock == Some(pid) && s.bufs[i].dirty ==> s.bufs[i].blockno !in s.pins
  }

  /** log_write: on a block new to the log the buffer is pinned as well. */
  function LogWritten(c: Config, s: Sys, pid: Pid, i: nat): Sys
    requires s.Up? && OpEnabled(c, s, LogWrite(pid, i))
  {
    var buf := s.bufs[i];
    var log := R.Apply(c.p, s.log, R.LogWrite(pid, buf.blockno));
    if log.panicked then s.(log := log)
    else
      var isNew := buf.blockno !in s.log.lh;
      s.(log := log,
         bufs := s.bufs[i := buf.(refcnt := if isNew then buf.refcnt + 1 else buf.refcnt, dirty := false)],
         pins := s.pins + {buf.blockno},
         logical := s.logical[buf.blockno := buf.data],
         events := s.events + [Update(buf.blockno, buf.data)])
  }

  function Absorbed(c: Config, s: Sys, pid: Pid, i: nat): Sys
    requires s.Up? && OpEnabled(c, s, Absorb(pid, i))
  {
    var buf := s.bufs[i];
    s.(bufs := s.bufs[i := buf.(lock := None, refs := buf.refs + {pid}, dirty := false)],
       logical := s.logical[buf.blockno := buf.data],
       events := s.events + [Update(buf.blockno, buf.data)])
  }

  /** end_op; the process that brings the count to zero goes on to commit(), which
      does nothing when the log is empty. */
  function EndedOp(c: Config, s: Sys, pid: Pid): Sys
    requires s.Up? && OpEnabled(c, s, EndOp(pid))
  {
    var log := R.Apply(c.p, s.log, R.EndOp(pid));
    if log.panicked then s.(log := log)
    else
      s.(log := log, events := s.events + [End(pid)], committer := pid,
         pc := if !log.committing then s.pc else if log.lh == [] then Cleared else WriteLog(0))
  }

  function OpApply(c: Config, s: Sys, step: OpStep): Sys
    requires s.Up? && OpEnabled(c, s, step)
  {
    match step
    case BeginOp(pid) =>
      s.(log := R.Apply(c.p, s.log, R.BeginOp(pid)), events := s.events + [Begin(pid)])
    case LogWrite(pid, i) => LogWritten(c, s, pid, i)
    case Absorb(pid, i) => Absorbed(c, s, pid, i)
    case EndOp(pid) => EndedOp(c, s, pid)
  }

  predicate CommitEnabled(c: Config, s: Sys, step: CommitStep)
    requires s.Up?
  {
    match step
    case CopyToLog(i, j) =>
      && s.pc.WriteLog? && s.pc.tail < |s.log.lh| && c.g.start + s.pc.tail + 1 < |s.disk|
      && HoldsBlock(c, s, i, c.g.start + s.pc.tail + 1) && HoldsBlock(c, s, j, s.log.lh[s.pc.tail])
    case WriteHead(i) =>
      && s.pc.WriteLog? && s.pc.tail == |s.log.lh| && HoldsBlock(c, s, i, c.g.start)
      && c.g.start < |s.disk| && |s.log.lh| < |s.bufs[i].data|
    case InstallBlock(i, j) =>
      && s.pc.Install? && s.pc.tail < |s.log.lh| && 0 <= s.log.lh[s.pc.tail] < |s.disk|
      && HoldsBlock(c, s, i, c.g.start + s.pc.tail + 1) && HoldsBlock(c, s, j, s.log.lh[s.pc.tail])
    case UnpinBlock(j) =>
      && s.pc.Unpin? && s.pc.tail < |s.log.lh| && HoldsBlock(c, s, j, s.log.lh[s.pc.tail])
    case ClearHeader => s.pc.Install? && s.pc.tail == |s.log.lh| && R.Enabled(c.p, s.log, R.ClearHeader)
    case EraseHead(i) =>
      && s.pc.Clearing? && HoldsBlock(c, s, i, c.g.start)
      && c.g.start < |s.disk| && |s.bufs[i].data| > 0
    case EndCommit => s.pc.Cleared? && R.Enabled(c.p, s.log, R.EndCommit)
  }

  /** bwrite: the locked buffer's new contents reach the disk in one atomic write. */
  function Written(s: Sys, i: nat, data: Block): Sys
    requires s.Up? && i < |s.bufs| && s.bufs[i].blockno < |s.disk|
  {
    s.(bufs := s.bufs[i := s.bufs[i].(data := data)], disk := s.disk[s.bufs[i].blockno := data])
  }

  function CommitApply(c: Config, s: Sys, step: CommitStep): Sys
    requires s.Up? && CommitEnabled(c, s, step)
  {
    match step
    case CopyToLog(i, j) => Written(s, i, s.bufs[j].data).(pc := WriteLog(s.pc.tail + 1))
    case WriteHead(i) =>
      Written(s, i, WithHeader(s.bufs[i].data, s.log.lh)).(
        pc := Install(0), durable := s.logical, ck := |s.events|)
    case InstallBlock(i, j) => Written(s, j, s.bufs[i].data).(pc := Unpin(s.pc.tail))
    case UnpinBlock(j) =>
      s.(bufs := s.bufs[j := s.bufs[j].(refcnt := s.bufs[j].refcnt - 1)],
         pins := s.pins - {s.log.lh[s.pc.tail]}, pc := Install(s.pc.tail + 1))
    case ClearHeader => s.(log := R.Apply(c.p, s.log, R.ClearHeader), pc := Clearing(s.log.lh))
    case EraseHead(i) => Written(s, i, WithHeader(s.bufs[i].data, [])).(pc := Cleared)
    case EndCommit => s.(log := R.Apply(c.p, s.log, R.EndCommit), pc := Idle)
  }

  predicate Enabled(c: Config, s: Sys, step: Step) {
    match step
    case Cache(cs) => s.Up? && !s.log.panicked && CacheEnabled(c, s, cs)
    case Op(os) => s.Up? && !s.log.panicked && OpEnabled(c, s, os)
    case Commit(ms) => s.Up? && !s.log.panicked && CommitEnabled(c, s, ms)
    case Crash => s.Up? && s.ck <= |s.events|
    case FailedRecovery(k) => s.Down? && c.g.DiskOk(s.disk) && k <= |HeaderOf(s.disk[c.g.start])| + 1
    case Boot(bufs) => s.Down? && c.g.DiskOk(s.disk) && BootCache(c, Recovered(c.g, s.disk), bufs)
  }

  /** A crash forgets memory and with it every operation after the last commit. */
  function Apply(c: Config, s: Sys, step: Step): Sys
    requires Enabled(c, s, step)
  {
    match step
    case Cache(cs) => s.(bufs := s.bufs[cs.i := CacheApply(c, s, cs)])
    case Op(os) => OpApply(c, s, os)
    case Commit(ms) => CommitApply(c, s, ms)
    case Crash => Down(s.disk, s.durable, s.events[..s.ck])
    case FailedRecovery(k) => s.(disk := RecoveryState(c.g, s.disk, k))
    case Boot(bufs) =>
      Up(Recovered(c.g, s.disk), bufs, R.Empty, Idle, 0, {}, s.durable, s.durable, s.events, |s.events|)
  }

  // ---- what the history means ----

  /** The disk after a history of updates. */
  function Replay(d: Disk, ev: seq<Event>): (r: Disk)
    ensures |r| == |d|
  {
    if ev == [] then d
    else
      var r := Replay(d, ev[..|ev| - 1]);
      match ev[|ev| - 1]
      case Update(b, data) => if 0 <= b < |r| then r[b := data] else r
      case _ => r
  }

  /** Operations begun and not ended in a history. */
  function OpenOps(ev: seq<Event>): set<Pid> {
    if ev == [] then {}
    else
      var r := OpenOps(ev[..|ev| - 1]);
      match ev[|ev| - 1]
      case Begin(pid) => r + {pid}
      case End(pid) => r - {pid}
      case Update(_, _) => r
  }

  // ---- invariant ----
  //
  // Each part is stated over the components it speaks about, so that a step keeps a
  // part whose components it leaves alone.

  ghost predicate BufInv(c: Config, d: Disk, l: Disk, pins: set<int>, active: set<Pid>, b: Buf)
    requires |d| == |l| == c.g.nblocks
  {
    && |b.data| == c.g.words
    && (b.dev == 0 || b.dev == c.dev)
    && (b.dev == c.dev ==> b.blockno < c.g.nblocks)
    && b.refcnt == |b.refs| + (if b.lock.Some? then 1 else 0)
                   + (if b.dev == c.dev && b.blockno in pins then 1 else 0)
    && (b.dev == 0 ==> b.refs == {} && b.lock.None?)
    && (b.lock.Some? ==> b.lock.value !in b.refs)
    && (b.dirty ==> b.valid && b.dev == c.dev && c.g.Home(b.blockno))
    && (b.dirty && b.blockno in pins ==> b.lock.Some? && b.lock.value in active)
    && (b.valid && b.dev == c.dev ==>
          if c.g.Home(b.blockno) then b.dirty || b.data == l[b.blockno] else b.data == d[b.blockno])
  }

  ghost predicate Cached(c: Config, bufs: seq<Buf>, i: int, b: int) {
    0 <= i < |bufs| && bufs[i].dev == c.dev && bufs[i].blockno == b && bufs[i].valid
  }

  /** Every pinned block is cached and valid, so its logged contents cannot be lost. */
  ghost predicate PinsCached(c: Config, pins: set<int>, bufs: seq<Buf>) {
    forall b :: b in pins ==> exists i :: Cached(c, bufs, i, b)
  }

  ghost predicate BufsInv(c: Config, d: Disk, l: Disk, pins: set<int>, active: set<Pid>, bufs: seq<Buf>)
    requires |d| == |l| == c.g.nblocks
  {
    && (forall i :: 0 <= i < |bufs| ==> BufInv(c, d, l, pins, active, bufs[i]))
    && UniqueKeys(c, bufs)
    && PinsCached(c, pins, bufs)
  }

  function PinFrom(pc: CommitPc): nat {
    match pc
    case Install(t) => t
    case Unpin(t) => t
    case _ => 0
  }

  /** The pinned blocks are the listed blocks that commit has not yet installed. */
  ghost predicate PinsListed(pc: CommitPc, lh: seq<int>, pins: set<int>) {
    && (forall j :: PinFrom(pc) <= j < |lh| ==> lh[j] in pins)
    && (forall j :: 0 <= j < PinFrom(pc) && j < |lh| ==> lh[j] !in pins)
    && (forall b :: b in pins ==> b in lh)
  }

  /** A home block that is not pinned is up to date on disk. */
  ghost predicate HomeAgrees(c: Config, d: Disk, l: Disk, pins: set<int>)
    requires |d| == |l| == c.g.nblocks
  {
    forall b :: c.g.Home(b) && b !in pins ==> d[b] == l[b]
  }

  /** Log block j holds the current contents of the block that hdr[j] names. */
  ghost predicate LogHolds(c: Config, d: Disk, l: Disk, hdr: seq<int>, k: nat)
    requires c.g.Ok() && |d| == |l| == c.g.nblocks && c.g.ListOk(hdr) && k <= |hdr|
  {
    forall j :: 0 <= j < k ==> d[c.g.start + 1 + j] == l[hdr[j]]
  }

  predicate Shape(c: Config, d: Disk, l: Disk, durable: Disk, lh: seq<int>) {
    && c.g.Ok() && c.g.DiskShape(d) && c.g.DiskShape(l) && c.g.DiskShape(durable)
    && c.g.HeaderWellFormed(d[c.g.start]) && c.g.ListOk(lh)
  }

  /** What the disk holds in each phase of commit. */
  ghost predicate PhaseInv(c: Config, pc: CommitPc, lh: seq<int>, d: Disk, l: Disk, durable: Disk)
    requires Shape(c, d, l, durable, lh)
  {
    var hdr := HeaderOf(d[c.g.start]);
    match pc
    case Idle => hdr == [] && SameHome(c.g, d, durable)
    case WriteLog(t) => t <= |lh| && hdr == [] && SameHome(c.g, d, durable) && LogHolds(c, d, l, lh, t)
    case Install(t) => t <= |lh| && hdr == lh && durable == l && LogHolds(c, d, l, lh, |lh|)
    case Unpin(t) =>
      t < |lh| && hdr == lh && durable == l && LogHolds(c, d, l, lh, |lh|) && d[lh[t]] == l[lh[t]]
    case Clearing(listed) =>
      c.g.ListOk(listed) && hdr == listed && durable == l && LogHolds(c, d, l, listed, |listed|) && lh == []
    case Cleared => hdr == [] && SameHome(c.g, d, durable) && lh == []
  }

  ghost predicate HistoryInv(c: Config, events: seq<Event>, ck: nat, l: Disk, durable: Disk, active: set<Pid>) {
    && ck <= |events|
    && l == Replay(c.disk0, events)
    && durable == Replay(c.disk0, events[..ck])
    && OpenOps(events[..ck]) == {}
    && OpenOps(events) == active
  }

  ghost predicate UpInv(c: Config, s: Sys)
    requires s.Up?
  {
    && Shape(c, s.disk, s.logical, s.durable, s.log.lh)
    && R.Inv(c.p, s.log)
    && (s.log.committing <==> !s.pc.Idle?)
    && BufsInv(c, s.disk, s.logical, s.pins, s.log.unspent.Keys, s.bufs)
    && PinsListed(s.pc, s.log.lh, s.pins)
    && HomeAgrees(c, s.disk, s.logical, s.pins)
    && PhaseInv(c, s.pc, s.log.lh, s.disk, s.logical, s.durable)
    && HistoryInv(c, s.events, s.ck, s.logical, s.durable, s.log.unspent.Keys)
  }

  ghost predicate DownInv(c: Config, s: Sys)
    requires s.Down?
  {
    && c.g.DiskOk(s.disk) && c.g.DiskShape(s.durable)
    && SameHome(c.g, Recovered(c.g, s.disk), s.durable)
    && s.durable == Replay(c.disk0, s.events) && OpenOps(s.events) == {}
  }

  ghost predicate Inv(c: Config, s: Sys) {
    if s.Up? then UpInv(c, s) else DownInv(c, s)
  }

  // ---- preservation ----

  lemma UncachedNotPinned(c: Config, pins: set<int>, bufs: seq<Buf>, n: int)
    requires PinsCached(c, pins, bufs) && forall i :: !Cached(c, bufs, i, n)
    ensures n !in pins
  {
  }

  /** Every step on a buffer keeps that buffer's invariant and never takes a pinned
      block out of the cache. */
  lemma CacheBufInv(c: Config, s: Sys, step: CacheStep)
    requires s.Up? && c.Ok() && |s.disk| == |s.logical| == c.g.nblocks && CacheEnabled(c, s, step)
    requires BufsInv(c, s.disk, s.logical, s.pins, s.log.unspent.Keys, s.bufs)
    requires HomeAgrees(c, s.disk, s.logical, s.pins) && c.g.DiskShape(s.disk)
    ensures BufInv(c, s.disk, s.logical, s.pins, s.log.unspent.Keys, CacheApply(c, s, step))
    ensures var b, b' := s.bufs[step.i], CacheApply(c, s, step);
            b.dev == c.dev && b.blockno in s.pins ==>
              b'.dev == b.dev && b'.blockno == b.blockno && (b.valid ==> b'.valid)
    ensures step.BGetMiss? || (CacheApply(c, s, step).dev == s.bufs[step.i].dev &&
                               CacheApply(c, s, step).blockno == s.bufs[step.i].blockno)
  {
    var b := s.bufs[step.i];
    assert BufInv(c, s.disk, s.logical, s.pins, s.log.unspent.Keys, b);
    match step
    case BGetMiss(pid, i, n) =>
      UncachedNotPinned(c, s.pins, s.bufs, n);
      MissBuf(c, s, b, pid, n);
    case Fill(pid, i) =>
      UncachedNotPinned(c, s.pins, s.bufs, b.blockno);
    case _ =>
  }

  /** A recycled buffer was in use by nobody and pinned for nothing. */
  lemma MissBuf(c: Config, s: Sys, b: Buf, pid: Pid, n: nat)
    requires s.Up? && |s.disk| == |s.logical| == c.g.nblocks && c.dev != 0 && n < c.g.nblocks && n !in s.pins
    requires BufInv(c, s.disk, s.logical, s.pins, s.log.unspent.Keys, b) && b.refcnt == 0
    ensures BufInv(c, s.disk, s.logical, s.pins, s.log.unspent.Keys,
              Buf(c.dev, n, false, 1, b.data, b.lock, {pid}, false))
    ensures !(b.dev == c.dev && b.blockno in s.pins)
  {
  }

  /** Replacing one buffer by another for the same block keeps the pinned blocks cached. */
  lemma PinsStayCached(c: Config, pins: set<int>, bufs: seq<Buf>, i: nat, b: Buf)
    requires PinsCached(c, pins, bufs) && i < |bufs|
    requires bufs[i].dev == c.dev && bufs[i].blockno in pins ==>
               b.dev == c.dev && b.blockno == bufs[i].blockno && (bufs[i].valid ==> b.valid)
    ensures PinsCached(c, pins, bufs[i := b])
  {
    var bufs' := bufs[i := b];
    forall n | n in pins
      ensures exists j :: Cached(c, bufs', j, n)
    {
      var j :| Cached(c, bufs, j, n);
      assert Cached(c, bufs', j, n);
    }
  }

  lemma CacheKeepsInv(c: Config, s: Sys, step: CacheStep)
    requires s.Up? && c.Ok() && UpInv(c, s) && CacheEnabled(c, s, step)
    ensures UpInv(c, s.(bufs := s.bufs[step.i := CacheApply(c, s, step)]))
  {
    CacheBufInv(c, s, step);
    PinsStayCached(c, s.pins, s.bufs, step.i, CacheApply(c, s, step));
    CacheKeys(c, s, step);
  }

  /** A recycled buffer gets a key that no other buffer has. */
  lemma CacheKeys(c: Config, s: Sys, step: CacheStep)
    requires s.Up? && UniqueKeys(c, s.bufs) && CacheEnabled(c, s, step)
    ensures UniqueKeys(c, s.bufs[step.i := CacheApply(c, s, step)])
  {
  }

  lemma ReplayAppend(d: Disk, ev: seq<Event>, e: Event)
    ensures (ev + [e])[..|ev|] == ev
    ensures Replay(d, ev + [e]) ==
            if e.Update? && 0 <= e.blockno < |d| then Replay(d, ev)[e.blockno := e.data] else Replay(d, ev)
    ensures OpenOps(ev + [e]) ==
            if e.Begin? then OpenOps(ev) + {e.pid}
            else if e.End? then OpenOps(ev) - {e.pid}
            else OpenOps(ev)
  {
    assert (ev + [e])[..|ev|] == ev;
  }

  lemma BeginKeepsInv(c: Config, s: Sys, pid: Pid)
    requires s.Up? && c.Ok() && UpInv(c, s) && OpEnabled(c, s, BeginOp(pid))
    ensures UpInv(c, OpApply(c, s, BeginOp(pid)))
  {
    var s' := OpApply(c, s, BeginOp(pid));
    R.InvStep(c.p, s.log, R.BeginOp(pid));
    ReplayAppend(c.disk0, s.events, Begin(pid));
    assert s'.events[..s'.ck] == s.events[..s.ck];
    assert s'.log.unspent.Keys == s.log.unspent.Keys + {pid};
    assert BufsInv(c, s'.disk, s'.logical, s'.pins, s'.log.unspent.Keys, s'.bufs);
  }

  /** No operation runs while commit does. */
  lemma OpsNotCommitting(c: Config, s: Sys, pid: Pid)
    requires s.Up? && UpInv(c, s) && pid in s.log.unspent
    ensures s.pc.Idle?
  {
    R.SizeWithout(s.log.unspent, pid);
  }

  /** A process that ends its operation leaves no change behind that commit would write. */
  lemma EndBufs(c: Config, s: Sys, pid: Pid)
    requires s.Up? && UpInv(c, s) && NoneChanged(s, pid)
    ensures BufsInv(c, s.disk, s.logical, s.pins, s.log.unspent.Keys - {pid}, s.bufs)
  {
    forall i | 0 <= i < |s.bufs|
      ensures BufInv(c, s.disk, s.logical, s.pins, s.log.unspent.Keys - {pid}, s.bufs[i])
    {
      assert BufInv(c, s.disk, s.logical, s.pins, s.log.unspent.Keys, s.bufs[i]);
    }
  }

  lemma EndKeepsInv(c: Config, s: Sys, pid: Pid)
    requires s.Up? && c.Ok() && UpInv(c, s) && OpEnabled(c, s, EndOp(pid))
    ensures UpInv(c, OpApply(c, s, EndOp(pid)))
    ensures !OpApply(c, s, EndOp(pid)).log.panicked
  {
    var s' := OpApply(c, s, EndOp(pid));
    R.InvStep(c.p, s.log, R.EndOp(pid));
    ReplayAppend(c.disk0, s.events, End(pid));
    OpsNotCommitting(c, s, pid);
    EndBufs(c, s, pid);
    assert s'.log.unspent.Keys == s.log.unspent.Keys - {pid};
    assert s'.events[..s'.ck] == s.events[..s.ck];
    assert HistoryInv(c, s'.events, s'.ck, s'.logical, s'.durable, s'.log.unspent.Keys);
    assert PhaseInv(c, s'.pc, s'.log.lh, s'.disk, s'.logical, s'.durable);
  }

  /** The cache after log_write on buffer i, which now holds the current contents. */
  lemma LogWriteBufs(c: Config, s: Sys, i: nat, b: Buf)
    requires s.Up? && c.Ok() && UpInv(c, s) && i < |s.bufs|
    requires s.bufs[i].dev == c.dev && s.bufs[i].valid && c.g.Home(s.bufs[i].blockno)
    requires var n := s.bufs[i].blockno;
             b == s.bufs[i].(refcnt := if n in s.pins then s.bufs[i].refcnt else s.bufs[i].refcnt + 1, dirty := false)
    ensures var n := s.bufs[i].blockno;
            BufsInv(c, s.disk, s.logical[n := b.data], s.pins + {n}, s.log.unspent.Keys, s.bufs[i := b])
  {
    var n := s.bufs[i].blockno;
    var l, pins, bufs := s.logical[n := b.data], s.pins + {n}, s.bufs[i := b];
    forall k | 0 <= k < |bufs|
      ensures BufInv(c, s.disk, l, pins, s.log.unspent.Keys, bufs[k])
    {
      assert BufInv(c, s.disk, s.logical, s.pins, s.log.unspent.Keys, s.bufs[k]);
    }
    PinsStayCached(c, s.pins, s.bufs, i, b);
    assert Cached(c, bufs, i, n);
  }

  /** The list and the pins after log_write on block n. */
  lemma LogWriteListed(lh: seq<int>, pins: set<int>, n: int)
    requires PinsListed(Idle, lh, pins)
    ensures n in lh <==> n in pins
    ensures PinsListed(Idle, if n in lh then lh else lh + [n], pins + {n})
  {
  }

  lemma LogWriteHistory(c: Config, s: Sys, n: nat, data: Block)
    requires s.Up? && HistoryInv(c, s.events, s.ck, s.logical, s.durable, s.log.unspent.Keys) && n < |c.disk0|
    ensures HistoryInv(c, s.events + [Update(n, data)], s.ck, s.logical[n := data], s.durable, s.log.unspent.Keys)
  {
    ReplayAppend(c.disk0, s.events, Update(n, data));
    assert (s.events + [Update(n, data)])[..s.ck] == s.events[..s.ck];
  }

  /** The state after log_write on buffer i, whose log is log'. */
  lemma LoggedInv(c: Config, s: Sys, i: nat, log': R.Log, b: Buf)
    requires s.Up? && c.Ok() && UpInv(c, s) && s.pc.Idle? && i < |s.bufs|
    requires s.bufs[i].dev == c.dev && s.bufs[i].valid && c.g.Home(s.bufs[i].blockno)
    requires R.Inv(c.p, log') && log'.unspent.Keys == s.log.unspent.Keys && !log'.committing && c.g.ListOk(log'.lh)
    requires var n := s.bufs[i].blockno;
             && log'.lh == (if n in s.log.lh then s.log.lh else s.log.lh + [n])
             && b == s.bufs[i].(refcnt := if n in s.log.lh then s.bufs[i].refcnt else s.bufs[i].refcnt + 1,
                                dirty := false)
    ensures var n, data := s.bufs[i].blockno, s.bufs[i].data;
            n < |s.logical| &&
            UpInv(c, s.(log := log', bufs := s.bufs[i := b], pins := s.pins + {n}, logical := s.logical[n := data],
                        events := s.events + [Update(n, data)]))
  {
    var n := s.bufs[i].blockno;
    assert BufInv(c, s.disk, s.logical, s.pins, s.log.unspent.Keys, s.bufs[i]);
    LogWriteHistory(c, s, n, s.bufs[i].data);
    LogWriteListed(s.log.lh, s.pins, n);
    LogWriteBufs(c, s, i, b);
  }

  lemma LogWriteKeepsInv(c: Config, s: Sys, pid: Pid, i: nat)
    requires s.Up? && c.Ok() && UpInv(c, s) && OpEnabled(c, s, LogWrite(pid, i))
    ensures UpInv(c, OpApply(c, s, LogWrite(pid, i)))
  {
    var n := s.bufs[i].blockno;
    R.InvStep(c.p, s.log, R.LogWrite(pid, n));
    OpsNotCommitting(c, s, pid);
    var s' := LogWritten(c, s, pid, i);
    if !s'.log.panicked {
      assert s'.log.unspent.Keys == s.log.unspent.Keys;
      LoggedInv(c, s, i, s'.log, s'.bufs[i]);
    }
  }

  /** The cache after Absorb. */
  lemma AbsorbBufs(c: Config, s: Sys, pid: Pid, i: nat)
    requires s.Up? && c.Ok() && UpInv(c, s) && OpEnabled(c, s, Absorb(pid, i))
    ensures var s' := Absorbed(c, s, pid, i);
            BufsInv(c, s.disk, s'.logical, s.pins, s.log.unspent.Keys, s'.bufs)
  {
    var s' := Absorbed(c, s, pid, i);
    forall k | 0 <= k < |s'.bufs|
      ensures BufInv(c, s.disk, s'.logical, s.pins, s.log.unspent.Keys, s'.bufs[k])
    {
      assert BufInv(c, s.disk, s.logical, s.pins, s.log.unspent.Keys, s.bufs[k]);
      assert BufInv(c, s.disk, s.logical, s.pins, s.log.unspent.Keys, s.bufs[i]);
    }
    PinsStayCached(c, s.pins, s.bufs, i, s'.bufs[i]);
  }

  lemma AbsorbKeepsInv(c: Config, s: Sys, pid: Pid, i: nat)
    requires s.Up? && c.Ok() && UpInv(c, s) && OpEnabled(c, s, Absorb(pid, i))
    ensures UpInv(c, OpApply(c, s, Absorb(pid, i)))
  {
    assert BufInv(c, s.disk, s.logical, s.pins, s.log.unspent.Keys, s.bufs[i]);
    OpsNotCommitting(c, s, s.bufs[i].lock.value);
    AbsorbBufs(c, s, pid, i);
    LogWriteHistory(c, s, s.bufs[i].blockno, s.bufs[i].data);
  }

  /** While commit runs no pinned buffer has an unlogged change, because no operation is
      running. */
  lemma CommitClean(c: Config, s: Sys, i: nat)
    requires s.Up? && UpInv(c, s) && s.log.committing && i < |s.bufs|
    ensures BufInv(c, s.disk, s.logical, s.pins, s.log.unspent.Keys, s.bufs[i])
    ensures s.bufs[i].dev == c.dev && (s.bufs[i].blockno in s.pins || !c.g.Home(s.bufs[i].blockno)) ==> !s.bufs[i].dirty
  {
    assert BufInv(c, s.disk, s.logical, s.pins, s.log.unspent.Keys, s.bufs[i]);
    assert s.log.unspent.Keys == {};
  }

  /** A buffer written through to its block by commit: the parts of the invariant that
      do not depend on the phase. */
  lemma WrittenKeeps(c: Config, s: Sys, i: nat, data: Block)
    requires s.Up? && c.Ok() && UpInv(c, s)
    requires i < |s.bufs| && s.bufs[i].dev == c.dev && s.bufs[i].valid && s.bufs[i].blockno < |s.disk|
    requires |data| == c.g.words
    requires c.g.Home(s.bufs[i].blockno) ==> data == s.logical[s.bufs[i].blockno]
    ensures var t := Written(s, i, data);
            && c.g.DiskShape(t.disk)
            && BufsInv(c, t.disk, s.logical, s.pins, s.log.unspent.Keys, t.bufs)
            && HomeAgrees(c, t.disk, s.logical, s.pins)
  {
    WrittenBufs(c, s, i, data);
  }

  lemma WrittenBufs(c: Config, s: Sys, i: nat, data: Block)
    requires s.Up? && |s.disk| == |s.logical| == c.g.nblocks
    requires BufsInv(c, s.disk, s.logical, s.pins, s.log.unspent.Keys, s.bufs)
    requires i < |s.bufs| && s.bufs[i].dev == c.dev && s.bufs[i].valid && s.bufs[i].blockno < |s.disk|
    requires |data| == c.g.words
    requires c.g.Home(s.bufs[i].blockno) ==> data == s.logical[s.bufs[i].blockno]
    ensures BufsInv(c, Written(s, i, data).disk, s.logical, s.pins, s.log.unspent.Keys, Written(s, i, data).bufs)
  {
    var t := Written(s, i, data);
    forall k | 0 <= k < |t.bufs|
      ensures BufInv(c, t.disk, s.logical, s.pins, s.log.unspent.Keys, t.bufs[k])
    {
      assert BufInv(c, s.disk, s.logical, s.pins, s.log.unspent.Keys, s.bufs[k]);
    }
    PinsStayCached(c, s.pins, s.bufs, i, t.bufs[i]);
  }

  /** What the committing process finds in a filled buffer for block b. */
  lemma BlockData(c: Config, s: Sys, i: nat, b: int)
    requires s.Up? && c.Ok() && UpInv(c, s) && s.log.committing && HoldsBlock(c, s, i, b)
    requires c.g.Home(b) ==> b in s.pins
    ensures 0 <= b < c.g.nblocks && |s.bufs[i].data| == c.g.words
    ensures s.bufs[i].data == if c.g.Home(b) then s.logical[b] else s.disk[b]
  {
    CommitClean(c, s, i);
  }

  lemma CopyPhase(c: Config, lh: seq<int>, t: nat, d: Disk, d': Disk, l: Disk, durable: Disk)
    requires Shape(c, d, l, durable, lh) && t < |lh| && PhaseInv(c, WriteLog(t), lh, d, l, durable)
    requires d' == d[c.g.start + t + 1 := l[lh[t]]] && Shape(c, d', l, durable, lh)
    ensures PhaseInv(c, WriteLog(t + 1), lh, d', l, durable)
  {
    assert c.g.InLog(c.g.start + t + 1);
    assert LogHolds(c, d', l, lh, t + 1);
  }

  lemma CopyKeepsInv(c: Config, s: Sys, i: nat, j: nat)
    requires s.Up? && c.Ok() && UpInv(c, s) && CommitEnabled(c, s, CopyToLog(i, j))
    ensures UpInv(c, CommitApply(c, s, CopyToLog(i, j)))
  {
    BlockData(c, s, j, s.log.lh[s.pc.tail]);
    assert c.g.InLog(c.g.start + s.pc.tail + 1);
    WrittenKeeps(c, s, i, s.bufs[j].data);
    CopyPhase(c, s.log.lh, s.pc.tail, s.disk, Written(s, i, s.bufs[j].data).disk, s.logical, s.durable);
  }

  lemma WriteHeadKeepsInv(c: Config, s: Sys, i: nat)
    requires s.Up? && c.Ok() && UpInv(c, s) && CommitEnabled(c, s, WriteHead(i))
    ensures UpInv(c, CommitApply(c, s, WriteHead(i)))
  {
    var s' := CommitApply(c, s, WriteHead(i));
    CommitClean(c, s, i);
    WithHeaderDecodes(s.bufs[i].data, s.log.lh);
    WrittenKeeps(c, s, i, WithHeader(s.bufs[i].data, s.log.lh));
    assert s.events[..|s.events|] == s.events;
    assert LogHolds(c, s'.disk, s.logical, s.log.lh, |s.log.lh|);
  }

  lemma InstallPhase(c: Config, lh: seq<int>, t: nat, d: Disk, d': Disk, l: Disk, durable: Disk)
    requires Shape(c, d, l, durable, lh) && t < |lh| && PhaseInv(c, Install(t), lh, d, l, durable)
    requires d' == d[lh[t] := l[lh[t]]] && Shape(c, d', l, durable, lh)
    ensures PhaseInv(c, Unpin(t), lh, d', l, durable)
  {
    forall j | 0 <= j < |lh|
      ensures d'[c.g.start + 1 + j] == l[lh[j]]
    {
      assert c.g.InLog(c.g.start + 1 + j) && c.g.Home(lh[t]);
    }
  }

  /** The log block that is installed holds the current contents. */
  lemma LoggedData(c: Config, s: Sys, i: nat)
    requires s.Up? && c.Ok() && UpInv(c, s) && s.log.committing && s.pc.Install? && s.pc.tail < |s.log.lh|
    requires HoldsBlock(c, s, i, c.g.start + s.pc.tail + 1)
    ensures c.g.Home(s.log.lh[s.pc.tail]) && s.bufs[i].data == s.logical[s.log.lh[s.pc.tail]]
  {
    LogBlock(c, s.pc.tail, s.log.lh, s.disk, s.logical, s.durable);
    BlockData(c, s, i, c.g.start + s.pc.tail + 1);
  }

  lemma LogBlock(c: Config, t: nat, lh: seq<int>, d: Disk, l: Disk, durable: Disk)
    requires Shape(c, d, l, durable, lh) && t < |lh| && PhaseInv(c, Install(t), lh, d, l, durable)
    ensures c.g.Home(lh[t]) && !c.g.Home(c.g.start + t + 1) && c.g.start + t + 1 < |d|
    ensures d[c.g.start + t + 1] == l[lh[t]]
  {
    assert c.g.InLog(c.g.start + t + 1);
    assert d[c.g.start + 1 + t] == l[lh[t]];
  }

  lemma InstallKeepsInv(c: Config, s: Sys, i: nat, j: nat)
    requires s.Up? && c.Ok() && UpInv(c, s) && CommitEnabled(c, s, InstallBlock(i, j))
    ensures UpInv(c, CommitApply(c, s, InstallBlock(i, j)))
  {
    LoggedData(c, s, i);
    WrittenKeeps(c, s, j, s.bufs[i].data);
    InstallPhase(c, s.log.lh, s.pc.tail, s.disk, Written(s, j, s.bufs[i].data).disk, s.logical, s.durable);
  }

  /** bunpin takes back exactly the reference that log_write added. */
  lemma UnpinBufs(c: Config, s: Sys, j: nat)
    requires s.Up? && c.Ok() && |s.disk| == |s.logical| == c.g.nblocks && CommitEnabled(c, s, UnpinBlock(j))
    requires BufsInv(c, s.disk, s.logical, s.pins, s.log.unspent.Keys, s.bufs)
    requires PinsListed(s.pc, s.log.lh, s.pins)
    ensures var s' := CommitApply(c, s, UnpinBlock(j));
            BufsInv(c, s.disk, s.logical, s'.pins, s.log.unspent.Keys, s'.bufs)
  {
    var s' := CommitApply(c, s, UnpinBlock(j));
    forall k | 0 <= k < |s'.bufs|
      ensures BufInv(c, s.disk, s.logical, s'.pins, s.log.unspent.Keys, s'.bufs[k])
    {
      assert BufInv(c, s.disk, s.logical, s.pins, s.log.unspent.Keys, s.bufs[k]);
    }
    PinsStayCached(c, s.pins, s.bufs, j, s'.bufs[j]);
  }

  lemma UnpinListed(lh: seq<int>, t: nat, pins: set<int>)
    requires R.Distinct(lh) && t < |lh| && PinsListed(Unpin(t), lh, pins)
    ensures PinsListed(Install(t + 1), lh, pins - {lh[t]})
  {
  }

  lemma UnpinKeepsInv(c: Config, s: Sys, j: nat)
    requires s.Up? && c.Ok() && UpInv(c, s) && CommitEnabled(c, s, UnpinBlock(j))
    ensures UpInv(c, CommitApply(c, s, UnpinBlock(j)))
  {
    UnpinBufs(c, s, j);
    UnpinListed(s.log.lh, s.pc.tail, s.pins);
    UnpinHome(c, s.disk, s.logical, s.durable, s.log.lh, s.pc.tail, s.pins);
  }

  /** The installed block is up to date on disk, so it need not be pinned. */
  lemma UnpinHome(c: Config, d: Disk, l: Disk, durable: Disk, lh: seq<int>, t: nat, pins: set<int>)
    requires Shape(c, d, l, durable, lh) && t < |lh| && HomeAgrees(c, d, l, pins)
    requires PhaseInv(c, Unpin(t), lh, d, l, durable)
    ensures HomeAgrees(c, d, l, pins - {lh[t]}) && PhaseInv(c, Install(t + 1), lh, d, l, durable)
  {
  }

  /** Once every listed block is installed nothing is pinned. */
  lemma NothingPinned(pc: CommitPc, lh: seq<int>, pins: set<int>)
    requires PinsListed(pc, lh, pins) && PinFrom(pc) >= |lh|
    ensures pins == {}
  {
    forall b
      ensures b !in pins
    {
      if b in lh {
        var j :| 0 <= j < |lh| && lh[j] == b;
      }
    }
  }

  lemma ClearKeepsInv(c: Config, s: Sys)
    requires s.Up? && c.Ok() && UpInv(c, s) && CommitEnabled(c, s, ClearHeader)
    ensures UpInv(c, CommitApply(c, s, ClearHeader))
  {
    R.InvStep(c.p, s.log, R.ClearHeader);
    NothingPinned(s.pc, s.log.lh, s.pins);
  }

  lemma EraseKeepsInv(c: Config, s: Sys, i: nat)
    requires s.Up? && c.Ok() && UpInv(c, s) && CommitEnabled(c, s, EraseHead(i))
    ensures UpInv(c, CommitApply(c, s, EraseHead(i)))
  {
    CommitClean(c, s, i);
    WithHeaderDecodes(s.bufs[i].data, []);
    WrittenKeeps(c, s, i, WithHeader(s.bufs[i].data, []));
    NothingPinned(s.pc, s.log.lh, s.pins);
  }

  lemma EndCommitKeepsInv(c: Config, s: Sys)
    requires s.Up? && c.Ok() && UpInv(c, s) && CommitEnabled(c, s, EndCommit)
    ensures UpInv(c, CommitApply(c, s, EndCommit))
  {
    R.InvStep(c.p, s.log, R.EndCommit);
  }

  /** In every phase, the header on disk is empty and the disk is durable as it stands, or the
      log holds what is durable of the listed blocks and the others are up to date. */
  lemma PhaseOutcome(c: Config, pc: CommitPc, lh: seq<int>, pins: set<int>, d: Disk, l: Disk, durable: Disk)
    requires Shape(c, d, l, durable, lh) && c.g.DiskOk(d)
    requires PinsListed(pc, lh, pins) && HomeAgrees(c, d, l, pins) && PhaseInv(c, pc, lh, d, l, durable)
    ensures var hdr := HeaderOf(d[c.g.start]);
            || (hdr == [] && SameHome(c.g, d, durable))
            || (durable == l && LogHolds(c, d, l, hdr, |hdr|)
                && (forall b :: c.g.Home(b) && b !in hdr ==> d[b] == l[b]))
  {
  }

  /** So recovery of a home block from the disk as it stands yields its durable contents. */
  lemma RecoversBlock(c: Config, lh: seq<int>, d: Disk, l: Disk, durable: Disk, b: int)
    requires Shape(c, d, l, durable, lh) && c.g.DiskOk(d) && c.g.Home(b)
    requires var hdr := HeaderOf(d[c.g.start]);
             || (hdr == [] && SameHome(c.g, d, durable))
             || (durable == l && LogHolds(c, d, l, hdr, |hdr|) && (b !in hdr ==> d[b] == l[b]))
    ensures Recovered(c.g, d)[b] == durable[b]
  {
    var hdr := HeaderOf(d[c.g.start]);
    InstalledAt(c.g, d, hdr, |hdr|, b);
    var j := LastIndex(hdr, |hdr|, b);
    if j >= 0 {
      assert LogHolds(c, d, l, hdr, |hdr|);
    }
  }

  lemma RecoversDurable(c: Config, s: Sys)
    requires s.Up? && UpInv(c, s)
    ensures c.g.DiskOk(s.disk)
    ensures SameHome(c.g, Recovered(c.g, s.disk), s.durable)
  {
    PhaseOutcome(c, s.pc, s.log.lh, s.pins, s.disk, s.logical, s.durable);
    forall b | c.g.Home(b)
      ensures Recovered(c.g, s.disk)[b] == s.durable[b]
    {
      RecoversBlock(c, s.log.lh, s.disk, s.logical, s.durable, b);
    }
  }

  lemma BootKeepsInv(c: Config, s: Sys, bufs: seq<Buf>)
    requires c.Ok() && s.Down? && DownInv(c, s) && Enabled(c, s, Boot(bufs))
    ensures UpInv(c, Apply(c, s, Boot(bufs)))
  {
    var s' := Apply(c, s, Boot(bufs));
    var hdr := HeaderOf(s.disk[c.g.start]);
    InstalledShape(c.g, s.disk, hdr, |hdr|);
    WithHeaderDecodes(s.disk[c.g.start], []);
    assert s.events[..|s.events|] == s.events;
    assert R.Empty.unspent.Keys == {};
    forall i | 0 <= i < |bufs|
      ensures BufInv(c, s'.disk, s'.logical, {}, {}, bufs[i])
    {
      assert BootBuf(c, s'.disk, bufs[i]);
    }
  }

  lemma CommitKeepsInv(c: Config, s: Sys, step: CommitStep)
    requires s.Up? && c.Ok() && UpInv(c, s) && CommitEnabled(c, s, step)
    ensures UpInv(c, CommitApply(c, s, step))
  {
    match step
    case CopyToLog(i, j) => CopyKeepsInv(c, s, i, j);
    case WriteHead(i) => WriteHeadKeepsInv(c, s, i);
    case InstallBlock(i, j) => InstallKeepsInv(c, s, i, j);
    case UnpinBlock(j) => UnpinKeepsInv(c, s, j);
    case ClearHeader => ClearKeepsInv(c, s);
    case EraseHead(i) => EraseKeepsInv(c, s, i);
    case EndCommit => EndCommitKeepsInv(c, s);
  }

  lemma OpKeepsInv(c: Config, s: Sys, step: OpStep)
    requires s.Up? && c.Ok() && UpInv(c, s) && OpEnabled(c, s, step)
    ensures UpInv(c, OpApply(c, s, step))
  {
    match step
    case BeginOp(pid) => BeginKeepsInv(c, s, pid);
    case LogWrite(pid, i) => LogWriteKeepsInv(c, s, pid, i);
    case Absorb(pid, i) => AbsorbKeepsInv(c, s, pid, i);
    case EndOp(pid) => EndKeepsInv(c, s, pid);
  }

  lemma StepKeepsInv(c: Config, s: Sys, step: Step)
    requires c.Ok() && Inv(c, s) && Enabled(c, s, step)
    ensures Inv(c, Apply(c, s, step))
  {
    match step
    case Cache(cs) => CacheKeepsInv(c, s, cs);
    case Op(os) => OpKeepsInv(c, s, os);
    case Commit(ms) => CommitKeepsInv(c, s, ms);
    case Crash => RecoversDurable(c, s);
    case FailedRecovery(k) => RecoveryStateRecovers(c.g, s.disk, k);
    case Boot(bufs) => BootKeepsInv(c, s, bufs);
  }

  // ---- whole runs ----

  /** The machine starts switched off, with the image mkfs made on the disk. */
  function Start(c: Config): Sys {
    Down(c.disk0, c.disk0, [])
  }

  predicate Legal(c: Config, s: Sys, run: seq<Step>)
    decreases |run|
  {
    run == [] || (Enabled(c, s, run[0]) && Legal(c, Apply(c, s, run[0]), run[1..]))
  }

  function After(c: Config, s: Sys, run: seq<Step>): Sys
    requires Legal(c, s, run)
    decreases |run|
  {
    if run == [] then s else After(c, Apply(c, s, run[0]), run[1..])
  }

  lemma {:induction false} RunKeepsInv(c: Config, s: Sys, run: seq<Step>)
    requires c.Ok() && Inv(c, s) && Legal(c, s, run)
    ensures Inv(c, After(c, s, run))
    decreases |run|
  {
    if run != [] {
      StepKeepsInv(c, s, run[0]);
      RunKeepsInv(c, Apply(c, s, run[0]), run[1..]);
    }
  }

  lemma StartInv(c: Config)
    requires c.Ok()
    ensures Inv(c, Start(c))
  {
    forall b | c.g.Home(b)
      ensures Recovered(c.g, c.disk0)[b] == c.disk0[b]
    {
      InstalledAt(c.g, c.disk0, [], 0, b);
    }
  }

  /** Crash atomicity.  Stop any run of the machine at any point, lose memory, and let
      recovery be cut short any number of times: once one recovery completes, the home
      blocks are the effect of a prefix of the history in which every operation that
      began has ended.  The prefix is the whole history up to the last write_head that
      put a non-empty list on disk. */
  lemma CrashAtomicity(c: Config, run: seq<Step>, disks: seq<Disk>)
    requires c.Ok() && Legal(c, Start(c), run) && After(c, Start(c), run).Up?
    requires CrashedAttempts(c.g, disks) && disks[0] == After(c, Start(c), run).disk
    ensures var s := After(c, Start(c), run);
            && s.ck <= |s.events|
            && OpenOps(s.events[..s.ck]) == {}
            && c.g.DiskOk(disks[|disks| - 1])
            && SameHome(c.g, Recovered(c.g, disks[|disks| - 1]), Replay(c.disk0, s.events[..s.ck]))
  {
    StartInv(c);
    RunKeepsInv(c, Start(c), run);
    RecoversDurable(c, After(c, Start(c), run));
    AttemptsKeepOutcome(c.g, disks);
  }

  predicate IsWriteHead(step: Step) {
    step.Commit? && step.commit.WriteHead?
  }

  /** Only write_head changes what is promised to survive. */
  lemma DurableMoves(c: Config, s: Sys, step: Step)
    requires Enabled(c, s, step)
    ensures Apply(c, s, step).durable == if IsWriteHead(step) then s.logical else s.durable
  {
  }

  /** What a completed recovery makes of the disk is what is promised to survive. */
  lemma OutcomeIsDurable(c: Config, s: Sys)
    requires c.Ok() && Inv(c, s)
    ensures c.g.DiskOk(s.disk) && SameHome(c.g, Recovered(c.g, s.disk), s.durable)
  {
    if s.Up? { RecoversDurable(c, s); }
  }

  /** The switch is at the first write_head of a commit.  A crash before or after any other
      step of anybody, recovery's own steps included, ends in the same home blocks; a
      crash before write_head ends in the effect of the history up to the commit before,
      and a crash after it in the effect of the whole history. */
  lemma OutcomeSwitchesAtWriteHead(c: Config, s: Sys, step: Step)
    requires c.Ok() && Inv(c, s) && Enabled(c, s, step)
    ensures c.g.DiskOk(s.disk) && c.g.DiskOk(Apply(c, s, step).disk)
    ensures !IsWriteHead(step) ==> SameHome(c.g, Recovered(c.g, Apply(c, s, step).disk), Recovered(c.g, s.disk))
    ensures IsWriteHead(step) ==>
              && s.Up? && s.ck <= |s.events|
              && SameHome(c.g, Recovered(c.g, s.disk), Replay(c.disk0, s.events[..s.ck]))
              && SameHome(c.g, Recovered(c.g, Apply(c, s, step).disk), Replay(c.disk0, s.events))
  {
    StepKeepsInv(c, s, step);
    DurableMoves(c, s, step);
    OutcomeIsDurable(c, s);
    OutcomeIsDurable(c, Apply(c, s, step));
  }

  /** The history that a run tells: all events since the last crash that lost some, and
      those up to the last write_head. */
  datatype Story = Story(all: seq<Event>, committed: seq<Event>)

  /** What a step adds to the history, read off the step and the buffer it logs. */
  function EventsOf(c: Config, s: Sys, step: Step): seq<Event>
    requires Enabled(c, s, step)
  {
    match step
    case Op(BeginOp(pid)) => [Begin(pid)]
    case Op(LogWrite(pid, i)) =>
      if R.WritePanics(c.p, s.log) then [] else [Update(s.bufs[i].blockno, s.bufs[i].data)]
    case Op(Absorb(pid, i)) => [Update(s.bufs[i].blockno, s.bufs[i].data)]
    case Op(EndOp(pid)) => if s.log.committing then [] else [End(pid)]
    case _ => []
  }

  function Tell(c: Config, s: Sys, step: Step, st: Story): Story
    requires Enabled(c, s, step)
  {
    if step.Crash? then Story(st.committed, st.committed)
    else if IsWriteHead(step) then Story(st.all, st.all)
    else Story(st.all + EventsOf(c, s, step), st.committed)
  }

  function Told(c: Config, s: Sys, run: seq<Step>, st: Story): Story
    requires Legal(c, s, run)
    decreases |run|
  {
    if run == [] then st else Told(c, Apply(c, s, run[0]), run[1..], Tell(c, s, run[0], st))
  }

  ghost predicate Tells(s: Sys, st: Story) {
    && st.all == s.events
    && (if s.Up? then s.ck <= |s.events| && st.committed == s.events[..s.ck] else st.committed == s.events)
  }

  lemma TellStep(c: Config, s: Sys, step: Step, st: Story)
    requires Enabled(c, s, step) && Tells(s, st)
    ensures Tells(Apply(c, s, step), Tell(c, s, step, st))
  {
    assert s.events[..|s.events|] == s.events;
    if s.Up? && !step.Crash? {
      EventsGrow(c, s, step);
      assert (s.events + EventsOf(c, s, step))[..s.ck] == s.events[..s.ck];
    }
  }

  lemma EventsGrow(c: Config, s: Sys, step: Step)
    requires Enabled(c, s, step) && s.Up? && !step.Crash?
    ensures var t := Apply(c, s, step);
            && t.Up? && t.events == s.events + EventsOf(c, s, step)
            && t.ck == if IsWriteHead(step) then |s.events| else s.ck
  {
    assert s.events + [] == s.events;
  }

  lemma {:induction false} TellRun(c: Config, s: Sys, run: seq<Step>, st: Story)
    requires c.Ok() && Inv(c, s) && Legal(c, s, run) && Tells(s, st)
    ensures Tells(After(c, s, run), Told(c, s, run, st))
    decreases |run|
  {
    if run != [] {
      TellStep(c, s, run[0], st);
      StepKeepsInv(c, s, run[0]);
      TellRun(c, Apply(c, s, run[0]), run[1..], Tell(c, s, run[0], st));
    }
  }

  /** The same over whole runs: crash any run anywhere, up or down, and cut recovery short
      any number of times; what a completed recovery leaves is the effect of the events
      that the run had logged by its last write_head. */
  lemma RecoversUpToLastWriteHead(c: Config, run: seq<Step>, disks: seq<Disk>)
    requires c.Ok() && Legal(c, Start(c), run)
    requires CrashedAttempts(c.g, disks) && disks[0] == After(c, Start(c), run).disk
    ensures var told := Told(c, Start(c), run, Story([], []));
            && OpenOps(told.committed) == {}
            && c.g.DiskOk(disks[|disks| - 1])
            && SameHome(c.g, Recovered(c.g, disks[|disks| - 1]), Replay(c.disk0, told.committed))
  {
    StartInv(c);
    RunKeepsInv(c, Start(c), run);
    TellRun(c, Start(c), run, Story([], []));
    OutcomeIsDurable(c, After(c, Start(c), run));
    AttemptsKeepOutcome(c.g, disks);
  }

  /** When end_op's commit has finished, everything logged so far is durable. */
  lemma FinishedCommitIsDurable(c: Config, run: seq<Step>, b: int)
    requires c.Ok() && Legal(c, Start(c), run) && c.g.Home(b)
    requires After(c, Start(c), run).Up? && After(c, Start(c), run).pc.Cleared?
    ensures var s := After(c, Start(c), run);
            && s.ck <= |s.events|
            && c.g.DiskOk(s.disk) && HeaderOf(s.disk[c.g.start]) == []
            && s.disk[b] == Replay(c.disk0, s.events)[b]
            && s.disk[b] == Replay(c.disk0, s.events[..s.ck])[b]
  {
    StartInv(c);
    RunKeepsInv(c, Start(c), run);
    var s := After(c, Start(c), run);
    NothingPinned(s.pc, s.log.lh, s.pins);
  }
}
