/** The log never stands in its own way: commit can always take its next step once it holds
    the buffers of that step, and whoever may read a block can get its buffer unless every
    buffer is in use. */
module LogProgress {
  import opened Prelude
  import opened LogRecovery
  import opened LogMachine
  import R = LogReservation

  /** The step of commit() that comes next, with i and j as the buffers of bread. */
  function NextCommit(s: Sys, i: nat, j: nat): CommitStep
    requires s.Up?
  {
    match s.pc
    case WriteLog(t) => if t < |s.log.lh| then CopyToLog(i, j) else WriteHead(i)
    case Install(t) => if t < |s.log.lh| then InstallBlock(i, j) else ClearHeader
    case Unpin(_) => UnpinBlock(j)
    case Clearing(_) => EraseHead(i)
    case _ => EndCommit
  }

  /** The committer has read in the blocks that this step is about. */
  predicate HasBlocks(c: Config, s: Sys, i: nat, j: nat)
    requires s.Up?
  {
    match s.pc
    case WriteLog(t) =>
      if t < |s.log.lh| then HoldsBlock(c, s, i, c.g.start + t + 1) && HoldsBlock(c, s, j, s.log.lh[t])
      else HoldsBlock(c, s, i, c.g.start)
    case Install(t) =>
      t < |s.log.lh| ==> HoldsBlock(c, s, i, c.g.start + t + 1) && HoldsBlock(c, s, j, s.log.lh[t])
    case Unpin(t) => t < |s.log.lh| ==> HoldsBlock(c, s, j, s.log.lh[t])
    case Clearing(_) => HoldsBlock(c, s, i, c.g.start)
    case _ => true
  }

  /** Commit is never stuck. */
  lemma CommitGoesOn(c: Config, run: seq<Step>, i: nat, j: nat)
    requires c.Ok() && Legal(c, Start(c), run) && After(c, Start(c), run).Up?
    requires var s := After(c, Start(c), run); s.log.committing && !s.log.panicked && HasBlocks(c, s, i, j)
    ensures var s := After(c, Start(c), run); Enabled(c, s, Commit(NextCommit(s, i, j)))
  {
    StartInv(c);
    RunKeepsInv(c, Start(c), run);
    var s := After(c, Start(c), run);
    if i < |s.bufs| { assert BufInv(c, s.disk, s.logical, s.pins, s.log.unspent.Keys, s.bufs[i]); }
  }

  /** The step of bread(b) that comes next for pid, which has got as far as buffer i. */
  function NextBread(s: Sys, pid: Pid, i: nat, b: nat): CacheStep
    requires s.Up? && i < |s.bufs|
  {
    if s.bufs[i].lock == Some(pid) then Fill(pid, i)
    else if pid in s.bufs[i].refs then Acquire(pid, i)
    else BGetHit(pid, i, b)
  }

  /** bread goes on: in the buffer of the block, if there is one, unless another process has
      it locked; otherwise in any buffer that nobody uses. */
  lemma BreadGoesOn(c: Config, run: seq<Step>, pid: Pid, i: nat, b: nat)
    requires c.Ok() && Legal(c, Start(c), run) && After(c, Start(c), run).Up?
    requires var s := After(c, Start(c), run);
             !s.log.panicked && i < |s.bufs| && MayRead(c, s, pid, b)
    ensures var s := After(c, Start(c), run);
            if s.bufs[i].dev == c.dev && s.bufs[i].blockno == b then
              || Enabled(c, s, Cache(NextBread(s, pid, i, b)))
              || (s.bufs[i].lock == Some(pid) && s.bufs[i].valid)
              || (pid in s.bufs[i].refs && s.bufs[i].lock.Some? && s.bufs[i].lock != Some(pid))
            else
              || s.bufs[i].refcnt > 0
              || Enabled(c, s, Cache(BGetMiss(pid, i, b)))
              || exists k :: 0 <= k < |s.bufs| && s.bufs[k].dev == c.dev && s.bufs[k].blockno == b
  {
    StartInv(c);
    RunKeepsInv(c, Start(c), run);
    var s := After(c, Start(c), run);
    assert BufInv(c, s.disk, s.logical, s.pins, s.log.unspent.Keys, s.bufs[i]);
  }

  predicate MayLog(c: Config, s: Sys, pid: Pid, i: nat)
    requires s.Up? && pid in s.log.unspent
  {
    && Holds(c, s, pid, i) && s.bufs[i].valid && c.g.Home(s.bufs[i].blockno)
    && (s.bufs[i].blockno in s.log.lh || s.log.unspent[pid] > 0)
  }

  /** A process inside an operation logs any home block it has locked, as far as its budget
      goes, and ends the operation when it has let go of what it changed; outside one, it can
      begin one exactly when no commit is going on and the worst case still fits. */
  lemma OperationsGoOn(c: Config, run: seq<Step>, pid: Pid, i: nat)
    requires c.Ok() && Legal(c, Start(c), run) && After(c, Start(c), run).Up?
    requires !After(c, Start(c), run).log.panicked
    ensures var s := After(c, Start(c), run);
            if pid in s.log.unspent then
              && (MayLog(c, s, pid, i) ==> Enabled(c, s, Op(LogWrite(pid, i))))
              && (NoneChanged(s, pid) ==> Enabled(c, s, Op(EndOp(pid))))
            else
              Enabled(c, s, Op(BeginOp(pid))) <==>
                !s.log.committing && |s.log.lh| + (|s.log.unspent| + 1) * c.p.maxop <= c.p.logsize
  {
    StartInv(c);
    RunKeepsInv(c, Start(c), run);
    var s := After(c, Start(c), run);
    if pid in s.log.unspent { OperationGoesOn(c, s, pid, i); } else { BeginsIff(c, s, pid); }
  }

  lemma OperationGoesOn(c: Config, s: Sys, pid: Pid, i: nat)
    requires s.Up? && Shape(c, s.disk, s.logical, s.durable, s.log.lh) && !s.log.panicked && pid in s.log.unspent
    ensures MayLog(c, s, pid, i) ==> Enabled(c, s, Op(LogWrite(pid, i)))
    ensures NoneChanged(s, pid) ==> Enabled(c, s, Op(EndOp(pid)))
  {
  }

  lemma BeginsIff(c: Config, s: Sys, pid: Pid)
    requires s.Up? && R.Inv(c.p, s.log) && !s.log.panicked && pid !in s.log.unspent
    ensures Enabled(c, s, Op(BeginOp(pid))) <==>
              !s.log.committing && |s.log.lh| + (|s.log.unspent| + 1) * c.p.maxop <= c.p.logsize
  {
  }

  /** And the machine can crash in every state, in the middle of recovery after any number of
      its writes, and come up again with any cache that recovery can have left. */
  lemma CrashAnywhere(c: Config, run: seq<Step>, k: nat, bufs: seq<Buf>)
    requires c.Ok() && Legal(c, Start(c), run)
    ensures var s := After(c, Start(c), run);
            if s.Up? then Enabled(c, s, Crash)
            else
              && c.g.DiskOk(s.disk)
              && (k <= |HeaderOf(s.disk[c.g.start])| + 1 ==> Enabled(c, s, FailedRecovery(k)))
              && (BootCache(c, Recovered(c.g, s.disk), bufs) ==> Enabled(c, s, Boot(bufs)))
  {
    StartInv(c);
    RunKeepsInv(c, Start(c), run);
  }
}
