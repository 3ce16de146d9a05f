/** No deadlock: every CPU can take its next step, or spins on a lock of another CPU that can,
    or that itself waits only for one that can. */
module ProcProgress {
  import opened Prelude
  import opened ProcMachine
  import opened ProcInvariant
  import opened ProcMoves
  import opened ProcFamily
  import opened ProcHandlers
  import opened ProcProtocol

  /** A step of the source at the point where process p is. */
  function ProcStepAt(s: Sys, p: nat): Step
    requires p < |s.procs|
  {
    var n := |s.procs|;
    match s.procs[p].pc
    case Idle => Moves(Yield)
    case Crit(_, _) => Moves(Leave)
    case YieldSet(_) => SetRunnable
    case SleepSet(_, _, _) => SetSleeping
    case SleepTidy(_, _) => Tidy
    case InSched(_) => Save
    case WakeAt(_, _, _) => WakeOne
    case ExitScan(i) => if i < n && s.procs[i].parent == Some(p) then Reparent else Moves(Go)
    case ExitSet => SetZombie
    case WaitAt(i, _) => if i < n && s.procs[i].state == Zombie then Reap else Moves(Go)
    case ForkAt(i) => if i < n && s.procs[i].state == Unused then Found else Moves(Go)
    case ForkSetParent(_) => SetParent
    case ForkRunAt(_) => SetFirstRunnable
    case KillAt(pid, i) => if i < n && s.procs[i].pid == pid then KillOne else Moves(Go)
    case _ => Moves(Go)
  }

  /** And where the scheduler of a CPU is, or a handler that interrupted it. */
  function SchedStepAt(s: Sys, at: At): Step {
    match at
    case Scan(_) => Look
    case Intr(_, pc) => if pc.Crit? then Moves(Leave) else if pc.Wake? then Moves(Go) else WakeOne
    case Chosen(i) => if i < |s.procs| && s.procs[i].state == Runnable then Pick else Skip
    case Switching(_) => Jump
    case Leaving(_) => Return
    case Back(_) => PutBack
    case InProc(_) => Look
  }

  function StepAt(s: Sys, c: nat): Step
    requires c < |s.cpus|
  {
    if s.cpus[c].at.InProc? && s.cpus[c].at.p < |s.procs| then ProcStepAt(s, s.cpus[c].at.p)
    else SchedStepAt(s, s.cpus[c].at)
  }

  /** The process that is filled in, woken, reaped or made is not the one that does it. */
  lemma SlotsApart(s: Sys, c: nat, p: nat)
    requires ForkInv(s.procs) && Runs(s, c, p)
    ensures var pc := s.procs[p].pc;
            && (pc.WaitAt? && s.procs[pc.i].state == Zombie ==> pc.i != p)
            && (pc.ForkAt? && s.procs[pc.i].state == Unused ==> pc.i != p)
            && (pc.ForkSetParent? || pc.ForkRunAt? ==> pc.i != p)
  {
    var pc := s.procs[p].pc;
    if pc.ForkSetParent? || pc.ForkRunAt? { assert Targets(s.procs, p, pc.i); }
  }

  lemma OwnGoesOn(s: Sys, c: nat, p: nat)
    requires Runs(s, c, p) && (IsOwn(ProcStepAt(s, p)) || ProcStepAt(s, p).Moves?)
    requires LockReady(s, c, ProcLockOp(s, p, ProcStepAt(s, p)))
    ensures ProcNext(s, c, p, ProcStepAt(s, p)).Some?
  {
  }

  lemma OtherGoesOn(s: Sys, c: nat, p: nat)
    requires ForkInv(s.procs) && Runs(s, c, p) && !IsOwn(ProcStepAt(s, p)) && !ProcStepAt(s, p).Moves?
    requires LockReady(s, c, ProcLockOp(s, p, ProcStepAt(s, p)))
    ensures OtherNext(s, c, p, ProcStepAt(s, p)).Some?
  {
    SlotsApart(s, c, p);
  }

  lemma SchedulerGoesOn(s: Sys, c: nat)
    requires CpuInv(s.procs, s.cpus) && c < |s.cpus| && !s.cpus[c].at.InProc?
    requires LockReady(s, c, SchedLockOp(|s.procs|, s.cpus[c].at, SchedStepAt(s, s.cpus[c].at)))
    ensures SchedulerNext(s, c, SchedStepAt(s, s.cpus[c].at)).Some?
  {
    assert CpuOk(s.procs, s.cpus[c], c);
  }

  lemma GoesOn(s: Sys, c: nat)
    requires CpuInv(s.procs, s.cpus) && StateInv(s.procs, s.cpus) && ForkInv(s.procs) && c < |s.cpus|
    requires LockReady(s, c, LockOpOf(s, c, StepAt(s, c)))
    ensures Next(s, c, StepAt(s, c)).Some?
  {
    var at := s.cpus[c].at;
    if at.InProc? {
      assert CpuOk(s.procs, s.cpus[c], c);
      InsideRuns(s, c, at.p);
      if IsOwn(ProcStepAt(s, at.p)) || ProcStepAt(s, at.p).Moves? {
        OwnGoesOn(s, c, at.p);
      } else {
        OtherGoesOn(s, c, at.p);
      }
    } else {
      SchedulerGoesOn(s, c);
    }
  }

  /** CPU c waits for a lock that another CPU holds. */
  predicate Spins(s: Sys, c: nat) {
    && c < |s.cpus| && LockOpOf(s, c, StepAt(s, c)).Acq?
    && var l := LockOpOf(s, c, StepAt(s, c)).l;
       l in s.locks && s.locks[l] < |s.cpus| && s.locks[l] != c
  }

  /** The CPU that holds the lock c waits for. */
  function HolderFor(s: Sys, c: nat): nat
    requires Spins(s, c)
  {
    s.locks[LockOpOf(s, c, StepAt(s, c)).l]
  }

  lemma StepsOrSpins(s: Sys, c: nat)
    requires CpuInv(s.procs, s.cpus) && LocksInv(s.procs, s.cpus, s.locks) && StateInv(s.procs, s.cpus)
    requires ForkInv(s.procs) && c < |s.cpus|
    ensures Next(s, c, StepAt(s, c)).Some? || Spins(s, c)
  {
    var op := LockOpOf(s, c, StepAt(s, c));
    if op.Rel? {
      ReleasesHeld(s, c, StepAt(s, c));
      HeldBy(s.procs, s.cpus, s.locks, c, op.l);
    } else if op.Acq? && op.l in s.locks {
      TakesOther(s, c, StepAt(s, c));
      HeldBy(s.procs, s.cpus, s.locks, c, op.l);
      LockOnCpu(Held(s.procs, s.cpus), s.cpus, s.locks, op.l);
    }
    if LockReady(s, c, op) { GoesOn(s, c); }
  }

  lemma LockOnCpu(held: seq<set<LockId>>, cpus: seq<Cpu>, locks: map<LockId, nat>, l: LockId)
    requires LockTable(held, cpus, locks) && l in locks
    ensures locks[l] < |cpus|
  {
  }

  /** Locks are taken in order: with a process lock held, no other is waited for, and with
      any lock held only process locks are. */
  lemma LockOrder(s: Sys, c: nat)
    requires CpuInv(s.procs, s.cpus) && StateInv(s.procs, s.cpus) && c < |s.cpus|
    requires LockOpOf(s, c, StepAt(s, c)).Acq?
    ensures forall i :: ProcLock(i) !in HeldAt(s.procs, s.cpus[c].at)
    ensures HeldAt(s.procs, s.cpus[c].at) != {} ==> LockOpOf(s, c, StepAt(s, c)).l.ProcLock?
  {
    var at := s.cpus[c].at;
    assert CpuOk(s.procs, s.cpus[c], c);
    if at.InProc? {
      InsideRuns(s, c, at.p);
      ProcOrder(s, at.p);
    }
  }

  lemma ProcOrder(s: Sys, p: nat)
    requires p < |s.procs| && WfPc(p, |s.procs|, s.procs[p].pc) && ProcLockOp(s, p, ProcStepAt(s, p)).Acq?
    ensures forall i :: ProcLock(i) !in HeldPc(p, s.procs[p].pc)
    ensures HeldPc(p, s.procs[p].pc) != {} ==> ProcLockOp(s, p, ProcStepAt(s, p)).l.ProcLock?
  {
  }

  /** Who waits for a process lock waits for a CPU that can go on. */
  lemma ProcLockMoves(s: Sys, c: nat)
    requires CpuInv(s.procs, s.cpus) && LocksInv(s.procs, s.cpus, s.locks) && StateInv(s.procs, s.cpus)
    requires ForkInv(s.procs) && Spins(s, c) && LockOpOf(s, c, StepAt(s, c)).l.ProcLock?
    ensures Next(s, HolderFor(s, c), StepAt(s, HolderFor(s, c))).Some?
  {
    var d, l := HolderFor(s, c), LockOpOf(s, c, StepAt(s, c)).l;
    HeldBy(s.procs, s.cpus, s.locks, d, l);
    StepsOrSpins(s, d);
    if Spins(s, d) {
      LockOrder(s, d);
      assert false;
    }
  }

  /** Every CPU can take the next step of the code it executes, or it spins on a lock of a CPU
      that can, or on a lock of a CPU that spins on a lock of a CPU that can. */
  lemma NoDeadlock(s: Sys, run: seq<(nat, Step)>, c: nat)
    requires Boot(s) && Legal(s, run) && c < |After(s, run).cpus|
    ensures var t := After(s, run);
            || Next(t, c, StepAt(t, c)).Some?
            || (Spins(t, c) && Next(t, HolderFor(t, c), StepAt(t, HolderFor(t, c))).Some?)
            || (Spins(t, c) && Spins(t, HolderFor(t, c))
                && var e := HolderFor(t, HolderFor(t, c)); e < |t.cpus| && Next(t, e, StepAt(t, e)).Some?)
  {
    BootInv(s);
    RunKeepsInv(s, run);
    Chain(After(s, run), c);
  }

  lemma Chain(t: Sys, c: nat)
    requires CpuInv(t.procs, t.cpus) && LocksInv(t.procs, t.cpus, t.locks) && StateInv(t.procs, t.cpus)
    requires ForkInv(t.procs) && c < |t.cpus|
    ensures || Next(t, c, StepAt(t, c)).Some?
            || (Spins(t, c) && Next(t, HolderFor(t, c), StepAt(t, HolderFor(t, c))).Some?)
            || (Spins(t, c) && Spins(t, HolderFor(t, c))
                && var e := HolderFor(t, HolderFor(t, c)); e < |t.cpus| && Next(t, e, StepAt(t, e)).Some?)
  {
    StepsOrSpins(t, c);
    if Spins(t, c) {
      var d := HolderFor(t, c);
      StepsOrSpins(t, d);
      if Spins(t, d) {
        HeldBy(t.procs, t.cpus, t.locks, d, LockOpOf(t, c, StepAt(t, c)).l);
        LockOrder(t, d);
        ProcLockMoves(t, d);
      }
    }
  }
}
