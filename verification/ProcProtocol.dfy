/** The process machine over whole runs: what holds in every state that any
    interleaving of any number of CPUs can reach. */
module ProcProtocol {
  import opened Prelude
  import opened ProcMachine
  import opened ProcInvariant
  import opened ProcMoves
  import opened ProcSteps
  import opened ProcFamily
  import opened ProcExit
  import opened ProcHandlers

  lemma LookingKeepsInv(s: Sys, c: nat, t: Sys)
    requires Inv(s) && c < |s.cpus| && SchedulerNext(s, c, Look) == Some(t)
    ensures Inv(t)
  {
    var i := LookIs(s, c, t);
    if i >= |s.procs| { WrapKeepsInv(s, c); } else { LookKeepsInv(s, c, i); }
  }

  lemma LookIs(s: Sys, c: nat, t: Sys) returns (i: nat)
    requires c < |s.cpus| && SchedulerNext(s, c, Look) == Some(t)
    ensures s.cpus[c].at == Scan(i)
    ensures if i >= |s.procs| then t == SchedStep(s, c, Scan(0), NoLock)
              else t == SchedStep(s, c, Chosen(i), Acq(ProcLock(i))) && ProcLock(i) !in s.locks
  {
    i := s.cpus[c].at.i;
  }

  lemma PassingKeepsInv(s: Sys, c: nat, step: Step, t: Sys)
    requires Inv(s) && c < |s.cpus| && SchedulerNext(s, c, step) == Some(t) && (step.Skip? || step.PutBack?)
    ensures Inv(t)
  {
    var i := PassIs(s, c, step, t);
    GiveBackKeepsInv(s, c, i);
  }

  lemma PassIs(s: Sys, c: nat, step: Step, t: Sys) returns (i: nat)
    requires c < |s.cpus| && SchedulerNext(s, c, step) == Some(t) && (step.Skip? || step.PutBack?)
    ensures (s.cpus[c].at == Chosen(i) || s.cpus[c].at == Back(i))
    ensures t == SchedStep(s, c, Scan(i + 1), Rel(ProcLock(i)))
  {
    i := s.cpus[c].at.i;
  }

  lemma SchedulerKeepsInv(s: Sys, c: nat, step: Step, t: Sys)
    requires Inv(s) && c < |s.cpus| && SchedulerNext(s, c, step) == Some(t)
    ensures Inv(t)
  {
    var at := s.cpus[c].at;
    if step.Look? {
      LookingKeepsInv(s, c, t);
    } else if step.Skip? || step.PutBack? {
      PassingKeepsInv(s, c, step, t);
    } else if step.Pick? {
      PickKeepsInv(s, c, at.i);
    } else if step.Jump? {
      JumpKeepsInv(s, c, at.i);
    } else if step.Moves? {
      HandlerMoveKeepsInv(s, c, step.act, HandlerMove(|s.procs|, at, step.act).value);
    } else if step.WakeOne? {
      var i, chan, j, ret := HandlerWakeIs(s, c, t);
      HandlerWakeKeepsInv(s, c, i, chan, j, ret);
    } else {
      ReturnKeepsInv(s, c, at.p);
    }
  }

  lemma SaveIs(s: Sys, c: nat, p: nat, t: Sys)
    requires Inside(s, c, p) && ProcNext(s, c, p, Save) == Some(t)
    ensures s.procs[p].pc.InSched?
    ensures t == Switched(s, c, p, s.procs[p].(saved := true, pc := s.procs[p].pc.cont), Leaving(p))
  {
  }

  lemma SetRunnableIs(s: Sys, c: nat, p: nat, t: Sys)
    requires Inside(s, c, p) && ProcNext(s, c, p, SetRunnable) == Some(t)
    ensures s.procs[p].pc.YieldSet?
    ensures var pr' := s.procs[p].(state := Runnable, pc := InSched(YieldDone(s.procs[p].pc.ret)));
            t == LockStep(SetProc(s, p, pr'), c, NoLock)
  {
  }

  lemma SetSleepingIs(s: Sys, c: nat, p: nat, t: Sys)
    requires Inside(s, c, p) && ProcNext(s, c, p, SetSleeping) == Some(t)
    ensures s.procs[p].pc.SleepSet?
    ensures var pc := s.procs[p].pc;
            var pr' := s.procs[p].(state := Sleeping, chan := Some(pc.chan), pc := InSched(SleepTidy(pc.lk, pc.ret)));
            t == LockStep(SetProc(s, p, pr'), c, NoLock)
  {
  }

  lemma TidyIs(s: Sys, c: nat, p: nat, t: Sys)
    requires Inside(s, c, p) && ProcNext(s, c, p, Tidy) == Some(t)
    ensures s.procs[p].pc.SleepTidy?
    ensures var pr' := s.procs[p].(chan := None, pc := SleepReacq(s.procs[p].pc.lk, s.procs[p].pc.ret));
            t == LockStep(SetProc(s, p, pr'), c, Rel(ProcLock(p)))
  {
  }

  lemma SetZombieIs(s: Sys, c: nat, p: nat, t: Sys)
    requires Inside(s, c, p) && ProcNext(s, c, p, SetZombie) == Some(t)
    ensures s.procs[p].pc.ExitSet? && t == LockStep(SetProc(s, p, Dying(s.procs[p])), c, NoLock)
  {
  }

  predicate IsOwn(step: Step) {
    step.Save? || step.SetRunnable? || step.SetSleeping? || step.Tidy? || step.SetZombie?
  }

  lemma OwnKeepsInv(s: Sys, c: nat, p: nat, step: Step, t: Sys)
    requires Inv(s) && Inside(s, c, p) && ProcNext(s, c, p, step) == Some(t) && IsOwn(step)
    ensures Inv(t)
  {
    if step.Save? {
      SaveIs(s, c, p, t);
      SaveKeepsInv(s, c, p);
    } else if step.SetRunnable? {
      SetRunnableIs(s, c, p, t);
      SetRunnableKeepsInv(s, c, p);
    } else if step.SetSleeping? {
      SetSleepingIs(s, c, p, t);
      SetSleepingKeepsInv(s, c, p);
    } else if step.Tidy? {
      TidyIs(s, c, p, t);
      TidyKeepsInv(s, c, p);
    } else {
      SetZombieIs(s, c, p, t);
      SetZombieKeepsInv(s, c, p);
    }
  }

  lemma WakingKeepsInv(s: Sys, c: nat, p: nat, t: Sys)
    requires Inv(s) && Inside(s, c, p) && OtherNext(s, c, p, WakeOne) == Some(t)
    ensures Inv(t)
  {
    var i, chan, ret := WakeIs(s, c, p, t);
    WakeOneKeepsInv(s, c, p, i, chan, ret);
  }

  lemma WakeIs(s: Sys, c: nat, p: nat, t: Sys) returns (i: nat, chan: Chan, ret: Pc)
    requires Inside(s, c, p) && OtherNext(s, c, p, WakeOne) == Some(t)
    ensures s.procs[p].pc == WakeAt(chan, i, ret) && i < |s.procs| && i != p && LockReady(s, c, Rel(ProcLock(i)))
    ensures t == Pair(s, c, p, i, Woken(s.procs[i], chan), Move(Wake(chan, i + 1, ret), Rel(ProcLock(i))))
  {
    i, chan, ret := s.procs[p].pc.i, s.procs[p].pc.chan, s.procs[p].pc.ret;
  }

  lemma KillingKeepsInv(s: Sys, c: nat, p: nat, t: Sys)
    requires Inv(s) && Inside(s, c, p) && OtherNext(s, c, p, KillOne) == Some(t)
    ensures Inv(t)
  {
    var i := KillIs(s, c, p, t);
    KillOneKeepsInv(s, c, p, i);
  }

  lemma KillIs(s: Sys, c: nat, p: nat, t: Sys) returns (i: nat)
    requires Inside(s, c, p) && OtherNext(s, c, p, KillOne) == Some(t)
    ensures s.procs[p].pc.KillAt? && s.procs[p].pc.i == i && i < |s.procs| && LockReady(s, c, Rel(ProcLock(i)))
    ensures t == Pair(s, c, p, i, Killed(s.procs[i]), Move(Idle, Rel(ProcLock(i))))
  {
    i := s.procs[p].pc.i;
  }

  lemma AdoptingKeepsInv(s: Sys, c: nat, p: nat, t: Sys)
    requires Inv(s) && Inside(s, c, p) && OtherNext(s, c, p, SetParent) == Some(t)
    ensures Inv(t)
  {
    var i := SetParentIs(s, c, p, t);
    SetParentKeepsInv(s, c, p, i);
  }

  lemma SetParentIs(s: Sys, c: nat, p: nat, t: Sys) returns (i: nat)
    requires Inside(s, c, p) && OtherNext(s, c, p, SetParent) == Some(t)
    ensures s.procs[p].pc == ForkSetParent(i) && i < |s.procs| && i != p && LockReady(s, c, Rel(WaitLock))
    ensures t == Pair(s, c, p, i, s.procs[i].(parent := Some(p)), Move(ForkRun(i), Rel(WaitLock)))
  {
    i := s.procs[p].pc.i;
  }

  lemma StartingKeepsInv(s: Sys, c: nat, p: nat, t: Sys)
    requires Inv(s) && Inside(s, c, p) && OtherNext(s, c, p, SetFirstRunnable) == Some(t)
    ensures Inv(t)
  {
    var i := StartIs(s, c, p, t);
    StartKeepsInv(s, c, p, i);
  }

  lemma StartIs(s: Sys, c: nat, p: nat, t: Sys) returns (i: nat)
    requires Inside(s, c, p) && OtherNext(s, c, p, SetFirstRunnable) == Some(t)
    ensures s.procs[p].pc == ForkRunAt(i) && i < |s.procs| && i != p && LockReady(s, c, Rel(ProcLock(i)))
    ensures t == Pair(s, c, p, i, Started(s.procs[i]), Move(Idle, Rel(ProcLock(i))))
  {
    i := s.procs[p].pc.i;
  }

  lemma ReparentingKeepsInv(s: Sys, c: nat, p: nat, t: Sys)
    requires Inv(s) && Inside(s, c, p) && OtherNext(s, c, p, Reparent) == Some(t)
    ensures Inv(t)
  {
    var i := ReparentIs(s, c, p, t);
    ReparentKeepsInv(s, c, p, i);
  }

  lemma ReparentIs(s: Sys, c: nat, p: nat, t: Sys) returns (i: nat)
    requires Inside(s, c, p) && OtherNext(s, c, p, Reparent) == Some(t)
    ensures s.procs[p].pc == ExitScan(i) && i < |s.procs| && IsParent(s.procs, i, p)
    ensures t == Pair(s, c, p, i, Adopted(s.procs[i]), Move(Wake(ProcChan(INIT), 0, ExitScan(i + 1)), NoLock))
  {
    i := s.procs[p].pc.i;
  }

  lemma ReapingKeepsInv(s: Sys, c: nat, p: nat, t: Sys)
    requires Inv(s) && Inside(s, c, p) && OtherNext(s, c, p, Reap) == Some(t)
    ensures Inv(t)
  {
    var i := ReapIs(s, c, p, t);
    ReapKeepsInv(s, c, p, i);
  }

  lemma ReapIs(s: Sys, c: nat, p: nat, t: Sys) returns (i: nat)
    requires Inside(s, c, p) && OtherNext(s, c, p, Reap) == Some(t)
    ensures s.procs[p].pc.WaitAt? && s.procs[p].pc.i == i && i < |s.procs| && i != p && s.procs[i].state == Zombie
    ensures t == Pair(s, c, p, i, FreeProc, Move(WaitDone(i), NoLock)).(reaped := s.reaped + {s.procs[i].pid})
  {
    i := s.procs[p].pc.i;
  }

  lemma SlotKeepsInv(s: Sys, c: nat, p: nat, step: Step, t: Sys)
    requires Inv(s) && Inside(s, c, p) && OtherNext(s, c, p, step) == Some(t)
    requires step.Found? || step.GiveUp?
    ensures Inv(t)
  {
    if step.Found? {
      var i := FoundIs(s, c, p, t);
      FoundKeepsInv(s, c, p, i);
    } else {
      var i := GiveUpIs(s, c, p, t);
      GiveUpKeepsInv(s, c, p, i);
    }
  }

  lemma FoundIs(s: Sys, c: nat, p: nat, t: Sys) returns (i: nat)
    requires Inside(s, c, p) && OtherNext(s, c, p, Found) == Some(t)
    ensures s.procs[p].pc == ForkAt(i) && i < |s.procs| && i != p && s.procs[i].state == Unused
    ensures t == Pair(s, c, p, i, NewProc(s.procs[i], p, s.nextpid),
                      Move(ForkMade(i), NoLock)).(nextpid := s.nextpid + 1)
  {
    i := s.procs[p].pc.i;
  }

  lemma GiveUpIs(s: Sys, c: nat, p: nat, t: Sys) returns (i: nat)
    requires Inside(s, c, p) && OtherNext(s, c, p, GiveUp) == Some(t)
    ensures s.procs[p].pc == ForkMade(i) && i < |s.procs| && i != p && LockReady(s, c, Rel(ProcLock(i)))
    ensures t == Pair(s, c, p, i, FreeProc, Move(Idle, Rel(ProcLock(i))))
  {
    i := s.procs[p].pc.i;
  }

  lemma NextKeepsInv(s: Sys, c: nat, step: Step, t: Sys)
    requires Inv(s) && Next(s, c, step) == Some(t)
    ensures Inv(t)
  {
    var at := s.cpus[c].at;
    if at.InProc? && at.p < |s.procs| {
      if step.Moves? {
        MovesKeepInv(s, c, at.p, step.act, PcNext(s, at.p, step.act).value);
      } else if IsOwn(step) {
        OwnKeepsInv(s, c, at.p, step, t);
      } else if step.Reparent? {
        ReparentingKeepsInv(s, c, at.p, t);
      } else if step.Reap? {
        ReapingKeepsInv(s, c, at.p, t);
      } else if step.Found? || step.GiveUp? {
        SlotKeepsInv(s, c, at.p, step, t);
      } else if step.WakeOne? {
        WakingKeepsInv(s, c, at.p, t);
      } else if step.KillOne? {
        KillingKeepsInv(s, c, at.p, t);
      } else if step.SetParent? {
        AdoptingKeepsInv(s, c, at.p, t);
      } else {
        StartingKeepsInv(s, c, at.p, t);
      }
    } else {
      SchedulerKeepsInv(s, c, step, t);
    }
  }

  // ---- runs ----

  /** The state in which main() enters the schedulers: init is the only process. */
  predicate Boot(s: Sys) {
    && |s.procs| > INIT && |s.cpus| >= 1 && s.locks == map[] && s.reaped == {} && s.nextpid == 2
    && s.procs[INIT] == Proc(Runnable, None, None, 1, false, ForkRet, true, None, None)
    && (forall p :: 0 <= p < |s.procs| && p != INIT ==> s.procs[p] == FreeProc)
    && (forall c :: 0 <= c < |s.cpus| ==> s.cpus[c] == Cpu(Scan(0), None, 0))
  }

  /** A run: which CPU takes which step. */
  predicate Legal(s: Sys, run: seq<(nat, Step)>)
    decreases |run|
  {
    run == [] || (Next(s, run[0].0, run[0].1).Some? && Legal(Next(s, run[0].0, run[0].1).value, run[1..]))
  }

  function After(s: Sys, run: seq<(nat, Step)>): Sys
    requires Legal(s, run)
    decreases |run|
  {
    if run == [] then s else After(Next(s, run[0].0, run[0].1).value, run[1..])
  }

  lemma {:induction false} RunKeepsInv(s: Sys, run: seq<(nat, Step)>)
    requires Inv(s) && HandlerInv(s.procs, s.cpus) && Legal(s, run)
    ensures Inv(After(s, run)) && HandlerInv(After(s, run).procs, After(s, run).cpus)
    decreases |run|
  {
    if run != [] {
      var t := Next(s, run[0].0, run[0].1).value;
      NextKeepsInv(s, run[0].0, run[0].1, t);
      NextLocks(s, run[0].0, run[0].1, t);
      NextKeepsHandlers(s, run[0].0, run[0].1, t);
      RunKeepsInv(t, run[1..]);
    }
  }

  lemma BootTables(s: Sys)
    requires Boot(s)
    ensures WakeInv(s.procs) && ExitInv(s.procs) && ScanInv(s.procs) && ZombieInv(s.procs, s.cpus, s.locks)
    ensures ParentInv(s.procs) && ForkInv(s.procs) && PidInv(s.procs, s.nextpid, s.reaped)
  {
    assert forall p :: 0 <= p < |s.procs| ==> s.procs[p].pc.Idle? || s.procs[p].pc.ForkRet?;
  }

  lemma BootInv(s: Sys)
    requires Boot(s)
    ensures Inv(s) && HandlerInv(s.procs, s.cpus)
  {
    BootTables(s);
    assert forall c :: 0 <= c < |s.cpus| ==> Held(s.procs, s.cpus)[c] == {};
  }

  // ---- what holds in every run ----

  lemma OneCpuEach(t: Sys)
    requires Inv(t)
    ensures forall c, d, p: nat ::
              0 <= c < |t.cpus| && 0 <= d < |t.cpus| && OnCpu(t.cpus[c].at, p) && OnCpu(t.cpus[d].at, p) ==> c == d
    ensures forall p :: 0 <= p < |t.procs| && t.procs[p].state == Running ==>
              t.procs[p].cpu.Some? && t.procs[p].cpu.value < |t.cpus| && OnCpu(t.cpus[t.procs[p].cpu.value].at, p)
  {
    forall c, d, p: nat | 0 <= c < |t.cpus| && 0 <= d < |t.cpus| && OnCpu(t.cpus[c].at, p) && OnCpu(t.cpus[d].at, p)
      ensures c == d
    {
      assert CpuOk(t.procs, t.cpus[c], c) && CpuOk(t.procs, t.cpus[d], d);
    }
    forall p | 0 <= p < |t.procs| && t.procs[p].state == Running
      ensures t.procs[p].cpu.Some?
    {
      assert StateOk(t.procs[p], PhaseOf(t.procs[p].cpu, t.cpus));
    }
  }

  /** A process is on at most one CPU, a RUNNING process is on one, and a scheduler that
      looks at a RUNNABLE process finds its registers saved and its stack left. */
  lemma CpuHandoff(s: Sys, run: seq<(nat, Step)>)
    requires Boot(s) && Legal(s, run)
    ensures var t := After(s, run);
            && (forall c, d, p: nat ::
                 0 <= c < |t.cpus| && 0 <= d < |t.cpus| && OnCpu(t.cpus[c].at, p) && OnCpu(t.cpus[d].at, p) ==> c == d)
            && (forall p :: 0 <= p < |t.procs| && t.procs[p].state == Running ==>
                  t.procs[p].cpu.Some? && t.procs[p].cpu.value < |t.cpus| && OnCpu(t.cpus[t.procs[p].cpu.value].at, p))
            && (forall c :: 0 <= c < |t.cpus| ==> ReadyToRun(t, t.cpus[c].at))
  {
    BootInv(s);
    RunKeepsInv(s, run);
    var t := After(s, run);
    OneCpuEach(t);
    forall c | 0 <= c < |t.cpus|
      ensures ReadyToRun(t, t.cpus[c].at)
    {
      LookedAtIsReady(t, c);
    }
  }

  predicate ReadyToRun(s: Sys, at: At) {
    && (at.Chosen? && at.i < |s.procs| && s.procs[at.i].state == Runnable ==>
         s.procs[at.i].saved && s.procs[at.i].cpu.None?)
    && (at.Switching? && at.i < |s.procs| ==> s.procs[at.i].saved)
  }

  lemma LookedAtIsReady(s: Sys, c: nat)
    requires Inv(s) && c < |s.cpus|
    ensures ReadyToRun(s, s.cpus[c].at)
  {
    var at := s.cpus[c].at;
    assert CpuOk(s.procs, s.cpus[c], c);
    if at.Chosen? && s.procs[at.i].state == Runnable {
      OffWhenLocked(s, c, at.i);
    } else if at.Switching? {
      assert StateOk(s.procs[at.i], PhaseOf(s.procs[at.i].cpu, s.cpus));
    }
  }

  /** The checks in sched never panic: p->lock is held, it is the only lock on this CPU,
      and the state is no longer RUNNING. */
  lemma SchedNeverPanics(s: Sys, run: seq<(nat, Step)>, c: nat, p: nat)
    requires Boot(s) && Legal(s, run) && Inside(After(s, run), c, p) && After(s, run).procs[p].pc.InSched?
    ensures var t := After(s, run);
            && ProcLock(p) in t.locks && t.locks[ProcLock(p)] == c
            && t.cpus[c].noff == 1
            && t.procs[p].state != Running
  {
    BootInv(s);
    RunKeepsInv(s, run);
    var t := After(s, run);
    InsideRuns(t, c, p);
    HeldBy(t.procs, t.cpus, t.locks, c, ProcLock(p));
    assert Held(t.procs, t.cpus)[c] == {ProcLock(p)};
  }

  /** The lock operation that a step of the source makes at the point where CPU c is,
      whether or not it can go ahead. */
  function LockOpOf(s: Sys, c: nat, step: Step): LockOp {
    if c >= |s.cpus| then NoLock
    else if s.cpus[c].at.InProc? && s.cpus[c].at.p < |s.procs| then ProcLockOp(s, s.cpus[c].at.p, step)
    else SchedLockOp(|s.procs|, s.cpus[c].at, step)
  }

  function SchedLockOp(n: nat, at: At, step: Step): LockOp {
    match (step, at)
    case (Look, Scan(i)) => if i < n then Acq(ProcLock(i)) else NoLock
    case (Skip, Chosen(i)) => Rel(ProcLock(i))
    case (PutBack, Back(i)) => Rel(ProcLock(i))
    case (Moves(act), _) => if HandlerMove(n, at, act).Some? then HandlerMove(n, at, act).value.op else NoLock
    case (WakeOne, Intr(_, WakeAt(_, j, _))) => Rel(ProcLock(j))
    case _ => NoLock
  }

  function ProcLockOp(s: Sys, p: nat, step: Step): LockOp
    requires p < |s.procs|
  {
    match (step, s.procs[p].pc)
    case (Moves(act), _) => if PcNext(s, p, act).Some? then PcNext(s, p, act).value.op else NoLock
    case (Tidy, SleepTidy(_, _)) => Rel(ProcLock(p))
    case (WakeOne, WakeAt(_, i, _)) => Rel(ProcLock(i))
    case (GiveUp, ForkMade(i)) => Rel(ProcLock(i))
    case (SetParent, ForkSetParent(_)) => Rel(WaitLock)
    case (SetFirstRunnable, ForkRunAt(i)) => Rel(ProcLock(i))
    case (KillOne, KillAt(_, i)) => Rel(ProcLock(i))
    case _ => NoLock
  }

  /** What a step does to the lock table and to noff is its lock operation, and no more. */
  ghost predicate LocksMove(s: Sys, c: nat, op: LockOp, t: Sys) {
    && c < |s.cpus| == |t.cpus| && t.locks == LockMap(s.locks, c, op)
    && t.cpus[c].noff == NoffAfter(s.cpus[c].noff, op)
    && (forall d {:trigger t.cpus[d]} :: 0 <= d < |t.cpus| && d != c ==> t.cpus[d] == s.cpus[d])
  }

  lemma OtherLocks(s: Sys, c: nat, p: nat, step: Step, t: Sys)
    requires Inside(s, c, p) && OtherNext(s, c, p, step) == Some(t)
    ensures LocksMove(s, c, ProcLockOp(s, p, step), t) && !step.Moves?
  {
  }

  lemma OwnLocks(s: Sys, c: nat, p: nat, step: Step, t: Sys)
    requires Inside(s, c, p) && ProcNext(s, c, p, step) == Some(t)
    ensures LocksMove(s, c, ProcLockOp(s, p, step), t)
  {
    if OtherNext(s, c, p, step) == Some(t) { OtherLocks(s, c, p, step, t); }
  }

  lemma SchedLocks(s: Sys, c: nat, step: Step, t: Sys)
    requires c < |s.cpus| && SchedulerNext(s, c, step) == Some(t)
    ensures LocksMove(s, c, SchedLockOp(|s.procs|, s.cpus[c].at, step), t)
  {
  }

  /** LockOpOf misses no acquire and no release. */
  lemma NextLocks(s: Sys, c: nat, step: Step, t: Sys)
    requires Next(s, c, step) == Some(t)
    ensures LocksMove(s, c, LockOpOf(s, c, step), t)
  {
    if s.cpus[c].at.InProc? && s.cpus[c].at.p < |s.procs| {
      OwnLocks(s, c, s.cpus[c].at.p, step, t);
    } else {
      SchedLocks(s, c, step, t);
    }
  }

  lemma ReleasesHeld(t: Sys, c: nat, step: Step)
    requires CpuInv(t.procs, t.cpus) && StateInv(t.procs, t.cpus) && c < |t.cpus| && LockOpOf(t, c, step).Rel?
    ensures LockOpOf(t, c, step).l in HeldAt(t.procs, t.cpus[c].at)
  {
    var at := t.cpus[c].at;
    if at.InProc? && at.p < |t.procs| && step.Moves? {
      InsideRuns(t, c, at.p);
      AllMoves(t, c, at.p, step.act, PcNext(t, at.p, step.act).value);
    } else if !(at.InProc? && at.p < |t.procs|) && step.Moves? {
      assert CpuOk(t.procs, t.cpus[c], c);
      HandlerFacts(t.procs, t.cpus[c], c, step.act, HandlerMove(|t.procs|, at, step.act).value);
    }
  }

  lemma TakesOther(t: Sys, c: nat, step: Step)
    requires CpuInv(t.procs, t.cpus) && StateInv(t.procs, t.cpus) && c < |t.cpus| && LockOpOf(t, c, step).Acq?
    ensures LockOpOf(t, c, step).l !in HeldAt(t.procs, t.cpus[c].at)
  {
    var at := t.cpus[c].at;
    if at.InProc? && at.p < |t.procs| {
      TakesNewLock(t, at.p, step.act, PcNext(t, at.p, step.act).value);
    } else if step.Moves? {
      assert CpuOk(t.procs, t.cpus[c], c);
      HandlerFacts(t.procs, t.cpus[c], c, step.act, HandlerMove(|t.procs|, at, step.act).value);
    }
  }

  /** release never panics: whatever lock a step gives back, in a process or in a scheduler,
      this CPU holds. */
  lemma ReleaseNeverPanics(s: Sys, run: seq<(nat, Step)>, c: nat, step: Step)
    requires Boot(s) && Legal(s, run) && c < |After(s, run).cpus| && LockOpOf(After(s, run), c, step).Rel?
    ensures LockReady(After(s, run), c, LockOpOf(After(s, run), c, step))
  {
    BootInv(s);
    RunKeepsInv(s, run);
    var t := After(s, run);
    ReleasesHeld(t, c, step);
    HeldBy(t.procs, t.cpus, t.locks, c, LockOpOf(t, c, step).l);
  }

  /** acquire never panics: the lock a step takes is not one this CPU already holds. */
  lemma AcquireNeverPanics(s: Sys, run: seq<(nat, Step)>, c: nat, step: Step)
    requires Boot(s) && Legal(s, run) && c < |After(s, run).cpus| && LockOpOf(After(s, run), c, step).Acq?
    ensures var t := After(s, run);
            var l := LockOpOf(t, c, step).l;
            l in t.locks ==> t.locks[l] != c
  {
    BootInv(s);
    RunKeepsInv(s, run);
    var t := After(s, run);
    TakesOther(t, c, step);
    HeldBy(t.procs, t.cpus, t.locks, c, LockOpOf(t, c, step).l);
  }

  lemma TakesNewLock(s: Sys, p: nat, act: Act, mv: Move)
    requires p < |s.procs| && PcNext(s, p, act) == Some(mv) && mv.op.Acq?
    requires WfPc(p, |s.procs|, s.procs[p].pc)
    ensures mv.op.l !in HeldPc(p, s.procs[p].pc)
  {
  }

  /** No wakeup is lost.  When a call of wakeup(chan) made with lk held returns, no
      process is left that, under lk, had given its word to sleep on chan. */
  lemma NoLostWakeup(s: Sys, run: seq<(nat, Step)>, w: nat, chan: Chan, ret: Pc, lk: LockId, q: nat)
    requires Boot(s) && Legal(s, run) && w < |After(s, run).procs| && q < |After(s, run).procs|
    requires After(s, run).procs[w].pc == Wake(chan, |After(s, run).procs|, ret) && lk in HeldRet(ret)
    ensures Promise(After(s, run).procs[q]) != Some((chan, lk))
  {
    BootInv(s);
    RunKeepsInv(s, run);
    WakeDone(After(s, run).procs, w, q, lk);
  }

  /** Nor by an interrupt handler that runs on the scheduler's stack of a CPU. */
  lemma HandlerLosesNoWakeup(s: Sys, run: seq<(nat, Step)>, c: nat, i: nat, chan: Chan, ret: Pc, lk: LockId, q: nat)
    requires Boot(s) && Legal(s, run) && c < |After(s, run).cpus| && q < |After(s, run).procs|
    requires After(s, run).cpus[c].at == Intr(i, Wake(chan, |After(s, run).procs|, ret)) && lk in HeldRet(ret)
    ensures Promise(After(s, run).procs[q]) != Some((chan, lk))
  {
    BootInv(s);
    RunKeepsInv(s, run);
    assert Passed(After(s, run).cpus[c].at.pc, q);
  }

  /** Giving one's word and holding the lock go together: a process promises to sleep
      under lk only in a step it takes while its CPU holds lk. */
  lemma PromiseUnderLock(s: Sys, run: seq<(nat, Step)>, c: nat, p: nat, act: Act, mv: Move, q: nat)
    requires Boot(s) && Legal(s, run) && Inside(After(s, run), c, p)
    requires PcNext(After(s, run), p, act) == Some(mv) && q < |After(s, run).procs|
    ensures var t := After(s, run);
            var k, k' := Promise(t.procs[q]), Promise(SetPc(t, p, mv.pc).procs[q]);
            k'.Some? && k' != k ==> q == p && k'.value.1 in t.locks && t.locks[k'.value.1] == c
  {
    BootInv(s);
    RunKeepsInv(s, run);
    var t := After(s, run);
    InsideRuns(t, c, p);
    AllMoves(t, c, p, act, mv);
    var k' := Promise(SetPc(t, p, mv.pc).procs[q]);
    if k'.Some? {
      HeldBy(t.procs, t.cpus, t.locks, c, k'.value.1);
    }
  }

  /** Whenever wait_lock is free, no process asleep in wait has a zombie child. */
  lemma WaitSeesExits(s: Sys, run: seq<(nat, Step)>, p: nat, q: nat)
    requires Boot(s) && Legal(s, run) && p < |After(s, run).procs| && q < |After(s, run).procs|
    requires WaitLock !in After(s, run).locks && AsleepInWait(After(s, run).procs, p)
    requires After(s, run).procs[q].parent == Some(p)
    ensures After(s, run).procs[q].state != Zombie
  {
    BootInv(s);
    RunKeepsInv(s, run);
  }

  /** Every zombie has a parent, and that parent is a live process. */
  lemma ZombieHasLiveParent(s: Sys, run: seq<(nat, Step)>, q: nat)
    requires Boot(s) && Legal(s, run) && q < |After(s, run).procs| && After(s, run).procs[q].state == Zombie
    ensures var t := After(s, run);
            && t.procs[q].parent.Some? && t.procs[q].parent.value < |t.procs|
            && Live(t.procs[t.procs[q].parent.value].state)
  {
    BootInv(s);
    RunKeepsInv(s, run);
    var t := After(s, run);
    assert HasParent(t.procs[q]);
    assert IsParent(t.procs, q, t.procs[q].parent.value);
  }

  /** wait returns each process id at most once: the id of a process being reaped has
      not been returned before, and no later process gets it. */
  lemma ReapedOnce(s: Sys, run: seq<(nat, Step)>, c: nat, p: nat)
    requires Boot(s) && Legal(s, run) && Inside(After(s, run), c, p)
    requires OtherNext(After(s, run), c, p, Reap).Some?
    ensures var t := After(s, run);
            var t' := OtherNext(t, c, p, Reap).value;
            FirstReap(t, t', t.procs[p].pc.i)
  {
    BootInv(s);
    RunKeepsInv(s, run);
    FirstReaped(After(s, run), c, p);
  }

  ghost predicate FirstReap(t: Sys, t': Sys, i: nat) {
    && i < |t.procs| && t.procs[i].state == Zombie
    && t.procs[i].pid !in t.reaped && t'.reaped == t.reaped + {t.procs[i].pid}
    && (forall q :: 0 <= q < |t'.procs| && !t'.procs[q].state.Unused? ==> t'.procs[q].pid !in t'.reaped)
    && (forall pid :: pid in t'.reaped ==> pid < t'.nextpid)
  }

  lemma FirstReaped(t: Sys, c: nat, p: nat)
    requires Inv(t) && Inside(t, c, p) && OtherNext(t, c, p, Reap).Some?
    ensures FirstReap(t, OtherNext(t, c, p, Reap).value, t.procs[p].pc.i)
  {
    var t' := OtherNext(t, c, p, Reap).value;
    var i := ReapIs(t, c, p, t');
    ReapKeepsInv(t, c, p, i);
    ReapedIds(t, t', i);
  }

  lemma ReapedIds(t: Sys, t': Sys, i: nat)
    requires PidInv(t.procs, t.nextpid, t.reaped) && PidInv(t'.procs, t'.nextpid, t'.reaped)
    requires i < |t.procs| && t.procs[i].state == Zombie && t'.reaped == t.reaped + {t.procs[i].pid}
    ensures FirstReap(t, t', i)
  {
  }
}
