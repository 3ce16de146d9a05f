/** Interrupt handlers on the scheduler's stack: their steps keep the invariant, and no step
    of anybody lets a sleeper slip past a handler in the middle of wakeup. */
module ProcHandlers {
  import opened Prelude
  import opened ProcMachine
  import opened ProcInvariant
  import opened ProcMoves
  import opened ProcSteps
  import opened ProcFamily

  // ---- the handler's own steps ----

  /** What a move of the handler does to the CPU's locks. */
  lemma HandlerFacts(procs: seq<Proc>, cpu: Cpu, c: nat, act: Act, mv: AtMove)
    requires CpuOk(procs, cpu, c) && HandlerMove(|procs|, cpu.at, act) == Some(mv)
    ensures OffStage(cpu.at) && OffStage(mv.at) && CpuOk(procs, Cpu(mv.at, None, NoffAfter(cpu.noff, mv.op)), c)
    ensures mv.op != Rel(WaitLock) && mv.op != Acq(WaitLock)
    ensures mv.op.NoLock? ==> HeldAt(procs, mv.at) == HeldAt(procs, cpu.at)
    ensures mv.op.Acq? ==> HeldAt(procs, mv.at) == HeldAt(procs, cpu.at) + {mv.op.l}
    ensures mv.op.Acq? ==> mv.op.l !in HeldAt(procs, cpu.at)
    ensures mv.op.Rel? ==>
              mv.op.l in HeldAt(procs, cpu.at) && HeldAt(procs, mv.at) == HeldAt(procs, cpu.at) - {mv.op.l}
  {
  }

  lemma HandlerMoveKeepsInv(s: Sys, c: nat, act: Act, mv: AtMove)
    requires Inv(s) && c < |s.cpus| && HandlerMove(|s.procs|, s.cpus[c].at, act) == Some(mv) && LockReady(s, c, mv.op)
    ensures Inv(SchedStep(s, c, mv.at, mv.op))
  {
    assert CpuOk(s.procs, s.cpus[c], c);
    HandlerFacts(s.procs, s.cpus[c], c, act, mv);
    SchedKeeps(s, c, mv.op, Cpu(mv.at, None, NoffAfter(s.cpus[c].noff, mv.op)));
  }

  /** A sleeper whose lock a handler holds has left its CPU. */
  lemma AsleepIsOff(s: Sys, c: nat, j: nat, chan: Chan)
    requires CpuInv(s.procs, s.cpus) && LocksInv(s.procs, s.cpus, s.locks) && StateInv(s.procs, s.cpus)
    requires c < |s.cpus| && OffStage(s.cpus[c].at) && j < |s.procs| && ProcLock(j) in HeldAt(s.procs, s.cpus[c].at)
    ensures StateOk(Woken(s.procs[j], chan), PhaseOf(s.procs[j].cpu, s.cpus))
    ensures !s.procs[j].pc.SleepRel? && !s.procs[j].pc.SleepSet?
  {
    assert StateOk(s.procs[j], PhaseOf(s.procs[j].cpu, s.cpus));
    if s.procs[j].state.Sleeping? {
      OffWhenLocked(s, c, j);
    } else if s.procs[j].pc.SleepRel? || s.procs[j].pc.SleepSet? {
      HolderOf(s.procs, s.cpus, s.locks, j, ProcLock(j));
      HeldBy(s.procs, s.cpus, s.locks, c, ProcLock(j));
    }
  }

  lemma WokenKeepsInv(s: Sys, c: nat, j: nat, chan: Chan)
    requires Inv(s) && c < |s.cpus| && OffStage(s.cpus[c].at) && j < |s.procs|
    requires ProcLock(j) in HeldAt(s.procs, s.cpus[c].at)
    ensures Inv(SetProc(s, j, Woken(s.procs[j], chan)))
  {
    AsleepIsOff(s, c, j, chan);
    WokenQuiet(|s.procs|, s.procs[j], chan);
    CalmCore(s, j, Woken(s.procs[j], chan));
    QuietFamily(s.procs, j, Woken(s.procs[j], chan));
    QuietFork(s.procs, j, Woken(s.procs[j], chan), s.nextpid, s.reaped);
  }

  lemma WakeAtFacts(procs: seq<Proc>, cpus: seq<Cpu>, c: nat, i: nat, chan: Chan, j: nat, ret: Pc)
    requires CpuInv(procs, cpus) && c < |cpus| && cpus[c].at == Intr(i, WakeAt(chan, j, ret)) && j < |procs|
    ensures var at' := Intr(i, Wake(chan, j + 1, ret));
            && CpuOk(procs, Cpu(at', None, cpus[c].noff - 1), c) && ProcLock(j) in HeldAt(procs, cpus[c].at)
            && HeldAt(procs, at') == HeldAt(procs, cpus[c].at) - {ProcLock(j)}
  {
    assert CpuOk(procs, cpus[c], c);
  }

  lemma HandlerWakeKeepsInv(s: Sys, c: nat, i: nat, chan: Chan, j: nat, ret: Pc)
    requires Inv(s) && c < |s.cpus| && s.cpus[c].at == Intr(i, WakeAt(chan, j, ret)) && j < |s.procs|
    ensures Inv(SchedStep(SetProc(s, j, Woken(s.procs[j], chan)), c, Intr(i, Wake(chan, j + 1, ret)), Rel(ProcLock(j))))
  {
    var s1 := SetProc(s, j, Woken(s.procs[j], chan));
    WokenKeepsInv(s, c, j, chan);
    WakeAtFacts(s1.procs, s1.cpus, c, i, chan, j, ret);
    SchedKeeps(s1, c, Rel(ProcLock(j)), Cpu(Intr(i, Wake(chan, j + 1, ret)), None, s1.cpus[c].noff - 1));
  }

  // ---- nobody slips past a handler ----

  /** A step of CPU c: whoever gives its word to sleep does so under a lock that c holds. */
  ghost predicate PromisesKept(s: Sys, c: nat, procs': seq<Proc>) {
    && |procs'| == |s.procs|
    && (forall q {:trigger procs'[q]} :: 0 <= q < |procs'| && Promise(procs'[q]).Some? ==>
          || Promise(procs'[q]) == Promise(s.procs[q])
          || HoldsLock(s.locks, Promise(procs'[q]).value.1, c))
  }

  predicate HoldsLock(locks: map<LockId, nat>, l: LockId, c: nat) {
    l in locks && locks[l] == c
  }

  lemma MovePromises(s: Sys, c: nat, p: nat, act: Act, mv: Move)
    requires LocksInv(s.procs, s.cpus, s.locks) && Runs(s, c, p) && PcNext(s, p, act) == Some(mv)
    ensures PromisesKept(s, c, SetPc(s, p, mv.pc).procs)
  {
    AllMoves(s, c, p, act, mv);
    var k' := Promise(SetPc(s, p, mv.pc).procs[p]);
    if k'.Some? {
      HeldBy(s.procs, s.cpus, s.locks, c, k'.value.1);
    }
  }

  lemma OtherPromises(s: Sys, c: nat, p: nat, step: Step, t: Sys)
    requires Inside(s, c, p) && OtherNext(s, c, p, step) == Some(t)
    ensures PromisesKept(s, c, t.procs)
  {
  }

  lemma OwnPromises(s: Sys, c: nat, p: nat, step: Step, t: Sys)
    requires Runs(s, c, p) && ProcNext(s, c, p, step) == Some(t) && !step.Moves?
    ensures PromisesKept(s, c, t.procs)
  {
    if OtherNext(s, c, p, step) == Some(t) { OtherPromises(s, c, p, step, t); }
  }

  lemma SchedPromises(s: Sys, c: nat, step: Step, t: Sys)
    requires c < |s.cpus| && SchedulerNext(s, c, step) == Some(t)
    ensures PromisesKept(s, c, t.procs)
  {
  }

  lemma NextPromises(s: Sys, c: nat, step: Step, t: Sys)
    requires CpuInv(s.procs, s.cpus) && LocksInv(s.procs, s.cpus, s.locks) && StateInv(s.procs, s.cpus)
    requires Next(s, c, step) == Some(t)
    ensures PromisesKept(s, c, t.procs)
  {
    if s.cpus[c].at.InProc? && s.cpus[c].at.p < |s.procs| {
      var p := s.cpus[c].at.p;
      InsideRuns(s, c, p);
      if step.Moves? {
        MovePromises(s, c, p, step.act, PcNext(s, p, step.act).value);
      } else {
        OwnPromises(s, c, p, step, t);
      }
    } else {
      SchedPromises(s, c, step, t);
    }
  }

  /** The slots that a handler on CPU d has passed hold nobody to wake. */
  ghost predicate HandlerOk(procs: seq<Proc>, at: At) {
    at.Intr? ==>
      forall q, lk | 0 <= q < |procs| && Passed(at.pc, q) && lk in HeldRet(at.pc.ret) ::
        !Window(procs[q], at.pc.chan, lk)
  }

  lemma HandlersOk(procs: seq<Proc>, cpus: seq<Cpu>)
    ensures HandlerInv(procs, cpus) <==> forall d :: 0 <= d < |cpus| ==> HandlerOk(procs, cpus[d].at)
  {
  }

  /** Another CPU's step leaves a handler's word true: the handler holds the lock under
      which it wakes. */
  lemma OthersStep(s: Sys, c: nat, procs': seq<Proc>, d: nat)
    requires CpuInv(s.procs, s.cpus) && LocksInv(s.procs, s.cpus, s.locks) && PromisesKept(s, c, procs')
    requires d < |s.cpus| && d != c && HandlerOk(s.procs, s.cpus[d].at)
    ensures HandlerOk(procs', s.cpus[d].at)
  {
    var at := s.cpus[d].at;
    if at.Intr? {
      forall q, lk | 0 <= q < |procs'| && Passed(at.pc, q) && lk in HeldRet(at.pc.ret)
        ensures !Window(procs'[q], at.pc.chan, lk)
      {
        assert lk in HeldAt(s.procs, at);
        HeldBy(s.procs, s.cpus, s.locks, d, lk);
      }
    }
  }

  lemma HandlerWakeIs(s: Sys, c: nat, t: Sys) returns (i: nat, chan: Chan, j: nat, ret: Pc)
    requires c < |s.cpus| && SchedulerNext(s, c, WakeOne) == Some(t)
    ensures s.cpus[c].at == Intr(i, WakeAt(chan, j, ret)) && j < |s.procs|
    ensures t == SchedStep(SetProc(s, j, Woken(s.procs[j], chan)), c, Intr(i, Wake(chan, j + 1, ret)), Rel(ProcLock(j)))
  {
    var at := s.cpus[c].at;
    i, chan, j, ret := at.i, at.pc.chan, at.pc.i, at.pc.ret;
  }

  /** The slot that wakeup has just looked at holds nobody to wake any more. */
  lemma OwnWake(s: Sys, c: nat, i: nat, chan: Chan, j: nat, ret: Pc)
    requires CpuInv(s.procs, s.cpus) && LocksInv(s.procs, s.cpus, s.locks) && StateInv(s.procs, s.cpus)
    requires c < |s.cpus| && s.cpus[c].at == Intr(i, WakeAt(chan, j, ret)) && j < |s.procs|
    requires HandlerOk(s.procs, s.cpus[c].at)
    ensures HandlerOk(s.procs[j := Woken(s.procs[j], chan)], Intr(i, Wake(chan, j + 1, ret)))
  {
    WakeAtFacts(s.procs, s.cpus, c, i, chan, j, ret);
    AsleepIsOff(s, c, j, chan);
    var procs' := s.procs[j := Woken(s.procs[j], chan)];
    forall q, lk | 0 <= q < |procs'| && q < j + 1 && lk in HeldRet(ret)
      ensures !Window(procs'[q], chan, lk)
    {
      assert q != j ==> Passed(s.cpus[c].at.pc, q);
    }
  }

  /** Other steps in the scheduler start a wakeup at slot 0, go on with it, or end it. */
  lemma OwnMove(s: Sys, c: nat, step: Step, t: Sys)
    requires c < |s.cpus| && SchedulerNext(s, c, step) == Some(t) && !step.WakeOne? && HandlerOk(s.procs, s.cpus[c].at)
    requires CpuOk(s.procs, s.cpus[c], c)
    ensures HandlerOk(t.procs, t.cpus[c].at)
  {
  }

  lemma OwnStep(s: Sys, c: nat, step: Step, t: Sys)
    requires CpuInv(s.procs, s.cpus) && LocksInv(s.procs, s.cpus, s.locks) && StateInv(s.procs, s.cpus)
    requires c < |s.cpus| && SchedulerNext(s, c, step) == Some(t) && HandlerOk(s.procs, s.cpus[c].at)
    ensures HandlerOk(t.procs, t.cpus[c].at)
  {
    if step.WakeOne? {
      var i, chan, j, ret := HandlerWakeIs(s, c, t);
      OwnWake(s, c, i, chan, j, ret);
    } else {
      assert CpuOk(s.procs, s.cpus[c], c);
      OwnMove(s, c, step, t);
    }
  }

  lemma NextKeepsHandlers(s: Sys, c: nat, step: Step, t: Sys)
    requires Inv(s) && HandlerInv(s.procs, s.cpus) && Next(s, c, step) == Some(t)
    requires |t.cpus| == |s.cpus|
    requires forall d {:trigger t.cpus[d]} :: 0 <= d < |t.cpus| && d != c ==> t.cpus[d] == s.cpus[d]
    ensures HandlerInv(t.procs, t.cpus)
  {
    NextPromises(s, c, step, t);
    HandlersOk(s.procs, s.cpus);
    HandlersOk(t.procs, t.cpus);
    forall d | 0 <= d < |t.cpus|
      ensures HandlerOk(t.procs, t.cpus[d].at)
    {
      if d != c {
        OthersStep(s, c, t.procs, d);
      } else if !(s.cpus[c].at.InProc? && s.cpus[c].at.p < |s.procs|) {
        OwnStep(s, c, step, t);
      } else {
        StaysInside(s, c, s.cpus[c].at.p, step, t);
      }
    }
  }

  lemma StaysInside(s: Sys, c: nat, p: nat, step: Step, t: Sys)
    requires Inside(s, c, p) && ProcNext(s, c, p, step) == Some(t)
    ensures c < |t.cpus| && !t.cpus[c].at.Intr?
  {
  }
}
