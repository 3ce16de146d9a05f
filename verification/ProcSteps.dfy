/** Every other step of the process machine keeps the invariant, too. */
module ProcSteps {
  import opened Prelude
  import opened ProcMachine
  import opened ProcInvariant
  import opened ProcMoves

  // ---- updates that no table invariant notices ----

  /** A process changes in ways that matter only to its scheduling. */
  ghost predicate Quiet(n: nat, pr: Proc, pr': Proc) {
    && (IsWake(pr.pc) || IsWake(pr'.pc) || pr'.pc.ExitLock? || pr'.pc.ExitSet? ==> pr'.pc == pr.pc)
    && ScanIdx(n, pr'.pc) <= ScanIdx(n, pr.pc) && ExitIdx(n, pr'.pc) <= ExitIdx(n, pr.pc)
    && ForkTarget(pr'.pc) == ForkTarget(pr.pc) && (ParentIsSet(pr'.pc) ==> ParentIsSet(pr.pc))
    && pr'.parent == pr.parent && pr'.pid == pr.pid && pr'.creator == pr.creator
    && Live(pr'.state) == Live(pr.state) && pr'.state.Zombie? == pr.state.Zombie?
    && pr'.state.Unused? == pr.state.Unused? && pr'.state.Used? == pr.state.Used?
    && (Promise(pr').Some? ==> Promise(pr') == Promise(pr))
  }

  lemma QuietSleep(procs: seq<Proc>, i: nat, pr': Proc)
    requires i < |procs| && Quiet(|procs|, procs[i], pr') && WakeInv(procs) && ExitInv(procs)
    ensures WakeInv(procs[i := pr']) && ExitInv(procs[i := pr'])
  {
    var procs' := procs[i := pr'];
    forall w, q, lk | 0 <= w < |procs| && 0 <= q < |procs| && Passed(procs'[w].pc, q) && q != w
      && lk in HeldRet(procs'[w].pc.ret)
      ensures !Window(procs'[q], procs'[w].pc.chan, lk)
    {
      assert procs'[w].pc == procs[w].pc;
      assert Passed(procs[w].pc, q);
    }
    forall q: nat, p: nat | IsParent(procs', q, p) && p < |procs'|
      ensures ExitPair(procs'[q].pc, procs'[p], p)
    {
      assert IsParent(procs, q, p);
    }
  }

  lemma QuietFamily(procs: seq<Proc>, i: nat, pr': Proc)
    requires i < |procs| && Quiet(|procs|, procs[i], pr') && ScanInv(procs) && ParentInv(procs)
    ensures ScanInv(procs[i := pr']) && ParentInv(procs[i := pr'])
  {
    var procs' := procs[i := pr'];
    forall q: nat, p: nat | IsParent(procs', q, p)
      ensures p < |procs'| && LiveParent(|procs'|, procs'[p], q)
    {
      assert IsParent(procs, q, p);
    }
    assert forall q :: 0 < q < |procs| ==> HasParent(procs[q]) && HasParent(procs'[q]);
  }

  lemma QuietFork(procs: seq<Proc>, i: nat, pr': Proc, nextpid: nat, reaped: set<nat>)
    requires i < |procs| && Quiet(|procs|, procs[i], pr') && ForkInv(procs) && PidInv(procs, nextpid, reaped)
    ensures ForkInv(procs[i := pr']) && PidInv(procs[i := pr'], nextpid, reaped)
  {
    if ForkTarget(procs[i].pc).Some? {
      assert Targets(procs, i, ForkTarget(procs[i].pc).value);
    }
    assert Moved(procs[i := pr'], i, pr'.pc) == procs[i := pr'];
    ForkPair(procs, i, i, pr', pr'.pc);
  }

  /** CPU c changes its position without starting or stopping a wakeup. */
  lemma QuietZombie(procs: seq<Proc>, cpus: seq<Cpu>, locks: map<LockId, nat>, i: nat, pr': Proc,
                    c: nat, cpu': Cpu, locks': map<LockId, nat>)
    requires i < |procs| && c < |cpus| && Quiet(|procs|, procs[i], pr') && ZombieInv(procs, cpus, locks)
    requires cpu'.at == cpus[c].at || !cpus[c].at.InProc? || (cpus[c].at.p < |procs| && !IsWake(procs[cpus[c].at.p].pc))
    requires WaitLock in locks ==> WaitLock in locks' && locks'[WaitLock] == locks[WaitLock]
    ensures ZombieInv(procs[i := pr'], cpus[c := cpu'], locks')
  {
    var procs', cpus' := procs[i := pr'], cpus[c := cpu'];
    forall p, r | 0 <= p < |procs| && 0 <= r < |procs| && procs'[r].parent == Some(p) && procs'[r].state == Zombie
      && AsleepInWait(procs', p)
      ensures WaitLock in locks' && WakerOn(procs', cpus', locks'[WaitLock], ProcChan(p))
    {
      assert procs[r].parent == Some(p) && procs[r].state == Zombie && AsleepInWait(procs, p);
    }
  }

  // ---- the scheduler ----

  predicate OffStage(at: At) {
    at.Scan? || at.Intr? || at.Chosen? || at.Back?
  }

  lemma SchedCpu(procs: seq<Proc>, cpus: seq<Cpu>, c: nat, cpu': Cpu)
    requires CpuInv(procs, cpus) && StateInv(procs, cpus) && c < |cpus|
    requires OffStage(cpus[c].at) && OffStage(cpu'.at) && CpuOk(procs, cpu', c)
    ensures CpuInv(procs, cpus[c := cpu']) && StateInv(procs, cpus[c := cpu'])
  {
    forall p | 0 <= p < |procs|
      ensures PhaseOf(procs[p].cpu, cpus[c := cpu']) == PhaseOf(procs[p].cpu, cpus)
    {
    }
  }

  /** Steps inside the scheduler loop that leave the processes alone. */
  lemma SchedKeeps(s: Sys, c: nat, op: LockOp, cpu': Cpu)
    requires Inv(s) && c < |s.cpus| && OffStage(s.cpus[c].at) && OffStage(cpu'.at) && CpuOk(s.procs, cpu', c)
    requires cpu'.noff == NoffAfter(s.cpus[c].noff, op) && op != Rel(WaitLock) && op != Acq(WaitLock)
    requires op.NoLock? ==> HeldAt(s.procs, cpu'.at) == HeldAt(s.procs, s.cpus[c].at)
    requires op.Acq? ==> op.l !in s.locks && HeldAt(s.procs, cpu'.at) == HeldAt(s.procs, s.cpus[c].at) + {op.l}
    requires op.Rel? ==>
               op.l in HeldAt(s.procs, s.cpus[c].at)
               && HeldAt(s.procs, cpu'.at) == HeldAt(s.procs, s.cpus[c].at) - {op.l}
    ensures Inv(s.(cpus := s.cpus[c := cpu'], locks := LockMap(s.locks, c, op)))
  {
    SchedCpu(s.procs, s.cpus, c, cpu');
    LocksStep(s.procs, s.cpus, s.locks, c, op, s.procs, s.cpus[c := cpu']);
    assert s.procs[INIT := s.procs[INIT]] == s.procs;
    QuietZombie(s.procs, s.cpus, s.locks, INIT, s.procs[INIT], c, cpu', LockMap(s.locks, c, op));
  }

  lemma WrapKeepsInv(s: Sys, c: nat)
    requires Inv(s) && c < |s.cpus| && s.cpus[c].at.Scan?
    ensures Inv(SchedStep(s, c, Scan(0), NoLock))
  {
    assert CpuOk(s.procs, s.cpus[c], c);
    SchedKeeps(s, c, NoLock, Cpu(Scan(0), None, s.cpus[c].noff));
  }

  lemma LookKeepsInv(s: Sys, c: nat, i: nat)
    requires Inv(s) && c < |s.cpus| && s.cpus[c].at == Scan(i) && i < |s.procs| && ProcLock(i) !in s.locks
    ensures Inv(SchedStep(s, c, Chosen(i), Acq(ProcLock(i))))
  {
    assert CpuOk(s.procs, s.cpus[c], c);
    SchedKeeps(s, c, Acq(ProcLock(i)), Cpu(Chosen(i), None, s.cpus[c].noff + 1));
  }

  /** The scheduler gives back the lock of the process it looked at or ran. */
  lemma GiveBackKeepsInv(s: Sys, c: nat, i: nat)
    requires Inv(s) && c < |s.cpus| && (s.cpus[c].at == Chosen(i) || s.cpus[c].at == Back(i))
    ensures Inv(SchedStep(s, c, Scan(i + 1), Rel(ProcLock(i))))
  {
    assert CpuOk(s.procs, s.cpus[c], c);
    SchedKeeps(s, c, Rel(ProcLock(i)), Cpu(Scan(i + 1), None, s.cpus[c].noff - 1));
  }

  /** Process i and CPU c change together, at a point where c holds just ProcLock(i). */
  lemma SwitchKeeps(s: Sys, c: nat, i: nat, pr': Proc, cpu': Cpu)
    requires Inv(s) && c < |s.cpus| && i < |s.procs| && Quiet(|s.procs|, s.procs[i], pr')
    requires s.procs[i].cpu == Some(c) || s.procs[i].cpu.None?
    requires CpuInv(s.procs[i := pr'], s.cpus[c := cpu']) && StateInv(s.procs[i := pr'], s.cpus[c := cpu'])
    requires HeldAt(s.procs, s.cpus[c].at) == {ProcLock(i)} == HeldAt(s.procs[i := pr'], cpu'.at)
    requires cpu'.noff == s.cpus[c].noff
    requires !s.cpus[c].at.InProc? || (s.cpus[c].at.p == i && !IsWake(s.procs[i].pc))
    ensures Inv(s.(procs := s.procs[i := pr'], cpus := s.cpus[c := cpu']))
  {
    var procs', cpus' := s.procs[i := pr'], s.cpus[c := cpu'];
    OthersHold(s.procs, s.cpus, c, procs', i);
    LocksStep(s.procs, s.cpus, s.locks, c, NoLock, procs', cpus');
    QuietSleep(s.procs, i, pr');
    QuietFamily(s.procs, i, pr');
    QuietFork(s.procs, i, pr', s.nextpid, s.reaped);
    QuietZombie(s.procs, s.cpus, s.locks, i, pr', c, cpu', s.locks);
  }

  /** The parts of CpuInv and StateInv for the other processes. */
  lemma SwitchCpu(s: Sys, c: nat, i: nat, pr': Proc, cpu': Cpu)
    requires CpuInv(s.procs, s.cpus) && StateInv(s.procs, s.cpus) && c < |s.cpus| && i < |s.procs|
    requires OffStage(s.cpus[c].at) || OnCpu(s.cpus[c].at, i)
    requires s.procs[i].cpu == Some(c) || s.procs[i].cpu.None?
    requires pr'.cpu == (if OnCpu(cpu'.at, i) then Some(c) else None)
    requires OnCpu(cpu'.at, i) || OffStage(cpu'.at)
    requires CpuOk(s.procs[i := pr'], cpu', c)
    requires WfPc(i, |s.procs|, pr'.pc) && StateOk(pr', PhaseOf(pr'.cpu, s.cpus[c := cpu']))
    ensures CpuInv(s.procs[i := pr'], s.cpus[c := cpu']) && StateInv(s.procs[i := pr'], s.cpus[c := cpu'])
  {
    var procs', cpus' := s.procs[i := pr'], s.cpus[c := cpu'];
    forall k | 0 <= k < |cpus'|
      ensures CpuOk(procs', cpus'[k], k)
    {
      assert CpuOk(s.procs, s.cpus[k], k);
    }
    forall p | 0 <= p < |procs'| && p != i
      ensures PhaseOf(procs'[p].cpu, cpus') == PhaseOf(s.procs[p].cpu, s.cpus)
      ensures procs'[p].cpu.Some? ==> procs'[p].cpu.value < |cpus'| && OnCpu(cpus'[procs'[p].cpu.value].at, p)
    {
      SwitchOther(s, c, i, pr', cpu', p);
    }
  }

  lemma SwitchOther(s: Sys, c: nat, i: nat, pr': Proc, cpu': Cpu, p: nat)
    requires CpuInv(s.procs, s.cpus) && c < |s.cpus| && i < |s.procs| && p < |s.procs| && p != i
    requires OffStage(s.cpus[c].at) || OnCpu(s.cpus[c].at, i)
    ensures PhaseOf(s.procs[p].cpu, s.cpus[c := cpu']) == PhaseOf(s.procs[p].cpu, s.cpus)
    ensures s.procs[p].cpu.Some? ==>
              s.procs[p].cpu.value < |s.cpus| && OnCpu(s.cpus[c := cpu'][s.procs[p].cpu.value].at, p)
  {
  }

  /** A process whose lock is held by a CPU that does not execute it, and that is
      RUNNABLE, SLEEPING or a ZOMBIE, is on no CPU: its registers have been saved and
      its last CPU has left its stack. */
  lemma OffWhenLocked(s: Sys, c: nat, i: nat)
    requires CpuInv(s.procs, s.cpus) && LocksInv(s.procs, s.cpus, s.locks) && StateInv(s.procs, s.cpus)
    requires c < |s.cpus| && i < |s.procs| && ProcLock(i) in HeldAt(s.procs, s.cpus[c].at) && !OnCpu(s.cpus[c].at, i)
    requires s.procs[i].state.Runnable? || s.procs[i].state.Sleeping? || s.procs[i].state.Zombie?
    ensures s.procs[i].cpu.None? && s.procs[i].saved
  {
    var pr := s.procs[i];
    if pr.cpu.Some? {
      OneHolder(s.procs, s.cpus, s.locks, c, pr.cpu.value, ProcLock(i));
      OnCpuHolds(s, i);
    } else {
      assert StateOk(pr, PhaseOf(pr.cpu, s.cpus));
    }
  }

  /** On a CPU, a process that is not RUNNING has its own lock held there. */
  lemma OnCpuHolds(s: Sys, i: nat)
    requires CpuInv(s.procs, s.cpus) && StateInv(s.procs, s.cpus) && i < |s.procs| && s.procs[i].cpu.Some?
    requires s.procs[i].state.Runnable? || s.procs[i].state.Sleeping? || s.procs[i].state.Zombie?
    ensures s.procs[i].cpu.value < |s.cpus| && OnCpu(s.cpus[s.procs[i].cpu.value].at, i)
    ensures ProcLock(i) in HeldAt(s.procs, s.cpus[s.procs[i].cpu.value].at)
  {
    assert StateOk(s.procs[i], PhaseOf(s.procs[i].cpu, s.cpus));
  }

  /** A lock is held on one CPU. */
  lemma OneHolder(procs: seq<Proc>, cpus: seq<Cpu>, locks: map<LockId, nat>, c: nat, d: nat, l: LockId)
    requires LocksInv(procs, cpus, locks) && c < |cpus| && d < |cpus|
    requires l in HeldAt(procs, cpus[c].at)
    ensures l in HeldAt(procs, cpus[d].at) ==> c == d
  {
    HeldBy(procs, cpus, locks, c, l);
    HeldBy(procs, cpus, locks, d, l);
  }

  lemma PickKeepsInv(s: Sys, c: nat, i: nat)
    requires Inv(s) && c < |s.cpus| && s.cpus[c].at == Chosen(i) && i < |s.procs| && s.procs[i].state == Runnable
    ensures Inv(Switched(s, c, i, s.procs[i].(state := Running, cpu := Some(c)), Switching(i)))
  {
    OffWhenLocked(s, c, i);
    PickFacts(s, c, i);
    SwitchKeeps(s, c, i, s.procs[i].(state := Running, cpu := Some(c)),
        s.cpus[c].(at := Switching(i), proc := Some(i)));
  }

  lemma PickFacts(s: Sys, c: nat, i: nat)
    requires CpuInv(s.procs, s.cpus) && StateInv(s.procs, s.cpus)
    requires c < |s.cpus| && s.cpus[c].at == Chosen(i) && i < |s.procs| && s.procs[i].state == Runnable
    requires s.procs[i].cpu.None?
    ensures var pr', cpu' := s.procs[i].(state := Running, cpu := Some(c)),
              s.cpus[c].(at := Switching(i), proc := Some(i));
            && Quiet(|s.procs|, s.procs[i], pr')
            && CpuInv(s.procs[i := pr'], s.cpus[c := cpu']) && StateInv(s.procs[i := pr'], s.cpus[c := cpu'])
  {
    assert StateOk(s.procs[i], PhaseOf(s.procs[i].cpu, s.cpus));
    SwitchCpu(s, c, i, s.procs[i].(state := Running, cpu := Some(c)), s.cpus[c].(at := Switching(i), proc := Some(i)));
  }

  lemma JumpKeepsInv(s: Sys, c: nat, i: nat)
    requires Inv(s) && c < |s.cpus| && s.cpus[c].at == Switching(i) && i < |s.procs|
    ensures Inv(Switched(s, c, i, s.procs[i].(saved := false), InProc(i)))
  {
    JumpFacts(s, c, i);
    SwitchKeeps(s, c, i, s.procs[i].(saved := false), s.cpus[c].(at := InProc(i), proc := Some(i)));
  }

  lemma JumpFacts(s: Sys, c: nat, i: nat)
    requires CpuInv(s.procs, s.cpus) && StateInv(s.procs, s.cpus)
    requires c < |s.cpus| && s.cpus[c].at == Switching(i) && i < |s.procs|
    ensures var pr', cpu' := s.procs[i].(saved := false), s.cpus[c].(at := InProc(i), proc := Some(i));
            && s.procs[i].cpu == Some(c) && HeldPc(i, pr'.pc) == {ProcLock(i)}
            && Quiet(|s.procs|, s.procs[i], pr')
            && CpuInv(s.procs[i := pr'], s.cpus[c := cpu']) && StateInv(s.procs[i := pr'], s.cpus[c := cpu'])
  {
    assert CpuOk(s.procs, s.cpus[c], c);
    assert StateOk(s.procs[i], PhaseOf(s.procs[i].cpu, s.cpus));
    SwitchCpu(s, c, i, s.procs[i].(saved := false), s.cpus[c].(at := InProc(i), proc := Some(i)));
  }

  lemma ReturnKeepsInv(s: Sys, c: nat, p: nat)
    requires Inv(s) && c < |s.cpus| && s.cpus[c].at == Leaving(p) && p < |s.procs|
    ensures Inv(Switched(s, c, p, s.procs[p].(cpu := None), Back(p)))
  {
    ReturnFacts(s, c, p);
    SwitchKeeps(s, c, p, s.procs[p].(cpu := None), s.cpus[c].(at := Back(p), proc := Some(p)));
  }

  lemma ReturnFacts(s: Sys, c: nat, p: nat)
    requires CpuInv(s.procs, s.cpus) && StateInv(s.procs, s.cpus)
    requires c < |s.cpus| && s.cpus[c].at == Leaving(p) && p < |s.procs|
    ensures var pr', cpu' := s.procs[p].(cpu := None), s.cpus[c].(at := Back(p), proc := Some(p));
            && s.procs[p].cpu == Some(c)
            && Quiet(|s.procs|, s.procs[p], pr')
            && CpuInv(s.procs[p := pr'], s.cpus[c := cpu']) && StateInv(s.procs[p := pr'], s.cpus[c := cpu'])
  {
    assert CpuOk(s.procs, s.cpus[c], c);
    assert StateOk(s.procs[p], PhaseOf(s.procs[p].cpu, s.cpus));
    SwitchCpu(s, c, p, s.procs[p].(cpu := None), s.cpus[c].(at := Back(p), proc := Some(p)));
  }

  lemma SaveKeepsInv(s: Sys, c: nat, p: nat)
    requires Inv(s) && Inside(s, c, p) && s.procs[p].pc.InSched?
    ensures Inv(Switched(s, c, p, s.procs[p].(saved := true, pc := s.procs[p].pc.cont), Leaving(p)))
  {
    SaveFacts(s, c, p);
    SwitchKeeps(s, c, p, s.procs[p].(saved := true, pc := s.procs[p].pc.cont),
        s.cpus[c].(at := Leaving(p), proc := Some(p)));
  }

  lemma SaveFacts(s: Sys, c: nat, p: nat)
    requires CpuInv(s.procs, s.cpus) && StateInv(s.procs, s.cpus) && Inside(s, c, p) && s.procs[p].pc.InSched?
    ensures var pr', cpu' := s.procs[p].(saved := true, pc := s.procs[p].pc.cont),
              s.cpus[c].(at := Leaving(p), proc := Some(p));
            && s.procs[p].cpu == Some(c)
            && Quiet(|s.procs|, s.procs[p], pr')
            && CpuInv(s.procs[p := pr'], s.cpus[c := cpu']) && StateInv(s.procs[p := pr'], s.cpus[c := cpu'])
  {
    InsideRuns(s, c, p);
    assert CpuOk(s.procs, s.cpus[c], c);
    SwitchCpu(s, c, p, s.procs[p].(saved := true, pc := s.procs[p].pc.cont),
        s.cpus[c].(at := Leaving(p), proc := Some(p)));
  }

  // ---- a process changes its own state ----

  lemma OwnCpu(s: Sys, c: nat, p: nat, pr': Proc, noff: int)
    requires CpuInv(s.procs, s.cpus) && StateInv(s.procs, s.cpus) && Runs(s, c, p)
    requires pr'.cpu == Some(c) && WfPc(p, |s.procs|, pr'.pc) && StateOk(pr', In)
    ensures var procs', cpus' := s.procs[p := pr'], s.cpus[c := s.cpus[c].(noff := noff)];
            CpuInv(procs', cpus') && StateInv(procs', cpus')
  {
    var procs', cpus' := s.procs[p := pr'], s.cpus[c := s.cpus[c].(noff := noff)];
    forall k | 0 <= k < |cpus'|
      ensures CpuOk(procs', cpus'[k], k)
    {
      assert CpuOk(s.procs, s.cpus[k], k);
    }
    forall q | 0 <= q < |procs'|
      ensures WfPc(q, |procs'|, procs'[q].pc) && StateOk(procs'[q], PhaseOf(procs'[q].cpu, cpus'))
    {
      PhaseKept(procs'[q].cpu, s.cpus, c, noff);
      assert StateOk(s.procs[q], PhaseOf(s.procs[q].cpu, s.cpus));
    }
  }

  lemma OwnMachine(s: Sys, c: nat, p: nat, pr': Proc, op: LockOp)
    requires CpuInv(s.procs, s.cpus) && LocksInv(s.procs, s.cpus, s.locks) && StateInv(s.procs, s.cpus)
    requires ZombieInv(s.procs, s.cpus, s.locks)
    requires Runs(s, c, p) && Quiet(|s.procs|, s.procs[p], pr') && !IsWake(s.procs[p].pc)
    requires pr'.cpu == Some(c) && WfPc(p, |s.procs|, pr'.pc) && StateOk(pr', In)
    requires HeldOk(p, s.procs[p].pc, pr'.pc, op) && (op.NoLock? || op == Rel(ProcLock(p)))
    ensures var t := LockStep(SetProc(s, p, pr'), c, op);
            && t.procs == s.procs[p := pr']
            && CpuInv(t.procs, t.cpus) && LocksInv(t.procs, t.cpus, t.locks) && StateInv(t.procs, t.cpus)
            && ZombieInv(t.procs, t.cpus, t.locks)
  {
    var t := LockStep(SetProc(s, p, pr'), c, op);
    OwnCpu(s, c, p, pr', NoffAfter(s.cpus[c].noff, op));
    OthersHold(s.procs, s.cpus, c, t.procs, p);
    LocksStep(s.procs, s.cpus, s.locks, c, op, t.procs, t.cpus);
    QuietZombie(s.procs, s.cpus, s.locks, p, pr', c, t.cpus[c], t.locks);
  }

  lemma OwnKeeps(s: Sys, c: nat, p: nat, pr': Proc, op: LockOp)
    requires Inv(s) && Runs(s, c, p) && Quiet(|s.procs|, s.procs[p], pr') && !IsWake(s.procs[p].pc)
    requires pr'.cpu == Some(c) && WfPc(p, |s.procs|, pr'.pc) && StateOk(pr', In)
    requires HeldOk(p, s.procs[p].pc, pr'.pc, op) && (op.NoLock? || op == Rel(ProcLock(p)))
    ensures Inv(LockStep(SetProc(s, p, pr'), c, op))
  {
    OwnMachine(s, c, p, pr', op);
    QuietSleep(s.procs, p, pr');
    QuietFamily(s.procs, p, pr');
    QuietFork(s.procs, p, pr', s.nextpid, s.reaped);
  }

  lemma RunnableFacts(s: Sys, c: nat, p: nat)
    requires Runs(s, c, p) && s.procs[p].pc.YieldSet?
    ensures var pr' := s.procs[p].(state := Runnable, pc := InSched(YieldDone(s.procs[p].pc.ret)));
            Quiet(|s.procs|, s.procs[p], pr') && WfPc(p, |s.procs|, pr'.pc) && StateOk(pr', In)
  {
  }

  lemma SetRunnableKeepsInv(s: Sys, c: nat, p: nat)
    requires Inv(s) && Inside(s, c, p) && s.procs[p].pc.YieldSet?
    ensures Inv(LockStep(SetProc(s, p, s.procs[p].(state := Runnable, pc := InSched(YieldDone(s.procs[p].pc.ret)))), c,
              NoLock))
  {
    InsideRuns(s, c, p);
    RunnableFacts(s, c, p);
    var pr' := s.procs[p].(state := Runnable, pc := InSched(YieldDone(s.procs[p].pc.ret)));
    OwnKeeps(s, c, p, pr', NoLock);
  }

  lemma SleepingFacts(s: Sys, c: nat, p: nat)
    requires Runs(s, c, p) && s.procs[p].pc.SleepSet?
    ensures var pc := s.procs[p].pc;
            var pr' := s.procs[p].(state := Sleeping, chan := Some(pc.chan), pc := InSched(SleepTidy(pc.lk, pc.ret)));
            Quiet(|s.procs|, s.procs[p], pr') && WfPc(p, |s.procs|, pr'.pc) && StateOk(pr', In)
  {
  }

  lemma SetSleepingKeepsInv(s: Sys, c: nat, p: nat)
    requires Inv(s) && Inside(s, c, p) && s.procs[p].pc.SleepSet?
    ensures var pc := s.procs[p].pc;
            Inv(LockStep(SetProc(s, p,
                s.procs[p].(state := Sleeping, chan := Some(pc.chan), pc := InSched(SleepTidy(pc.lk, pc.ret)))),
                         c, NoLock))
  {
    InsideRuns(s, c, p);
    SleepingFacts(s, c, p);
    var pc := s.procs[p].pc;
    var pr' := s.procs[p].(state := Sleeping, chan := Some(pc.chan), pc := InSched(SleepTidy(pc.lk, pc.ret)));
    OwnKeeps(s, c, p, pr', NoLock);
  }

  lemma TidyFacts(s: Sys, c: nat, p: nat)
    requires Runs(s, c, p) && s.procs[p].pc.SleepTidy?
    ensures var pr' := s.procs[p].(chan := None, pc := SleepReacq(s.procs[p].pc.lk, s.procs[p].pc.ret));
            && Quiet(|s.procs|, s.procs[p], pr') && WfPc(p, |s.procs|, pr'.pc) && StateOk(pr', In)
            && HeldOk(p, s.procs[p].pc, pr'.pc, Rel(ProcLock(p)))
  {
  }

  lemma TidyKeepsInv(s: Sys, c: nat, p: nat)
    requires Inv(s) && Inside(s, c, p) && s.procs[p].pc.SleepTidy?
    ensures Inv(LockStep(SetProc(s, p,
              s.procs[p].(chan := None, pc := SleepReacq(s.procs[p].pc.lk, s.procs[p].pc.ret))),
                         c, Rel(ProcLock(p))))
  {
    InsideRuns(s, c, p);
    TidyFacts(s, c, p);
    OwnKeeps(s, c, p, s.procs[p].(chan := None, pc := SleepReacq(s.procs[p].pc.lk, s.procs[p].pc.ret)),
        Rel(ProcLock(p)));
  }

  // ---- a process changes another one ----

  /** The parts of the invariant that do not speak of parents, creators and ids. */
  ghost predicate Core(s: Sys) {
    && CpuInv(s.procs, s.cpus)
    && LocksInv(s.procs, s.cpus, s.locks)
    && StateInv(s.procs, s.cpus)
    && WakeInv(s.procs)
    && ExitInv(s.procs)
    && ScanInv(s.procs)
    && ZombieInv(s.procs, s.cpus, s.locks)
  }

  /** Process i is changed from outside: its program counter stays, or it had none. */
  ghost predicate Calm(n: nat, pr: Proc, pr': Proc) {
    && (pr'.pc == pr.pc || (pr.cpu.None? && !IsWake(pr.pc) && (pr'.pc.Idle? || pr'.pc.ForkRet?)))
    && pr'.cpu == pr.cpu
    && (pr'.parent == pr.parent || pr'.parent.None?)
    && (pr'.state.Zombie? ==> pr.state.Zombie?)
    && (Promise(pr').Some? ==> Promise(pr') == Promise(pr))
  }

  lemma CalmSleep(procs: seq<Proc>, i: nat, pr': Proc)
    requires i < |procs| && Calm(|procs|, procs[i], pr') && WakeInv(procs) && ExitInv(procs) && ScanInv(procs)
    ensures WakeInv(procs[i := pr']) && ExitInv(procs[i := pr']) && ScanInv(procs[i := pr'])
  {
    var procs' := procs[i := pr'];
    forall w, q, lk | 0 <= w < |procs| && 0 <= q < |procs| && Passed(procs'[w].pc, q) && q != w
      && lk in HeldRet(procs'[w].pc.ret)
      ensures !Window(procs'[q], procs'[w].pc.chan, lk)
    {
      assert procs'[w].pc == procs[w].pc;
      assert Passed(procs[w].pc, q);
    }
    forall q: nat, p: nat | IsParent(procs', q, p) && p < |procs'|
      ensures ExitPair(procs'[q].pc, procs'[p], p)
    {
      assert IsParent(procs, q, p);
    }
  }

  lemma CalmZombie(procs: seq<Proc>, cpus: seq<Cpu>, locks: map<LockId, nat>, i: nat, pr': Proc)
    requires i < |procs| && Calm(|procs|, procs[i], pr') && ZombieInv(procs, cpus, locks)
    ensures ZombieInv(procs[i := pr'], cpus, locks)
  {
    var procs' := procs[i := pr'];
    forall p, r | 0 <= p < |procs| && 0 <= r < |procs| && procs'[r].parent == Some(p) && procs'[r].state == Zombie
      && AsleepInWait(procs', p)
      ensures WaitLock in locks && WakerOn(procs', cpus, locks[WaitLock], ProcChan(p))
    {
      assert procs[r].parent == Some(p) && procs[r].state == Zombie && AsleepInWait(procs, p);
    }
  }

  /** What a CPU holds does not depend on a process that no CPU executes. */
  lemma CalmHeld(procs: seq<Proc>, cpus: seq<Cpu>, i: nat, pr': Proc, k: nat)
    requires CpuInv(procs, cpus) && i < |procs| && k < |cpus| && pr'.cpu == procs[i].cpu
    requires pr'.pc == procs[i].pc || procs[i].cpu.None?
    ensures CpuOk(procs[i := pr'], cpus[k], k) && HeldAt(procs[i := pr'], cpus[k].at) == HeldAt(procs, cpus[k].at)
  {
    assert CpuOk(procs, cpus[k], k);
  }

  lemma CalmOn(procs: seq<Proc>, cpus: seq<Cpu>, i: nat, pr': Proc)
    requires CpuInv(procs, cpus) && i < |procs| && pr'.cpu == procs[i].cpu
    requires pr'.pc == procs[i].pc || procs[i].cpu.None?
    ensures CpuInv(procs[i := pr'], cpus) && Held(procs[i := pr'], cpus) == Held(procs, cpus)
  {
    forall k | 0 <= k < |cpus|
      ensures CpuOk(procs[i := pr'], cpus[k], k) && Held(procs[i := pr'], cpus)[k] == Held(procs, cpus)[k]
    {
      CalmHeld(procs, cpus, i, pr', k);
    }
  }

  lemma CalmCpu(procs: seq<Proc>, cpus: seq<Cpu>, locks: map<LockId, nat>, i: nat, pr': Proc)
    requires CpuInv(procs, cpus) && LocksInv(procs, cpus, locks) && StateInv(procs, cpus) && i < |procs|
    requires (pr'.pc == procs[i].pc || procs[i].cpu.None?) && pr'.cpu == procs[i].cpu
    requires WfPc(i, |procs|, pr'.pc) && StateOk(pr', PhaseOf(pr'.cpu, cpus))
    ensures CpuInv(procs[i := pr'], cpus) && LocksInv(procs[i := pr'], cpus, locks) && StateInv(procs[i := pr'], cpus)
  {
    CalmOn(procs, cpus, i, pr');
  }

  lemma CalmCore(s: Sys, i: nat, pr': Proc)
    requires Core(s) && i < |s.procs| && Calm(|s.procs|, s.procs[i], pr')
    requires WfPc(i, |s.procs|, pr'.pc) && StateOk(pr', PhaseOf(pr'.cpu, s.cpus))
    ensures Core(SetProc(s, i, pr'))
  {
    CalmCpu(s.procs, s.cpus, s.locks, i, pr');
    CalmSleep(s.procs, i, pr');
    CalmZombie(s.procs, s.cpus, s.locks, i, pr');
  }

  /** The mover's own move, on the core alone. */
  lemma MoveCore(s: Sys, c: nat, p: nat, mv: Move)
    requires Core(s) && Runs(s, c, p) && LockFacts(s.procs, p, mv) && ZombieOk(|s.procs|, p, s.procs[p], mv)
    requires WakeOk(s.procs, p, s.procs[p].pc, mv.pc) && WindowOk(p, s.procs[p], mv.pc)
    requires ExitOk(|s.procs|, s.procs[p], mv.pc) && ScanOk(s.procs, p, s.procs[p].pc, mv.pc)
    requires LockReady(s, c, mv.op) && (mv.op == Rel(WaitLock) ==> !IsWake(s.procs[p].pc))
    ensures Core(LockStep(SetPc(s, p, mv.pc), c, mv.op))
  {
    RunsExclusive(s, c, p);
    WakersExecute(s);
    MoveWake(s.procs, p, mv);
    MoveExit(s.procs, p, mv);
    MoveScan(s.procs, p, mv);
    MoveCpu(s.procs, s.cpus, c, p, mv, NoffAfter(s.cpus[c].noff, mv.op));
    MoveLocks(s, c, p, mv);
    MoveZombie(s, c, p, mv);
  }
}
