/** Moves that change one program counter and one lock keep the invariant. */
module ProcMoves {
  import opened Prelude
  import opened ProcMachine
  import opened ProcInvariant

  // ---- what is true of every such move ----

  ghost predicate HeldOk(p: nat, pc: Pc, pc': Pc, op: LockOp) {
    match op
    case NoLock => HeldPc(p, pc') == HeldPc(p, pc)
    case Acq(l) => HeldPc(p, pc') == HeldPc(p, pc) + {l}
    case Rel(l) => l in HeldPc(p, pc) && HeldPc(p, pc') == HeldPc(p, pc) - {l}
  }

  /** wakeup starts at slot 0 and leaves behind only slots with nobody to wake, or its own. */
  ghost predicate WakeOk(procs: seq<Proc>, p: nat, pc: Pc, pc': Pc) {
    IsWake(pc') ==>
      || pc'.i == 0
      || HeldRet(pc'.ret) == {}
      || (IsWake(pc) && pc'.chan == pc.chan && pc'.ret == pc.ret &&
          (pc'.i <= pc.i || (pc'.i == pc.i + 1 && (pc.i == p || NobodyAt(procs, pc.i, pc.chan, pc.ret)))))
  }

  ghost predicate NobodyAt(procs: seq<Proc>, i: nat, chan: Chan, ret: Pc) {
    i < |procs| && forall lk :: lk in HeldRet(ret) ==> !Window(procs[i], chan, lk)
  }

  /** Only a holder of lk starts to sleep under lk. */
  ghost predicate WindowOk(p: nat, pr: Proc, pc': Pc) {
    var k, k' := Promise(pr), Promise(pr.(pc := pc'));
    k'.Some? ==> k' == k || k'.value.1 in HeldPc(p, pr.pc)
  }

  predicate ExitOk(n: nat, pr: Proc, pc': Pc) {
    && (pc'.ExitLock? || pc'.ExitSet? ==>
          pr.pc.ExitLock? || pr.pc.ExitSet? || (IsWake(pr.pc) && pr.pc.ret.ExitLock? && pr.pc.i >= n))
    && (IsWake(pc') && pc'.ret.ExitLock? ==>
          || (IsWake(pr.pc) && pr.pc.ret == pc'.ret && pr.pc.chan == pc'.chan)
          || (pr.parent.Some? ==> pc'.chan == ProcChan(pr.parent.value)))
  }

  predicate ScanOk(procs: seq<Proc>, p: nat, pc: Pc, pc': Pc) {
    var i, i' := ScanIdx(|procs|, pc), ScanIdx(|procs|, pc');
    i' <= i || (i' == i + 1 && i < |procs| && (procs[i].parent != Some(p) || procs[i].state != Zombie))
  }

  predicate ProgressOk(procs: seq<Proc>, p: nat, pc: Pc, pc': Pc) {
    var i, i' := ExitIdx(|procs|, pc), ExitIdx(|procs|, pc');
    i' <= i || (i' == i + 1 && i < |procs| && procs[i].parent != Some(p))
  }

  predicate ForkOk(pc: Pc, pc': Pc) {
    ForkTarget(pc') == ForkTarget(pc) && (ParentIsSet(pc') ==> ParentIsSet(pc))
  }

  /** Process p is executing. */
  predicate Runs(s: Sys, c: nat, p: nat) {
    Inside(s, c, p) && s.procs[p].cpu == Some(c) && PhaseOf(s.procs[p].cpu, s.cpus).In? &&
    WfPc(p, |s.procs|, s.procs[p].pc) && StateOk(s.procs[p], In)
  }

  lemma InsideRuns(s: Sys, c: nat, p: nat)
    requires CpuInv(s.procs, s.cpus) && StateInv(s.procs, s.cpus) && Inside(s, c, p)
    ensures Runs(s, c, p)
  {
    assert CpuOk(s.procs, s.cpus[c], c);
  }

  /** A process goes on executing while another one changes. */
  lemma RunsOn(s: Sys, c: nat, p: nat, i: nat, pr': Proc)
    requires Runs(s, c, p) && i < |s.procs| && i != p
    ensures Runs(SetProc(s, i, pr'), c, p)
  {
  }

  /** What a move does to the mover's locks and state. */
  ghost predicate LockFacts(procs: seq<Proc>, p: nat, mv: Move)
    requires p < |procs|
  {
    var pr := procs[p];
    && (HeldOk(p, pr.pc, mv.pc, mv.op) || (mv.op.Acq? && mv.op.l in HeldPc(p, pr.pc)))
    && WfPc(p, |procs|, mv.pc) && StateOk(pr.(pc := mv.pc), In)
  }

  /** What a move does to the protocols the mover takes part in. */
  ghost predicate ProtocolFacts(procs: seq<Proc>, p: nat, mv: Move)
    requires p < |procs|
  {
    WakeOk(procs, p, procs[p].pc, mv.pc) && WindowOk(p, procs[p], mv.pc) && TableFacts(procs, p, mv)
  }

  ghost predicate TableFacts(procs: seq<Proc>, p: nat, mv: Move)
    requires p < |procs|
  {
    var pr := procs[p];
    && ExitOk(|procs|, pr, mv.pc)
    && ScanOk(procs, p, pr.pc, mv.pc)
    && ProgressOk(procs, p, pr.pc, mv.pc)
    && ForkOk(pr.pc, mv.pc)
  }

  ghost predicate MoveFacts(procs: seq<Proc>, p: nat, mv: Move)
    requires p < |procs|
  {
    LockFacts(procs, p, mv) && ProtocolFacts(procs, p, mv)
  }

  lemma ExitLocks(s: Sys, c: nat, p: nat, mv: Move)
    requires Runs(s, c, p) && ExitNext(s, p) == Some(mv)
    ensures LockFacts(s.procs, p, mv)
  {
  }

  lemma ExitWakes(s: Sys, c: nat, p: nat, mv: Move)
    requires Runs(s, c, p) && ExitNext(s, p) == Some(mv)
    ensures WakeOk(s.procs, p, s.procs[p].pc, mv.pc) && WindowOk(p, s.procs[p], mv.pc)
  {
  }

  lemma ExitTable(s: Sys, c: nat, p: nat, mv: Move)
    requires Runs(s, c, p) && ExitNext(s, p) == Some(mv)
    ensures TableFacts(s.procs, p, mv)
  {
  }

  lemma WaitScanLocks(s: Sys, c: nat, p: nat, mv: Move)
    requires Runs(s, c, p) && WaitNext(s, p) == Some(mv)
    requires s.procs[p].pc.WaitScan? || s.procs[p].pc.WaitAt? || s.procs[p].pc.WaitDone?
    ensures LockFacts(s.procs, p, mv)
  {
  }

  lemma WaitLocks(s: Sys, c: nat, p: nat, mv: Move)
    requires Runs(s, c, p) && WaitNext(s, p) == Some(mv)
    ensures LockFacts(s.procs, p, mv)
  {
    if s.procs[p].pc.WaitScan? || s.procs[p].pc.WaitAt? || s.procs[p].pc.WaitDone? { WaitScanLocks(s, c, p, mv); }
  }

  lemma WaitProtocol(s: Sys, c: nat, p: nat, mv: Move)
    requires Runs(s, c, p) && WaitNext(s, p) == Some(mv)
    ensures ProtocolFacts(s.procs, p, mv)
  {
  }

  lemma ForkLocks(s: Sys, c: nat, p: nat, mv: Move)
    requires Runs(s, c, p) && ForkNext(s, p) == Some(mv)
    ensures LockFacts(s.procs, p, mv)
  {
  }

  lemma ForkProtocol(s: Sys, c: nat, p: nat, mv: Move)
    requires Runs(s, c, p) && ForkNext(s, p) == Some(mv)
    ensures ProtocolFacts(s.procs, p, mv)
  {
  }

  lemma YieldLocks(s: Sys, c: nat, p: nat, mv: Move)
    requires Runs(s, c, p) && SyncNext(s, p) == Some(mv)
    requires s.procs[p].pc.YieldAcq? || s.procs[p].pc.YieldDone? || s.procs[p].pc.ForkRet?
    ensures LockFacts(s.procs, p, mv)
  {
  }

  lemma YieldProtocol(s: Sys, c: nat, p: nat, mv: Move)
    requires Runs(s, c, p) && SyncNext(s, p) == Some(mv)
    requires s.procs[p].pc.YieldAcq? || s.procs[p].pc.YieldDone? || s.procs[p].pc.ForkRet?
    ensures ProtocolFacts(s.procs, p, mv)
  {
  }

  lemma SleepLocks(s: Sys, c: nat, p: nat, mv: Move)
    requires Runs(s, c, p) && SyncNext(s, p) == Some(mv)
    requires s.procs[p].pc.SleepAcq? || s.procs[p].pc.SleepRel? || s.procs[p].pc.SleepReacq?
    ensures LockFacts(s.procs, p, mv)
  {
  }

  lemma SleepProtocol(s: Sys, c: nat, p: nat, mv: Move)
    requires Runs(s, c, p) && SyncNext(s, p) == Some(mv)
    requires s.procs[p].pc.SleepAcq? || s.procs[p].pc.SleepRel? || s.procs[p].pc.SleepReacq?
    ensures ProtocolFacts(s.procs, p, mv)
  {
  }

  lemma WakeLocks(s: Sys, c: nat, p: nat, mv: Move)
    requires Runs(s, c, p) && SyncNext(s, p) == Some(mv) && s.procs[p].pc.Wake?
    ensures LockFacts(s.procs, p, mv)
  {
  }

  lemma WakeProtocol(s: Sys, c: nat, p: nat, mv: Move)
    requires Runs(s, c, p) && SyncNext(s, p) == Some(mv) && s.procs[p].pc.Wake?
    ensures ProtocolFacts(s.procs, p, mv)
  {
  }

  lemma SyncMoves(s: Sys, c: nat, p: nat, mv: Move)
    requires Runs(s, c, p) && SyncNext(s, p) == Some(mv)
    ensures MoveFacts(s.procs, p, mv)
  {
    var pc := s.procs[p].pc;
    if pc.Wake? {
      WakeLocks(s, c, p, mv);
      WakeProtocol(s, c, p, mv);
    } else if pc.SleepAcq? || pc.SleepRel? || pc.SleepReacq? {
      SleepLocks(s, c, p, mv);
      SleepProtocol(s, c, p, mv);
    } else {
      YieldLocks(s, c, p, mv);
      YieldProtocol(s, c, p, mv);
    }
  }

  lemma IdleLocks(s: Sys, c: nat, p: nat, act: Act, mv: Move)
    requires Runs(s, c, p) && s.procs[p].pc.Idle? && IdleNext(p, act) == Some(mv)
    ensures LockFacts(s.procs, p, mv)
  {
  }

  lemma IdleWakes(s: Sys, c: nat, p: nat, act: Act, mv: Move)
    requires Runs(s, c, p) && s.procs[p].pc.Idle? && IdleNext(p, act) == Some(mv)
    ensures WakeOk(s.procs, p, s.procs[p].pc, mv.pc) && WindowOk(p, s.procs[p], mv.pc)
  {
  }

  lemma IdleTable(s: Sys, c: nat, p: nat, act: Act, mv: Move)
    requires Runs(s, c, p) && s.procs[p].pc.Idle? && IdleNext(p, act) == Some(mv)
    ensures TableFacts(s.procs, p, mv)
  {
  }

  lemma CallYieldMoves(s: Sys, c: nat, p: nat, mv: Move)
    requires Runs(s, c, p) && PcNext(s, p, Yield) == Some(mv)
    ensures MoveFacts(s.procs, p, mv)
  {
  }

  /** A handler starts. */
  lemma EnterMoves(s: Sys, c: nat, p: nat, act: Act, mv: Move)
    requires Runs(s, c, p) && act.Enter? && PcNext(s, p, act) == Some(mv)
    ensures MoveFacts(s.procs, p, mv)
  {
  }

  lemma CritLocks(s: Sys, c: nat, p: nat, act: Act, mv: Move)
    requires Runs(s, c, p) && s.procs[p].pc.Crit? && CritNext(s.procs[p].pc, act) == Some(mv)
    ensures LockFacts(s.procs, p, mv)
  {
  }

  lemma CritProtocol(s: Sys, c: nat, p: nat, act: Act, mv: Move)
    requires Runs(s, c, p) && s.procs[p].pc.Crit? && CritNext(s.procs[p].pc, act) == Some(mv)
    ensures ProtocolFacts(s.procs, p, mv)
  {
  }

  lemma ChoiceMoves(s: Sys, c: nat, p: nat, act: Act, mv: Move)
    requires Runs(s, c, p) && PcNext(s, p, act) == Some(mv) && act != Go && act != Yield && !act.Enter?
    requires !s.procs[p].pc.Idle? && !s.procs[p].pc.Crit?
    ensures MoveFacts(s.procs, p, mv)
  {
  }

  lemma AllMoves(s: Sys, c: nat, p: nat, act: Act, mv: Move)
    requires Runs(s, c, p) && PcNext(s, p, act) == Some(mv)
    ensures MoveFacts(s.procs, p, mv)
  {
    var pc := s.procs[p].pc;
    if act == Yield {
      CallYieldMoves(s, c, p, mv);
    } else if act.Enter? {
      EnterMoves(s, c, p, act, mv);
    } else if pc.Crit? {
      CritLocks(s, c, p, act, mv);
      CritProtocol(s, c, p, act, mv);
    } else if pc.Idle? {
      IdleLocks(s, c, p, act, mv);
      IdleWakes(s, c, p, act, mv);
      IdleTable(s, c, p, act, mv);
    } else if act != Go {
      ChoiceMoves(s, c, p, act, mv);
    } else if ExitNext(s, p) == Some(mv) {
      ExitLocks(s, c, p, mv);
      ExitWakes(s, c, p, mv);
      ExitTable(s, c, p, mv);
    } else if WaitNext(s, p) == Some(mv) {
      WaitLocks(s, c, p, mv);
      WaitProtocol(s, c, p, mv);
    } else if ForkNext(s, p) == Some(mv) {
      ForkLocks(s, c, p, mv);
      ForkProtocol(s, c, p, mv);
    } else {
      SyncMoves(s, c, p, mv);
    }
  }

  // ---- each part of the invariant ----

  /** The table after process p moves to pc'. */
  function Moved(procs: seq<Proc>, p: nat, pc': Pc): seq<Proc>
    requires p < |procs|
  {
    procs[p := procs[p].(pc := pc')]
  }

  lemma WindowElsewhere(procs: seq<Proc>, p: nat, pc': Pc, q: nat, chan: Chan, lk: LockId)
    requires p < |procs| && q < |procs| && WindowOk(p, procs[p], pc')
    requires Window(Moved(procs, p, pc')[q], chan, lk)
    ensures Window(procs[q], chan, lk) || (q == p && lk in HeldPc(p, procs[p].pc))
  {
  }

  /** Two processes that execute do not hold the same lock. */
  ghost predicate Exclusive(procs: seq<Proc>, p: nat)
    requires p < |procs|
  {
    forall q, l ::
      0 <= q < |procs| && q != p && l in HeldPc(p, procs[p].pc) && Executes(procs[q]) ==> l !in HeldPc(q, procs[q].pc)
  }

  /** Running, and past the scheduler's swtch. */
  predicate Executes(pr: Proc) {
    !pr.saved && (pr.state.Running? || pr.state.Zombie?)
  }

  lemma RunsExclusive(s: Sys, c: nat, p: nat)
    requires CpuInv(s.procs, s.cpus) && LocksInv(s.procs, s.cpus, s.locks) && StateInv(s.procs, s.cpus)
    requires Runs(s, c, p)
    ensures Exclusive(s.procs, p)
  {
    forall q, l | 0 <= q < |s.procs| && q != p && l in HeldPc(p, s.procs[p].pc) && Executes(s.procs[q])
      ensures l !in HeldPc(q, s.procs[q].pc)
    {
      if l in HeldPc(q, s.procs[q].pc) {
        assert StateOk(s.procs[q], PhaseOf(s.procs[q].cpu, s.cpus));
        HolderOf(s.procs, s.cpus, s.locks, p, l);
        HolderOf(s.procs, s.cpus, s.locks, q, l);
        assert false;
      }
    }
  }

  lemma MoveWake(procs: seq<Proc>, p: nat, mv: Move)
    requires p < |procs| && WakeInv(procs) && Exclusive(procs, p)
    requires WakeOk(procs, p, procs[p].pc, mv.pc) && WindowOk(p, procs[p], mv.pc)
    requires forall w :: 0 <= w < |procs| && IsWake(procs[w].pc) ==> Executes(procs[w])
    ensures WakeInv(Moved(procs, p, mv.pc))
  {
    var procs' := Moved(procs, p, mv.pc);
    forall w, q, lk | 0 <= w < |procs| && 0 <= q < |procs| && Passed(procs'[w].pc, q) && q != w
      && lk in HeldRet(procs'[w].pc.ret)
      ensures !Window(procs'[q], procs'[w].pc.chan, lk)
    {
      if Window(procs'[q], procs'[w].pc.chan, lk) {
        WindowElsewhere(procs, p, mv.pc, q, procs'[w].pc.chan, lk);
        assert false;
      }
    }
  }

  /** When wakeup has gone through the whole table, nobody is left to wake. */
  lemma WakeDone(procs: seq<Proc>, w: nat, q: nat, lk: LockId)
    requires WakeInv(procs) && w < |procs| && IsWake(procs[w].pc) && procs[w].pc.i >= |procs|
    requires q < |procs| && lk in HeldRet(procs[w].pc.ret)
    ensures !Window(procs[q], procs[w].pc.chan, lk)
  {
    if q != w {
      assert Passed(procs[w].pc, q);
    }
  }

  lemma MoveExit(procs: seq<Proc>, p: nat, mv: Move)
    requires p < |procs| && ExitInv(procs) && WakeInv(procs) && Exclusive(procs, p)
    requires WindowOk(p, procs[p], mv.pc) && ExitOk(|procs|, procs[p], mv.pc)
    requires forall q :: 0 <= q < |procs| && (procs[q].pc.ExitLock? || procs[q].pc.ExitSet?) ==> Executes(procs[q])
    ensures ExitInv(Moved(procs, p, mv.pc))
  {
    var procs' := Moved(procs, p, mv.pc);
    forall q: nat, t: nat | IsParent(procs', q, t) && t < |procs'|
      ensures ExitPair(procs'[q].pc, procs'[t], t)
    {
      assert IsParent(procs, q, t);
      if procs'[q].pc.ExitLock? || procs'[q].pc.ExitSet? {
        if q == p && IsWake(procs[q].pc) {
          WakeDone(procs, q, t, WaitLock);
        }
        if Window(procs'[t], ProcChan(t), WaitLock) {
          WindowElsewhere(procs, p, mv.pc, t, ProcChan(t), WaitLock);
          assert false;
        }
      }
    }
  }

  lemma MoveScan(procs: seq<Proc>, p: nat, mv: Move)
    requires p < |procs| && ScanInv(procs) && ScanOk(procs, p, procs[p].pc, mv.pc)
    ensures ScanInv(Moved(procs, p, mv.pc))
  {
  }

  lemma MoveParent(procs: seq<Proc>, p: nat, mv: Move)
    requires p < |procs| && ParentInv(procs) && ProgressOk(procs, p, procs[p].pc, mv.pc)
    ensures ParentInv(Moved(procs, p, mv.pc))
  {
    var procs' := Moved(procs, p, mv.pc);
    forall q: nat, t: nat | IsParent(procs', q, t)
      ensures t < |procs'| && LiveParent(|procs'|, procs'[t], q)
    {
      assert IsParent(procs, q, t);
    }
    assert forall q :: 0 < q < |procs| ==> HasParent(procs[q]) && HasParent(procs'[q]);
  }

  /** Slot i becomes pr' and p moves to pc'.  The slot's creator follows what p fills in, and
      nobody else loses a child that is being made. */
  ghost predicate ForkChange(procs: seq<Proc>, p: nat, i: nat, pr': Proc, pc': Pc)
    requires p < |procs| && i < |procs|
  {
    var before, after := ForkTarget(procs[p].pc), ForkTarget(pc');
    && (after == before || (before.None? && after == Some(i)) || (before == Some(i) && after.None?))
    && (pr'.state.Used? <==> pr'.creator.Some?)
    && pr'.creator == (if after == Some(i) then Some(p) else if before == Some(i) then None else procs[i].creator)
    && (after == Some(i) ==> procs[i].creator.None? || procs[i].creator == Some(p))
    && (ParentIsSet(pc') && after == Some(i) ==> pr'.parent == Some(p))
    && (ParentIsSet(pc') && after.Some? && after != Some(i) ==> ParentIsSet(procs[p].pc))
    && (pr'.creator.None? || pr'.creator == Some(p) || procs[i].parent.None? || procs[i].parent == Some(p) ||
        pr'.parent == procs[i].parent)
    && (i != p ==>
          ForkTarget(pr'.pc) == ForkTarget(procs[i].pc) && (ParentIsSet(pr'.pc) ==> ParentIsSet(procs[i].pc)))
  }

  lemma ForkPair(procs: seq<Proc>, p: nat, i: nat, pr': Proc, pc': Pc)
    requires ForkInv(procs) && p < |procs| && i < |procs| && ForkChange(procs, p, i, pr', pc')
    ensures ForkInv(Moved(procs[i := pr'], p, pc'))
  {
    var procs' := Moved(procs[i := pr'], p, pc');
    forall k: nat, q: nat | CreatedBy(procs', k, q)
      ensures q < |procs'| && Targets(procs', q, k)
    {
      assert CreatedBy(procs, k, q) || (k == i && q == p && ForkTarget(pc') == Some(i));
      if CreatedBy(procs, k, q) {
        assert Targets(procs, q, k);
      }
    }
    forall q: nat, k: nat | Targets(procs', q, k)
      ensures k < |procs'| && TargetOf(procs'[q].pc, procs'[k], q)
    {
      if !(k == i && q == p) {
        assert Targets(procs, q, k);
      }
    }
  }

  lemma MoveFork(procs: seq<Proc>, p: nat, mv: Move)
    requires p < |procs| && ForkInv(procs) && ForkOk(procs[p].pc, mv.pc)
    ensures ForkInv(Moved(procs, p, mv.pc))
  {
    if ForkTarget(procs[p].pc).Some? {
      assert Targets(procs, p, ForkTarget(procs[p].pc).value);
    }
    assert procs[p := procs[p]] == procs;
    ForkPair(procs, p, p, procs[p], mv.pc);
  }

  lemma MoveCpu(procs: seq<Proc>, cpus: seq<Cpu>, c: nat, p: nat, mv: Move, noff: int)
    requires p < |procs| && c < |cpus| && CpuInv(procs, cpus) && StateInv(procs, cpus)
    requires PhaseOf(procs[p].cpu, cpus).In? && LockFacts(procs, p, mv)
    ensures var cpus' := cpus[c := cpus[c].(noff := noff)];
            CpuInv(Moved(procs, p, mv.pc), cpus') && StateInv(Moved(procs, p, mv.pc), cpus')
  {
    var procs', cpus' := Moved(procs, p, mv.pc), cpus[c := cpus[c].(noff := noff)];
    forall k | 0 <= k < |cpus|
      ensures CpuOk(procs', cpus'[k], k)
    {
      assert CpuOk(procs, cpus[k], k);
    }
    forall q | 0 <= q < |procs|
      ensures WfPc(q, |procs'|, procs'[q].pc) && StateOk(procs'[q], PhaseOf(procs'[q].cpu, cpus'))
    {
      PhaseKept(procs[q].cpu, cpus, c, noff);
      assert StateOk(procs[q], PhaseOf(procs[q].cpu, cpus));
    }
  }

  lemma PhaseKept(cpu: Option<nat>, cpus: seq<Cpu>, c: nat, noff: int)
    requires c < |cpus|
    ensures PhaseOf(cpu, cpus[c := cpus[c].(noff := noff)]) == PhaseOf(cpu, cpus)
  {
  }

  lemma MoveLocks(s: Sys, c: nat, p: nat, mv: Move)
    requires CpuInv(s.procs, s.cpus) && LocksInv(s.procs, s.cpus, s.locks)
    requires Runs(s, c, p) && LockFacts(s.procs, p, mv) && LockReady(s, c, mv.op)
    ensures var t := LockStep(SetPc(s, p, mv.pc), c, mv.op);
            LocksInv(t.procs, t.cpus, t.locks)
  {
    var t := LockStep(SetPc(s, p, mv.pc), c, mv.op);
    if mv.op.Acq? {
      HeldBy(s.procs, s.cpus, s.locks, c, mv.op.l);
    }
    OthersHold(s.procs, s.cpus, c, t.procs, p);
    assert HeldAt(t.procs, t.cpus[c].at) == HeldPc(p, mv.pc);
    assert HeldAt(s.procs, s.cpus[c].at) == HeldPc(p, s.procs[p].pc);
    LocksStep(s.procs, s.cpus, s.locks, c, mv.op, t.procs, t.cpus);
  }

  /** A process goes to sleep in wait only after it has seen the whole table, and a
      process in the middle of wakeup with wait_lock goes on with it. */
  predicate ZombieOk(n: nat, p: nat, pr: Proc, mv: Move) {
    SleepsAfterScan(n, p, pr, mv) && WakesOn(n, pr, mv)
  }

  predicate SleepsAfterScan(n: nat, p: nat, pr: Proc, mv: Move) {
    Window(pr.(pc := mv.pc), ProcChan(p), WaitLock) ==> Window(pr, ProcChan(p), WaitLock) || ScanIdx(n, pr.pc) >= n
  }

  predicate WakesOn(n: nat, pr: Proc, mv: Move) {
    IsWake(pr.pc) && pr.pc.i < n && WaitLock in HeldRet(pr.pc.ret) ==>
      IsWake(mv.pc) && mv.pc.chan == pr.pc.chan && mv.pc.ret == pr.pc.ret
  }

  lemma ZombieMoves(s: Sys, c: nat, p: nat, act: Act, mv: Move)
    requires Runs(s, c, p) && PcNext(s, p, act) == Some(mv)
    ensures ZombieOk(|s.procs|, p, s.procs[p], mv)
  {
    WakingMoves(s, p, act, mv);
    SleepyMoves(s, p, act, mv);
  }

  lemma WakingMoves(s: Sys, p: nat, act: Act, mv: Move)
    requires p < |s.procs| && PcNext(s, p, act) == Some(mv)
    ensures WakesOn(|s.procs|, s.procs[p], mv)
  {
  }

  lemma SleepyMoves(s: Sys, p: nat, act: Act, mv: Move)
    requires p < |s.procs| && PcNext(s, p, act) == Some(mv)
    requires WfPc(p, |s.procs|, s.procs[p].pc)
    ensures SleepsAfterScan(|s.procs|, p, s.procs[p], mv)
  {
  }

  /** Another CPU's waker is not disturbed by a move of p. */
  lemma WakerStays(s: Sys, c: nat, p: nat, mv: Move, k: nat, chan: Chan)
    requires CpuInv(s.procs, s.cpus) && Runs(s, c, p) && k != c && WakerOn(s.procs, s.cpus, k, chan)
    ensures var t := LockStep(SetPc(s, p, mv.pc), c, mv.op); WakerOn(t.procs, t.cpus, k, chan)
  {
    assert CpuOk(s.procs, s.cpus[k], k);
  }

  lemma MoveZombie(s: Sys, c: nat, p: nat, mv: Move)
    requires CpuInv(s.procs, s.cpus) && ZombieInv(s.procs, s.cpus, s.locks) && WakeInv(s.procs) && ScanInv(s.procs)
    requires Runs(s, c, p) && WindowOk(p, s.procs[p], mv.pc) && ZombieOk(|s.procs|, p, s.procs[p], mv)
    requires LockReady(s, c, mv.op) && (mv.op == Rel(WaitLock) ==> !IsWake(s.procs[p].pc))
    ensures var t := LockStep(SetPc(s, p, mv.pc), c, mv.op);
            ZombieInv(t.procs, t.cpus, t.locks)
  {
    var t := LockStep(SetPc(s, p, mv.pc), c, mv.op);
    forall q, r | 0 <= q < |t.procs| && 0 <= r < |t.procs| && t.procs[r].parent == Some(q) && t.procs[r].state == Zombie
      && AsleepInWait(t.procs, q)
      ensures WaitLock in t.locks && WakerOn(t.procs, t.cpus, t.locks[WaitLock], ProcChan(q))
    {
      WasAsleep(s, p, mv, q, r);
      var k := s.locks[WaitLock];
      if k == c { WakerGoesOn(s, c, p, mv, q); } else { WakerStays(s, c, p, mv, k, ProcChan(q)); }
    }
  }

  /** The waker with wait_lock, if it is p, is not done yet and goes on. */
  lemma WakerGoesOn(s: Sys, c: nat, p: nat, mv: Move, q: nat)
    requires WakeInv(s.procs) && Runs(s, c, p) && q < |s.procs| && AsleepInWait(s.procs, q)
    requires WakerOn(s.procs, s.cpus, c, ProcChan(q)) && WakesOn(|s.procs|, s.procs[p], mv)
    ensures var t := LockStep(SetPc(s, p, mv.pc), c, mv.op); WakerOn(t.procs, t.cpus, c, ProcChan(q))
    ensures IsWake(s.procs[p].pc)
  {
    if s.procs[p].pc.i >= |s.procs| {
      WakeDone(s.procs, p, q, WaitLock);
      assert false;
    }
  }

  /** A move does not put a process with a zombie child to sleep in wait. */
  lemma WasAsleep(s: Sys, p: nat, mv: Move, q: nat, r: nat)
    requires p < |s.procs| && q < |s.procs| && r < |s.procs| && ScanInv(s.procs)
    requires WindowOk(p, s.procs[p], mv.pc) && ZombieOk(|s.procs|, p, s.procs[p], mv)
    requires s.procs[r].parent == Some(q) && s.procs[r].state == Zombie && AsleepInWait(SetPc(s, p, mv.pc).procs, q)
    ensures AsleepInWait(s.procs, q)
  {
  }

  /** A process whose program counter is inside wakeup or exit is executing. */
  lemma WakersExecute(s: Sys)
    requires StateInv(s.procs, s.cpus)
    ensures forall w :: 0 <= w < |s.procs| && IsWake(s.procs[w].pc) ==> Executes(s.procs[w])
    ensures forall q ::
              0 <= q < |s.procs| && (s.procs[q].pc.ExitLock? || s.procs[q].pc.ExitSet?) ==> Executes(s.procs[q])
  {
    forall w | 0 <= w < |s.procs|
      ensures IsWake(s.procs[w].pc) || s.procs[w].pc.ExitLock? || s.procs[w].pc.ExitSet? ==> Executes(s.procs[w])
    {
      assert StateOk(s.procs[w], PhaseOf(s.procs[w].cpu, s.cpus));
    }
  }

  lemma KeepTables(procs: seq<Proc>, p: nat, mv: Move, nextpid: nat, reaped: set<nat>)
    requires p < |procs| && WakeInv(procs) && ExitInv(procs) && ScanInv(procs) && ParentInv(procs) && ForkInv(procs)
    requires PidInv(procs, nextpid, reaped) && Exclusive(procs, p) && ProtocolFacts(procs, p, mv)
    requires forall w :: 0 <= w < |procs| && IsWake(procs[w].pc) ==> Executes(procs[w])
    requires forall q :: 0 <= q < |procs| && (procs[q].pc.ExitLock? || procs[q].pc.ExitSet?) ==> Executes(procs[q])
    ensures var procs' := Moved(procs, p, mv.pc);
            && WakeInv(procs') && ExitInv(procs') && ScanInv(procs') && ParentInv(procs') && ForkInv(procs')
            && PidInv(procs', nextpid, reaped)
  {
    MoveWake(procs, p, mv);
    MoveExit(procs, p, mv);
    MoveScan(procs, p, mv);
    MoveParent(procs, p, mv);
    MoveFork(procs, p, mv);
  }

  lemma KeepMachine(s: Sys, c: nat, p: nat, mv: Move)
    requires CpuInv(s.procs, s.cpus) && LocksInv(s.procs, s.cpus, s.locks) && StateInv(s.procs, s.cpus)
    requires ZombieInv(s.procs, s.cpus, s.locks) && WakeInv(s.procs) && ScanInv(s.procs)
    requires Runs(s, c, p) && MoveFacts(s.procs, p, mv) && ZombieOk(|s.procs|, p, s.procs[p], mv)
    requires LockReady(s, c, mv.op) && (mv.op == Rel(WaitLock) ==> !IsWake(s.procs[p].pc))
    ensures var t := LockStep(SetPc(s, p, mv.pc), c, mv.op);
            && CpuInv(t.procs, t.cpus) && LocksInv(t.procs, t.cpus, t.locks) && StateInv(t.procs, t.cpus)
            && ZombieInv(t.procs, t.cpus, t.locks) && t.procs == Moved(s.procs, p, mv.pc)
  {
    MoveCpu(s.procs, s.cpus, c, p, mv, NoffAfter(s.cpus[c].noff, mv.op));
    MoveLocks(s, c, p, mv);
    MoveZombie(s, c, p, mv);
  }

  lemma NoReleaseInWake(s: Sys, p: nat, act: Act, mv: Move)
    requires p < |s.procs| && PcNext(s, p, act) == Some(mv)
    ensures mv.op == Rel(WaitLock) ==> !IsWake(s.procs[p].pc)
  {
  }

  /** Any move with these facts keeps the invariant. */
  lemma FactsKeepInv(s: Sys, c: nat, p: nat, mv: Move)
    requires Inv(s) && Runs(s, c, p) && MoveFacts(s.procs, p, mv) && ZombieOk(|s.procs|, p, s.procs[p], mv)
    requires LockReady(s, c, mv.op) && (mv.op == Rel(WaitLock) ==> !IsWake(s.procs[p].pc))
    ensures Inv(LockStep(SetPc(s, p, mv.pc), c, mv.op))
  {
    RunsExclusive(s, c, p);
    WakersExecute(s);
    KeepTables(s.procs, p, mv, s.nextpid, s.reaped);
    KeepMachine(s, c, p, mv);
  }

  /** Moves of a program counter keep the invariant. */
  lemma MovesKeepInv(s: Sys, c: nat, p: nat, act: Act, mv: Move)
    requires Inv(s) && Inside(s, c, p) && PcNext(s, p, act) == Some(mv) && LockReady(s, c, mv.op)
    ensures Inv(LockStep(SetPc(s, p, mv.pc), c, mv.op))
  {
    InsideRuns(s, c, p);
    AllMoves(s, c, p, act, mv);
    ZombieMoves(s, c, p, act, mv);
    NoReleaseInWake(s, p, act, mv);
    FactsKeepInv(s, c, p, mv);
  }
}
