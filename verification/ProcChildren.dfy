/** What wait knows about its children, over whole runs: it gives up for want of children
    exactly when there are none, reaps only its own, and sleeps only for a child it has. */
module ProcChildren {
  import opened Prelude
  import opened ProcMachine
  import opened ProcInvariant
  import opened ProcMoves
  import opened ProcSteps
  import opened ProcFamily
  import opened ProcExit
  import opened ProcHandlers
  import opened ProcProtocol

  /** In the scan of wait, with wait_lock held. */
  predicate InWait(pc: Pc) {
    pc.WaitScan? || pc.WaitAt? || pc.WaitKilled? || pc.WaitKilledAt?
  }

  predicate SawKids(pc: Pc)
    requires InWait(pc)
  {
    match pc
    case WaitScan(_, kids) => kids
    case WaitAt(_, kids) => kids
    case _ => true
  }

  ghost predicate HasKid(procs: seq<Proc>, p: nat, end: nat) {
    exists q: nat :: q < end && IsParent(procs, q, p)
  }

  /** havekids tells whether one of the slots scanned so far holds a child. */
  ghost predicate KidOk(procs: seq<Proc>, p: nat)
    requires p < |procs|
  {
    var pc := procs[p].pc;
    InWait(pc) ==>
      && (SawKids(pc) <==> HasKid(procs, p, ScanIdx(|procs|, pc)))
      && (pc.WaitAt? ==> IsParent(procs, pc.i, p))
  }

  ghost predicate KidsInv(procs: seq<Proc>) {
    forall p {:trigger KidOk(procs, p)} :: 0 <= p < |procs| ==> KidOk(procs, p)
  }

  /** A slot that fork is filling in has no parent until fork sets it. */
  ghost predicate OrphanInv(procs: seq<Proc>) {
    forall p: nat, i: nat :: Targets(procs, p, i) && i < |procs| && !ParentIsSet(procs[p].pc) ==> procs[i].parent.None?
  }

  ghost predicate FamilyInv(procs: seq<Proc>) {
    KidsInv(procs) && OrphanInv(procs)
  }

  // ---- slots being filled in ----

  /** Slot i becomes pr' and p moves to pc': nobody else's new slot gets a parent. */
  ghost predicate OrphanChange(procs: seq<Proc>, p: nat, i: nat, pr': Proc, pc': Pc)
    requires p < |procs| && i < |procs|
  {
    && (ForkTarget(pc') == ForkTarget(procs[p].pc) || ForkTarget(pc').None? || ForkTarget(pc') == Some(i))
    && (ForkTarget(pc') == Some(i) && !ParentIsSet(pc') ==> pr'.parent.None?)
    && (ForkTarget(pc').Some? && ForkTarget(pc') != Some(i) && !ParentIsSet(pc') ==> !ParentIsSet(procs[p].pc))
    && (pr'.parent.None? || pr'.parent == procs[i].parent || procs[i].parent.Some? || procs[i].creator == Some(p))
    && (i != p ==> ForkTarget(pr'.pc).None? || pr'.pc == procs[i].pc)
  }

  ghost predicate FamilyChange(procs: seq<Proc>, p: nat, i: nat, pr': Proc, pc': Pc)
    requires p < |procs| && i < |procs|
  {
    OrphanChange(procs, p, i, pr', pc') && !InWait(pc') && (i != p ==> !InWait(pr'.pc) || pr'.pc == procs[i].pc)
  }

  lemma OrphanPair(procs: seq<Proc>, p: nat, i: nat, pr': Proc, pc': Pc)
    requires ForkInv(procs) && OrphanInv(procs) && p < |procs| && i < |procs| && OrphanChange(procs, p, i, pr', pc')
    ensures OrphanInv(Moved(procs[i := pr'], p, pc'))
  {
    var procs' := Moved(procs[i := pr'], p, pc');
    forall q: nat, k: nat | Targets(procs', q, k) && k < |procs'| && !ParentIsSet(procs'[q].pc)
      ensures procs'[k].parent.None?
    {
      if !(q == p && k == i) {
        assert Targets(procs, q, k);
        assert TargetOf(procs[q].pc, procs[k], q);
      }
    }
  }

  lemma MoveSets(s: Sys, c: nat, p: nat, act: Act, mv: Move)
    requires Runs(s, c, p) && PcNext(s, p, act) == Some(mv) && ForkTarget(mv.pc).Some? && ParentIsSet(s.procs[p].pc)
    ensures ParentIsSet(mv.pc)
  {
  }

  lemma MoveOrphans(s: Sys, c: nat, p: nat, act: Act, mv: Move)
    requires ForkInv(s.procs) && OrphanInv(s.procs) && Runs(s, c, p) && PcNext(s, p, act) == Some(mv)
    ensures OrphanInv(Moved(s.procs, p, mv.pc))
  {
    AllMoves(s, c, p, act, mv);
    if ForkTarget(mv.pc).Some? {
      assert Targets(s.procs, p, ForkTarget(mv.pc).value);
      if ParentIsSet(s.procs[p].pc) { MoveSets(s, c, p, act, mv); }
    }
    assert s.procs[p := s.procs[p]] == s.procs;
    OrphanPair(s.procs, p, p, s.procs[p], mv.pc);
  }

  // ---- who changes parents ----

  /** A step of CPU c changes p->parent of nobody, unless c holds wait_lock, and puts nobody
      into wait but the process that c executes. */
  ghost predicate ParentsStay(s: Sys, c: nat, procs': seq<Proc>) {
    && |procs'| == |s.procs|
    && (forall q {:trigger procs'[q]} :: 0 <= q < |procs'| ==>
          procs'[q].parent == s.procs[q].parent || HoldsLock(s.locks, WaitLock, c))
    && (forall q {:trigger procs'[q]} :: 0 <= q < |procs'| && InWait(procs'[q].pc) && !Inside(s, c, q) ==>
          procs'[q].pc == s.procs[q].pc)
  }

  lemma SameKids(procs: seq<Proc>, procs': seq<Proc>, p: nat, end: nat)
    requires |procs'| == |procs| && forall q :: 0 <= q < |procs| ==> procs'[q].parent == procs[q].parent
    ensures HasKid(procs', p, end) <==> HasKid(procs, p, end)
  {
    if HasKid(procs, p, end) {
      var q: nat :| q < end && IsParent(procs, q, p);
      assert IsParent(procs', q, p);
    }
    if HasKid(procs', p, end) {
      var q: nat :| q < end && IsParent(procs', q, p);
      assert IsParent(procs, q, p);
    }
  }

  /** A process in wait holds wait_lock, so what it has seen stays true. */
  lemma OthersKids(s: Sys, c: nat, procs': seq<Proc>, p: nat)
    requires CpuInv(s.procs, s.cpus) && LocksInv(s.procs, s.cpus, s.locks) && StateInv(s.procs, s.cpus)
    requires ParentsStay(s, c, procs') && p < |s.procs| && !Inside(s, c, p) && KidOk(s.procs, p) && c < |s.cpus|
    ensures KidOk(procs', p)
  {
    var pc := procs'[p].pc;
    if InWait(pc) {
      assert pc == s.procs[p].pc && StateOk(s.procs[p], PhaseOf(s.procs[p].cpu, s.cpus));
      HolderOf(s.procs, s.cpus, s.locks, p, WaitLock);
      SameKids(s.procs, procs', p, ScanIdx(|s.procs|, pc));
    }
  }

  /** The moves of wait keep count. */
  lemma MoveKids(s: Sys, c: nat, p: nat, act: Act, mv: Move)
    requires Runs(s, c, p) && PcNext(s, p, act) == Some(mv) && KidOk(s.procs, p)
    ensures KidOk(Moved(s.procs, p, mv.pc), p)
  {
    var procs' := Moved(s.procs, p, mv.pc);
    if InWait(mv.pc) {
      var i, i' := ScanIdx(|s.procs|, s.procs[p].pc), ScanIdx(|s.procs|, mv.pc);
      SameKids(s.procs, procs', p, i');
      if InWait(s.procs[p].pc) {
        WaitMoves(s, c, p, act, mv);
        OneMoreSlot(s.procs, p, i);
      } else {
        EntersWait(s, c, p, act, mv);
      }
    }
  }

  lemma OneMoreSlot(procs: seq<Proc>, p: nat, i: nat)
    ensures HasKid(procs, p, i + 1) <==> HasKid(procs, p, i) || IsParent(procs, i, p)
  {
    if HasKid(procs, p, i + 1) {
      var q: nat :| q < i + 1 && IsParent(procs, q, p);
      assert q < i || q == i;
    }
  }

  /** wait starts with the first slot and no child. */
  lemma EntersWait(s: Sys, c: nat, p: nat, act: Act, mv: Move)
    requires Runs(s, c, p) && PcNext(s, p, act) == Some(mv) && InWait(mv.pc) && !InWait(s.procs[p].pc)
    ensures mv.pc == WaitScan(0, false)
  {
  }

  /** And from then on notes each child it comes by. */
  lemma WaitMoves(s: Sys, c: nat, p: nat, act: Act, mv: Move)
    requires Runs(s, c, p) && PcNext(s, p, act) == Some(mv) && InWait(mv.pc) && InWait(s.procs[p].pc)
    ensures var pc := s.procs[p].pc;
            var i, i' := ScanIdx(|s.procs|, pc), ScanIdx(|s.procs|, mv.pc);
            || (i' == i && SawKids(mv.pc) == SawKids(pc) && !pc.WaitAt?
                && (mv.pc.WaitAt? ==> mv.pc.i == i && IsParent(s.procs, i, p)))
            || (i' == i + 1 && mv.pc.WaitScan?
                && SawKids(mv.pc) == (SawKids(pc) || IsParent(s.procs, i, p) || pc.WaitAt?)
                && (pc.WaitAt? ==> pc.i == i))
  {
    assert act == Go && WaitNext(s, p) == Some(mv);
  }

  /** The parts of the invariant that are needed here. */
  ghost predicate Base(s: Sys) {
    CpuInv(s.procs, s.cpus) && LocksInv(s.procs, s.cpus, s.locks) && StateInv(s.procs, s.cpus) && ForkInv(s.procs)
  }

  lemma MoveFamily(s: Sys, c: nat, p: nat, act: Act, mv: Move)
    requires Base(s) && FamilyInv(s.procs) && Runs(s, c, p) && PcNext(s, p, act) == Some(mv)
    ensures FamilyInv(Moved(s.procs, p, mv.pc))
  {
    MoveOrphans(s, c, p, act, mv);
    var procs' := Moved(s.procs, p, mv.pc);
    forall q | 0 <= q < |procs'|
      ensures KidOk(procs', q)
    {
      assert KidOk(s.procs, q);
      if q == p { MoveKids(s, c, p, act, mv); } else { OthersKids(s, c, procs', q); }
    }
  }

  // ---- the other steps ----

  lemma LocksIfHeld(s: Sys, c: nat, p: nat, l: LockId)
    requires LocksInv(s.procs, s.cpus, s.locks) && Runs(s, c, p) && l in HeldPc(p, s.procs[p].pc)
    ensures HoldsLock(s.locks, l, c)
  {
    HeldBy(s.procs, s.cpus, s.locks, c, l);
  }

  /** Slot i becomes pr' and p moves to pc', out of wait. */
  lemma PairFamily(s: Sys, c: nat, p: nat, i: nat, pr': Proc, pc': Pc)
    requires Base(s) && FamilyInv(s.procs) && Runs(s, c, p) && i < |s.procs| && FamilyChange(s.procs, p, i, pr', pc')
    requires pr'.parent == s.procs[i].parent || HoldsLock(s.locks, WaitLock, c)
    ensures FamilyInv(Moved(s.procs[i := pr'], p, pc'))
  {
    OrphanPair(s.procs, p, i, pr', pc');
    var procs' := Moved(s.procs[i := pr'], p, pc');
    forall q | 0 <= q < |procs'|
      ensures KidOk(procs', q)
    {
      assert KidOk(s.procs, q);
      if q != p { OthersKids(s, c, procs', q); }
    }
  }

  /** One slot changes, and neither its parent nor what it is about to do. */
  lemma QuietChange(s: Sys, c: nat, i: nat, pr': Proc)
    requires Base(s) && FamilyInv(s.procs) && i < |s.procs| && c < |s.cpus|
    requires pr'.parent == s.procs[i].parent && pr'.pc == s.procs[i].pc
    ensures FamilyInv(s.procs[i := pr'])
  {
    var procs' := s.procs[i := pr'];
    forall q | 0 <= q < |procs'|
      ensures KidOk(procs', q)
    {
      assert KidOk(s.procs, q);
      SameKids(s.procs, procs', q, ScanIdx(|procs'|, procs'[q].pc));
    }
    forall q: nat, k: nat | Targets(procs', q, k) && k < |procs'| && !ParentIsSet(procs'[q].pc)
      ensures procs'[k].parent.None?
    {
      assert Targets(s.procs, q, k);
    }
  }

  lemma SchedulerFamily(s: Sys, c: nat, step: Step, t: Sys)
    requires Base(s) && FamilyInv(s.procs) && c < |s.cpus| && SchedulerNext(s, c, step) == Some(t)
    ensures FamilyInv(t.procs)
  {
    var i := SchedulerTouches(s, c, step, t);
    if i < |s.procs| { QuietChange(s, c, i, t.procs[i]); }
  }

  lemma SchedulerTouches(s: Sys, c: nat, step: Step, t: Sys) returns (i: nat)
    requires c < |s.cpus| && SchedulerNext(s, c, step) == Some(t)
    ensures |t.procs| == |s.procs|
    ensures if i < |s.procs|
            then
              && t.procs == s.procs[i := t.procs[i]] && t.procs[i].parent == s.procs[i].parent
              && t.procs[i].pc == s.procs[i].pc
            else t.procs == s.procs
  {
    var at := s.cpus[c].at;
    i := if step.Pick? || step.Jump? then at.i else if step.Return? then at.p
         else if step.WakeOne? then at.pc.i else |s.procs|;
  }

  /** What the running process changes about itself. */
  predicate OwnChange(pr: Proc, pr': Proc) {
    && pr'.parent == pr.parent && !InWait(pr'.pc)
    && ForkTarget(pr'.pc) == ForkTarget(pr.pc) && ParentIsSet(pr'.pc) == ParentIsSet(pr.pc)
  }

  lemma OwnChangeFamily(s: Sys, c: nat, p: nat, pr': Proc)
    requires Base(s) && FamilyInv(s.procs) && Runs(s, c, p) && OwnChange(s.procs[p], pr')
    ensures FamilyInv(s.procs[p := pr'])
  {
    if ForkTarget(s.procs[p].pc).Some? { assert Targets(s.procs, p, ForkTarget(s.procs[p].pc).value); }
    PairFamily(s, c, p, p, pr', pr'.pc);
    assert Moved(s.procs[p := pr'], p, pr'.pc) == s.procs[p := pr'];
  }

  lemma SaveChange(p: nat, n: nat, pr: Proc)
    requires WfPc(p, n, pr.pc) && pr.pc.InSched?
    ensures OwnChange(pr, pr.(saved := true, pc := pr.pc.cont))
  {
  }

  lemma RunnableChange(pr: Proc)
    requires pr.pc.YieldSet?
    ensures OwnChange(pr, pr.(state := Runnable, pc := InSched(YieldDone(pr.pc.ret))))
  {
  }

  lemma TidyChange(pr: Proc)
    requires pr.pc.SleepTidy?
    ensures OwnChange(pr, pr.(chan := None, pc := SleepReacq(pr.pc.lk, pr.pc.ret)))
  {
  }

  lemma SleepChange(pr: Proc)
    requires pr.pc.SleepSet?
    ensures var pc' := InSched(SleepTidy(pr.pc.lk, pr.pc.ret));
            OwnChange(pr, pr.(state := Sleeping, chan := Some(pr.pc.chan), pc := pc'))
  {
  }

  lemma OwnIs(s: Sys, c: nat, p: nat, step: Step, t: Sys) returns (pr': Proc)
    requires Runs(s, c, p) && ProcNext(s, c, p, step) == Some(t) && IsOwn(step)
    ensures t.procs == s.procs[p := pr'] && OwnChange(s.procs[p], pr')
  {
    pr' := t.procs[p];
    if step.Save? {
      SaveIs(s, c, p, t);
      SaveChange(p, |s.procs|, s.procs[p]);
    } else if step.SetRunnable? {
      SetRunnableIs(s, c, p, t);
      RunnableChange(s.procs[p]);
    } else if step.SetSleeping? {
      SetSleepingIs(s, c, p, t);
      SleepChange(s.procs[p]);
    } else if step.Tidy? {
      TidyIs(s, c, p, t);
      TidyChange(s.procs[p]);
    } else {
      SetZombieIs(s, c, p, t);
    }
  }

  lemma ParentChanges(procs: seq<Proc>, p: nat, i: nat)
    requires p < |procs| && i < |procs| && ForkInv(procs)
    ensures procs[p].pc == ExitScan(i) && IsParent(procs, i, p) ==>
              FamilyChange(procs, p, i, Adopted(procs[i]), Wake(ProcChan(INIT), 0, ExitScan(i + 1)))
    ensures procs[p].pc == ForkSetParent(i) && i != p ==>
              FamilyChange(procs, p, i, procs[i].(parent := Some(p)), ForkRun(i))
  {
    if procs[p].pc == ForkSetParent(i) { assert Targets(procs, p, i); }
  }

  lemma FreeChanges(procs: seq<Proc>, p: nat, i: nat)
    requires p < |procs| && i < |procs| && i != p
    ensures FamilyChange(procs, p, i, FreeProc, WaitDone(i)) && FamilyChange(procs, p, i, FreeProc, Idle)
  {
  }

  lemma FoundChange(procs: seq<Proc>, p: nat, i: nat, nextpid: nat)
    requires p < |procs| && i < |procs| && i != p && procs[i].parent.None?
    ensures FamilyChange(procs, p, i, NewProc(procs[i], p, nextpid), ForkMade(i))
  {
  }

  lemma ParentStepFamily(s: Sys, c: nat, p: nat, step: Step, t: Sys)
    requires Base(s) && FamilyInv(s.procs) && Runs(s, c, p) && OtherNext(s, c, p, step) == Some(t)
    requires step.Reparent? || step.SetParent?
    ensures FamilyInv(t.procs)
  {
    if step.Reparent? {
      var i := ReparentIs(s, c, p, t);
      ParentChanges(s.procs, p, i);
      LocksIfHeld(s, c, p, WaitLock);
      PairFamily(s, c, p, i, Adopted(s.procs[i]), Wake(ProcChan(INIT), 0, ExitScan(i + 1)));
    } else {
      var i := SetParentIs(s, c, p, t);
      ParentChanges(s.procs, p, i);
      LocksIfHeld(s, c, p, WaitLock);
      PairFamily(s, c, p, i, s.procs[i].(parent := Some(p)), ForkRun(i));
    }
  }

  /** The slot that fork gives back had no parent yet, so no wait misses it. */
  lemma SlotStepFamily(s: Sys, c: nat, p: nat, step: Step, t: Sys)
    requires Base(s) && FamilyInv(s.procs) && Runs(s, c, p) && OtherNext(s, c, p, step) == Some(t)
    requires step.Reap? || step.Found? || step.GiveUp?
    ensures FamilyInv(t.procs)
  {
    if step.Reap? {
      var i := ReapIs(s, c, p, t);
      FreeChanges(s.procs, p, i);
      LocksIfHeld(s, c, p, WaitLock);
      PairFamily(s, c, p, i, FreeProc, WaitDone(i));
    } else if step.Found? {
      var i := FoundIs(s, c, p, t);
      assert StateOk(s.procs[i], PhaseOf(s.procs[i].cpu, s.cpus));
      FoundChange(s.procs, p, i, s.nextpid);
      PairFamily(s, c, p, i, NewProc(s.procs[i], p, s.nextpid), ForkMade(i));
    } else {
      var i := GiveUpIs(s, c, p, t);
      assert Targets(s.procs, p, i);
      FreeChanges(s.procs, p, i);
      PairFamily(s, c, p, i, FreeProc, Idle);
    }
  }

  /** Another process changes its state only. */
  lemma StateFamily(s: Sys, c: nat, p: nat, i: nat, pr': Proc, pc': Pc)
    requires Base(s) && FamilyInv(s.procs) && Runs(s, c, p) && i < |s.procs|
    requires pr'.parent == s.procs[i].parent && pr'.pc == s.procs[i].pc && !InWait(pc')
    requires ForkTarget(pc').None? || (ForkTarget(pc') == ForkTarget(s.procs[p].pc)
                                       && ParentIsSet(pc') == ParentIsSet(s.procs[p].pc))
    ensures FamilyInv(Moved(s.procs[i := pr'], p, pc'))
  {
    if ForkTarget(pc').Some? { assert Targets(s.procs, p, ForkTarget(pc').value); }
    PairFamily(s, c, p, i, pr', pc');
  }

  lemma WakesOnPcs(chan: Chan, i: nat, ret: Pc)
    ensures ForkTarget(Wake(chan, i + 1, ret)) == ForkTarget(WakeAt(chan, i, ret))
    ensures ParentIsSet(Wake(chan, i + 1, ret)) == ParentIsSet(WakeAt(chan, i, ret))
  {
  }

  lemma StateStepFamily(s: Sys, c: nat, p: nat, step: Step, t: Sys)
    requires Base(s) && FamilyInv(s.procs) && Runs(s, c, p) && OtherNext(s, c, p, step) == Some(t)
    requires step.WakeOne? || step.KillOne? || step.SetFirstRunnable?
    ensures FamilyInv(t.procs)
  {
    if step.WakeOne? {
      var i, chan, ret := WakeIs(s, c, p, t);
      WakesOnPcs(chan, i, ret);
      StateFamily(s, c, p, i, Woken(s.procs[i], chan), Wake(chan, i + 1, ret));
    } else if step.KillOne? {
      var i := KillIs(s, c, p, t);
      StateFamily(s, c, p, i, Killed(s.procs[i]), Idle);
    } else {
      var i := StartIs(s, c, p, t);
      StateFamily(s, c, p, i, Started(s.procs[i]), Idle);
    }
  }

  lemma NextKeepsFamily(s: Sys, c: nat, step: Step, t: Sys)
    requires Inv(s) && FamilyInv(s.procs) && Next(s, c, step) == Some(t)
    ensures FamilyInv(t.procs)
  {
    if s.cpus[c].at.InProc? && s.cpus[c].at.p < |s.procs| {
      var p := s.cpus[c].at.p;
      InsideRuns(s, c, p);
      if step.Moves? {
        MoveFamily(s, c, p, step.act, PcNext(s, p, step.act).value);
      } else if IsOwn(step) {
        var pr' := OwnIs(s, c, p, step, t);
        OwnChangeFamily(s, c, p, pr');
      } else if step.Reparent? || step.SetParent? {
        ParentStepFamily(s, c, p, step, t);
      } else if step.Reap? || step.Found? || step.GiveUp? {
        SlotStepFamily(s, c, p, step, t);
      } else {
        StateStepFamily(s, c, p, step, t);
      }
    } else {
      SchedulerFamily(s, c, step, t);
    }
  }

  lemma {:induction false} RunKeepsFamily(s: Sys, run: seq<(nat, Step)>)
    requires Inv(s) && FamilyInv(s.procs) && Legal(s, run)
    ensures Inv(After(s, run)) && FamilyInv(After(s, run).procs)
    decreases |run|
  {
    if run != [] {
      var t := Next(s, run[0].0, run[0].1).value;
      NextKeepsInv(s, run[0].0, run[0].1, t);
      NextKeepsFamily(s, run[0].0, run[0].1, t);
      RunKeepsFamily(t, run[1..]);
    }
  }

  lemma BootFamily(s: Sys, run: seq<(nat, Step)>)
    requires Boot(s) && Legal(s, run)
    ensures Inv(After(s, run)) && FamilyInv(After(s, run).procs)
  {
    BootInv(s);
    RunKeepsFamily(s, run);
  }

  // ---- what wait comes to ----

  /** At the end of its scan wait has noted a child exactly if the process has one. */
  lemma WaitCountsChildren(s: Sys, run: seq<(nat, Step)>, p: nat, kids: bool)
    requires Boot(s) && Legal(s, run) && p < |After(s, run).procs|
    requires After(s, run).procs[p].pc == WaitScan(|After(s, run).procs|, kids)
    ensures kids <==> exists q: nat :: IsParent(After(s, run).procs, q, p)
  {
    BootFamily(s, run);
    var procs := After(s, run).procs;
    assert KidOk(procs, p);
  }

  /** The exits of wait.  It leaves for want of a child when the process has none, or when it
      was killed, or after it has dealt with the zombie in slot i. */
  lemma WaitGivesUp(s: Sys, run: seq<(nat, Step)>, c: nat, p: nat, act: Act)
    requires Boot(s) && Legal(s, run) && Inside(After(s, run), c, p)
    requires PcNext(After(s, run), p, act).Some? && PcNext(After(s, run), p, act).value.pc == WaitUnlock
    ensures var t := After(s, run);
            || t.procs[p].pc.WaitDone?
            || (t.procs[p].pc.WaitKilledAt? && t.procs[p].killed)
            || (t.procs[p].pc.WaitScan? && forall q: nat :: !IsParent(t.procs, q, p))
  {
    BootFamily(s, run);
    var t := After(s, run);
    InsideRuns(t, c, p);
    assert KidOk(t.procs, p);
    UnlockFrom(t, c, p, act);
  }

  lemma UnlockFrom(t: Sys, c: nat, p: nat, act: Act)
    requires Runs(t, c, p) && PcNext(t, p, act).Some? && PcNext(t, p, act).value.pc == WaitUnlock
    ensures var pc := t.procs[p].pc;
            pc.WaitDone? || (pc.WaitKilledAt? && t.procs[p].killed) || pc == WaitScan(|t.procs|, false)
  {
  }

  /** Slot i holds a zombie child of p's, which is freed and reported, or kept because copyout
      failed. */
  ghost predicate TakesOwnZombie(t: Sys, p: nat, step: Step, t': Sys, i: nat) {
    && i < |t.procs| == |t'.procs| && t.procs[i].parent == Some(p) && t.procs[i].state == Zombie
    && (if step.Reap? then t'.procs[i] == FreeProc && t'.reaped == t.reaped + {t.procs[i].pid}
        else step == Moves(Fail) && t'.procs[i] == t.procs[i])
  }

  /** The process that wait takes out of the table, or fails to report, is a zombie and its
      own child. */
  lemma WaitTakesOwnZombie(s: Sys, run: seq<(nat, Step)>, t: Sys, c: nat, p: nat, step: Step, t': Sys)
    requires Boot(s) && Legal(s, run) && t == After(s, run) && Inside(t, c, p) && !t.procs[p].pc.WaitDone?
    requires Next(t, c, step) == Some(t') && p < |t'.procs| && t'.procs[p].pc.WaitDone?
    ensures TakesOwnZombie(t, p, step, t', t'.procs[p].pc.i)
  {
    BootFamily(s, run);
    InsideRuns(t, c, p);
    assert KidOk(t.procs, p);
    DoneFrom(t, c, p, step, t');
  }

  lemma DoneFrom(t: Sys, c: nat, p: nat, step: Step, t': Sys)
    requires Runs(t, c, p) && !t.procs[p].pc.WaitDone? && ProcNext(t, c, p, step) == Some(t')
    requires p < |t'.procs| && t'.procs[p].pc.WaitDone? && KidOk(t.procs, p)
    ensures TakesOwnZombie(t, p, step, t', t'.procs[p].pc.i)
  {
    if step.Moves? {
      DoneByMove(t, c, p, step.act, PcNext(t, p, step.act).value);
    } else if !IsOwn(step) {
      DoneByReap(t, c, p, step, t');
    } else {
      NotDone(t, c, p, step, t');
    }
  }

  lemma NotDone(t: Sys, c: nat, p: nat, step: Step, t': Sys)
    requires Runs(t, c, p) && IsOwn(step) && ProcNext(t, c, p, step) == Some(t') && p < |t'.procs|
    ensures !t'.procs[p].pc.WaitDone?
  {
  }

  lemma DoneByMove(t: Sys, c: nat, p: nat, act: Act, mv: Move)
    requires Runs(t, c, p) && PcNext(t, p, act) == Some(mv) && mv.pc.WaitDone? && !t.procs[p].pc.WaitDone?
    ensures act == Fail && t.procs[p].pc.WaitAt? && mv.pc.i == t.procs[p].pc.i < |t.procs|
    ensures t.procs[mv.pc.i].state == Zombie && mv.pc.i != p
  {
  }

  lemma DoneByReap(t: Sys, c: nat, p: nat, step: Step, t': Sys)
    requires Inside(t, c, p) && OtherNext(t, c, p, step) == Some(t') && p < |t'.procs| && t'.procs[p].pc.WaitDone?
    ensures step.Reap? && t.procs[p].pc.WaitAt? && t'.procs[p].pc.i == t.procs[p].pc.i
  {
  }

  /** wait goes to sleep only in a process that was not killed and has a child, none of whose
      children is a zombie. */
  lemma WaitSleepsForChild(s: Sys, run: seq<(nat, Step)>, c: nat, p: nat, act: Act)
    requires Boot(s) && Legal(s, run) && Inside(After(s, run), c, p) && PcNext(After(s, run), p, act).Some?
    requires var pc := PcNext(After(s, run), p, act).value.pc; pc.SleepAcq? && pc.lk == WaitLock
    ensures var t := After(s, run);
            && !t.procs[p].killed && (exists q: nat :: IsParent(t.procs, q, p))
            && (forall q: nat :: IsParent(t.procs, q, p) ==> t.procs[q].state != Zombie)
  {
    BootFamily(s, run);
    var t := After(s, run);
    InsideRuns(t, c, p);
    assert KidOk(t.procs, p);
    SleepsFrom(t, c, p, act);
    NoZombieSeen(t.procs, p);
  }

  lemma SleepsFrom(t: Sys, c: nat, p: nat, act: Act)
    requires Runs(t, c, p) && PcNext(t, p, act).Some?
    requires var pc := PcNext(t, p, act).value.pc; pc.SleepAcq? && pc.lk == WaitLock
    ensures t.procs[p].pc == WaitKilledAt && !t.procs[p].killed
  {
  }

  lemma NoZombieSeen(procs: seq<Proc>, p: nat)
    requires ScanInv(procs) && p < |procs| && ScanIdx(|procs|, procs[p].pc) == |procs|
    ensures forall q: nat :: IsParent(procs, q, p) ==> procs[q].state != Zombie
  {
  }
}
