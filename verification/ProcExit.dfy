/** exit and wait: reparenting, becoming a zombie, and reaping. */
module ProcExit {
  import opened Prelude
  import opened ProcMachine
  import opened ProcInvariant
  import opened ProcMoves
  import opened ProcSteps
  import opened ProcFamily

  // ---- wait: freeproc(pp) ----

  lemma ReapMoverOk(s: Sys, c: nat, p: nat, i: nat)
    requires Runs(s, c, p) && s.procs[p].pc.WaitAt? && s.procs[p].pc.i == i && i < |s.procs|
    ensures MoverOk(s, c, p, Move(WaitDone(i), NoLock))
  {
  }

  /** The child that wait has locked and found to be a zombie has left its last CPU. */
  lemma ReapCore(s: Sys, c: nat, p: nat, i: nat)
    requires Core(s) && Inside(s, c, p) && s.procs[p].pc.WaitAt? && s.procs[p].pc.i == i
    requires i < |s.procs| && i != p && s.procs[i].state == Zombie
    ensures Core(Pair(s, c, p, i, FreeProc, Move(WaitDone(i), NoLock)))
    ensures ForkTarget(s.procs[i].pc).None?
  {
    ReapCalm(s, c, p, i);
    var s1 := SetProc(s, i, FreeProc);
    ReapMoverOk(s1, c, p, i);
    MoveCore(s1, c, p, Move(WaitDone(i), NoLock));
  }

  lemma ReapCalm(s: Sys, c: nat, p: nat, i: nat)
    requires Core(s) && Inside(s, c, p) && s.procs[p].pc.WaitAt? && s.procs[p].pc.i == i
    requires i < |s.procs| && i != p && s.procs[i].state == Zombie
    ensures Core(SetProc(s, i, FreeProc)) && ForkTarget(s.procs[i].pc).None? && Runs(SetProc(s, i, FreeProc), c, p)
  {
    ReapOff(s, c, p, i);
    CalmCore(s, i, FreeProc);
    InsideRuns(SetProc(s, i, FreeProc), c, p);
  }

  lemma ReapOff(s: Sys, c: nat, p: nat, i: nat)
    requires CpuInv(s.procs, s.cpus) && LocksInv(s.procs, s.cpus, s.locks) && StateInv(s.procs, s.cpus)
    requires Inside(s, c, p)
    requires s.procs[p].pc.WaitAt? && s.procs[p].pc.i == i && i < |s.procs| && i != p && s.procs[i].state == Zombie
    ensures s.procs[i].cpu.None? && s.procs[i].saved && s.procs[i].pc.Dead?
    ensures Calm(|s.procs|, s.procs[i], FreeProc) && ForkTarget(s.procs[i].pc).None?
  {
    InsideRuns(s, c, p);
    OffWhenLocked(s, c, i);
    assert StateOk(s.procs[i], PhaseOf(s.procs[i].cpu, s.cpus));
  }

  lemma ReapForks(procs: seq<Proc>, p: nat, i: nat)
    requires ForkInv(procs) && p < |procs| && i < |procs| && i != p && procs[p].pc.WaitAt?
    requires procs[i].state == Zombie && ForkTarget(procs[i].pc).None?
    ensures ForkInv(Moved(procs[i := FreeProc], p, WaitDone(i)))
  {
    ForkPair(procs, p, i, FreeProc, WaitDone(i));
  }

  lemma ReapParents(procs: seq<Proc>, p: nat, i: nat, nextpid: nat, reaped: set<nat>)
    requires PidInv(procs, nextpid, reaped) && ParentInv(procs)
    requires p < |procs| && i < |procs| && i != p && procs[p].pc.WaitAt? && procs[i].state == Zombie
    ensures var procs' := Moved(procs[i := FreeProc], p, WaitDone(i));
            PidInv(procs', nextpid, reaped + {procs[i].pid}) && ParentInv(procs')
  {
    var procs' := Moved(procs[i := FreeProc], p, WaitDone(i));
    forall q: nat, t: nat | IsParent(procs', q, t)
      ensures t < |procs'| && LiveParent(|procs'|, procs'[t], q)
    {
      assert IsParent(procs, q, t);
    }
    assert forall q :: 0 < q < |procs| ==> HasParent(procs[q]);
  }

  lemma ReapKeepsInv(s: Sys, c: nat, p: nat, i: nat)
    requires Inv(s) && Inside(s, c, p) && s.procs[p].pc.WaitAt? && s.procs[p].pc.i == i
    requires i < |s.procs| && i != p && s.procs[i].state == Zombie
    ensures Inv(Pair(s, c, p, i, FreeProc, Move(WaitDone(i), NoLock)).(reaped := s.reaped + {s.procs[i].pid}))
  {
    ReapCore(s, c, p, i);
    ReapForks(s.procs, p, i);
    ReapParents(s.procs, p, i, s.nextpid, s.reaped);
  }

  // ---- exit: p->state = ZOMBIE ----

  function Dying(pr: Proc): Proc {
    pr.(state := Zombie, pc := ExitRel)
  }

  /** A process that scans or sleeps in wait with wait_lock held is the only one. */
  lemma ScannerAlone(procs: seq<Proc>, p: nat, t: nat)
    requires p < |procs| && t < |procs| && t != p && Exclusive(procs, p) && WaitLock in HeldPc(p, procs[p].pc)
    requires ScanIdx(|procs|, procs[t].pc) > 0 ==> Executes(procs[t])
    ensures ScanIdx(|procs|, procs[t].pc) == 0
  {
  }

  lemma ScannersExecute(s: Sys, t: nat)
    requires StateInv(s.procs, s.cpus) && t < |s.procs|
    ensures ScanIdx(|s.procs|, s.procs[t].pc) > 0 ==> Executes(s.procs[t])
  {
    assert StateOk(s.procs[t], PhaseOf(s.procs[t].cpu, s.cpus));
  }

  lemma DyingSleep(procs: seq<Proc>, p: nat)
    requires p < |procs| && procs[p].pc.ExitSet? && WakeInv(procs) && ExitInv(procs)
    ensures WakeInv(procs[p := Dying(procs[p])]) && ExitInv(procs[p := Dying(procs[p])])
  {
    var procs' := procs[p := Dying(procs[p])];
    forall w, q, lk | 0 <= w < |procs| && 0 <= q < |procs| && Passed(procs'[w].pc, q) && q != w
      && lk in HeldRet(procs'[w].pc.ret)
      ensures !Window(procs'[q], procs'[w].pc.chan, lk)
    {
      assert Passed(procs[w].pc, q);
    }
    forall q: nat, t: nat | IsParent(procs', q, t) && t < |procs'|
      ensures ExitPair(procs'[q].pc, procs'[t], t)
    {
      assert IsParent(procs, q, t);
    }
  }

  lemma DyingScan(s: Sys, c: nat, p: nat)
    requires StateInv(s.procs, s.cpus) && Runs(s, c, p) && Exclusive(s.procs, p)
    requires s.procs[p].pc.ExitSet? && ScanInv(s.procs)
    ensures ScanInv(s.procs[p := Dying(s.procs[p])])
  {
    var procs' := s.procs[p := Dying(s.procs[p])];
    forall t | 0 <= t < |procs'|
      ensures ScanIdx(|procs'|, procs'[t].pc) == 0
    {
      if t != p {
        ScannersExecute(s, t);
        ScannerAlone(s.procs, p, t);
      }
    }
  }

  /** The parent was woken before, under wait_lock, so it is not asleep in wait now. */
  lemma DyingZombie(s: Sys, c: nat, p: nat)
    requires ZombieInv(s.procs, s.cpus, s.locks) && ExitInv(s.procs) && Runs(s, c, p) && s.procs[p].pc.ExitSet?
    ensures ZombieInv(s.procs[p := Dying(s.procs[p])], s.cpus, s.locks)
  {
    var procs' := s.procs[p := Dying(s.procs[p])];
    forall t, r | 0 <= t < |procs'| && 0 <= r < |procs'| && procs'[r].parent == Some(t) && procs'[r].state == Zombie
      && AsleepInWait(procs', t)
      ensures WaitLock in s.locks && WakerOn(procs', s.cpus, s.locks[WaitLock], ProcChan(t))
    {
      assert IsParent(s.procs, r, t);
      assert AsleepInWait(s.procs, t);
      assert r != p;
      assert WakerOn(s.procs, s.cpus, s.locks[WaitLock], ProcChan(t));
    }
  }

  lemma DyingTables(procs: seq<Proc>, p: nat, nextpid: nat, reaped: set<nat>)
    requires p < |procs| && p != INIT && procs[p].pc.ExitSet? && procs[p].state == Running
    requires ParentInv(procs) && ForkInv(procs) && PidInv(procs, nextpid, reaped)
    ensures var procs' := procs[p := Dying(procs[p])];
            ParentInv(procs') && ForkInv(procs') && PidInv(procs', nextpid, reaped)
  {
    var procs' := procs[p := Dying(procs[p])];
    forall q: nat, t: nat | IsParent(procs', q, t)
      ensures t < |procs'| && LiveParent(|procs'|, procs'[t], q)
    {
      assert IsParent(procs, q, t);
    }
    assert forall q :: 0 < q < |procs| ==> HasParent(procs[q]);
    assert procs' == Moved(procs[p := Dying(procs[p])], p, ExitRel);
    ForkPair(procs, p, p, Dying(procs[p]), ExitRel);
  }

  lemma DyingFacts(s: Sys, c: nat, p: nat)
    requires Runs(s, c, p) && s.procs[p].pc.ExitSet?
    ensures WfPc(p, |s.procs|, ExitRel) && StateOk(Dying(s.procs[p]), In)
    ensures HeldAt(s.procs[p := Dying(s.procs[p])], s.cpus[c].at) == HeldAt(s.procs, s.cpus[c].at)
    ensures s.cpus[c := s.cpus[c].(noff := s.cpus[c].noff)] == s.cpus
  {
  }

  lemma DyingMachine(s: Sys, c: nat, p: nat)
    requires CpuInv(s.procs, s.cpus) && LocksInv(s.procs, s.cpus, s.locks) && StateInv(s.procs, s.cpus)
    requires Runs(s, c, p) && s.procs[p].pc.ExitSet?
    ensures var t := LockStep(SetProc(s, p, Dying(s.procs[p])), c, NoLock);
            && t.procs == s.procs[p := Dying(s.procs[p])] && t.cpus == s.cpus && t.locks == s.locks
            && CpuInv(t.procs, t.cpus) && LocksInv(t.procs, t.cpus, t.locks) && StateInv(t.procs, t.cpus)
  {
    var t := LockStep(SetProc(s, p, Dying(s.procs[p])), c, NoLock);
    DyingFacts(s, c, p);
    OwnCpu(s, c, p, Dying(s.procs[p]), s.cpus[c].noff);
    OthersHold(s.procs, s.cpus, c, t.procs, p);
    LocksStep(s.procs, s.cpus, s.locks, c, NoLock, t.procs, t.cpus);
  }

  lemma SetZombieKeepsInv(s: Sys, c: nat, p: nat)
    requires Inv(s) && Inside(s, c, p) && s.procs[p].pc.ExitSet?
    ensures Inv(LockStep(SetProc(s, p, Dying(s.procs[p])), c, NoLock))
  {
    InsideRuns(s, c, p);
    RunsExclusive(s, c, p);
    DyingMachine(s, c, p);
    DyingSleep(s.procs, p);
    DyingScan(s, c, p);
    DyingZombie(s, c, p);
    DyingTables(s.procs, p, s.nextpid, s.reaped);
  }

  // ---- exit: reparent ----

  function Adopted(pr: Proc): Proc {
    pr.(parent := Some(INIT))
  }

  /** Slot i goes to init: what the holder of wait_lock may do to a child. */
  lemma AdoptedWake(procs: seq<Proc>, i: nat)
    requires i < |procs| && WakeInv(procs)
    ensures WakeInv(procs[i := Adopted(procs[i])])
  {
    var procs' := procs[i := Adopted(procs[i])];
    forall w, q, lk | 0 <= w < |procs'| && 0 <= q < |procs'| && Passed(procs'[w].pc, q) && q != w
      && lk in HeldRet(procs'[w].pc.ret)
      ensures !Window(procs'[q], procs'[w].pc.chan, lk)
    {
      assert Passed(procs[w].pc, q);
      assert !Window(procs[q], procs[w].pc.chan, lk);
    }
  }

  lemma AdoptedExit(s: Sys, p: nat, i: nat)
    requires StateInv(s.procs, s.cpus) && p < |s.procs| && i < |s.procs| && Exclusive(s.procs, p)
    requires s.procs[p].pc.ExitScan? && ExitInv(s.procs)
    ensures ExitInv(s.procs[i := Adopted(s.procs[i])])
  {
    var procs' := s.procs[i := Adopted(s.procs[i])];
    NotInExit(s, p, i);
    forall q: nat, t: nat | IsParent(procs', q, t) && t < |procs'|
      ensures ExitPair(procs'[q].pc, procs'[t], t)
    {
      if q != i {
        assert IsParent(s.procs, q, t);
      }
    }
  }

  lemma AdoptedScan(s: Sys, c: nat, p: nat, i: nat)
    requires StateInv(s.procs, s.cpus) && Runs(s, c, p) && Exclusive(s.procs, p)
    requires s.procs[p].pc == ExitScan(i) && i < |s.procs| && p != INIT && INIT < |s.procs| && ScanInv(s.procs)
    ensures ScanInv(s.procs[i := Adopted(s.procs[i])])
  {
    assert WaitLock in HeldPc(p, s.procs[p].pc);
    ScannersExecute(s, INIT);
    ScannerAlone(s.procs, p, INIT);
  }

  /** While p holds wait_lock in its own scan, no other process is in the part of exit
      that needs wait_lock. */
  lemma NotInExit(s: Sys, p: nat, i: nat)
    requires StateInv(s.procs, s.cpus) && p < |s.procs| && i < |s.procs| && Exclusive(s.procs, p)
    requires s.procs[p].pc.ExitScan?
    ensures !s.procs[i].pc.ExitLock? && !s.procs[i].pc.ExitSet?
    ensures !(IsWake(s.procs[i].pc) && s.procs[i].pc.ret.ExitLock?)
  {
    WakersExecute(s);
    assert WaitLock in HeldPc(p, s.procs[p].pc);
  }

  lemma ReparentMoverOk(s: Sys, c: nat, p: nat, i: nat)
    requires Runs(s, c, p) && s.procs[p].pc == ExitScan(i) && i < |s.procs|
    ensures var mv := Move(Wake(ProcChan(INIT), 0, ExitScan(i + 1)), NoLock);
            && LockFacts(s.procs, p, mv) && WakeOk(s.procs, p, s.procs[p].pc, mv.pc) && WindowOk(p, s.procs[p], mv.pc)
            && ExitOk(|s.procs|, s.procs[p], mv.pc) && ScanOk(s.procs, p, s.procs[p].pc, mv.pc)
            && ForkOk(s.procs[p].pc, mv.pc)
  {
  }

  /** Before the step nobody asleep in wait has a zombie child, since the holder of
      wait_lock is not in wakeup; after it the only one can be init, and init is about
      to be woken. */
  lemma ReparentZombie(s: Sys, c: nat, p: nat, i: nat)
    requires CpuInv(s.procs, s.cpus) && LocksInv(s.procs, s.cpus, s.locks) && ZombieInv(s.procs, s.cpus, s.locks)
    requires Runs(s, c, p) && s.procs[p].pc == ExitScan(i) && i < |s.procs|
    ensures var procs' := Moved(s.procs[i := Adopted(s.procs[i])], p, Wake(ProcChan(INIT), 0, ExitScan(i + 1)));
            ZombieInv(procs', s.cpus, s.locks)
  {
    var procs' := Moved(s.procs[i := Adopted(s.procs[i])], p, Wake(ProcChan(INIT), 0, ExitScan(i + 1)));
    ScannerHolds(s, c, p);
    forall t, r | 0 <= t < |procs'| && 0 <= r < |procs'| && procs'[r].parent == Some(t) && procs'[r].state == Zombie
      && AsleepInWait(procs', t)
      ensures WaitLock in s.locks && WakerOn(procs', s.cpus, s.locks[WaitLock], ProcChan(t))
    {
      ReparentOne(s, c, p, i, t, r);
    }
  }

  lemma ScannerHolds(s: Sys, c: nat, p: nat)
    requires CpuInv(s.procs, s.cpus) && LocksInv(s.procs, s.cpus, s.locks) && Runs(s, c, p) && s.procs[p].pc.ExitScan?
    ensures WaitLock in s.locks && s.locks[WaitLock] == c
  {
    HolderOf(s.procs, s.cpus, s.locks, p, WaitLock);
    HeldBy(s.procs, s.cpus, s.locks, c, WaitLock);
  }

  lemma ReparentOne(s: Sys, c: nat, p: nat, i: nat, t: nat, r: nat)
    requires ZombieInv(s.procs, s.cpus, s.locks) && Runs(s, c, p) && s.procs[p].pc == ExitScan(i) && i < |s.procs|
    requires WaitLock in s.locks && s.locks[WaitLock] == c && t < |s.procs| && r < |s.procs|
    ensures var procs' := Moved(s.procs[i := Adopted(s.procs[i])], p, Wake(ProcChan(INIT), 0, ExitScan(i + 1)));
            procs'[r].parent == Some(t) && procs'[r].state == Zombie && AsleepInWait(procs', t) ==>
                WakerOn(procs', s.cpus, c, ProcChan(t))
  {
    NoneAsleep(s, c, p, t, r);
  }

  /** While p scans with wait_lock held, outside wakeup, nobody asleep in wait has a zombie. */
  lemma NoneAsleep(s: Sys, c: nat, p: nat, t: nat, r: nat)
    requires ZombieInv(s.procs, s.cpus, s.locks) && Runs(s, c, p) && s.procs[p].pc.ExitScan? && t < |s.procs|
    requires r < |s.procs|
    requires WaitLock in s.locks ==> s.locks[WaitLock] == c
    ensures s.procs[r].parent == Some(t) && AsleepInWait(s.procs, t) ==> s.procs[r].state != Zombie
  {
  }

  lemma ReparentParents(procs: seq<Proc>, p: nat, i: nat, nextpid: nat, reaped: set<nat>)
    requires ParentInv(procs) && PidInv(procs, nextpid, reaped) && WfPc(INIT, |procs|, procs[INIT].pc)
    requires p < |procs| && p != INIT && i < |procs| && procs[p].pc == ExitScan(i) && IsParent(procs, i, p)
    ensures var procs' := Moved(procs[i := Adopted(procs[i])], p, Wake(ProcChan(INIT), 0, ExitScan(i + 1)));
            ParentInv(procs') && PidInv(procs', nextpid, reaped)
  {
    var procs' := Moved(procs[i := Adopted(procs[i])], p, Wake(ProcChan(INIT), 0, ExitScan(i + 1)));
    forall q: nat, t: nat | IsParent(procs', q, t)
      ensures t < |procs'| && LiveParent(|procs'|, procs'[t], q)
    {
      assert q != i ==> IsParent(procs, q, t);
    }
    assert forall q :: 0 < q < |procs| ==> HasParent(procs[q]);
  }

  lemma ReparentForks(procs: seq<Proc>, p: nat, i: nat)
    requires ForkInv(procs) && p < |procs| && i < |procs| && procs[p].pc == ExitScan(i) && IsParent(procs, i, p)
    ensures ForkInv(Moved(procs[i := Adopted(procs[i])], p, Wake(ProcChan(INIT), 0, ExitScan(i + 1))))
  {
    ForkPair(procs, p, i, Adopted(procs[i]), Wake(ProcChan(INIT), 0, ExitScan(i + 1)));
  }

  lemma ReparentMachine(s: Sys, c: nat, p: nat, i: nat)
    requires CpuInv(s.procs, s.cpus) && LocksInv(s.procs, s.cpus, s.locks) && StateInv(s.procs, s.cpus)
    requires Inside(s, c, p) && s.procs[p].pc == ExitScan(i) && i < |s.procs| && IsParent(s.procs, i, p)
    requires var s1 := SetProc(s, i, Adopted(s.procs[i]));
             Runs(s1, c, p) && LockFacts(s1.procs, p, Move(Wake(ProcChan(INIT), 0, ExitScan(i + 1)), NoLock))
    ensures var t := Pair(s, c, p, i, Adopted(s.procs[i]), Move(Wake(ProcChan(INIT), 0, ExitScan(i + 1)), NoLock));
            && CpuInv(t.procs, t.cpus) && LocksInv(t.procs, t.cpus, t.locks) && StateInv(t.procs, t.cpus)
            && t.cpus == s.cpus && t.locks == s.locks
  {
    var s1 := SetProc(s, i, Adopted(s.procs[i]));
    var mv := Move(Wake(ProcChan(INIT), 0, ExitScan(i + 1)), NoLock);
    assert StateOk(s.procs[i], PhaseOf(s.procs[i].cpu, s.cpus));
    CalmCpu(s.procs, s.cpus, s.locks, i, Adopted(s.procs[i]));
    MoveCpu(s1.procs, s1.cpus, c, p, mv, s.cpus[c].noff);
    MoveLocks(s1, c, p, mv);
  }

  lemma ReparentTables(s: Sys, c: nat, p: nat, i: nat)
    requires StateInv(s.procs, s.cpus) && WakeInv(s.procs) && ExitInv(s.procs) && ScanInv(s.procs)
    requires Runs(s, c, p) && Exclusive(s.procs, p) && s.procs[p].pc == ExitScan(i) && i < |s.procs| && INIT < |s.procs|
    requires var s1 := SetProc(s, i, Adopted(s.procs[i]));
             Runs(s1, c, p) && Exclusive(s1.procs, p)
    ensures var procs' := Moved(s.procs[i := Adopted(s.procs[i])], p, Wake(ProcChan(INIT), 0, ExitScan(i + 1)));
            WakeInv(procs') && ExitInv(procs') && ScanInv(procs')
  {
    var s1 := SetProc(s, i, Adopted(s.procs[i]));
    var mv := Move(Wake(ProcChan(INIT), 0, ExitScan(i + 1)), NoLock);
    AdoptedWake(s.procs, i);
    AdoptedExit(s, p, i);
    AdoptedScan(s, c, p, i);
    ReparentMoverOk(s1, c, p, i);
    WakersExecute(s);
    MoveWake(s1.procs, p, mv);
    MoveExit(s1.procs, p, mv);
    MoveScan(s1.procs, p, mv);
  }

  lemma ReparentFacts(s: Sys, c: nat, p: nat, i: nat)
    requires CpuInv(s.procs, s.cpus) && LocksInv(s.procs, s.cpus, s.locks) && StateInv(s.procs, s.cpus)
    requires Inside(s, c, p) && s.procs[p].pc == ExitScan(i) && i < |s.procs| && IsParent(s.procs, i, p)
    ensures Runs(s, c, p) && Exclusive(s.procs, p) && p != INIT
    ensures var s1 := SetProc(s, i, Adopted(s.procs[i]));
            && Runs(s1, c, p) && Exclusive(s1.procs, p)
            && LockFacts(s1.procs, p, Move(Wake(ProcChan(INIT), 0, ExitScan(i + 1)), NoLock))
  {
    var s1 := SetProc(s, i, Adopted(s.procs[i]));
    InsideRuns(s, c, p);
    RunsExclusive(s, c, p);
    assert Runs(s1, c, p);
    ReparentMoverOk(s1, c, p, i);
    assert forall q ::
        0 <= q < |s.procs| ==> s1.procs[q].pc == s.procs[q].pc && Executes(s1.procs[q]) == Executes(s.procs[q]);
  }

  lemma ReparentKeepsInv(s: Sys, c: nat, p: nat, i: nat)
    requires Inv(s) && Inside(s, c, p) && s.procs[p].pc == ExitScan(i) && i < |s.procs| && IsParent(s.procs, i, p)
    ensures Inv(Pair(s, c, p, i, Adopted(s.procs[i]), Move(Wake(ProcChan(INIT), 0, ExitScan(i + 1)), NoLock)))
  {
    ReparentFacts(s, c, p, i);
    ReparentMachine(s, c, p, i);
    ReparentTables(s, c, p, i);
    ReparentZombie(s, c, p, i);
    ReparentParents(s.procs, p, i, s.nextpid, s.reaped);
    ReparentForks(s.procs, p, i);
  }
}
