/** Steps in which one process changes another: wakeup, kill, fork, exit and wait. */
module ProcFamily {
  import opened Prelude
  import opened ProcMachine
  import opened ProcInvariant
  import opened ProcMoves
  import opened ProcSteps

  ghost predicate MoverOk(s: Sys, c: nat, p: nat, mv: Move)
    requires p < |s.procs|
  {
    && LockFacts(s.procs, p, mv) && ZombieOk(|s.procs|, p, s.procs[p], mv)
    && WakeOk(s.procs, p, s.procs[p].pc, mv.pc) && WindowOk(p, s.procs[p], mv.pc)
    && ExitOk(|s.procs|, s.procs[p], mv.pc) && ScanOk(s.procs, p, s.procs[p].pc, mv.pc)
    && LockReady(s, c, mv.op) && (mv.op == Rel(WaitLock) ==> !IsWake(s.procs[p].pc))
  }

  lemma PairCore(s: Sys, c: nat, p: nat, i: nat, pr': Proc, mv: Move)
    requires Core(s) && Inside(s, c, p) && i < |s.procs| && Calm(|s.procs|, s.procs[i], pr')
    requires WfPc(i, |s.procs|, pr'.pc) && StateOk(pr', PhaseOf(pr'.cpu, s.cpus))
    requires MoverOk(SetProc(s, i, pr'), c, p, mv)
    ensures Core(Pair(s, c, p, i, pr', mv))
  {
    var s1 := SetProc(s, i, pr');
    CalmCore(s, i, pr');
    InsideRuns(s1, c, p);
    MoveCore(s1, c, p, mv);
  }

  // ---- wakeup ----

  lemma WokenQuiet(n: nat, q: Proc, chan: Chan)
    ensures Quiet(n, q, Woken(q, chan)) && Calm(n, q, Woken(q, chan))
  {
  }

  /** After wakeup's test under p->lock, slot i holds nobody to wake: a process on its way
      to sleep would hold that lock itself. */
  lemma NobodyLeft(procs: seq<Proc>, p: nat, i: nat, chan: Chan, ret: Pc)
    requires p < |procs| && i < |procs| && i != p && Exclusive(procs, p) && procs[p].pc == WakeAt(chan, i, ret)
    requires procs[i].pc.SleepRel? || procs[i].pc.SleepSet? ==> Executes(procs[i])
    ensures NobodyAt(procs[i := Woken(procs[i], chan)], i, chan, ret)
  {
    assert ProcLock(i) in HeldPc(p, procs[p].pc);
  }

  lemma WakeMoverOk(s: Sys, c: nat, p: nat, i: nat, chan: Chan, ret: Pc)
    requires Runs(s, c, p) && s.procs[p].pc == WakeAt(chan, i, ret) && i < |s.procs| && i != p
    requires NobodyAt(s.procs, i, chan, ret) && LockReady(s, c, Rel(ProcLock(i)))
    ensures MoverOk(s, c, p, Move(Wake(chan, i + 1, ret), Rel(ProcLock(i))))
  {
    WakeMoverLocks(s, c, p, i, chan, ret);
  }

  lemma WakeMoverLocks(s: Sys, c: nat, p: nat, i: nat, chan: Chan, ret: Pc)
    requires Runs(s, c, p) && s.procs[p].pc == WakeAt(chan, i, ret) && i < |s.procs| && i != p
    ensures LockFacts(s.procs, p, Move(Wake(chan, i + 1, ret), Rel(ProcLock(i))))
  {
  }

  lemma WakeGoesOn(procs: seq<Proc>, p: nat, i: nat, chan: Chan, ret: Pc)
    requires p < |procs| && procs[p].pc == WakeAt(chan, i, ret)
    ensures ProgressOk(procs, p, procs[p].pc, Wake(chan, i + 1, ret))
    ensures ForkOk(procs[p].pc, Wake(chan, i + 1, ret))
  {
  }

  lemma WokenState(s: Sys, c: nat, p: nat, i: nat, chan: Chan)
    requires CpuInv(s.procs, s.cpus) && LocksInv(s.procs, s.cpus, s.locks) && StateInv(s.procs, s.cpus)
    requires Runs(s, c, p) && i < |s.procs| && i != p && ProcLock(i) in HeldPc(p, s.procs[p].pc)
    ensures StateOk(Woken(s.procs[i], chan), PhaseOf(s.procs[i].cpu, s.cpus))
    ensures s.procs[i].pc.SleepRel? || s.procs[i].pc.SleepSet? ==> Executes(s.procs[i])
  {
    assert StateOk(s.procs[i], PhaseOf(s.procs[i].cpu, s.cpus));
    if s.procs[i].state.Sleeping? {
      OffWhenLocked(s, c, i);
    }
  }

  lemma WakeReady(s: Sys, c: nat, p: nat, i: nat, chan: Chan, ret: Pc)
    requires CpuInv(s.procs, s.cpus) && LocksInv(s.procs, s.cpus, s.locks) && StateInv(s.procs, s.cpus)
    requires Inside(s, c, p) && s.procs[p].pc == WakeAt(chan, i, ret) && i < |s.procs| && i != p
    requires LockReady(s, c, Rel(ProcLock(i)))
    ensures StateOk(Woken(s.procs[i], chan), PhaseOf(s.procs[i].cpu, s.cpus))
    ensures MoverOk(SetProc(s, i, Woken(s.procs[i], chan)), c, p, Move(Wake(chan, i + 1, ret), Rel(ProcLock(i))))
  {
    InsideRuns(s, c, p);
    WokenState(s, c, p, i, chan);
    RunsExclusive(s, c, p);
    NobodyLeft(s.procs, p, i, chan, ret);
    RunsOn(s, c, p, i, Woken(s.procs[i], chan));
    WakeMoverOk(SetProc(s, i, Woken(s.procs[i], chan)), c, p, i, chan, ret);
  }

  lemma WakeCore(s: Sys, c: nat, p: nat, i: nat, chan: Chan, ret: Pc)
    requires Core(s) && Inside(s, c, p) && s.procs[p].pc == WakeAt(chan, i, ret) && i < |s.procs| && i != p
    requires LockReady(s, c, Rel(ProcLock(i)))
    ensures Core(Pair(s, c, p, i, Woken(s.procs[i], chan), Move(Wake(chan, i + 1, ret), Rel(ProcLock(i)))))
  {
    WakeReady(s, c, p, i, chan, ret);
    WokenQuiet(|s.procs|, s.procs[i], chan);
    PairCore(s, c, p, i, Woken(s.procs[i], chan), Move(Wake(chan, i + 1, ret), Rel(ProcLock(i))));
  }

  /** Parents, creators and ids when i changes quietly and p moves on. */
  lemma QuietPairParents(procs: seq<Proc>, p: nat, i: nat, pr': Proc, mv: Move)
    requires ParentInv(procs) && ScanInv(procs) && p < |procs| && i < |procs| && Quiet(|procs|, procs[i], pr')
    requires var procs1 := procs[i := pr']; ProgressOk(procs1, p, procs1[p].pc, mv.pc)
    ensures ParentInv(Moved(procs[i := pr'], p, mv.pc))
  {
    QuietFamily(procs, i, pr');
    MoveParent(procs[i := pr'], p, mv);
  }

  lemma QuietPairForks(procs: seq<Proc>, p: nat, i: nat, pr': Proc, mv: Move, nextpid: nat, reaped: set<nat>)
    requires ForkInv(procs) && PidInv(procs, nextpid, reaped)
    requires p < |procs| && i < |procs| && Quiet(|procs|, procs[i], pr') && ForkOk(procs[i := pr'][p].pc, mv.pc)
    ensures ForkInv(Moved(procs[i := pr'], p, mv.pc)) && PidInv(Moved(procs[i := pr'], p, mv.pc), nextpid, reaped)
  {
    QuietFork(procs, i, pr', nextpid, reaped);
    MoveFork(procs[i := pr'], p, mv);
    MovePid(procs[i := pr'], p, mv.pc, nextpid, reaped);
  }

  lemma MovePid(procs: seq<Proc>, p: nat, pc': Pc, nextpid: nat, reaped: set<nat>)
    requires p < |procs| && PidInv(procs, nextpid, reaped)
    ensures PidInv(Moved(procs, p, pc'), nextpid, reaped)
  {
  }

  lemma WakeOneKeepsInv(s: Sys, c: nat, p: nat, i: nat, chan: Chan, ret: Pc)
    requires Inv(s) && Inside(s, c, p) && s.procs[p].pc == WakeAt(chan, i, ret) && i < |s.procs| && i != p
    requires LockReady(s, c, Rel(ProcLock(i)))
    ensures Inv(Pair(s, c, p, i, Woken(s.procs[i], chan), Move(Wake(chan, i + 1, ret), Rel(ProcLock(i)))))
  {
    WakeCore(s, c, p, i, chan, ret);
    WokenQuiet(|s.procs|, s.procs[i], chan);
    WakeGoesOn(s.procs[i := Woken(s.procs[i], chan)], p, i, chan, ret);
    var mv := Move(Wake(chan, i + 1, ret), Rel(ProcLock(i)));
    QuietPairParents(s.procs, p, i, Woken(s.procs[i], chan), mv);
    QuietPairForks(s.procs, p, i, Woken(s.procs[i], chan), mv, s.nextpid, s.reaped);
  }

  // ---- kill ----

  function Killed(q: Proc): Proc {
    q.(killed := true, state := if q.state == Sleeping then Runnable else q.state)
  }

  lemma KilledQuiet(n: nat, q: Proc)
    ensures Quiet(n, q, Killed(q)) && Calm(n, q, Killed(q))
  {
  }

  lemma KilledState(s: Sys, c: nat, p: nat, i: nat)
    requires CpuInv(s.procs, s.cpus) && LocksInv(s.procs, s.cpus, s.locks) && StateInv(s.procs, s.cpus)
    requires Runs(s, c, p) && s.procs[p].pc.KillAt? && i < |s.procs| && s.procs[p].pc.i == i
    ensures StateOk(Killed(s.procs[i]), PhaseOf(s.procs[i].cpu, s.cpus))
  {
    assert StateOk(s.procs[i], PhaseOf(s.procs[i].cpu, s.cpus));
    if s.procs[i].state.Sleeping? {
      OffWhenLocked(s, c, i);
    }
  }

  lemma KillMoverOk(s: Sys, c: nat, p: nat, i: nat)
    requires Runs(s, c, p) && s.procs[p].pc.KillAt? && s.procs[p].pc.i == i && LockReady(s, c, Rel(ProcLock(i)))
    ensures MoverOk(s, c, p, Move(Idle, Rel(ProcLock(i))))
    ensures ProgressOk(s.procs, p, s.procs[p].pc, Idle) && ForkOk(s.procs[p].pc, Idle)
  {
  }

  lemma KillOneKeepsInv(s: Sys, c: nat, p: nat, i: nat)
    requires Inv(s) && Inside(s, c, p) && s.procs[p].pc.KillAt? && i < |s.procs| && s.procs[p].pc.i == i
    requires LockReady(s, c, Rel(ProcLock(i)))
    ensures Inv(Pair(s, c, p, i, Killed(s.procs[i]), Move(Idle, Rel(ProcLock(i)))))
  {
    KillCore(s, c, p, i);
    KilledQuiet(|s.procs|, s.procs[i]);
    var mv := Move(Idle, Rel(ProcLock(i)));
    QuietPairParents(s.procs, p, i, Killed(s.procs[i]), mv);
    QuietPairForks(s.procs, p, i, Killed(s.procs[i]), mv, s.nextpid, s.reaped);
  }

  lemma KillCore(s: Sys, c: nat, p: nat, i: nat)
    requires Core(s) && Inside(s, c, p) && s.procs[p].pc.KillAt? && i < |s.procs| && s.procs[p].pc.i == i
    requires LockReady(s, c, Rel(ProcLock(i)))
    ensures Core(Pair(s, c, p, i, Killed(s.procs[i]), Move(Idle, Rel(ProcLock(i)))))
    ensures var procs1 := s.procs[i := Killed(s.procs[i])];
            ProgressOk(procs1, p, procs1[p].pc, Idle) && ForkOk(procs1[p].pc, Idle)
  {
    var q' := Killed(s.procs[i]);
    var s1 := SetProc(s, i, q');
    InsideRuns(s, c, p);
    KilledQuiet(|s.procs|, s.procs[i]);
    KilledState(s, c, p, i);
    CalmCore(s, i, q');
    InsideRuns(s1, c, p);
    KillMoverOk(s1, c, p, i);
    PairCore(s, c, p, i, q', Move(Idle, Rel(ProcLock(i))));
  }

  // ---- fork ----

  /** The four updates fork makes to the new slot. */
  function NewProc(pr: Proc, p: nat, pid: nat): Proc {
    pr.(state := Used, pid := pid, pc := ForkRet, saved := true, creator := Some(p))
  }

  function Started(pr: Proc): Proc {
    pr.(state := Runnable, creator := None)
  }

  lemma NewProcFacts(n: nat, pr: Proc, i: nat, p: nat, pid: nat)
    requires pr.state.Unused? && StateOk(pr, Off) && pr.cpu.None?
    ensures var pr' := NewProc(pr, p, pid);
            Calm(n, pr, pr') && WfPc(i, n, pr'.pc) && StateOk(pr', Off) && pr'.cpu.None?
  {
  }

  lemma FoundMoverOk(s: Sys, c: nat, p: nat, i: nat)
    requires Runs(s, c, p) && s.procs[p].pc == ForkAt(i) && i < |s.procs|
    ensures MoverOk(s, c, p, Move(ForkMade(i), NoLock))
  {
  }

  lemma FoundCore(s: Sys, c: nat, p: nat, i: nat)
    requires Core(s) && Inside(s, c, p) && s.procs[p].pc == ForkAt(i) && i < |s.procs| && i != p
    requires s.procs[i].state == Unused
    ensures Core(Pair(s, c, p, i, NewProc(s.procs[i], p, s.nextpid), Move(ForkMade(i), NoLock)))
    ensures s.procs[i].parent.None? && s.procs[i].cpu.None?
  {
    var pr' := NewProc(s.procs[i], p, s.nextpid);
    UnusedOff(s, i);
    NewProcFacts(|s.procs|, s.procs[i], i, p, s.nextpid);
    InsideRuns(s, c, p);
    RunsOn(s, c, p, i, pr');
    FoundMoverOk(SetProc(s, i, pr'), c, p, i);
    PairCore(s, c, p, i, pr', Move(ForkMade(i), NoLock));
  }

  lemma UnusedOff(s: Sys, i: nat)
    requires CpuInv(s.procs, s.cpus) && StateInv(s.procs, s.cpus) && i < |s.procs|
    requires s.procs[i].state.Unused? || s.procs[i].state.Used?
    ensures s.procs[i].cpu.None? && StateOk(s.procs[i], Off)
  {
    assert StateOk(s.procs[i], PhaseOf(s.procs[i].cpu, s.cpus));
  }

  lemma FoundForks(procs: seq<Proc>, p: nat, i: nat, nextpid: nat)
    requires ForkInv(procs)
    requires p < |procs| && i < |procs| && i != p && procs[p].pc == ForkAt(i)
    requires procs[i].state == Unused && procs[i].pc.Idle? && procs[i].parent.None?
    ensures var procs' := Moved(procs[i := NewProc(procs[i], p, nextpid)], p, ForkMade(i));
            ForkInv(procs')
  {
    ForkPair(procs, p, i, NewProc(procs[i], p, nextpid), ForkMade(i));
  }

  lemma FoundParents(procs: seq<Proc>, p: nat, i: nat, nextpid: nat, reaped: set<nat>)
    requires PidInv(procs, nextpid, reaped) && ParentInv(procs)
    requires p < |procs| && i < |procs| && i != p && procs[p].pc == ForkAt(i)
    requires procs[i].state == Unused && procs[i].pc.Idle? && procs[i].parent.None?
    ensures var procs' := Moved(procs[i := NewProc(procs[i], p, nextpid)], p, ForkMade(i));
            PidInv(procs', nextpid + 1, reaped) && ParentInv(procs')
  {
    var procs' := Moved(procs[i := NewProc(procs[i], p, nextpid)], p, ForkMade(i));
    forall q: nat, t: nat | IsParent(procs', q, t)
      ensures t < |procs'| && LiveParent(|procs'|, procs'[t], q)
    {
      assert IsParent(procs, q, t) || (q == i && t == p);
    }
    assert forall q :: 0 < q < |procs| ==> HasParent(procs[q]);
  }

  lemma FoundKeepsInv(s: Sys, c: nat, p: nat, i: nat)
    requires Inv(s) && Inside(s, c, p) && s.procs[p].pc == ForkAt(i) && i < |s.procs| && i != p
    requires s.procs[i].state == Unused
    ensures Inv(Pair(s, c, p, i, NewProc(s.procs[i], p, s.nextpid),
              Move(ForkMade(i), NoLock)).(nextpid := s.nextpid + 1))
  {
    FoundCore(s, c, p, i);
    UnusedOff(s, i);
    FoundForks(s.procs, p, i, s.nextpid);
    FoundParents(s.procs, p, i, s.nextpid, s.reaped);
  }

  lemma GiveUpMoverOk(s: Sys, c: nat, p: nat, i: nat)
    requires Runs(s, c, p) && s.procs[p].pc == ForkMade(i) && i < |s.procs| && LockReady(s, c, Rel(ProcLock(i)))
    ensures MoverOk(s, c, p, Move(Idle, Rel(ProcLock(i))))
  {
  }

  /** The slot a forking process fills in is USED and nobody else's. */
  lemma TargetUsed(procs: seq<Proc>, p: nat, i: nat)
    requires ForkInv(procs) && p < |procs| && ForkTarget(procs[p].pc) == Some(i)
    ensures i < |procs| && procs[i].state == Used && procs[i].creator == Some(p)
    ensures ParentIsSet(procs[p].pc) ==> procs[i].parent == Some(p)
  {
    assert Targets(procs, p, i);
  }

  lemma GiveUpCore(s: Sys, c: nat, p: nat, i: nat)
    requires Core(s) && Inside(s, c, p) && s.procs[p].pc == ForkMade(i) && i < |s.procs| && i != p
    requires s.procs[i].state == Used
    requires LockReady(s, c, Rel(ProcLock(i)))
    ensures Core(Pair(s, c, p, i, FreeProc, Move(Idle, Rel(ProcLock(i)))))
  {
    UnusedOff(s, i);
    InsideRuns(s, c, p);
    RunsOn(s, c, p, i, FreeProc);
    GiveUpMoverOk(SetProc(s, i, FreeProc), c, p, i);
    PairCore(s, c, p, i, FreeProc, Move(Idle, Rel(ProcLock(i))));
  }

  lemma GiveUpForks(procs: seq<Proc>, p: nat, i: nat)
    requires ForkInv(procs)
    requires p < |procs| && i < |procs| && i != p && procs[p].pc == ForkMade(i) && procs[i].state == Used
    requires procs[i].pc.ForkRet?
    ensures var procs' := Moved(procs[i := FreeProc], p, Idle);
            ForkInv(procs')
  {
    ForkPair(procs, p, i, FreeProc, Idle);
  }

  lemma GiveUpParents(procs: seq<Proc>, p: nat, i: nat, nextpid: nat, reaped: set<nat>)
    requires PidInv(procs, nextpid, reaped) && ParentInv(procs)
    requires p < |procs| && i < |procs| && i != p && procs[p].pc == ForkMade(i) && procs[i].state == Used
    requires procs[i].pc.ForkRet?
    ensures var procs' := Moved(procs[i := FreeProc], p, Idle);
            PidInv(procs', nextpid, reaped) && ParentInv(procs')
  {
    var procs' := Moved(procs[i := FreeProc], p, Idle);
    forall q: nat, t: nat | IsParent(procs', q, t)
      ensures t < |procs'| && LiveParent(|procs'|, procs'[t], q)
    {
      assert IsParent(procs, q, t) || (q == i && t == p);
    }
    assert forall q :: 0 < q < |procs| ==> HasParent(procs[q]);
  }

  lemma GiveUpKeepsInv(s: Sys, c: nat, p: nat, i: nat)
    requires Inv(s) && Inside(s, c, p) && s.procs[p].pc == ForkMade(i) && i < |s.procs| && i != p
    requires LockReady(s, c, Rel(ProcLock(i)))
    ensures Inv(Pair(s, c, p, i, FreeProc, Move(Idle, Rel(ProcLock(i)))))
  {
    TargetUsed(s.procs, p, i);
    GiveUpCore(s, c, p, i);
    UnusedOff(s, i);
    GiveUpForks(s.procs, p, i);
    GiveUpParents(s.procs, p, i, s.nextpid, s.reaped);
  }

  lemma StartMoverOk(s: Sys, c: nat, p: nat, i: nat)
    requires Runs(s, c, p) && s.procs[p].pc == ForkRunAt(i) && i < |s.procs| && LockReady(s, c, Rel(ProcLock(i)))
    ensures MoverOk(s, c, p, Move(Idle, Rel(ProcLock(i))))
  {
  }

  lemma StartCore(s: Sys, c: nat, p: nat, i: nat)
    requires Core(s) && Inside(s, c, p) && s.procs[p].pc == ForkRunAt(i) && i < |s.procs| && i != p
    requires s.procs[i].state == Used
    requires LockReady(s, c, Rel(ProcLock(i)))
    ensures Core(Pair(s, c, p, i, Started(s.procs[i]), Move(Idle, Rel(ProcLock(i)))))
  {
    var pr' := Started(s.procs[i]);
    UnusedOff(s, i);
    InsideRuns(s, c, p);
    RunsOn(s, c, p, i, pr');
    StartMoverOk(SetProc(s, i, pr'), c, p, i);
    PairCore(s, c, p, i, pr', Move(Idle, Rel(ProcLock(i))));
  }

  lemma StartForks(procs: seq<Proc>, p: nat, i: nat)
    requires ForkInv(procs)
    requires p < |procs| && i < |procs| && i != p && procs[p].pc == ForkRunAt(i)
    requires procs[i].state == Used && procs[i].pc.ForkRet? && procs[i].parent == Some(p)
    ensures var procs' := Moved(procs[i := Started(procs[i])], p, Idle);
            ForkInv(procs')
  {
    ForkPair(procs, p, i, Started(procs[i]), Idle);
  }

  lemma StartParents(procs: seq<Proc>, p: nat, i: nat, nextpid: nat, reaped: set<nat>)
    requires PidInv(procs, nextpid, reaped) && ParentInv(procs)
    requires p < |procs| && i < |procs| && i != p && procs[p].pc == ForkRunAt(i)
    requires procs[i].state == Used && procs[i].pc.ForkRet? && procs[i].parent == Some(p)
    ensures var procs' := Moved(procs[i := Started(procs[i])], p, Idle);
            PidInv(procs', nextpid, reaped) && ParentInv(procs')
  {
    var procs' := Moved(procs[i := Started(procs[i])], p, Idle);
    forall q: nat, t: nat | IsParent(procs', q, t)
      ensures t < |procs'| && LiveParent(|procs'|, procs'[t], q)
    {
      assert IsParent(procs, q, t) || (q == i && t == p);
    }
    assert forall q :: 0 < q < |procs| ==> HasParent(procs[q]);
  }

  lemma StartKeepsInv(s: Sys, c: nat, p: nat, i: nat)
    requires Inv(s) && Inside(s, c, p) && s.procs[p].pc == ForkRunAt(i) && i < |s.procs| && i != p
    requires LockReady(s, c, Rel(ProcLock(i)))
    ensures Inv(Pair(s, c, p, i, Started(s.procs[i]), Move(Idle, Rel(ProcLock(i)))))
  {
    TargetUsed(s.procs, p, i);
    StartCore(s, c, p, i);
    UnusedOff(s, i);
    StartForks(s.procs, p, i);
    StartParents(s.procs, p, i, s.nextpid, s.reaped);
  }

  /** A slot that is still being filled in gets its parent. */
  lemma AdoptCore(s: Sys, i: nat, p: nat)
    requires Core(s) && i < |s.procs| && s.procs[i].state == Used && s.procs[i].pc.ForkRet?
    ensures Core(SetProc(s, i, s.procs[i].(parent := Some(p))))
  {
    var pr' := s.procs[i].(parent := Some(p));
    assert StateOk(s.procs[i], PhaseOf(s.procs[i].cpu, s.cpus));
    CalmCpu(s.procs, s.cpus, s.locks, i, pr');
    AdoptTables(s.procs, s.cpus, s.locks, i, p);
  }

  lemma AdoptTables(procs: seq<Proc>, cpus: seq<Cpu>, locks: map<LockId, nat>, i: nat, p: nat)
    requires i < |procs| && procs[i].state == Used && procs[i].pc.ForkRet?
    requires WakeInv(procs) && ExitInv(procs) && ScanInv(procs) && ZombieInv(procs, cpus, locks)
    ensures var procs' := procs[i := procs[i].(parent := Some(p))];
            WakeInv(procs') && ExitInv(procs') && ScanInv(procs') && ZombieInv(procs', cpus, locks)
  {
    AdoptExits(procs, i, p);
    AdoptScans(procs, i, p);
    AdoptZombies(procs, cpus, locks, i, p);
  }

  lemma AdoptScans(procs: seq<Proc>, i: nat, p: nat)
    requires i < |procs| && procs[i].state == Used && ScanInv(procs)
    ensures ScanInv(procs[i := procs[i].(parent := Some(p))])
  {
  }

  lemma AdoptZombies(procs: seq<Proc>, cpus: seq<Cpu>, locks: map<LockId, nat>, i: nat, p: nat)
    requires i < |procs| && procs[i].state == Used && procs[i].pc.ForkRet? && ZombieInv(procs, cpus, locks)
    ensures ZombieInv(procs[i := procs[i].(parent := Some(p))], cpus, locks)
  {
    var procs' := procs[i := procs[i].(parent := Some(p))];
    assert forall k :: 0 <= k < |procs| ==> procs'[k].pc == procs[k].pc && procs'[k].state == procs[k].state;
  }

  lemma AdoptExits(procs: seq<Proc>, i: nat, p: nat)
    requires i < |procs| && procs[i].state == Used && procs[i].pc.ForkRet? && WakeInv(procs) && ExitInv(procs)
    ensures WakeInv(procs[i := procs[i].(parent := Some(p))]) && ExitInv(procs[i := procs[i].(parent := Some(p))])
  {
    var procs' := procs[i := procs[i].(parent := Some(p))];
    assert forall k :: 0 <= k < |procs| ==> procs'[k].pc == procs[k].pc && Promise(procs'[k]) == Promise(procs[k]);
    forall q: nat, t: nat | IsParent(procs', q, t) && t < |procs'|
      ensures ExitPair(procs'[q].pc, procs'[t], t)
    {
      assert q != i ==> IsParent(procs, q, t);
    }
  }

  lemma AdoptMoverOk(s: Sys, c: nat, p: nat, i: nat)
    requires Runs(s, c, p) && s.procs[p].pc == ForkSetParent(i) && i < |s.procs| && LockReady(s, c, Rel(WaitLock))
    ensures MoverOk(s, c, p, Move(ForkRun(i), Rel(WaitLock)))
  {
  }

  lemma AdoptForks(procs: seq<Proc>, p: nat, i: nat)
    requires ForkInv(procs)
    requires p < |procs| && i < |procs| && i != p && procs[p].pc == ForkSetParent(i) && Live(procs[p].state)
    requires procs[i].state == Used && procs[i].creator == Some(p)
    ensures var procs' := Moved(procs[i := procs[i].(parent := Some(p))], p, ForkRun(i));
            ForkInv(procs')
  {
    ForkPair(procs, p, i, procs[i].(parent := Some(p)), ForkRun(i));
  }

  lemma AdoptParents(procs: seq<Proc>, p: nat, i: nat, nextpid: nat, reaped: set<nat>)
    requires PidInv(procs, nextpid, reaped) && ParentInv(procs)
    requires p < |procs| && i < |procs| && i != p && procs[p].pc == ForkSetParent(i) && Live(procs[p].state)
    requires procs[i].state == Used && procs[i].creator == Some(p)
    ensures var procs' := Moved(procs[i := procs[i].(parent := Some(p))], p, ForkRun(i));
            PidInv(procs', nextpid, reaped) && ParentInv(procs')
  {
    var procs' := Moved(procs[i := procs[i].(parent := Some(p))], p, ForkRun(i));
    forall q: nat, t: nat | IsParent(procs', q, t)
      ensures t < |procs'| && LiveParent(|procs'|, procs'[t], q)
    {
      assert IsParent(procs, q, t) || (q == i && t == p);
    }
    assert forall q :: 0 < q < |procs| ==> HasParent(procs[q]);
  }

  lemma SetParentKeepsInv(s: Sys, c: nat, p: nat, i: nat)
    requires Inv(s) && Inside(s, c, p) && s.procs[p].pc == ForkSetParent(i) && i < |s.procs| && i != p
    requires LockReady(s, c, Rel(WaitLock))
    ensures Inv(Pair(s, c, p, i, s.procs[i].(parent := Some(p)), Move(ForkRun(i), Rel(WaitLock))))
  {
    TargetUsed(s.procs, p, i);
    UnusedOff(s, i);
    AdoptPair(s, c, p, i);
    AdoptForks(s.procs, p, i);
    AdoptParents(s.procs, p, i, s.nextpid, s.reaped);
  }

  lemma AdoptReady(s: Sys, c: nat, p: nat, i: nat)
    requires CpuInv(s.procs, s.cpus) && StateInv(s.procs, s.cpus)
    requires Inside(s, c, p) && s.procs[p].pc == ForkSetParent(i) && i < |s.procs| && i != p
    requires LockReady(s, c, Rel(WaitLock))
    ensures var s1 := SetProc(s, i, s.procs[i].(parent := Some(p)));
            Runs(s1, c, p) && MoverOk(s1, c, p, Move(ForkRun(i), Rel(WaitLock)))
    ensures Live(s.procs[p].state)
  {
    InsideRuns(s, c, p);
    RunsOn(s, c, p, i, s.procs[i].(parent := Some(p)));
    AdoptMoverOk(SetProc(s, i, s.procs[i].(parent := Some(p))), c, p, i);
  }

  lemma AdoptPair(s: Sys, c: nat, p: nat, i: nat)
    requires Core(s) && Inside(s, c, p) && s.procs[p].pc == ForkSetParent(i) && i < |s.procs| && i != p
    requires s.procs[i].state == Used && s.procs[i].pc.ForkRet? && LockReady(s, c, Rel(WaitLock))
    ensures Core(Pair(s, c, p, i, s.procs[i].(parent := Some(p)), Move(ForkRun(i), Rel(WaitLock))))
    ensures Live(s.procs[p].state)
  {
    AdoptReady(s, c, p, i);
    AdoptCore(s, i, p);
    MoveCore(SetProc(s, i, s.procs[i].(parent := Some(p))), c, p, Move(ForkRun(i), Rel(WaitLock)));
  }
}
