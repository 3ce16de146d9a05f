/** wakeup, kill and fork, over whole runs: who is woken and why, whom kill marks and that the
    mark stays, and that neither kill nor fork gives up while what it looks for is there. */
module ProcSearch {
  import opened Prelude
  import opened ProcMachine
  import opened ProcInvariant
  import opened ProcMoves
  import opened ProcFamily
  import opened ProcHandlers
  import opened ProcProtocol

  // ---- who is woken ----

  /** What the thread on CPU c is about to do: a process, or a handler that interrupted the
      scheduler. */
  function PcOn(s: Sys, c: nat): Pc
    requires c < |s.cpus|
  {
    match s.cpus[c].at
    case InProc(p) => if p < |s.procs| then s.procs[p].pc else Idle
    case Intr(_, pc) => pc
    case _ => Idle
  }

  /** A step of CPU c that wakes q: wakeup on the channel q sleeps on, or kill of q. */
  ghost predicate Wakes(s: Sys, c: nat, step: Step, q: nat)
    requires c < |s.cpus| && q < |s.procs|
  {
    var pc := PcOn(s, c);
    || (step.WakeOne? && pc.WakeAt? && pc.i == q && s.procs[q].chan == Some(pc.chan))
    || (step.KillOne? && pc.KillAt? && pc.i == q && s.procs[q].pid == pc.pid)
  }

  lemma OtherWakes(s: Sys, c: nat, p: nat, step: Step, t: Sys, q: nat)
    requires Runs(s, c, p) && OtherNext(s, c, p, step) == Some(t) && q < |s.procs| == |t.procs|
    requires s.procs[q].state == Sleeping && t.procs[q].state != Sleeping && q != p
    requires step.GiveUp? || step.SetFirstRunnable? ==> ForkInv(s.procs)
    ensures t.procs[q].state == Runnable && Wakes(s, c, step, q)
  {
    if step.WakeOne? {
      var i, chan, ret := WakeIs(s, c, p, t);
    } else if step.KillOne? {
      var i := KillIs(s, c, p, t);
    } else {
      OtherWakesNone(s, c, p, step, t, q);
    }
  }

  lemma OtherWakesNone(s: Sys, c: nat, p: nat, step: Step, t: Sys, q: nat)
    requires Runs(s, c, p) && OtherNext(s, c, p, step) == Some(t) && q < |s.procs| == |t.procs|
    requires s.procs[q].state == Sleeping && q != p && !step.WakeOne? && !step.KillOne?
    requires step.GiveUp? || step.SetFirstRunnable? ==> ForkInv(s.procs)
    ensures t.procs[q].state == Sleeping
  {
    if step.GiveUp? || step.SetFirstRunnable? { assert Targets(s.procs, p, s.procs[p].pc.i); }
  }

  lemma OwnWakes(s: Sys, c: nat, p: nat, step: Step, t: Sys, q: nat)
    requires Runs(s, c, p) && ProcNext(s, c, p, step) == Some(t) && (step.Moves? || IsOwn(step))
    requires q < |s.procs| == |t.procs| && s.procs[q].state == Sleeping
    ensures t.procs[q].state == Sleeping
  {
  }

  lemma SchedulerWakes(s: Sys, c: nat, step: Step, t: Sys, q: nat)
    requires c < |s.cpus| && SchedulerNext(s, c, step) == Some(t) && q < |s.procs| == |t.procs|
    requires !(s.cpus[c].at.InProc? && s.cpus[c].at.p < |s.procs|)
    requires CpuInv(s.procs, s.cpus) && StateInv(s.procs, s.cpus)
    requires s.procs[q].state == Sleeping && t.procs[q].state != Sleeping
    ensures t.procs[q].state == Runnable && Wakes(s, c, step, q)
  {
  }

  lemma NotInOther(s: Sys, c: nat, p: nat, step: Step)
    requires Runs(s, c, p) && OtherNext(s, c, p, step).Some?
    ensures s.procs[p].state == Running
  {
  }

  /** Nobody sleeping is made RUNNABLE but by a wakeup on its own channel, from a process or
      from an interrupt handler, or by kill with its own process id. */
  lemma OnlyWakersWake(s: Sys, run: seq<(nat, Step)>, c: nat, step: Step, q: nat)
    requires Boot(s) && Legal(s, run) && Next(After(s, run), c, step).Some? && q < |After(s, run).procs|
    requires q < |Next(After(s, run), c, step).value.procs|
    requires After(s, run).procs[q].state == Sleeping && Next(After(s, run), c, step).value.procs[q].state != Sleeping
    ensures Next(After(s, run), c, step).value.procs[q].state == Runnable && Wakes(After(s, run), c, step, q)
  {
    BootInv(s);
    RunKeepsInv(s, run);
    WakesOnly(After(s, run), c, step, Next(After(s, run), c, step).value, q);
  }

  lemma WakesOnly(s: Sys, c: nat, step: Step, t: Sys, q: nat)
    requires CpuInv(s.procs, s.cpus) && StateInv(s.procs, s.cpus) && ForkInv(s.procs) && Next(s, c, step) == Some(t)
    requires q < |s.procs| && q < |t.procs| && s.procs[q].state == Sleeping && t.procs[q].state != Sleeping
    ensures t.procs[q].state == Runnable && Wakes(s, c, step, q)
  {
    SameLength(s, c, step, t);
    if s.cpus[c].at.InProc? && s.cpus[c].at.p < |s.procs| {
      var p := s.cpus[c].at.p;
      InsideRuns(s, c, p);
      if step.Moves? || IsOwn(step) {
        OwnWakes(s, c, p, step, t, q);
      } else {
        NotInOther(s, c, p, step);
        OtherWakes(s, c, p, step, t, q);
      }
    } else {
      SchedulerWakes(s, c, step, t, q);
    }
  }

  lemma SameLength(s: Sys, c: nat, step: Step, t: Sys)
    requires Next(s, c, step) == Some(t)
    ensures |t.procs| == |s.procs|
  {
  }

  // ---- process ids and the mark of kill ----

  /** Whoever is in the table after a step was there before, under the same id and with no
      mark lost, or is new and has a fresh id. */
  predicate SlotStep(pr: Proc, pr': Proc, nextpid: nat) {
    || pr'.state.Unused?
    || (pr'.pid == pr.pid && !pr.state.Unused? && (pr.killed ==> pr'.killed))
    || pr'.pid == nextpid
  }

  ghost predicate SlotsStep(s: Sys, t: Sys) {
    && |t.procs| == |s.procs| && s.nextpid <= t.nextpid
    && (forall q {:trigger t.procs[q]} :: 0 <= q < |t.procs| ==> SlotStep(s.procs[q], t.procs[q], s.nextpid))
  }

  lemma SchedulerSlots(s: Sys, c: nat, step: Step, t: Sys)
    requires c < |s.cpus| && SchedulerNext(s, c, step) == Some(t)
    ensures SlotsStep(s, t)
  {
  }

  lemma OwnSlots(s: Sys, c: nat, p: nat, step: Step, t: Sys)
    requires Runs(s, c, p) && ProcNext(s, c, p, step) == Some(t) && (step.Moves? || IsOwn(step))
    ensures SlotsStep(s, t)
  {
  }

  lemma OtherSlots(s: Sys, c: nat, p: nat, step: Step, t: Sys)
    requires Runs(s, c, p) && OtherNext(s, c, p, step) == Some(t) && ForkInv(s.procs)
    requires forall q :: 0 <= q < |s.procs| && s.procs[q].state.Unused? ==> s.procs[q].parent.None?
    ensures SlotsStep(s, t)
  {
    if step.WakeOne? {
      var i, chan, ret := WakeIs(s, c, p, t);
    } else if step.KillOne? {
      var i := KillIs(s, c, p, t);
    } else if step.SetParent? {
      var i := SetParentIs(s, c, p, t);
      assert Targets(s.procs, p, i);
    } else if step.SetFirstRunnable? {
      var i := StartIs(s, c, p, t);
      assert Targets(s.procs, p, i);
    } else {
      TableSlots(s, c, p, step, t);
    }
  }

  lemma TableSlots(s: Sys, c: nat, p: nat, step: Step, t: Sys)
    requires Runs(s, c, p) && OtherNext(s, c, p, step) == Some(t)
    requires step.Reparent? || step.Reap? || step.Found? || step.GiveUp?
    requires forall q :: 0 <= q < |s.procs| && s.procs[q].state.Unused? ==> s.procs[q].parent.None?
    ensures SlotsStep(s, t)
  {
    if step.Reparent? {
      var i := ReparentIs(s, c, p, t);
    } else if step.Reap? {
      var i := ReapIs(s, c, p, t);
    } else if step.Found? {
      var i := FoundIs(s, c, p, t);
    } else {
      var i := GiveUpIs(s, c, p, t);
    }
  }

  lemma NextSlots(s: Sys, c: nat, step: Step, t: Sys)
    requires CpuInv(s.procs, s.cpus) && StateInv(s.procs, s.cpus) && ForkInv(s.procs) && Next(s, c, step) == Some(t)
    ensures SlotsStep(s, t)
  {
    if s.cpus[c].at.InProc? && s.cpus[c].at.p < |s.procs| {
      var p := s.cpus[c].at.p;
      InsideRuns(s, c, p);
      if step.Moves? || IsOwn(step) {
        OwnSlots(s, c, p, step, t);
      } else {
        forall q | 0 <= q < |s.procs| && s.procs[q].state.Unused?
          ensures s.procs[q].parent.None?
        {
          assert StateOk(s.procs[q], PhaseOf(s.procs[q].cpu, s.cpus));
        }
        OtherSlots(s, c, p, step, t);
      }
    } else {
      SchedulerSlots(s, c, step, t);
    }
  }

  /** Every process with this id is marked as killed. */
  ghost predicate Marked(s: Sys, pid: nat) {
    pid < s.nextpid && forall q :: 0 <= q < |s.procs| && !s.procs[q].state.Unused? && s.procs[q].pid == pid ==>
      s.procs[q].killed
  }

  /** The mark stays: once the processes with an id are marked, they are ever after. */
  lemma {:induction false} MarkStays(s: Sys, run: seq<(nat, Step)>, pid: nat)
    requires Inv(s) && Legal(s, run) && Marked(s, pid)
    ensures Marked(After(s, run), pid)
    decreases |run|
  {
    if run != [] {
      var t := Next(s, run[0].0, run[0].1).value;
      NextKeepsInv(s, run[0].0, run[0].1, t);
      NextSlots(s, run[0].0, run[0].1, t);
      MarkStays(t, run[1..], pid);
    }
  }

  /** kill that finds its process leaves that process marked and awake, for as long as it
      lives, and touches no other. */
  lemma KillIsFinal(s: Sys, run: seq<(nat, Step)>, c: nat, later: seq<(nat, Step)>)
    requires Boot(s) && Legal(s, run) && Next(After(s, run), c, KillOne).Some?
    requires Legal(Next(After(s, run), c, KillOne).value, later)
    ensures var t, t' := After(s, run), Next(After(s, run), c, KillOne).value;
            && c < |t.cpus| && PcOn(t, c).KillAt? && PcOn(t, c).i < |t.procs| == |t'.procs|
            && var i, pid := PcOn(t, c).i, PcOn(t, c).pid;
            && t.procs[i].pid == pid && t'.procs[i].killed && t'.procs[i].state != Sleeping
            && (forall q :: 0 <= q < |t.procs| && q != i ==> t'.procs[q].killed == t.procs[q].killed)
            && (!t.procs[i].state.Unused? ==> Marked(After(t', later), pid))
  {
    BootInv(s);
    RunKeepsInv(s, run);
    var t, t' := After(s, run), Next(After(s, run), c, KillOne).value;
    NextKeepsInv(t, c, KillOne, t');
    KillMarks(t, c, t');
    if !t.procs[PcOn(t, c).i].state.Unused? { MarkStays(t', later, PcOn(t, c).pid); }
  }

  lemma KillMarks(t: Sys, c: nat, t': Sys)
    requires Next(t, c, KillOne) == Some(t') && PidInv(t.procs, t.nextpid, t.reaped)
    ensures c < |t.cpus| && PcOn(t, c).KillAt? && PcOn(t, c).i < |t.procs| == |t'.procs|
    ensures var i, pid := PcOn(t, c).i, PcOn(t, c).pid;
            && t.procs[i].pid == pid && t'.procs[i].killed && t'.procs[i].state != Sleeping
            && (forall q :: 0 <= q < |t.procs| && q != i ==> t'.procs[q].killed == t.procs[q].killed)
            && (!t.procs[i].state.Unused? ==> Marked(t', pid))
  {
    var i := KillIs(t, c, t.cpus[c].at.p, t');
  }

  // ---- searches of the process table ----

  /** The code a process is in, under any interrupt handler and call of the scheduler. */
  function Code(pc: Pc): Pc {
    Under(Strip(pc))
  }

  predicate Scans(pc: Pc) {
    pc.KillScan? || pc.KillAt? || pc.ForkScan? || pc.ForkAt?
  }

  predicate Starts(pc: Pc) {
    (pc.KillScan? || pc.ForkScan?) && pc.i == 0
  }

  /** A search looks at one slot after the other, and passes over a slot only if it holds
      another id, or is in use. */
  predicate Advances(procs: seq<Proc>, pc: Pc, pc': Pc) {
    || pc' == pc || !Scans(pc') || Starts(pc')
    || (pc.KillScan? && pc' == KillAt(pc.pid, pc.i))
    || (pc.KillAt? && pc.i < |procs| && procs[pc.i].pid != pc.pid && pc' == KillScan(pc.pid, pc.i + 1))
    || (pc.ForkScan? && pc' == ForkAt(pc.i))
    || (pc.ForkAt? && pc.i < |procs| && procs[pc.i].state != Unused && pc' == ForkScan(pc.i + 1))
  }

  /** Being interrupted, or rescheduled, in the middle of it does not move a search. */
  lemma WrappedStays(s: Sys, c: nat, p: nat, act: Act, mv: Move)
    requires Runs(s, c, p) && PcNext(s, p, act) == Some(mv)
    requires act == Yield || act.Enter? || s.procs[p].pc.Crit?
    ensures Code(mv.pc) == Code(s.procs[p].pc) || !Scans(Code(mv.pc))
  {
  }

  lemma ScanMoves(s: Sys, c: nat, p: nat, mv: Move)
    requires Runs(s, c, p) && ForkNext(s, p) == Some(mv)
    ensures Advances(s.procs, Code(s.procs[p].pc), Code(mv.pc))
  {
  }

  lemma SyncStays(s: Sys, c: nat, p: nat, mv: Move)
    requires Runs(s, c, p) && SyncNext(s, p) == Some(mv)
    ensures Code(mv.pc) == Code(s.procs[p].pc) || !Scans(Code(mv.pc))
  {
  }

  lemma MoveAdvances(s: Sys, c: nat, p: nat, act: Act, mv: Move)
    requires Runs(s, c, p) && PcNext(s, p, act) == Some(mv)
    ensures Advances(s.procs, Code(s.procs[p].pc), Code(mv.pc))
  {
    if act == Yield || act.Enter? || s.procs[p].pc.Crit? {
      WrappedStays(s, c, p, act, mv);
    } else if !s.procs[p].pc.Idle? && act == Go {
      if ForkNext(s, p) == Some(mv) {
        ScanMoves(s, c, p, mv);
      } else if SyncNext(s, p) == Some(mv) {
        SyncStays(s, c, p, mv);
      }
    }
  }

  lemma SchedulerPcs(s: Sys, c: nat, step: Step, t: Sys, p: nat)
    requires c < |s.cpus| && SchedulerNext(s, c, step) == Some(t) && p < |s.procs| == |t.procs|
    ensures t.procs[p].pc == s.procs[p].pc
  {
  }

  lemma OwnPcs(s: Sys, c: nat, q: nat, step: Step, t: Sys, p: nat)
    requires Runs(s, c, q) && ProcNext(s, c, q, step) == Some(t) && IsOwn(step) && p < |s.procs| == |t.procs|
    ensures Code(t.procs[p].pc) == Code(s.procs[p].pc) || !Scans(Code(t.procs[p].pc))
  {
    if step.Save? { SaveIs(s, c, q, t); }
    else if step.SetRunnable? { SetRunnableIs(s, c, q, t); }
    else if step.SetSleeping? { SetSleepingIs(s, c, q, t); }
    else if step.Tidy? { TidyIs(s, c, q, t); }
    else { SetZombieIs(s, c, q, t); }
  }

  lemma OtherPcs(s: Sys, c: nat, q: nat, step: Step, t: Sys, p: nat)
    requires Inside(s, c, q) && OtherNext(s, c, q, step) == Some(t) && p < |s.procs| == |t.procs|
    ensures Code(t.procs[p].pc) == Code(s.procs[p].pc) || !Scans(Code(t.procs[p].pc))
  {
    if step.WakeOne? {
      var i, chan, ret := WakeIs(s, c, q, t);
    } else if step.KillOne? {
      var i := KillIs(s, c, q, t);
    } else if step.SetFirstRunnable? {
      var i := StartIs(s, c, q, t);
    } else {
      TablePcs(s, c, q, step, t, p);
    }
  }

  lemma TablePcs(s: Sys, c: nat, q: nat, step: Step, t: Sys, p: nat)
    requires Inside(s, c, q) && OtherNext(s, c, q, step) == Some(t) && p < |s.procs| == |t.procs|
    requires !step.WakeOne? && !step.KillOne? && !step.SetFirstRunnable?
    ensures Code(t.procs[p].pc) == Code(s.procs[p].pc) || !Scans(Code(t.procs[p].pc))
  {
  }

  lemma NextAdvances(s: Sys, c: nat, step: Step, t: Sys, p: nat)
    requires CpuInv(s.procs, s.cpus) && StateInv(s.procs, s.cpus) && Next(s, c, step) == Some(t)
    requires p < |s.procs| == |t.procs|
    ensures Advances(s.procs, Code(s.procs[p].pc), Code(t.procs[p].pc))
  {
    if s.cpus[c].at.InProc? && s.cpus[c].at.p < |s.procs| {
      var q := s.cpus[c].at.p;
      InsideRuns(s, c, q);
      if IsOwn(step) {
        OwnPcs(s, c, q, step, t, p);
      } else if !step.Moves? {
        OtherPcs(s, c, q, step, t, p);
      } else if q == p {
        MoveAdvances(s, c, p, step.act, PcNext(s, p, step.act).value);
      }
    } else {
      SchedulerPcs(s, c, step, t, p);
    }
  }

  // ---- whom kill can miss ----

  /** How many slots a kill of pid has passed. */
  function KillIdx(pc: Pc, pid: nat): nat {
    var code := Code(pc);
    if (code.KillScan? || code.KillAt?) && code.pid == pid then code.i else 0
  }

  /** The id was given out before, and no slot that p's kill has passed holds it. */
  ghost predicate Searched(s: Sys, p: nat, pid: nat) {
    && p < |s.procs| && pid < s.nextpid
    && (forall q :: 0 <= q < |s.procs| && q < KillIdx(s.procs[p].pc, pid) && !s.procs[q].state.Unused? ==>
          s.procs[q].pid != pid)
  }

  lemma SearchOn(s: Sys, t: Sys, p: nat, pid: nat)
    requires SlotsStep(s, t) && Searched(s, p, pid) && Advances(s.procs, Code(s.procs[p].pc), Code(t.procs[p].pc))
    ensures Searched(t, p, pid)
  {
    forall q | 0 <= q < |t.procs| && q < KillIdx(t.procs[p].pc, pid) && !t.procs[q].state.Unused?
      ensures t.procs[q].pid != pid
    {
      assert SlotStep(s.procs[q], t.procs[q], s.nextpid);
    }
  }

  lemma {:induction false} SearchRun(s: Sys, run: seq<(nat, Step)>, p: nat, pid: nat)
    requires Inv(s) && Legal(s, run) && Searched(s, p, pid)
    ensures Searched(After(s, run), p, pid)
    decreases |run|
  {
    if run != [] {
      var t := Next(s, run[0].0, run[0].1).value;
      NextKeepsInv(s, run[0].0, run[0].1, t);
      NextSlots(s, run[0].0, run[0].1, t);
      NextAdvances(s, run[0].0, run[0].1, t, p);
      SearchOn(s, t, p, pid);
      SearchRun(t, run[1..], p, pid);
    }
  }

  /** kill gives up only if no process has the id it was called with: from any moment at which
      the id had been given out and p was not already in the middle of looking for it. */
  lemma {:induction false} KillMissesNobody(s: Sys, run: seq<(nat, Step)>, t: Sys, p: nat, pid: nat, q: nat)
    requires Inv(s) && p < |s.procs| && pid < s.nextpid && KillIdx(s.procs[p].pc, pid) == 0
    requires Legal(s, run) && t == After(s, run) && p < |t.procs| && q < |t.procs|
    requires t.procs[p].pc == KillScan(pid, |t.procs|) && !t.procs[q].state.Unused?
    ensures t.procs[q].pid != pid
  {
    SearchRun(s, run, p, pid);
    SearchDone(t, p, pid, q);
  }

  lemma SearchDone(t: Sys, p: nat, pid: nat, q: nat)
    requires Searched(t, p, pid) && t.procs[p].pc == KillScan(pid, |t.procs|)
    requires q < |t.procs| && !t.procs[q].state.Unused?
    ensures t.procs[q].pid != pid
  {
    assert KillIdx(t.procs[p].pc, pid) == |t.procs|;
  }

  // ---- when fork finds no slot ----

  function ForkIdx(pc: Pc): nat {
    var code := Code(pc);
    if code.ForkScan? || code.ForkAt? then code.i else 0
  }

  /** p's fork looks at slot q, whose lock it holds, and finds it in use. */
  predicate SeesInUse(u: Sys, p: nat, q: nat) {
    p < |u.procs| && Code(u.procs[p].pc) == ForkAt(q) && q < |u.procs| && u.procs[q].state != Unused
  }

  /** fork gives up for want of a slot only after it has seen every slot in use. */
  lemma {:induction false} ForkSawAllInUse(s: Sys, run: seq<(nat, Step)>, t: Sys, p: nat, q: nat)
    returns (k: nat, u: Sys)
    requires Inv(s) && p < |s.procs| && ForkIdx(s.procs[p].pc) <= q
    requires Legal(s, run) && t == After(s, run) && p < |t.procs| && q < ForkIdx(t.procs[p].pc)
    ensures k < |run| && Legal(s, run[..k]) && u == After(s, run[..k]) && SeesInUse(u, p, q)
    decreases |run|
  {
    var c, step := run[0].0, run[0].1;
    var s1 := Next(s, c, step).value;
    SameLength(s, c, step, s1);
    if q < ForkIdx(s1.procs[p].pc) {
      ForkStep(s, c, step, s1, p, q);
      k, u := 0, s;
    } else {
      NextKeepsInv(s, c, step, s1);
      k, u := ForkSawAllInUse(s1, run[1..], t, p, q);
      OneStepMore(s, run, s1, k);
      k := k + 1;
    }
  }

  lemma {:induction false} OneStepMore(s: Sys, run: seq<(nat, Step)>, s1: Sys, k: nat)
    requires run != [] && Next(s, run[0].0, run[0].1) == Some(s1) && k <= |run[1..]| && Legal(s1, run[1..][..k])
    ensures Legal(s, run[..k + 1]) && After(s, run[..k + 1]) == After(s1, run[1..][..k])
  {
    var head := run[..k + 1];
    assert head[0] == run[0] && head[1..] == run[1..][..k];
  }

  lemma ForkStep(u: Sys, c: nat, step: Step, t: Sys, p: nat, q: nat)
    requires CpuInv(u.procs, u.cpus) && StateInv(u.procs, u.cpus) && Next(u, c, step) == Some(t)
    requires p < |t.procs| && q < ForkIdx(t.procs[p].pc)
    ensures |u.procs| == |t.procs| && (q < ForkIdx(u.procs[p].pc) || SeesInUse(u, p, q))
  {
    SameLength(u, c, step, t);
    NextAdvances(u, c, step, t, p);
  }
}
