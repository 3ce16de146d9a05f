/** What every step of the process machine keeps.  Each part is stated over the
    components it speaks about. */
module ProcInvariant {
  import opened Prelude
  import opened ProcMachine

  // ---- reading a program counter ----

  /** The code a process returns to once it has been rescheduled. */
  function Strip(pc: Pc): Pc {
    match pc
    case YieldAcq(ret) => ret
    case YieldSet(ret) => ret
    case YieldDone(ret) => ret
    case InSched(cont) => if cont.YieldDone? then cont.ret else pc
    case _ => pc
  }

  /** The code that an interrupt handler goes back to; other code is its own. */
  function Under(pc: Pc): Pc {
    match pc
    case Crit(_, ret) => ret
    case Wake(_, _, Crit(_, ret)) => ret
    case WakeAt(_, _, Crit(_, ret)) => ret
    case _ => pc
  }

  predicate IsWake(pc: Pc) {
    pc.Wake? || pc.WakeAt?
  }

  /** wakeup is called with no lock, from a critical section, from reparent and from exit. */
  predicate WakeRet(p: nat, n: nat, ret: Pc) {
    ret.Idle? || ret.Crit? || (ret.ExitScan? && ret.i <= n && p != INIT) || (ret.ExitLock? && p != INIT)
  }

  /** sleep is called from a critical section, and from wait with wait_lock. */
  predicate SleepCall(lk: LockId, ret: Pc) {
    || (lk.CondLock? && ret == Crit(lk.k, Idle))
    || (lk.WaitLock? && ret == WaitScan(0, false))
  }

  /** yield is called, and a handler interrupts, with no lock held; sched is called from
      yield, sleep and exit. */
  predicate WfPc(p: nat, n: nat, pc: Pc) {
    var base := Strip(pc);
    && (base != pc ==> Interruptible(p, base))
    && (base == pc && InYield(pc) ==>
          pc.InSched? && ((pc.cont.SleepTidy? && SleepCall(pc.cont.lk, pc.cont.ret)) || (pc.cont.Dead? && p != INIT)))
    && WfBase(p, n, base)
    && (Under(base) != base ==> Interruptible(p, Under(base)) && WfBase(p, n, Under(base)))
  }

  predicate InExit(pc: Pc) {
    pc.ExitAcq? || pc.ExitScan? || pc.ExitWake? || pc.ExitLock? || pc.ExitSet? || pc.ExitRel? || pc.Dead?
  }

  /** Table positions that may have run off the end, and those that may not. */
  predicate InScan(pc: Pc) {
    pc.Wake? || pc.ExitScan? || pc.WaitScan? || pc.ForkScan? || pc.KillScan?
  }

  predicate AtSlot(pc: Pc) {
    || pc.WakeAt? || pc.WaitAt? || pc.WaitDone? || pc.ForkAt? || pc.ForkMade? || pc.ForkParent? || pc.ForkSetParent?
    || pc.ForkRun? || pc.ForkRunAt? || pc.KillAt?
  }

  predicate WfBase(p: nat, n: nat, pc: Pc) {
    && (pc.SleepAcq? || pc.SleepRel? || pc.SleepSet? ==>
          SleepCall(pc.lk, pc.ret) && (pc.lk.WaitLock? ==> pc.chan == ProcChan(p)))
    && (pc.SleepTidy? || pc.SleepReacq? ==> SleepCall(pc.lk, pc.ret))
    && (IsWake(pc) ==> WakeRet(p, n, pc.ret))
    && (pc.WakeAt? ==> pc.i != p)
    && (InScan(pc) ==> pc.i <= n)
    && (AtSlot(pc) ==> pc.i < n)
    && (InExit(pc) ==> p != INIT)
  }

  /** How many slots exit has already taken children out of. */
  function ExitIdx(n: nat, pc: Pc): nat {
    match pc
    case ExitScan(i) => i
    case Wake(_, _, ret) => if ret.ExitScan? then ret.i else if ret.ExitLock? then n else 0
    case WakeAt(_, _, ret) => if ret.ExitScan? then ret.i else if ret.ExitLock? then n else 0
    case ExitWake => n
    case ExitLock => n
    case ExitSet => n
    case ExitRel => n
    case Dead => n
    case InSched(cont) => if cont.Dead? then n else 0
    case _ => 0
  }

  /** How many slots wait has seen to hold no zombie child, with wait_lock held since. */
  function ScanIdx(n: nat, pc: Pc): nat {
    match pc
    case WaitScan(i, _) => i
    case WaitAt(i, _) => i
    case WaitKilled => n
    case WaitKilledAt => n
    case SleepAcq(_, lk, _) => if lk.WaitLock? then n else 0
    case SleepRel(_, lk, _) => if lk.WaitLock? then n else 0
    case _ => 0
  }

  /** The slot that fork is filling in. */
  function ForkTarget(pc: Pc): Option<nat> {
    match Under(Strip(pc))
    case ForkMade(i) => Some(i)
    case ForkParent(i) => Some(i)
    case ForkSetParent(i) => Some(i)
    case ForkRun(i) => Some(i)
    case ForkRunAt(i) => Some(i)
    case _ => None
  }

  predicate ParentIsSet(pc: Pc) {
    Under(Strip(pc)).ForkRun? || Under(Strip(pc)).ForkRunAt?
  }

  /** The channel and the lock under which a process has given its word to sleep,
      until somebody wakes it. */
  function Promise(pr: Proc): Option<(Chan, LockId)> {
    match pr.pc
    case SleepRel(ch, l, _) => Some((ch, l))
    case SleepSet(ch, l, _) => Some((ch, l))
    case SleepTidy(l, _) => if pr.state == Sleeping && pr.chan.Some? then Some((pr.chan.value, l)) else None
    case InSched(cont) =>
      if pr.state == Sleeping && pr.chan.Some? && cont.SleepTidy? then Some((pr.chan.value, cont.lk)) else None
    case _ => None
  }

  predicate Window(pr: Proc, chan: Chan, lk: LockId) {
    Promise(pr) == Some((chan, lk))
  }

  // ---- locks and CPUs ----

  predicate OnCpu(at: At, p: nat) {
    at == Switching(p) || at == InProc(p) || at == Leaving(p)
  }

  /** Where a handler can be that interrupted the scheduler. */
  predicate HandlerPc(n: nat, pc: Pc) {
    || (pc.Crit? && pc.ret.Idle?)
    || (pc.Wake? && pc.i <= n && pc.ret.Crit? && pc.ret.ret.Idle?)
    || (pc.WakeAt? && pc.i < n && pc.ret.Crit? && pc.ret.ret.Idle?)
  }

  ghost predicate CpuOk(procs: seq<Proc>, cpu: Cpu, c: nat) {
    match cpu.at
    case Scan(_) => cpu.proc == None
    case Intr(_, pc) => cpu.proc == None && HandlerPc(|procs|, pc)
    case Chosen(i) => i < |procs| && cpu.proc == None
    case Switching(i) => i < |procs| && procs[i].cpu == Some(c) && cpu.proc == Some(i)
    case InProc(p) => p < |procs| && procs[p].cpu == Some(c) && cpu.proc == Some(p)
    case Leaving(p) => p < |procs| && procs[p].cpu == Some(c) && cpu.proc == Some(p)
    case Back(i) => i < |procs| && cpu.proc == Some(i)
  }

  ghost predicate CpuInv(procs: seq<Proc>, cpus: seq<Cpu>) {
    && (forall c :: 0 <= c < |cpus| ==> CpuOk(procs, cpus[c], c))
    && (forall p :: 0 <= p < |procs| && procs[p].cpu.Some? ==>
          procs[p].cpu.value < |cpus| && OnCpu(cpus[procs[p].cpu.value].at, p))
  }

  /** The locks each CPU holds. */
  function Held(procs: seq<Proc>, cpus: seq<Cpu>): (h: seq<set<LockId>>)
    ensures |h| == |cpus|
    ensures forall c :: 0 <= c < |cpus| ==> h[c] == HeldAt(procs, cpus[c].at)
  {
    seq(|cpus|, c requires 0 <= c < |cpus| => HeldAt(procs, cpus[c].at))
  }

  /** The lock table is exactly what the CPUs hold, and noff counts it. */
  ghost predicate LockTable(held: seq<set<LockId>>, cpus: seq<Cpu>, locks: map<LockId, nat>) {
    && |held| == |cpus|
    && (forall l :: l in locks ==> locks[l] < |held| && l in held[locks[l]])
    && (forall c, l :: 0 <= c < |held| && l in held[c] ==> l in locks && locks[l] == c)
    && (forall c :: 0 <= c < |held| ==> cpus[c].noff == |held[c]|)
  }

  ghost predicate LocksInv(procs: seq<Proc>, cpus: seq<Cpu>, locks: map<LockId, nat>) {
    LockTable(Held(procs, cpus), cpus, locks)
  }

  // ---- process states ----

  datatype Phase = Off | Switch | In | Away

  function PhaseOf(cpu: Option<nat>, cpus: seq<Cpu>): Phase {
    if cpu.None? || cpu.value >= |cpus| then Off
    else if cpus[cpu.value].at.Switching? then Switch
    else if cpus[cpu.value].at.InProc? then In
    else Away
  }

  predicate Resumable(pc: Pc) {
    pc.YieldDone? || pc.SleepTidy? || pc.ForkRet?
  }

  predicate Active(pc: Pc) {
    !pc.InSched? && !pc.ExitRel? && !pc.Dead?
  }

  /** How p->state, the program counter, the saved registers and the CPU fit together. */
  predicate StateOk(pr: Proc, ph: Phase) {
    match pr.state
    case Unused => ph.Off? && pr.parent.None? && pr.pc.Idle?
    case Used => ph.Off? && pr.pc.ForkRet? && pr.saved
    case Running => (ph.Switch? && pr.saved && Resumable(pr.pc)) || (ph.In? && !pr.saved && Active(pr.pc))
    case Runnable =>
      || (ph.Off? && pr.saved && Resumable(pr.pc))
      || (ph.In? && !pr.saved && pr.pc.InSched? && pr.pc.cont.YieldDone?)
      || (ph.Away? && pr.saved && pr.pc.YieldDone?)
    case Sleeping =>
      && pr.chan.Some?
      && (|| ((ph.Off? || ph.Away?) && pr.saved && pr.pc.SleepTidy?)
          || (ph.In? && !pr.saved && pr.pc.InSched? && pr.pc.cont.SleepTidy?))
    case Zombie =>
      || ((ph.Off? || ph.Away?) && pr.saved && pr.pc.Dead?)
      || (ph.In? && !pr.saved && (pr.pc.ExitRel? || pr.pc == InSched(Dead)))
  }

  ghost predicate StateInv(procs: seq<Proc>, cpus: seq<Cpu>) {
    forall p :: 0 <= p < |procs| ==>
      WfPc(p, |procs|, procs[p].pc) && StateOk(procs[p], PhaseOf(procs[p].cpu, cpus))
  }

  // ---- sleep and wakeup ----

  predicate Passed(pc: Pc, q: nat) {
    IsWake(pc) && q < pc.i
  }

  /** wakeup has left no sleeper behind in the part of the table it has passed, as far as
      the locks its caller holds are concerned. */
  ghost predicate WakeInv(procs: seq<Proc>) {
    forall w, q, lk | 0 <= w < |procs| && 0 <= q < |procs| && Passed(procs[w].pc, q) && q != w
      && lk in HeldRet(procs[w].pc.ret) ::
      !Window(procs[q], procs[w].pc.chan, lk)
  }

  /** The same of the handlers that interrupted a scheduler. */
  ghost predicate HandlerInv(procs: seq<Proc>, cpus: seq<Cpu>) {
    forall c, q, lk | 0 <= c < |cpus| && 0 <= q < |procs| && cpus[c].at.Intr? && Passed(cpus[c].at.pc, q)
      && lk in HeldRet(cpus[c].at.pc.ret) ::
      !Window(procs[q], cpus[c].at.pc.chan, lk)
  }

  // ---- exit and wait ----

  predicate IsParent(procs: seq<Proc>, q: nat, p: nat) {
    q < |procs| && procs[q].parent == Some(p)
  }

  /** Between its last wakeup and becoming a zombie, an exiting process has no parent
      asleep in wait. */
  ghost predicate ExitInv(procs: seq<Proc>) {
    forall q: nat, p: nat :: IsParent(procs, q, p) && p < |procs| ==> ExitPair(procs[q].pc, procs[p], p)
  }

  ghost predicate ExitPair(pc: Pc, parent: Proc, p: nat) {
    && (IsWake(pc) && pc.ret.ExitLock? ==> pc.chan == ProcChan(p))
    && (pc.ExitLock? || pc.ExitSet? ==> !Window(parent, ProcChan(p), WaitLock))
  }

  ghost predicate ScanInv(procs: seq<Proc>) {
    forall p, q ::
      0 <= p < |procs| && 0 <= q < |procs| && q < ScanIdx(|procs|, procs[p].pc) && procs[q].parent == Some(p) ==>
      procs[q].state != Zombie
  }

  predicate WakerOn(procs: seq<Proc>, cpus: seq<Cpu>, c: nat, chan: Chan) {
    && c < |cpus| && cpus[c].at.InProc? && cpus[c].at.p < |procs|
    && IsWake(procs[cpus[c].at.p].pc) && procs[cpus[c].at.p].pc.chan == chan
    && WaitLock in HeldRet(procs[cpus[c].at.p].pc.ret)
  }

  predicate AsleepInWait(procs: seq<Proc>, p: nat)
    requires p < |procs|
  {
    Window(procs[p], ProcChan(p), WaitLock)
  }

  /** A process asleep in wait that has a zombie child is about to be woken by the
      process that holds wait_lock. */
  ghost predicate ZombieInv(procs: seq<Proc>, cpus: seq<Cpu>, locks: map<LockId, nat>) {
    forall p, r | 0 <= p < |procs| && 0 <= r < |procs| && procs[r].parent == Some(p) && procs[r].state == Zombie
      && AsleepInWait(procs, p) ::
      WaitLock in locks && WakerOn(procs, cpus, locks[WaitLock], ProcChan(p))
  }

  predicate Live(st: ProcState) {
    st.Running? || st.Runnable? || st.Sleeping?
  }

  /** A parent is alive and has not yet given this child to init. */
  ghost predicate ParentInv(procs: seq<Proc>) {
    && INIT < |procs| && Live(procs[INIT].state)
    && (forall q: nat, p: nat :: IsParent(procs, q, p) ==> p < |procs| && LiveParent(|procs|, procs[p], q))
    && (forall q :: 0 < q < |procs| ==> HasParent(procs[q]))
  }

  predicate LiveParent(n: nat, pr: Proc, q: nat) {
    Live(pr.state) && ExitIdx(n, pr.pc) <= q
  }

  predicate HasParent(pr: Proc) {
    Live(pr.state) || pr.state.Zombie? ==> pr.parent.Some?
  }

  predicate Targets(procs: seq<Proc>, p: nat, i: nat) {
    p < |procs| && ForkTarget(procs[p].pc) == Some(i)
  }

  predicate CreatedBy(procs: seq<Proc>, i: nat, p: nat) {
    i < |procs| && procs[i].creator == Some(p)
  }

  /** A slot is USED exactly while one process is filling it in. */
  ghost predicate ForkInv(procs: seq<Proc>) {
    && (forall i :: 0 <= i < |procs| ==> (procs[i].state.Used? <==> procs[i].creator.Some?))
    && (forall i: nat, p: nat :: CreatedBy(procs, i, p) ==> p < |procs| && Targets(procs, p, i))
    && (forall p: nat, i: nat :: Targets(procs, p, i) ==> i < |procs| && TargetOf(procs[p].pc, procs[i], p))
  }

  predicate TargetOf(pc: Pc, pr: Proc, p: nat) {
    pr.creator == Some(p) && (ParentIsSet(pc) ==> pr.parent == Some(p))
  }

  /** Process ids are never reused, and no id that wait has returned is still in use. */
  ghost predicate PidInv(procs: seq<Proc>, nextpid: nat, reaped: set<nat>) {
    && (forall p :: 0 <= p < |procs| && !procs[p].state.Unused? ==> procs[p].pid < nextpid && procs[p].pid !in reaped)
    && (forall p, q :: 0 <= p < q < |procs| && !procs[p].state.Unused? && !procs[q].state.Unused? ==>
          procs[p].pid != procs[q].pid)
    && (forall pid :: pid in reaped ==> pid < nextpid)
  }

  ghost predicate Inv(s: Sys) {
    && CpuInv(s.procs, s.cpus)
    && LocksInv(s.procs, s.cpus, s.locks)
    && StateInv(s.procs, s.cpus)
    && WakeInv(s.procs)
    && ExitInv(s.procs)
    && ScanInv(s.procs)
    && ZombieInv(s.procs, s.cpus, s.locks)
    && ParentInv(s.procs)
    && ForkInv(s.procs)
    && PidInv(s.procs, s.nextpid, s.reaped)
  }

  // ---- lock lemmas ----

  lemma HeldBy(procs: seq<Proc>, cpus: seq<Cpu>, locks: map<LockId, nat>, c: nat, l: LockId)
    requires LocksInv(procs, cpus, locks) && c < |cpus|
    ensures l in HeldAt(procs, cpus[c].at) <==> l in locks && locks[l] == c
  {
    TableHolds(Held(procs, cpus), cpus, locks, c, l);
  }

  lemma TableHolds(held: seq<set<LockId>>, cpus: seq<Cpu>, locks: map<LockId, nat>, c: nat, l: LockId)
    requires LockTable(held, cpus, locks) && c < |held|
    ensures l in held[c] <==> l in locks && locks[l] == c
  {
  }

  /** A process that is on a CPU and holds l is the one executing on the CPU that the
      lock records. */
  lemma HolderOf(procs: seq<Proc>, cpus: seq<Cpu>, locks: map<LockId, nat>, p: nat, l: LockId)
    requires CpuInv(procs, cpus) && LocksInv(procs, cpus, locks)
    requires p < |procs| && PhaseOf(procs[p].cpu, cpus).In? && l in HeldPc(p, procs[p].pc)
    ensures l in locks && locks[l] < |cpus| && cpus[locks[l]].at == InProc(p)
  {
    HeldBy(procs, cpus, locks, procs[p].cpu.value, l);
  }

  lemma TableStep(held: seq<set<LockId>>, cpus: seq<Cpu>, locks: map<LockId, nat>, c: nat, op: LockOp,
                  held': seq<set<LockId>>, cpus': seq<Cpu>)
    requires LockTable(held, cpus, locks) && c < |cpus| == |cpus'|
    requires forall k :: 0 <= k < |cpus| && k != c ==> cpus'[k].noff == cpus[k].noff
    requires cpus'[c].noff == NoffAfter(cpus[c].noff, op)
    requires op.Acq? ==> op.l !in locks && held' == held[c := held[c] + {op.l}]
    requires op.Rel? ==> op.l in held[c] && held' == held[c := held[c] - {op.l}]
    requires op.NoLock? ==> held' == held
    ensures LockTable(held', cpus', LockMap(locks, c, op))
  {
    match op
    case NoLock =>
    case Acq(l) => assert l !in held[c];
    case Rel(l) => assert |held[c] - {l}| == |held[c]| - 1;
  }

  /** A CPU's position changes, its set of held locks changes by one lock operation, and
      nobody else's does. */
  lemma LocksStep(procs: seq<Proc>, cpus: seq<Cpu>, locks: map<LockId, nat>, c: nat, op: LockOp,
                  procs': seq<Proc>, cpus': seq<Cpu>)
    requires LocksInv(procs, cpus, locks) && c < |cpus| == |cpus'|
    requires forall k :: 0 <= k < |cpus| && k != c ==> cpus'[k] == cpus[k]
    requires forall k :: 0 <= k < |cpus| && k != c ==> HeldAt(procs', cpus[k].at) == HeldAt(procs, cpus[k].at)
    requires cpus'[c].noff == NoffAfter(cpus[c].noff, op)
    requires op.NoLock? ==> HeldAt(procs', cpus'[c].at) == HeldAt(procs, cpus[c].at)
    requires op.Acq? ==> op.l !in locks && HeldAt(procs', cpus'[c].at) == HeldAt(procs, cpus[c].at) + {op.l}
    requires op.Rel? ==> op.l in HeldAt(procs, cpus[c].at) &&
                         HeldAt(procs', cpus'[c].at) == HeldAt(procs, cpus[c].at) - {op.l}
    ensures LocksInv(procs', cpus', LockMap(locks, c, op))
  {
    var held, held' := Held(procs, cpus), Held(procs', cpus');
    assert held' == held[c := HeldAt(procs', cpus'[c].at)];
    TableStep(held, cpus, locks, c, op, held', cpus');
  }

  /** What the other CPUs hold does not depend on the process that CPU c executes. */
  lemma OthersHold(procs: seq<Proc>, cpus: seq<Cpu>, c: nat, procs': seq<Proc>, p: nat)
    requires CpuInv(procs, cpus) && c < |cpus| && p < |procs| == |procs'|
    requires procs[p].cpu == Some(c) || procs[p].cpu.None? || procs'[p].pc == procs[p].pc
    requires forall q :: 0 <= q < |procs| && q != p && procs[q].cpu.Some? ==> procs'[q].pc == procs[q].pc
    ensures forall k :: 0 <= k < |cpus| && k != c ==> HeldAt(procs', cpus[k].at) == HeldAt(procs, cpus[k].at)
  {
    forall k | 0 <= k < |cpus| && k != c
      ensures HeldAt(procs', cpus[k].at) == HeldAt(procs, cpus[k].at)
    {
      assert CpuOk(procs, cpus[k], k);
    }
  }
}
