/** Scheduling, sleep/wakeup and exit/wait of kernel/proc.c over the spinlocks of
    kernel/spinlock.c, as an interleaving of the CPUs.

    A step of a CPU is one lock operation or one critical update of the source.  A
    spinlock records the CPU that holds it, so a lock taken by the scheduler can be
    released by the process it switches to.  swtch is split in two: the outgoing
    registers are saved in one step and control moves in the next.

    Wherever a CPU holds no lock, in a process or in the scheduler's loop, an interrupt
    handler may run: a critical section that may call wakeup, but not sleep, and
    returns to the code it interrupted. */
module ProcMachine {
  import opened Prelude

  datatype LockId = ProcLock(p: nat) | WaitLock | CondLock(k: nat)

  /** What sleep and wakeup are called with: the address of a proc, or any other. */
  datatype Chan = ProcChan(p: nat) | OtherChan(k: nat)

  datatype ProcState = Unused | Used | Sleeping | Runnable | Running | Zombie

  /** What a process is about to do next in the kernel. */
  datatype Pc =
    | Idle                                              // in user space, or in the kernel with no lock
    | Crit(k: nat, ret: Pc)                             // inside a critical section of a condition lock
    | YieldAcq(ret: Pc) | YieldSet(ret: Pc) | YieldDone(ret: Pc)
    | SleepAcq(chan: Chan, lk: LockId, ret: Pc) | SleepRel(chan: Chan, lk: LockId, ret: Pc)
    | SleepSet(chan: Chan, lk: LockId, ret: Pc) | SleepTidy(lk: LockId, ret: Pc) | SleepReacq(lk: LockId, ret: Pc)
    | InSched(cont: Pc)                                 // sched(), up to the first half of swtch
    | ForkRet
    | Wake(chan: Chan, i: nat, ret: Pc) | WakeAt(chan: Chan, i: nat, ret: Pc)
    | ExitAcq | ExitScan(i: nat) | ExitWake | ExitLock | ExitSet | ExitRel | Dead
    | WaitAcq | WaitScan(i: nat, kids: bool) | WaitAt(i: nat, kids: bool) | WaitDone(i: nat) | WaitUnlock
    | WaitKilled | WaitKilledAt
    | ForkScan(i: nat) | ForkAt(i: nat) | ForkMade(i: nat) | ForkParent(i: nat) | ForkSetParent(i: nat)
    | ForkRun(i: nat) | ForkRunAt(i: nat)
    | KillScan(pid: nat, i: nat) | KillAt(pid: nat, i: nat)

  /** struct proc.  `saved` tells whether p->context holds the registers; `cpu` is the
      CPU whose stack the process is on, and `creator` the process that is still
      filling in a new slot. */
  datatype Proc = Proc(state: ProcState, chan: Option<Chan>, parent: Option<nat>, pid: nat, killed: bool,
                       pc: Pc, saved: bool, cpu: Option<nat>, creator: Option<nat>)

  /** Where a CPU is: in the scheduler loop, in a handler that interrupted it, in a process,
      or between the two. */
  datatype At =
    | Scan(i: nat)
    | Intr(i: nat, pc: Pc)
    | Chosen(i: nat)
    | Switching(i: nat)
    | InProc(p: nat)
    | Leaving(p: nat)
    | Back(i: nat)

  /** struct cpu */
  datatype Cpu = Cpu(at: At, proc: Option<nat>, noff: int)

  /** `reaped` are the process ids that wait has returned. */
  datatype Sys = Sys(procs: seq<Proc>, cpus: seq<Cpu>, locks: map<LockId, nat>, nextpid: nat, reaped: set<nat>)

  /** initproc is the first slot. */
  const INIT: nat := 0

  const FreeProc := Proc(Unused, None, None, 0, false, Idle, true, None, None)

  // ---- locks ----

  datatype LockOp = NoLock | Acq(l: LockId) | Rel(l: LockId)

  /** The locks a process holds at each point of its code. */
  function HeldPc(p: nat, pc: Pc): set<LockId> {
    match pc
    case Idle => {}
    case Crit(k, _) => {CondLock(k)}
    case YieldAcq(_) => {}
    case YieldSet(_) => {ProcLock(p)}
    case YieldDone(_) => {ProcLock(p)}
    case SleepAcq(_, lk, _) => {lk}
    case SleepRel(_, lk, _) => {lk, ProcLock(p)}
    case SleepSet(_, _, _) => {ProcLock(p)}
    case SleepTidy(_, _) => {ProcLock(p)}
    case SleepReacq(_, _) => {}
    case InSched(_) => {ProcLock(p)}
    case ForkRet => {ProcLock(p)}
    case Wake(_, _, ret) => HeldRet(ret)
    case WakeAt(_, i, ret) => HeldRet(ret) + {ProcLock(i)}
    case ExitAcq => {}
    case ExitScan(_) => {WaitLock}
    case ExitWake => {WaitLock}
    case ExitLock => {WaitLock}
    case ExitSet => {WaitLock, ProcLock(p)}
    case ExitRel => {WaitLock, ProcLock(p)}
    case Dead => {ProcLock(p)}
    case WaitAcq => {}
    case WaitScan(_, _) => {WaitLock}
    case WaitAt(i, _) => {WaitLock, ProcLock(i)}
    case WaitDone(i) => {WaitLock, ProcLock(i)}
    case WaitUnlock => {WaitLock}
    case WaitKilled => {WaitLock}
    case WaitKilledAt => {WaitLock, ProcLock(p)}
    case ForkScan(_) => {}
    case ForkAt(i) => {ProcLock(i)}
    case ForkMade(i) => {ProcLock(i)}
    case ForkParent(_) => {}
    case ForkSetParent(_) => {WaitLock}
    case ForkRun(_) => {}
    case ForkRunAt(i) => {ProcLock(i)}
    case KillScan(_, _) => {}
    case KillAt(_, i) => {ProcLock(i)}
  }

  /** The places wakeup is called from, and the lock the caller holds there. */
  function HeldRet(ret: Pc): set<LockId> {
    match ret
    case Crit(k, _) => {CondLock(k)}
    case ExitScan(_) => {WaitLock}
    case ExitLock => {WaitLock}
    case _ => {}
  }

  /** The locks held on a CPU, by whichever thread it executes. */
  function HeldAt(procs: seq<Proc>, at: At): set<LockId> {
    match at
    case Scan(_) => {}
    case Intr(_, pc) => HeldPc(|procs|, pc)
    case Chosen(i) => {ProcLock(i)}
    case Switching(i) => {ProcLock(i)}
    case InProc(p) => if p < |procs| then HeldPc(p, procs[p].pc) else {}
    case Leaving(p) => {ProcLock(p)}
    case Back(i) => {ProcLock(i)}
  }

  /** acquire succeeds on a free lock; release needs holding(lk). */
  predicate LockReady(s: Sys, c: nat, op: LockOp) {
    match op
    case NoLock => true
    case Acq(l) => l !in s.locks
    case Rel(l) => l in s.locks && s.locks[l] == c
  }

  function LockMap(locks: map<LockId, nat>, c: nat, op: LockOp): map<LockId, nat> {
    match op
    case NoLock => locks
    case Acq(l) => locks[l := c]
    case Rel(l) => locks - {l}
  }

  /** push_off and pop_off count the locks held. */
  function NoffAfter(noff: int, op: LockOp): int {
    match op
    case NoLock => noff
    case Acq(_) => noff + 1
    case Rel(_) => noff - 1
  }

  // ---- what a process does ----

  /** What a process chooses where the source leaves a choice: what to do next, or
      whether a copy or an allocation fails. */
  datatype Act =
    | Go
    | Fail
    | Yield
    | Enter(k: nat)
    | Leave
    | CallSleep(chan: Chan)
    | CallWakeup(chan: Chan)
    | CallFork
    | CallExit
    | CallWait
    | CallKill(pid: nat)

  datatype Move = Move(pc: Pc, op: LockOp)

  predicate InYield(pc: Pc) {
    pc.YieldAcq? || pc.YieldSet? || pc.YieldDone? || pc.InSched?
  }

  /** No lock is held, and interrupts are not off for yield. */
  predicate Interruptible(p: nat, pc: Pc) {
    HeldPc(p, pc) == {} && !InYield(pc)
  }

  /** Moves that change nothing but the mover's program counter and one lock. */
  function PcNext(s: Sys, p: nat, act: Act): Option<Move>
    requires p < |s.procs|
  {
    var pc := s.procs[p].pc;
    if act == Yield then
      if Interruptible(p, pc) then Some(Move(YieldAcq(pc), NoLock)) else None
    else if act.Enter? then
      if Interruptible(p, pc) then Some(Move(Crit(act.k, pc), Acq(CondLock(act.k)))) else None
    else if pc.Idle? then IdleNext(p, act)
    else if pc.Crit? then CritNext(pc, act)
    else if act == Fail then
      if pc.WaitAt? && pc.i < |s.procs|
          && s.procs[pc.i].state == Zombie then Some(Move(WaitDone(pc.i), NoLock)) else None
    else if act == Go then GoNext(s, p)
    else None
  }

  /** Inside a critical section.  A handler that interrupted other code does not sleep. */
  function CritNext(pc: Pc, act: Act): Option<Move>
    requires pc.Crit?
  {
    match act
    case Leave => Some(Move(pc.ret, Rel(CondLock(pc.k))))
    case CallSleep(chan) => if pc.ret.Idle? then Some(Move(SleepAcq(chan, CondLock(pc.k), pc), NoLock)) else None
    case CallWakeup(chan) => Some(Move(Wake(chan, 0, pc), NoLock))
    case _ => None
  }

  /** init panics in exit, so it never gets there. */
  function IdleNext(p: nat, act: Act): Option<Move> {
    match act
    case CallWakeup(chan) => Some(Move(Wake(chan, 0, Idle), NoLock))
    case CallFork => Some(Move(ForkScan(0), NoLock))
    case CallExit => if p == INIT then None else Some(Move(ExitAcq, NoLock))
    case CallWait => Some(Move(WaitAcq, NoLock))
    case CallKill(pid) => Some(Move(KillScan(pid, 0), NoLock))
    case _ => None
  }

  /** The next move where the source leaves no choice. */
  function GoNext(s: Sys, p: nat): Option<Move>
    requires p < |s.procs|
  {
    var pc := s.procs[p].pc;
    if pc.ExitAcq? || pc.ExitScan? || pc.ExitWake? || pc.ExitLock? || pc.ExitRel? then ExitNext(s, p)
    else if pc.WaitAcq? || pc.WaitScan? || pc.WaitAt? || pc.WaitDone? || pc.WaitUnlock? || pc.WaitKilled?
        || pc.WaitKilledAt?
    then WaitNext(s, p)
    else if pc.ForkScan? || pc.ForkAt? || pc.ForkMade? || pc.ForkParent? || pc.ForkRun? || pc.KillScan? || pc.KillAt?
    then ForkNext(s, p)
    else SyncNext(s, p)
  }

  /** yield, sleep, wakeup and forkret. */
  function SyncNext(s: Sys, p: nat): Option<Move>
    requires p < |s.procs|
  {
    match s.procs[p].pc
    case YieldAcq(ret) => Some(Move(YieldSet(ret), Acq(ProcLock(p))))
    case YieldDone(ret) => Some(Move(ret, Rel(ProcLock(p))))
    case SleepAcq(chan, lk, ret) => Some(Move(SleepRel(chan, lk, ret), Acq(ProcLock(p))))
    case SleepRel(chan, lk, ret) => Some(Move(SleepSet(chan, lk, ret), Rel(lk)))
    case SleepReacq(lk, ret) => Some(Move(ret, Acq(lk)))
    case ForkRet => Some(Move(Idle, Rel(ProcLock(p))))
    case Wake(chan, i, ret) =>
      if i >= |s.procs| then Some(Move(ret, NoLock))
      else if i == p then Some(Move(Wake(chan, i + 1, ret), NoLock))
      else Some(Move(WakeAt(chan, i, ret), Acq(ProcLock(i))))
    case _ => None
  }

  function ExitNext(s: Sys, p: nat): Option<Move>
    requires p < |s.procs|
  {
    match s.procs[p].pc
    case ExitAcq => Some(Move(ExitScan(0), Acq(WaitLock)))
    case ExitScan(i) =>
      if i >= |s.procs| then Some(Move(ExitWake, NoLock))
      else if s.procs[i].parent != Some(p) then Some(Move(ExitScan(i + 1), NoLock))
      else None
    case ExitWake =>
      var chan := if s.procs[p].parent.Some? then ProcChan(s.procs[p].parent.value) else OtherChan(0);
      Some(Move(Wake(chan, 0, ExitLock), NoLock))
    case ExitLock => Some(Move(ExitSet, Acq(ProcLock(p))))
    case ExitRel => Some(Move(InSched(Dead), Rel(WaitLock)))
    case _ => None
  }

  function WaitNext(s: Sys, p: nat): Option<Move>
    requires p < |s.procs|
  {
    var n := |s.procs|;
    match s.procs[p].pc
    case WaitAcq => Some(Move(WaitScan(0, false), Acq(WaitLock)))
    case WaitScan(i, kids) =>
      if i >= n then Some(Move(if kids then WaitKilled else WaitUnlock, NoLock))
      else if s.procs[i].parent == Some(p) then Some(Move(WaitAt(i, kids), Acq(ProcLock(i))))
      else Some(Move(WaitScan(i + 1, kids), NoLock))
    case WaitAt(i, kids) =>
      if i < n && s.procs[i].state != Zombie then Some(Move(WaitScan(i + 1, true), Rel(ProcLock(i)))) else None
    case WaitDone(i) => Some(Move(WaitUnlock, Rel(ProcLock(i))))
    case WaitUnlock => Some(Move(Idle, Rel(WaitLock)))
    case WaitKilled => Some(Move(WaitKilledAt, Acq(ProcLock(p))))
    case WaitKilledAt =>
      Some(Move(if s.procs[p].killed then WaitUnlock else SleepAcq(ProcChan(p), WaitLock, WaitScan(0, false)),
                Rel(ProcLock(p))))
    case _ => None
  }

  /** fork and kill. */
  function ForkNext(s: Sys, p: nat): Option<Move>
    requires p < |s.procs|
  {
    var n := |s.procs|;
    match s.procs[p].pc
    case ForkScan(i) => if i >= n then Some(Move(Idle, NoLock)) else Some(Move(ForkAt(i), Acq(ProcLock(i))))
    case ForkAt(i) =>
      if i < n && s.procs[i].state != Unused then Some(Move(ForkScan(i + 1), Rel(ProcLock(i)))) else None
    case ForkMade(i) => Some(Move(ForkParent(i), Rel(ProcLock(i))))
    case ForkParent(i) => Some(Move(ForkSetParent(i), Acq(WaitLock)))
    case ForkRun(i) => Some(Move(ForkRunAt(i), Acq(ProcLock(i))))
    case KillScan(pid, i) =>
      if i >= n then Some(Move(Idle, NoLock)) else Some(Move(KillAt(pid, i), Acq(ProcLock(i))))
    case KillAt(pid, i) =>
      if i < n && s.procs[i].pid != pid then Some(Move(KillScan(pid, i + 1), Rel(ProcLock(i)))) else None
    case _ => None
  }

  // ---- steps ----

  /** `Moves` is a move of PcNext, or of a handler in the scheduler; every other step is named
      after the source line that does more than move one program counter. */
  datatype Step =
    | Moves(act: Act)
    | Look               // scheduler: acquire(&p->lock), or wrap around the table
    | Skip               // scheduler: not RUNNABLE, release
    | Pick               // scheduler: p->state = RUNNING; c->proc = p
    | Jump               // scheduler's swtch, into the process
    | Save               // sched's swtch, first half: registers into p->context
    | Return             // sched's swtch, second half: the scheduler's registers are loaded
    | PutBack            // scheduler: c->proc = 0; release
    | SetRunnable        // yield
    | SetSleeping        // sleep
    | Tidy               // sleep: p->chan = 0; release(&p->lock)
    | WakeOne            // wakeup: body of the loop
    | Reparent           // reparent: pp->parent = initproc
    | SetZombie          // exit
    | Reap               // wait: freeproc(pp)
    | Found              // allocproc: found an UNUSED slot
    | GiveUp             // fork: uvmcopy failed, freeproc(np)
    | SetParent          // fork: np->parent = p
    | SetFirstRunnable   // fork: np->state = RUNNABLE
    | KillOne            // kill: body of the loop, on the right process

  /** The process CPU c executes. */
  predicate Inside(s: Sys, c: nat, p: nat) {
    c < |s.cpus| && s.cpus[c].at == InProc(p) && p < |s.procs|
  }

  function LockStep(s: Sys, c: nat, op: LockOp): Sys
    requires c < |s.cpus|
  {
    s.(locks := LockMap(s.locks, c, op), cpus := s.cpus[c := s.cpus[c].(noff := NoffAfter(s.cpus[c].noff, op))])
  }

  /** The scheduler of CPU c moves on, with one lock operation. */
  function SchedStep(s: Sys, c: nat, at: At, op: LockOp): Sys
    requires c < |s.cpus|
  {
    s.(locks := LockMap(s.locks, c, op),
       cpus := s.cpus[c := Cpu(at, None, NoffAfter(s.cpus[c].noff, op))])
  }

  /** Control passes between the scheduler of CPU c and process p. */
  function Switched(s: Sys, c: nat, p: nat, pr: Proc, at: At): Sys
    requires c < |s.cpus| && p < |s.procs|
  {
    s.(procs := s.procs[p := pr], cpus := s.cpus[c := s.cpus[c].(at := at, proc := Some(p))])
  }

  function SetProc(s: Sys, p: nat, pr: Proc): Sys
    requires p < |s.procs|
  {
    s.(procs := s.procs[p := pr])
  }

  function SetPc(s: Sys, p: nat, pc: Pc): Sys
    requires p < |s.procs|
  {
    SetProc(s, p, s.procs[p].(pc := pc))
  }

  datatype AtMove = AtMove(at: At, op: LockOp)

  /** What an interrupt handler does that runs on the scheduler's stack, among n processes:
      it belongs to no process, so its wakeup passes over none. */
  function HandlerMove(n: nat, at: At, act: Act): Option<AtMove> {
    match (act, at)
    case (Enter(k), Scan(i)) => Some(AtMove(Intr(i, Crit(k, Idle)), Acq(CondLock(k))))
    case (Leave, Intr(i, Crit(k, _))) => Some(AtMove(Scan(i), Rel(CondLock(k))))
    case (CallWakeup(chan), Intr(i, Crit(k, ret))) => Some(AtMove(Intr(i, Wake(chan, 0, Crit(k, ret))), NoLock))
    case (Go, Intr(i, Wake(chan, j, ret))) =>
      if j >= n then Some(AtMove(Intr(i, ret), NoLock))
      else Some(AtMove(Intr(i, WakeAt(chan, j, ret)), Acq(ProcLock(j))))
    case _ => None
  }

  function Woken(q: Proc, chan: Chan): Proc {
    if q.state == Sleeping && q.chan == Some(chan) then q.(state := Runnable) else q
  }

  /** Steps of the scheduler loop and of the handlers that interrupt it. */
  function SchedulerNext(s: Sys, c: nat, step: Step): Option<Sys>
    requires c < |s.cpus|
  {
    var n := |s.procs|;
    match (step, s.cpus[c].at)
    case (Look, Scan(i)) =>
      if i >= n then Some(SchedStep(s, c, Scan(0), NoLock))
      else if LockReady(s, c, Acq(ProcLock(i))) then Some(SchedStep(s, c, Chosen(i), Acq(ProcLock(i))))
      else None
    case (Skip, Chosen(i)) =>
      if i < n && s.procs[i].state != Runnable && LockReady(s, c, Rel(ProcLock(i)))
      then Some(SchedStep(s, c, Scan(i + 1), Rel(ProcLock(i))))
      else None
    case (Pick, Chosen(i)) =>
      if i < n && s.procs[i].state == Runnable
      then Some(Switched(s, c, i, s.procs[i].(state := Running, cpu := Some(c)), Switching(i)))
      else None
    case (Jump, Switching(i)) =>
      if i < n then Some(Switched(s, c, i, s.procs[i].(saved := false), InProc(i))) else None
    case (Return, Leaving(p)) =>
      if p < n then Some(Switched(s, c, p, s.procs[p].(cpu := None), Back(p))) else None
    case (PutBack, Back(i)) =>
      if LockReady(s, c, Rel(ProcLock(i))) then Some(SchedStep(s, c, Scan(i + 1), Rel(ProcLock(i)))) else None
    case (Moves(act), at) =>
      var mv := HandlerMove(n, at, act);
      if mv.Some? && LockReady(s, c, mv.value.op) then Some(SchedStep(s, c, mv.value.at, mv.value.op)) else None
    case (WakeOne, Intr(i, WakeAt(chan, j, ret))) =>
      if j < n && LockReady(s, c, Rel(ProcLock(j)))
      then Some(SchedStep(SetProc(s, j, Woken(s.procs[j], chan)), c, Intr(i, Wake(chan, j + 1, ret)), Rel(ProcLock(j))))
      else None
    case _ => None
  }

  /** Updates by the process p that CPU c executes. */
  function ProcNext(s: Sys, c: nat, p: nat, step: Step): Option<Sys>
    requires Inside(s, c, p)
  {
    var n, pr, pc := |s.procs|, s.procs[p], s.procs[p].pc;
    match step
    case Moves(act) =>
      var mv := PcNext(s, p, act);
      if mv.Some? && LockReady(s, c, mv.value.op) then Some(LockStep(SetPc(s, p, mv.value.pc), c, mv.value.op))
          else None
    case Save =>
      if pc.InSched? then Some(Switched(s, c, p, pr.(saved := true, pc := pc.cont), Leaving(p))) else None
    case SetRunnable =>
      if pc.YieldSet?
      then Some(LockStep(SetProc(s, p, pr.(state := Runnable, pc := InSched(YieldDone(pc.ret)))), c, NoLock))
      else None
    case SetSleeping =>
      if pc.SleepSet?
      then Some(LockStep(SetProc(s, p,
          pr.(state := Sleeping, chan := Some(pc.chan), pc := InSched(SleepTidy(pc.lk, pc.ret)))),
                         c, NoLock))
      else None
    case Tidy =>
      if pc.SleepTidy? && LockReady(s, c, Rel(ProcLock(p)))
      then Some(LockStep(SetProc(s, p, pr.(chan := None, pc := SleepReacq(pc.lk, pc.ret))), c, Rel(ProcLock(p))))
      else None
    case SetZombie =>
      if pc.ExitSet? then Some(LockStep(SetProc(s, p, pr.(state := Zombie, pc := ExitRel)), c, NoLock)) else None
    case _ => OtherNext(s, c, p, step)
  }

  /** Process i becomes pr', then p moves. */
  function Pair(s: Sys, c: nat, p: nat, i: nat, pr': Proc, mv: Move): Sys
    requires c < |s.cpus| && p < |s.procs| && i < |s.procs|
  {
    LockStep(SetPc(SetProc(s, i, pr'), p, mv.pc), c, mv.op)
  }

  /** Updates that touch another process, whose lock (or wait_lock) the mover holds. */
  function OtherNext(s: Sys, c: nat, p: nat, step: Step): Option<Sys>
    requires Inside(s, c, p)
  {
    var n, pc := |s.procs|, s.procs[p].pc;
    match step
    case WakeOne =>
      if pc.WakeAt? && pc.i < n && pc.i != p && LockReady(s, c, Rel(ProcLock(pc.i))) then
        Some(Pair(s, c, p, pc.i, Woken(s.procs[pc.i], pc.chan),
            Move(Wake(pc.chan, pc.i + 1, pc.ret), Rel(ProcLock(pc.i)))))
      else None
    case Reparent =>
      if pc.ExitScan? && pc.i < n && s.procs[pc.i].parent == Some(p) then
        Some(Pair(s, c, p, pc.i, s.procs[pc.i].(parent := Some(INIT)),
            Move(Wake(ProcChan(INIT), 0, ExitScan(pc.i + 1)), NoLock)))
      else None
    case Reap =>
      if pc.WaitAt? && pc.i < n && pc.i != p && s.procs[pc.i].state == Zombie then
        Some(Pair(s, c, p, pc.i, FreeProc, Move(WaitDone(pc.i), NoLock)).(reaped := s.reaped + {s.procs[pc.i].pid}))
      else None
    case Found =>
      if pc.ForkAt? && pc.i < n && pc.i != p && s.procs[pc.i].state == Unused then
        var np := s.procs[pc.i].(state := Used, pid := s.nextpid, pc := ForkRet, saved := true, creator := Some(p));
        Some(Pair(s, c, p, pc.i, np, Move(ForkMade(pc.i), NoLock)).(nextpid := s.nextpid + 1))
      else None
    case GiveUp =>
      if pc.ForkMade? && pc.i < n && pc.i != p && LockReady(s, c, Rel(ProcLock(pc.i))) then
        Some(Pair(s, c, p, pc.i, FreeProc, Move(Idle, Rel(ProcLock(pc.i)))))
      else None
    case SetParent =>
      if pc.ForkSetParent? && pc.i < n && pc.i != p && LockReady(s, c, Rel(WaitLock)) then
        Some(Pair(s, c, p, pc.i, s.procs[pc.i].(parent := Some(p)), Move(ForkRun(pc.i), Rel(WaitLock))))
      else None
    case SetFirstRunnable =>
      if pc.ForkRunAt? && pc.i < n && pc.i != p && LockReady(s, c, Rel(ProcLock(pc.i))) then
        var np := s.procs[pc.i].(state := Runnable, creator := None);
        Some(Pair(s, c, p, pc.i, np, Move(Idle, Rel(ProcLock(pc.i)))))
      else None
    case KillOne =>
      if pc.KillAt? && pc.i < n && s.procs[pc.i].pid == pc.pid && LockReady(s, c, Rel(ProcLock(pc.i))) then
        var q := s.procs[pc.i];
        var q' := q.(killed := true, state := if q.state == Sleeping then Runnable else q.state);
        Some(Pair(s, c, p, pc.i, q', Move(Idle, Rel(ProcLock(pc.i)))))
      else None
    case _ => None
  }

  /** CPU c takes a step. */
  function Next(s: Sys, c: nat, step: Step): Option<Sys> {
    if c >= |s.cpus| then None
    else if s.cpus[c].at.InProc? && s.cpus[c].at.p < |s.procs| then ProcNext(s, c, s.cpus[c].at.p, step)
    else SchedulerNext(s, c, step)
  }
}
