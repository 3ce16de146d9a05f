/** Interrupts under spinlocks (kernel/spinlock.c): push_off and pop_off beside every run of
    the process machine. */
module ProcInterrupts {
  import opened Prelude
  import opened ProcMachine
  import opened ProcInvariant
  import opened ProcProtocol

  /** The interrupt side of struct cpu; `on` is what intr_get reads. */
  datatype Flags = Flags(noff: int, intena: bool, on: bool)

  /** What the rest of the kernel does to a CPU's interrupts during a step: with no lock held
      they may go on or off (the scheduler's intr_on, traps, user mode); and sched puts
      back the intena that the process saved when it went away. */
  datatype Around = Around(on: bool, intena: bool)

  function PushOff(f: Flags): Flags {
    Flags(f.noff + 1, if f.noff == 0 then f.on else f.intena, false)
  }

  /** The two panics of pop_off. */
  predicate PopPanics(f: Flags) { f.on || f.noff < 1 }

  function PopOff(f: Flags): Flags {
    Flags(f.noff - 1, f.intena, if f.noff == 1 && f.intena then true else f.on)
  }

  predicate IsSwitch(step: Step) { step.Pick? || step.Jump? || step.Save? || step.Return? }

  function FlagsNext(f: Flags, op: LockOp, step: Step, e: Around): Flags {
    match op
    case Acq(_) => PushOff(f)
    case Rel(_) => PopOff(f)
    case NoLock =>
      Flags(f.noff, if IsSwitch(step) then e.intena else f.intena, if f.noff == 0 then e.on else f.on)
  }

  /** One Around for each step of the run. */
  function FlagsAfter(s: Sys, run: seq<(nat, Step)>, env: seq<Around>, fs: seq<Flags>): seq<Flags>
    requires Legal(s, run) && |env| == |run| && |fs| == |s.cpus|
    decreases |run|
  {
    if run == [] then fs
    else
      var (c, step) := run[0];
      NextLocks(s, c, step, Next(s, c, step).value);
      FlagsAfter(Next(s, c, step).value, run[1..], env[1..],
          fs[c := FlagsNext(fs[c], LockOpOf(s, c, step), step, env[0])])
  }

  ghost predicate FlagsOk(s: Sys, fs: seq<Flags>) {
    && |fs| == |s.cpus|
    && (forall c {:trigger fs[c]} :: 0 <= c < |fs| ==> fs[c].noff == s.cpus[c].noff && (fs[c].noff > 0 ==> !fs[c].on))
  }

  /** noff counts the locks held, so it is never negative, and is positive under a lock. */
  lemma NoffCounts(s: Sys, c: nat)
    requires Inv(s) && c < |s.cpus|
    ensures s.cpus[c].noff == |HeldAt(s.procs, s.cpus[c].at)|
  {
    assert Held(s.procs, s.cpus)[c] == HeldAt(s.procs, s.cpus[c].at);
  }

  lemma ReleaseCounts(s: Sys, c: nat, step: Step)
    requires Inv(s) && c < |s.cpus| && LockOpOf(s, c, step).Rel?
    ensures s.cpus[c].noff >= 1
  {
    ReleasesHeld(s, c, step);
    NoffCounts(s, c);
  }

  lemma FlagsStep(s: Sys, c: nat, step: Step, t: Sys, fs: seq<Flags>, e: Around)
    requires Inv(s) && Next(s, c, step) == Some(t) && FlagsOk(s, fs)
    ensures c < |fs| && FlagsOk(t, fs[c := FlagsNext(fs[c], LockOpOf(s, c, step), step, e)])
    ensures LockOpOf(s, c, step).Rel? ==> !PopPanics(fs[c])
  {
    NextLocks(s, c, step, t);
    NoffCounts(s, c);
    assert fs[c].noff == s.cpus[c].noff;
    if LockOpOf(s, c, step).Rel? { ReleaseCounts(s, c, step); }
    FlagsKept(s, c, LockOpOf(s, c, step), step, t, fs, e);
  }

  lemma FlagsKept(s: Sys, c: nat, op: LockOp, step: Step, t: Sys, fs: seq<Flags>, e: Around)
    requires LocksMove(s, c, op, t) && FlagsOk(s, fs) && fs[c].noff >= 0 && (op.Rel? ==> fs[c].noff >= 1)
    ensures FlagsOk(t, fs[c := FlagsNext(fs[c], op, step, e)])
  {
    var fs' := fs[c := FlagsNext(fs[c], op, step, e)];
    forall d | 0 <= d < |fs'|
      ensures fs'[d].noff == t.cpus[d].noff && (fs'[d].noff > 0 ==> !fs'[d].on)
    {
      assert fs[d].noff == s.cpus[d].noff && (fs[d].noff > 0 ==> !fs[d].on);
    }
  }

  lemma {:induction false} FlagsRun(s: Sys, run: seq<(nat, Step)>, env: seq<Around>, fs: seq<Flags>)
    requires Inv(s) && Legal(s, run) && |env| == |run| && FlagsOk(s, fs)
    ensures FlagsOk(After(s, run), FlagsAfter(s, run, env, fs))
    decreases |run|
  {
    if run != [] {
      var (c, step) := run[0];
      var t := Next(s, c, step).value;
      FlagsStep(s, c, step, t, fs, env[0]);
      NextKeepsInv(s, c, step, t);
      FlagsRun(t, run[1..], env[1..], fs[c := FlagsNext(fs[c], LockOpOf(s, c, step), step, env[0])]);
    }
  }

  /** main enters the schedulers with interrupts off. */
  function BootFlags(n: nat): (fs: seq<Flags>)
    ensures |fs| == n
  {
    seq(n, _ => Flags(0, false, false))
  }

  /** In every run, whatever happens to interrupts while no lock is held: a CPU that holds any
      spinlock has them off, and pop_off never panics. */
  lemma LockedIsUninterruptible(s: Sys, run: seq<(nat, Step)>, env: seq<Around>, c: nat, step: Step)
    requires Boot(s) && Legal(s, run) && |env| == |run| && c < |After(s, run).cpus|
    ensures var t, fs := After(s, run), FlagsAfter(s, run, env, BootFlags(|s.cpus|));
            && |fs| == |t.cpus|
            && (HeldAt(t.procs, t.cpus[c].at) != {} ==> !fs[c].on)
            && (LockOpOf(t, c, step).Rel? ==> !PopPanics(fs[c]))
  {
    BootInv(s);
    RunKeepsInv(s, run);
    FlagsRun(s, run, env, BootFlags(|s.cpus|));
    var t, fs := After(s, run), FlagsAfter(s, run, env, BootFlags(|s.cpus|));
    assert fs[c].noff == t.cpus[c].noff;
    NoffCounts(t, c);
    if LockOpOf(t, c, step).Rel? { ReleaseCounts(t, c, step); }
  }

  /** sched's fourth test: a process that calls it has interrupts off. */
  lemma SchedNotInterruptible(s: Sys, run: seq<(nat, Step)>, env: seq<Around>, c: nat, p: nat)
    requires Boot(s) && Legal(s, run) && |env| == |run|
    requires Inside(After(s, run), c, p) && After(s, run).procs[p].pc.InSched?
    ensures var fs := FlagsAfter(s, run, env, BootFlags(|s.cpus|)); c < |fs| && !fs[c].on
  {
    LockedIsUninterruptible(s, run, env, c, Save);
    assert ProcLock(p) in HeldAt(After(s, run).procs, After(s, run).cpus[c].at);
  }
}
