/** Reservation of log space by concurrent file-system operations: begin_op,
    log_write and end_op of kernel/log.c, each of which runs under log.lock and is
    one step here.  Operations of different processes interleave freely. */
module LogReservation {

  type Pid = nat

  /** MAXOPBLOCKS, LOGSIZE and sb.nlog of the source, and the number of new blocks
      each operation is allowed to add. */
  datatype Params = Params(maxop: nat, logsize: nat, size: nat, budget: nat)

  /** struct log.  `unspent` names the processes between begin_op and end_op and
      says how many new blocks each may still add. */
  datatype Log = Log(lh: seq<int>, outstanding: int, committing: bool,
                     unspent: map<Pid, nat>, panicked: bool)

  datatype Step =
    | BeginOp(pid: Pid)
    | LogWrite(pid: Pid, blockno: int)
    | EndOp(pid: Pid)
    | ClearHeader
    | EndCommit

  const Empty := Log([], 0, false, map[], false)

  /** The two tests at the head of log_write, made before absorption. */
  predicate WritePanics(p: Params, s: Log) {
    |s.lh| >= p.logsize || |s.lh| >= p.size - 1 || s.outstanding < 1
  }

  /** A process calls begin_op when it is not inside an operation, and gets past
      its two waiting conditions; it logs and ends only inside one.  An operation
      names a block not yet in the log only while it has budget left. */
  predicate Enabled(p: Params, s: Log, step: Step) {
    && !s.panicked
    && match step
       case BeginOp(pid) =>
         pid !in s.unspent && !s.committing && |s.lh| + (s.outstanding + 1) * p.maxop <= p.logsize
       case LogWrite(pid, b) => pid in s.unspent && (b in s.lh || s.unspent[pid] > 0)
       case EndOp(pid) => pid in s.unspent
       case ClearHeader => s.committing
       case EndCommit => s.committing && s.lh == []
  }

  /** log_write: absorb a block that is already listed, otherwise append it. */
  function Write(p: Params, s: Log, pid: Pid, b: int): Log
    requires pid in s.unspent && (b in s.lh || s.unspent[pid] > 0)
  {
    if WritePanics(p, s) then s.(panicked := true)
    else if b in s.lh then s
    else s.(lh := s.lh + [b], unspent := s.unspent[pid := s.unspent[pid] - 1])
  }

  /** end_op up to the point where the last operation starts the commit. */
  function End(s: Log, pid: Pid): Log
    requires pid in s.unspent
  {
    var t := s.(outstanding := s.outstanding - 1, unspent := s.unspent - {pid});
    if s.committing then t.(panicked := true)
    else t.(committing := t.outstanding == 0)
  }

  function Apply(p: Params, s: Log, step: Step): Log
    requires Enabled(p, s, step)
  {
    match step
    case BeginOp(pid) => s.(outstanding := s.outstanding + 1, unspent := s.unspent[pid := p.budget])
    case LogWrite(pid, b) => Write(p, s, pid, b)
    case EndOp(pid) => End(s, pid)
    case ClearHeader => s.(lh := [])
    case EndCommit => s.(committing := false)
  }

  /** Every step of the run is enabled when it is taken. */
  predicate Legal(p: Params, s: Log, run: seq<Step>)
    decreases |run|
  {
    run == [] || (Enabled(p, s, run[0]) && Legal(p, Apply(p, s, run[0]), run[1..]))
  }

  function After(p: Params, s: Log, run: seq<Step>): Log
    requires Legal(p, s, run)
    decreases |run|
  {
    if run == [] then s else After(p, Apply(p, s, run[0]), run[1..])
  }

  ghost function Sum(m: map<Pid, nat>): nat {
    if m == map[] then 0 else var k :| k in m; m[k] + Sum(m - {k})
  }

  lemma {:induction false} SumWithout(m: map<Pid, nat>, k: Pid)
    requires k in m
    ensures Sum(m) == m[k] + Sum(m - {k})
    decreases |m|
  {
    var j :| j in m && Sum(m) == m[j] + Sum(m - {j});
    if j != k {
      SumWithout(m - {j}, k);
      SumWithout(m - {k}, j);
      assert m - {j} - {k} == m - {k} - {j};
    }
  }

  lemma SumUpdate(m: map<Pid, nat>, k: Pid, v: nat)
    ensures Sum(m[k := v]) == v + Sum(m - {k})
  {
    SumWithout(m[k := v], k);
    assert m[k := v] - {k} == m - {k};
  }

  lemma MulSucc(k: nat, v: nat)
    ensures k * v + v == (k + 1) * v
  {
  }

  lemma {:induction false} SumBounded(m: map<Pid, nat>, v: nat)
    requires forall k :: k in m ==> m[k] <= v
    ensures Sum(m) <= |m| * v
    decreases |m|
  {
    if m != map[] {
      var k :| k in m;
      SumWithout(m, k);
      SizeWithout(m, k);
      SumBounded(m - {k}, v);
      MulSucc(|m| - 1, v);
    }
  }

  lemma SizeWithout(m: map<Pid, nat>, k: Pid)
    requires k in m
    ensures |m - {k}| == |m| - 1
  {
    assert (m - {k}).Keys == m.Keys - {k};
  }

  lemma SizeUpdate(m: map<Pid, nat>, k: Pid, v: nat)
    ensures |m[k := v]| == if k in m then |m| else |m| + 1
  {
    assert m[k := v].Keys == m.Keys + {k};
  }

  predicate Distinct(xs: seq<int>) {
    forall i, j :: 0 <= i < j < |xs| ==> xs[i] != xs[j]
  }

  /** Log space in use or promised: blocks already listed plus what the running
      operations may still add. */
  ghost function Reserved(s: Log): nat {
    |s.lh| + Sum(s.unspent)
  }

  /** What every interleaving keeps as long as no operation exceeds MAXOPBLOCKS. */
  ghost predicate Inv(p: Params, s: Log) {
    && s.outstanding == |s.unspent|
    && Distinct(s.lh)
    && (forall pid :: pid in s.unspent ==> s.unspent[pid] <= p.budget)
    && Reserved(s) <= p.logsize
    && (s.committing ==> s.outstanding == 0)
    && (!s.committing && s.outstanding == 0 ==> s.lh == [])
  }

  /** Adding one operation of at most v blocks to k others of at most v blocks. */
  lemma OneMore(k: nat, v: nat, w: nat)
    requires v <= w
    ensures k * v + v <= (k + 1) * w
  {
    MulSucc(k, v);
    MulMono(k + 1, v, w);
  }

  lemma {:induction false} MulMono(k: nat, v: nat, w: nat)
    requires v <= w
    ensures k * v <= k * w
  {
    if k > 0 {
      MulMono(k - 1, v, w);
      MulSucc(k - 1, v);
      MulSucc(k - 1, w);
    }
  }

  lemma BeginReserves(p: Params, s: Log, pid: Pid)
    requires Inv(p, s) && pid !in s.unspent
    ensures Sum(s.unspent[pid := p.budget]) == Sum(s.unspent) + p.budget
    ensures |s.unspent[pid := p.budget]| == |s.unspent| + 1
    ensures Sum(s.unspent) <= s.outstanding * p.budget
  {
    SumUpdate(s.unspent, pid, p.budget);
    assert s.unspent - {pid} == s.unspent;
    SizeUpdate(s.unspent, pid, p.budget);
    SumBounded(s.unspent, p.budget);
  }

  lemma WriteReserves(s: Log, pid: Pid)
    requires pid in s.unspent && s.unspent[pid] > 0
    ensures var u := s.unspent[pid := s.unspent[pid] - 1];
            Sum(u) == Sum(s.unspent) - 1 && |u| == |s.unspent|
  {
    SumWithout(s.unspent, pid);
    SumUpdate(s.unspent, pid, s.unspent[pid] - 1);
    SizeUpdate(s.unspent, pid, s.unspent[pid] - 1);
  }

  lemma EndReserves(s: Log, pid: Pid)
    requires pid in s.unspent
    ensures Sum(s.unspent - {pid}) <= Sum(s.unspent)
    ensures |s.unspent - {pid}| == |s.unspent| - 1
  {
    SumWithout(s.unspent, pid);
    SizeWithout(s.unspent, pid);
  }

  lemma InvBegin(p: Params, s: Log, pid: Pid)
    requires p.budget <= p.maxop && Inv(p, s) && Enabled(p, s, BeginOp(pid))
    ensures Inv(p, Apply(p, s, BeginOp(pid)))
  {
    BeginReserves(p, s, pid);
    OneMore(s.outstanding, p.budget, p.maxop);
  }

  lemma InvWrite(p: Params, s: Log, pid: Pid, b: int)
    requires Inv(p, s) && Enabled(p, s, LogWrite(pid, b))
    ensures Inv(p, Apply(p, s, LogWrite(pid, b)))
  {
    if !WritePanics(p, s) && b !in s.lh {
      WriteReserves(s, pid);
    }
  }

  lemma InvStep(p: Params, s: Log, step: Step)
    requires p.budget <= p.maxop && Inv(p, s) && Enabled(p, s, step)
    ensures Inv(p, Apply(p, s, step))
    ensures step.EndOp? ==> !Apply(p, s, step).panicked
  {
    match step
    case BeginOp(pid) =>
      InvBegin(p, s, pid);
    case LogWrite(pid, b) =>
      InvWrite(p, s, pid, b);
    case EndOp(pid) =>
      EndReserves(s, pid);
    case ClearHeader =>
    case EndCommit =>
  }

  /** Strictly smaller operations leave two blocks of slack, because an operation
      that starts alone starts with an empty log. */
  ghost predicate Slack(p: Params, s: Log) {
    (s.outstanding >= 1 || s.committing) ==> Reserved(s) + 2 <= p.logsize
  }

  lemma SlackStep(p: Params, s: Log, step: Step)
    requires p.budget < p.maxop && p.budget + 2 <= p.logsize
    requires Inv(p, s) && Slack(p, s) && Enabled(p, s, step)
    ensures Slack(p, Apply(p, s, step))
  {
    match step
    case BeginOp(pid) =>
      BeginReserves(p, s, pid);
      if s.outstanding > 0 {
        OneMore(s.outstanding, p.budget, p.maxop - 1);
        MulPred(s.outstanding + 1, p.maxop);
      }
    case LogWrite(pid, b) =>
      if !WritePanics(p, s) && b !in s.lh {
        WriteReserves(s, pid);
      }
    case EndOp(pid) => EndReserves(s, pid);
    case ClearHeader =>
    case EndCommit =>
  }

  lemma MulPred(k: nat, v: nat)
    requires v > 0
    ensures k * v == k * (v - 1) + k
  {
  }

  /** Every reachable state keeps the reservation, whatever the interleaving. */
  lemma {:induction false} ReservationHolds(p: Params, s: Log, run: seq<Step>)
    requires p.budget <= p.maxop && Inv(p, s) && Legal(p, s, run)
    ensures Inv(p, After(p, s, run))
    decreases |run|
  {
    if run != [] {
      InvStep(p, s, run[0]);
      ReservationHolds(p, Apply(p, s, run[0]), run[1..]);
    }
  }

  lemma {:induction false} SmallOpsNeverPanic(p: Params, s: Log, run: seq<Step>)
    requires p.budget < p.maxop && p.budget + 2 <= p.logsize <= p.size
    requires Inv(p, s) && Slack(p, s) && !s.panicked && Legal(p, s, run)
    ensures !After(p, s, run).panicked
    ensures Slack(p, After(p, s, run)) && |After(p, s, run).lh| + 2 <= p.logsize
    decreases |run|
  {
    if run == [] {
      assert s.outstanding == 0 && !s.committing ==> s.lh == [];
    } else {
      InvStep(p, s, run[0]);
      SlackStep(p, s, run[0]);
      if run[0].LogWrite? {
        SizeWithout(s.unspent, run[0].pid);
      }
      SmallOpsNeverPanic(p, Apply(p, s, run[0]), run[1..]);
    }
  }

  /** Process pid logs k blocks first, first + 1, ... */
  function Burst(pid: Pid, first: int, k: nat): seq<Step>
    decreases k
  {
    if k == 0 then [] else [LogWrite(pid, first)] + Burst(pid, first + 1, k - 1)
  }

  /** A burst of fresh blocks by a process with enough budget is legal and fills
      the log by exactly that many entries. */
  lemma {:induction false} BurstFills(p: Params, s: Log, pid: Pid, k: nat)
    requires !s.panicked && pid in s.unspent && k <= s.unspent[pid] && s.outstanding >= 1
    requires |s.lh| + k <= p.logsize && |s.lh| + k <= p.size - 1
    requires forall i :: 0 <= i < |s.lh| ==> s.lh[i] < |s.lh|
    ensures Legal(p, s, Burst(pid, |s.lh|, k))
    ensures var t := After(p, s, Burst(pid, |s.lh|, k));
            && !t.panicked && |t.lh| == |s.lh| + k
            && (forall i :: 0 <= i < |t.lh| ==> t.lh[i] < |t.lh|)
            && t.outstanding == s.outstanding && t.committing == s.committing
            && t.unspent == s.unspent[pid := s.unspent[pid] - k]
    decreases k
  {
    if k > 0 {
      var step := LogWrite(pid, |s.lh|);
      assert |s.lh| !in s.lh;
      var s' := Apply(p, s, step);
      BurstFills(p, s', pid, k - 1);
      assert Burst(pid, |s.lh|, k)[1..] == Burst(pid, |s'.lh|, k - 1);
      assert s'.unspent[pid := s'.unspent[pid] - (k - 1)] == s.unspent[pid := s.unspent[pid] - k];
    } else {
      assert s.unspent[pid := s.unspent[pid]] == s.unspent;
    }
  }

  lemma {:induction false} AfterAppend(p: Params, s: Log, a: seq<Step>, b: seq<Step>)
    requires Legal(p, s, a) && Legal(p, After(p, s, a), b)
    ensures Legal(p, s, a + b) && After(p, s, a + b) == After(p, After(p, s, a), b)
    decreases |a|
  {
    if a == [] {
      assert a + b == b;
    } else {
      AfterAppend(p, Apply(p, s, a[0]), a[1..], b);
      assert (a + b)[1..] == a[1..] + b;
    }
  }

  lemma ThreeBegin(p: Params) returns (s3: Log)
    requires p.maxop >= 1 && p.logsize == 3 * p.maxop && p.size == p.logsize && p.budget == p.maxop
    ensures var begins := [BeginOp(0), BeginOp(1), BeginOp(2)]; Legal(p, Empty, begins) && After(p, Empty, begins) == s3
    ensures s3 == Empty.(outstanding := 3, unspent := map[0 := p.budget, 1 := p.budget, 2 := p.budget])
  {
    var begins := [BeginOp(0), BeginOp(1), BeginOp(2)];
    var s1 := Apply(p, Empty, BeginOp(0));
    var s2 := Apply(p, s1, BeginOp(1));
    s3 := Apply(p, s2, BeginOp(2));
    OneStep(p, s2, BeginOp(2));
    assert [BeginOp(1), BeginOp(2)][1..] == [BeginOp(2)];
    assert Legal(p, s1, [BeginOp(1), BeginOp(2)]) && After(p, s1, [BeginOp(1), BeginOp(2)]) == s3;
    assert begins[1..] == [BeginOp(1), BeginOp(2)];
  }

  lemma OneStep(p: Params, s: Log, step: Step)
    requires Enabled(p, s, step)
    ensures Legal(p, s, [step]) && After(p, s, [step]) == Apply(p, s, step)
  {
    var t := Apply(p, s, step);
    assert [step][1..] == [];
    assert Legal(p, t, []) && After(p, t, []) == t;
  }

  /** Three operations that each add a full MAXOPBLOCKS reach the panic. */
  lemma FullOpsPanic(p: Params) returns (run: seq<Step>)
    requires p.maxop >= 1 && p.logsize == 3 * p.maxop && p.size == p.logsize && p.budget == p.maxop
    ensures Legal(p, Empty, run) && After(p, Empty, run).panicked
  {
    var begins := [BeginOp(0), BeginOp(1), BeginOp(2)];
    var s3 := ThreeBegin(p);
    BurstFills(p, s3, 0, p.maxop);
    var r0 := Burst(0, 0, p.maxop);
    var s4 := After(p, s3, r0);
    BurstFills(p, s4, 1, p.maxop);
    var r1 := Burst(1, |s4.lh|, p.maxop);
    var s5 := After(p, s4, r1);
    BurstFills(p, s5, 2, p.maxop - 1);
    var r2 := Burst(2, |s5.lh|, p.maxop - 1);
    var s6 := After(p, s5, r2);
    var last := [LogWrite(2, |s6.lh|)];
    OneStep(p, s6, LogWrite(2, |s6.lh|));
    AfterAppend(p, s5, r2, last);
    AfterAppend(p, s4, r1, r2 + last);
    AfterAppend(p, s3, r0, r1 + (r2 + last));
    AfterAppend(p, Empty, begins, r0 + (r1 + (r2 + last)));
    run := begins + (r0 + (r1 + (r2 + last)));
  }

  /** With the on-disk log that mkfs makes (nlog == LOGSIZE == 3 * MAXOPBLOCKS),
      "too big a transaction" is unreachable exactly when every operation adds
      fewer than MAXOPBLOCKS new blocks. */
  lemma PanicFreeIff(p: Params)
    requires p.maxop >= 1 && p.logsize == 3 * p.maxop && p.size == p.logsize && p.budget <= p.maxop
    ensures (forall run :: Legal(p, Empty, run) ==> !After(p, Empty, run).panicked) <==> p.budget < p.maxop
  {
    if p.budget < p.maxop {
      forall run | Legal(p, Empty, run)
        ensures !After(p, Empty, run).panicked
      {
        SmallOpsNeverPanic(p, Empty, run);
      }
    } else {
      var run := FullOpsPanic(p);
    }
  }

  /** struct log with its in-memory header.  The methods are the critical sections
      of the three functions. */
  class LogHead {
    const p: Params
    var lh: seq<int>
    var outstanding: int
    var committing: bool
    var panicked: bool

    constructor (p: Params)
      ensures this.p == p && lh == [] && outstanding == 0 && !committing && !panicked
    {
      this.p := p;
      lh, outstanding, committing, panicked := [], 0, false, false;
    }

    /** The fields agree with s; the table of running operations is the model's own. */
    predicate Shows(s: Log)
      reads this
    {
      lh == s.lh && outstanding == s.outstanding && committing == s.committing && panicked == s.panicked
    }

    /** One turn of begin_op's loop: false means the caller goes to sleep. */
    method TryBeginOp(pid: Pid, ghost s: Log) returns (ok: bool)
      requires Shows(s) && !panicked && pid !in s.unspent
      modifies this
      ensures ok <==> !old(committing) && |old(lh)| + (old(outstanding) + 1) * p.maxop <= p.logsize
      ensures outstanding == old(outstanding) + if ok then 1 else 0
      ensures lh == old(lh) && committing == old(committing) && !panicked
      ensures ok <==> Enabled(p, s, BeginOp(pid))
      ensures Shows(if ok then Apply(p, s, BeginOp(pid)) else s)
    {
      if committing {
        ok := false;
      } else if |lh| + (outstanding + 1) * p.maxop > p.logsize {
        ok := false;
      } else {
        outstanding := outstanding + 1;
        ok := true;
      }
    }

    method LogWrite(pid: Pid, blockno: int, ghost s: Log)
      requires Shows(s) && !panicked && pid in s.unspent && (blockno in lh || s.unspent[pid] > 0)
      modifies this
      ensures panicked <==> |old(lh)| >= p.logsize || |old(lh)| >= p.size - 1 || old(outstanding) < 1
      ensures lh == if panicked || blockno in old(lh) then old(lh) else old(lh) + [blockno]
      ensures outstanding == old(outstanding) && committing == old(committing)
      ensures Shows(Apply(p, s, Step.LogWrite(pid, blockno)))
    {
      if |lh| >= p.logsize || |lh| >= p.size - 1 {
        panicked := true;
        return;
      }
      if outstanding < 1 {
        panicked := true;
        return;
      }
      var i := 0;
      while i < |lh| && lh[i] != blockno
        invariant 0 <= i <= |lh|
        invariant blockno !in lh[..i]
      {
        i := i + 1;
      }
      if i == |lh| {
        assert lh[..i] == lh;
        lh := lh + [blockno];
      } else {
        assert lh[i := blockno] == lh;
        lh := lh[i := blockno];
      }
    }

    /** end_op's critical section; the result tells the caller to run commit. */
    method EndOp(pid: Pid, ghost s: Log) returns (doCommit: bool)
      requires Shows(s) && !panicked && pid in s.unspent
      modifies this
      ensures lh == old(lh) && outstanding == old(outstanding) - 1 && (panicked <==> old(committing))
      ensures doCommit <==> !panicked && outstanding == 0
      ensures committing <==> old(committing) || doCommit
      ensures Shows(Apply(p, s, Step.EndOp(pid)))
    {
      outstanding := outstanding - 1;
      doCommit := false;
      if committing {
        panicked := true;
      } else if outstanding == 0 {
        doCommit := true;
        committing := true;
      }
    }
  }
}
