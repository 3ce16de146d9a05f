/** The buffer cache and the log: what bread hands out.  brelse takes a changed buffer
    that was never passed to log_write (writei does this when a source copy fails), and
    exactly such a release makes the cache disagree with the log. */
module LogCache {
  import opened Prelude
  import opened LogRecovery
  import opened LogMachine
  import R = LogReservation

  /** The latest logged contents of block b. */
  function Latest(c: Config, s: Sys, b: nat): Block
    requires b < |c.disk0|
  {
    Replay(c.disk0, s.events)[b]
  }

  /** Buffer i is filled with a block of the file system. */
  predicate Filled(c: Config, s: Sys, i: nat)
    requires s.Up?
  {
    && i < |s.bufs| && s.bufs[i].valid && s.bufs[i].dev == c.dev && c.g.Home(s.bufs[i].blockno)
    && s.bufs[i].blockno < |c.disk0|
  }

  /** Every buffer that nobody holds has the latest logged contents of its block. */
  ghost predicate Agrees(c: Config, s: Sys) {
    s.Up? ==>
      forall i: nat :: Filled(c, s, i) && s.bufs[i].lock.None? ==> s.bufs[i].data == Latest(c, s, s.bufs[i].blockno)
  }

  /** brelse of a buffer whose contents differ from what was last logged. */
  predicate Unlogged(c: Config, s: Sys, step: Step)
    requires Enabled(c, s, step)
  {
    && step.Cache? && step.cache.Release? && Filled(c, s, step.cache.i)
    && s.bufs[step.cache.i].data != Latest(c, s, s.bufs[step.cache.i].blockno)
  }

  lemma LatestIsLogical(c: Config, s: Sys, i: nat)
    requires c.Ok() && Inv(c, s) && s.Up? && i < |s.bufs|
    ensures s.logical == Replay(c.disk0, s.events) && |s.logical| == |c.disk0| == c.g.nblocks == |s.disk|
    ensures BufInv(c, s.disk, s.logical, s.pins, s.log.unspent.Keys, s.bufs[i])
  {
  }

  lemma CacheAgrees(c: Config, s: Sys, step: CacheStep)
    requires c.Ok() && Inv(c, s) && Agrees(c, s) && Enabled(c, s, Cache(step))
    ensures Agrees(c, Apply(c, s, Cache(step))) <==> !Unlogged(c, s, Cache(step))
  {
    var t := Apply(c, s, Cache(step));
    assert forall i: nat :: i != step.i ==> Filled(c, t, i) == Filled(c, s, i);
    if Unlogged(c, s, Cache(step)) {
      assert Filled(c, t, step.i);
    } else {
      assert Filled(c, t, step.i) && t.bufs[step.i].lock.None? ==> Filled(c, s, step.i);
    }
  }

  /** The buffers after log_write on buffer i, or after the release that Absorb is: the
      others stay, and have other blocks. */
  lemma UpdateAgrees(c: Config, s: Sys, i: nat, bufs': seq<Buf>, k: nat)
    requires c.Ok() && Inv(c, s) && s.Up? && Agrees(c, s) && Filled(c, s, i) && s.bufs[i].lock.Some?
    requires |bufs'| == |s.bufs| && (forall j :: 0 <= j < |bufs'| && j != i ==> bufs'[j] == s.bufs[j])
    requires bufs'[i].data == s.bufs[i].data && bufs'[i].blockno == s.bufs[i].blockno
    requires k < |bufs'| && bufs'[k].lock.None? && bufs'[k].valid && bufs'[k].dev == c.dev
    requires c.g.Home(bufs'[k].blockno) && bufs'[k].blockno < |c.disk0|
    ensures bufs'[k].data ==
            Replay(c.disk0, s.events + [Update(s.bufs[i].blockno, s.bufs[i].data)])[bufs'[k].blockno]
  {
    ReplayAppend(c.disk0, s.events, Update(s.bufs[i].blockno, s.bufs[i].data));
    if k != i {
      assert Filled(c, s, k);
      assert s.bufs[k].blockno != s.bufs[i].blockno;
    }
  }

  lemma BeginEndAgrees(c: Config, s: Sys, step: OpStep)
    requires s.Up? && Agrees(c, s) && Enabled(c, s, Op(step)) && (step.BeginOp? || step.EndOp?)
    ensures Agrees(c, Apply(c, s, Op(step)))
  {
    var t := Apply(c, s, Op(step));
    ReplayAppend(c.disk0, s.events, if step.BeginOp? then Begin(step.pid) else End(step.pid));
    forall k: nat | Filled(c, t, k) && t.bufs[k].lock.None?
      ensures t.bufs[k].data == Latest(c, t, t.bufs[k].blockno)
    {
      assert Filled(c, s, k);
    }
  }

  lemma OpAgrees(c: Config, s: Sys, step: OpStep)
    requires c.Ok() && Inv(c, s) && Agrees(c, s) && Enabled(c, s, Op(step))
    ensures Agrees(c, Apply(c, s, Op(step)))
  {
    if step.BeginOp? || step.EndOp? {
      BeginEndAgrees(c, s, step);
    } else {
      LatestIsLogical(c, s, step.i);
      var t := Apply(c, s, Op(step));
      if !t.log.panicked {
        forall k: nat | Filled(c, t, k) && t.bufs[k].lock.None?
          ensures t.bufs[k].data == Latest(c, t, t.bufs[k].blockno)
        {
          UpdateAgrees(c, s, step.i, t.bufs, k);
        }
      } else {
        assert forall k: nat :: Filled(c, t, k) == Filled(c, s, k);
      }
    }
  }

  /** commit writes only buffers that it holds. */
  lemma CommitAgrees(c: Config, s: Sys, step: CommitStep)
    requires Agrees(c, s) && Enabled(c, s, Commit(step))
    ensures Agrees(c, Apply(c, s, Commit(step)))
  {
    var t := Apply(c, s, Commit(step));
    forall i: nat | Filled(c, t, i) && t.bufs[i].lock.None?
      ensures t.bufs[i].data == Latest(c, t, t.bufs[i].blockno)
    {
      assert Filled(c, s, i);
    }
  }

  lemma BootAgrees(c: Config, s: Sys, bufs: seq<Buf>)
    requires c.Ok() && Inv(c, s) && Enabled(c, s, Boot(bufs))
    ensures Agrees(c, Apply(c, s, Boot(bufs)))
  {
    var t := Apply(c, s, Boot(bufs));
    forall i: nat | Filled(c, t, i) && t.bufs[i].lock.None?
      ensures t.bufs[i].data == Latest(c, t, t.bufs[i].blockno)
    {
      assert BootBuf(c, Recovered(c.g, s.disk), bufs[i]);
    }
  }

  /** Where the cache agrees with the log, it goes on doing so exactly if the step is not the
      release of an unlogged change. */
  lemma AgreesIff(c: Config, s: Sys, step: Step)
    requires c.Ok() && Inv(c, s) && Agrees(c, s) && Enabled(c, s, step)
    ensures Agrees(c, Apply(c, s, step)) <==> !Unlogged(c, s, step)
  {
    match step
    case Cache(cs) => CacheAgrees(c, s, cs);
    case Op(os) => OpAgrees(c, s, os);
    case Commit(ms) => CommitAgrees(c, s, ms);
    case Boot(bufs) => BootAgrees(c, s, bufs);
    case _ =>
  }

  // ---- whole runs ----

  /** No step of the run releases an unlogged change. */
  predicate Careful(c: Config, s: Sys, run: seq<Step>)
    requires Legal(c, s, run)
    decreases |run|
  {
    run == [] || (!Unlogged(c, s, run[0]) && Careful(c, Apply(c, s, run[0]), run[1..]))
  }

  /** The cache agrees with the log at every point of the run. */
  ghost predicate AlwaysAgrees(c: Config, s: Sys, run: seq<Step>)
    requires Legal(c, s, run)
    decreases |run|
  {
    Agrees(c, s) && (run == [] || AlwaysAgrees(c, Apply(c, s, run[0]), run[1..]))
  }

  lemma {:induction false} CarefulIff(c: Config, s: Sys, run: seq<Step>)
    requires c.Ok() && Inv(c, s) && Agrees(c, s) && Legal(c, s, run)
    ensures AlwaysAgrees(c, s, run) <==> Careful(c, s, run)
    ensures Careful(c, s, run) ==> Agrees(c, After(c, s, run))
    decreases |run|
  {
    if run != [] {
      StepKeepsInv(c, s, run[0]);
      AgreesIff(c, s, run[0]);
      if !Unlogged(c, s, run[0]) {
        CarefulIff(c, Apply(c, s, run[0]), run[1..]);
      }
    }
  }

  lemma Pinned(c: Config, s: Sys, j: nat) returns (i: int)
    requires c.Ok() && Inv(c, s) && s.Up? && PinFrom(s.pc) <= j < |s.log.lh|
    ensures Cached(c, s.bufs, i, s.log.lh[j]) && s.bufs[i].refcnt >= 1
  {
    i :| Cached(c, s.bufs, i, s.log.lh[j]);
    LatestIsLogical(c, s, i);
  }

  /** The cache and the log, in every reachable state.  No two buffers hold the same block.
      A block logged but not yet installed has a filled buffer with a positive reference
      count, so it is never recycled.  A filled buffer that was not changed since it was
      read or logged holds the latest logged contents.  And the cache agrees with the
      log all along exactly in the runs that release no unlogged change. */
  lemma CacheAgreement(c: Config, run: seq<Step>)
    requires c.Ok() && Legal(c, Start(c), run) && After(c, Start(c), run).Up?
    ensures var s := After(c, Start(c), run);
            && UniqueKeys(c, s.bufs)
            && (forall i: nat :: Filled(c, s, i) && !s.bufs[i].dirty ==>
                  s.bufs[i].data == Latest(c, s, s.bufs[i].blockno))
            && (forall j :: PinFrom(s.pc) <= j < |s.log.lh| ==>
                  exists i :: Cached(c, s.bufs, i, s.log.lh[j]) && s.bufs[i].refcnt >= 1)
    ensures AlwaysAgrees(c, Start(c), run) <==> Careful(c, Start(c), run)
  {
    StartInv(c);
    RunKeepsInv(c, Start(c), run);
    CarefulIff(c, Start(c), run);
    var s := After(c, Start(c), run);
    forall i: nat | Filled(c, s, i) && !s.bufs[i].dirty
      ensures s.bufs[i].data == Latest(c, s, s.bufs[i].blockno)
    {
      LatestIsLogical(c, s, i);
    }
    forall j | PinFrom(s.pc) <= j < |s.log.lh|
      ensures exists i :: Cached(c, s.bufs, i, s.log.lh[j]) && s.bufs[i].refcnt >= 1
    {
      var i := Pinned(c, s, j);
    }
  }

  /** bread, once it has found the buffer: take its lock, and fill it if need be. */
  function Bread(c: Config, s: Sys, pid: Pid, i: nat): Sys
    requires Enabled(c, s, Cache(Acquire(pid, i)))
  {
    var t := Apply(c, s, Cache(Acquire(pid, i)));
    if t.bufs[i].valid || !Enabled(c, t, Cache(Fill(pid, i))) then t else Apply(c, t, Cache(Fill(pid, i)))
  }

  /** What bread hands out is the latest logged contents of the block, after every run that
      releases no unlogged change. */
  lemma BreadReturnsLatest(c: Config, run: seq<Step>, pid: Pid, i: nat)
    requires c.Ok() && Legal(c, Start(c), run) && Careful(c, Start(c), run) && After(c, Start(c), run).Up?
    requires var s := After(c, Start(c), run);
             Enabled(c, s, Cache(Acquire(pid, i))) && c.g.Home(s.bufs[i].blockno)
    ensures var s := After(c, Start(c), run);
            var u := Bread(c, s, pid, i);
            && u.Up? && i < |u.bufs| && u.bufs[i].blockno == s.bufs[i].blockno < |c.disk0|
            && u.bufs[i].lock == Some(pid) && u.bufs[i].valid
            && u.bufs[i].data == Latest(c, s, s.bufs[i].blockno)
  {
    StartInv(c);
    RunKeepsInv(c, Start(c), run);
    CarefulIff(c, Start(c), run);
    BreadGives(c, After(c, Start(c), run), pid, i);
  }

  lemma BreadGives(c: Config, s: Sys, pid: Pid, i: nat)
    requires c.Ok() && Inv(c, s) && s.Up? && Agrees(c, s)
    requires Enabled(c, s, Cache(Acquire(pid, i))) && c.g.Home(s.bufs[i].blockno)
    ensures var u := Bread(c, s, pid, i);
            && u.Up? && i < |u.bufs| && u.bufs[i].blockno == s.bufs[i].blockno < |c.disk0|
            && u.bufs[i].lock == Some(pid) && u.bufs[i].valid
            && u.bufs[i].data == Latest(c, s, s.bufs[i].blockno)
  {
    LatestIsLogical(c, s, i);
    if s.bufs[i].valid {
      assert Filled(c, s, i);
    } else {
      UncachedNotPinned(c, s.pins, s.bufs, s.bufs[i].blockno);
    }
  }

  // ---- an unlogged change that shows ----

  lemma {:induction false} Extend(c: Config, s: Sys, run: seq<Step>, step: Step)
    requires Legal(c, s, run) && Enabled(c, After(c, s, run), step)
    ensures Legal(c, s, run + [step]) && After(c, s, run + [step]) == Apply(c, After(c, s, run), step)
    decreases |run|
  {
    if run == [] {
      assert run + [step] == [step] && [step][1..] == [];
      assert Legal(c, Apply(c, s, step), []);
    } else {
      assert (run + [step])[0] == run[0] && (run + [step])[1..] == run[1..] + [step];
      Extend(c, Apply(c, s, run[0]), run[1..], step);
    }
  }

  /** One buffer, and one operation of process 0. */
  ghost predicate OneBuf(c: Config, s: Sys, buf: Buf) {
    && s.Up? && !s.log.panicked && s.bufs == [buf] && s.pins == {} && s.events == [Begin(0)]
    && 0 in s.log.unspent && c.g.DiskShape(s.disk)
  }

  lemma BootsAndBegins(c: Config) returns (run: seq<Step>, buf: Buf)
    requires c.Ok() && c.p.maxop <= c.p.logsize
    ensures Legal(c, Start(c), run) && OneBuf(c, After(c, Start(c), run), buf)
    ensures buf.dev == 0 && buf.refcnt == 0 && buf.lock.None?
  {
    buf := Buf(0, 0, false, 0, c.disk0[c.g.start], None, {}, false);
    var s0 := Start(c);
    assert Legal(c, s0, []) && After(c, s0, []) == s0;
    assert BootCache(c, Recovered(c.g, s0.disk), [buf]);
    Extend(c, s0, [], Boot([buf]));
    var s1 := Apply(c, s0, Boot([buf]));
    StartInv(c);
    StepKeepsInv(c, s0, Boot([buf]));
    assert R.Enabled(c.p, s1.log, R.BeginOp(0));
    Extend(c, s0, [] + [Boot([buf])], Op(BeginOp(0)));
    run := [] + [Boot([buf])] + [Op(BeginOp(0))];
    assert s1.events + [Begin(0)] == [Begin(0)];
  }

  /** bread of block b. */
  lemma Breads(c: Config, run: seq<Step>, buf: Buf, b: nat) returns (run': seq<Step>, buf': Buf)
    requires c.Ok() && Legal(c, Start(c), run) && OneBuf(c, After(c, Start(c), run), buf) && c.g.Home(b)
    requires buf.dev == 0 && buf.refcnt == 0 && buf.lock.None?
    ensures Legal(c, Start(c), run') && OneBuf(c, After(c, Start(c), run'), buf')
    ensures buf'.dev == c.dev && buf'.blockno == b && buf'.valid && buf'.lock == Some(0)
  {
    var s := After(c, Start(c), run);
    var get, lock, fill := Cache(BGetMiss(0, 0, b)), Cache(Acquire(0, 0)), Cache(Fill(0, 0));
    assert Enabled(c, s, get);
    var s1 := Apply(c, s, get);
    assert Enabled(c, s1, lock);
    var s2 := Apply(c, s1, lock);
    assert Enabled(c, s2, fill);
    Extend(c, Start(c), run, get);
    Extend(c, Start(c), run + [get], lock);
    Extend(c, Start(c), run + [get] + [lock], fill);
    run' := run + [get] + [lock] + [fill];
    buf' := Apply(c, s2, fill).bufs[0];
  }

  /** In every file system, for every block and all contents: a run that changes the block's
      buffer and releases it without log_write.  What bread hands out then was never
      logged. */
  lemma UnloggedChangeShows(c: Config, b: nat, data: Block) returns (run: seq<Step>)
    requires c.Ok() && c.p.maxop <= c.p.logsize && c.g.Home(b) && |data| == c.g.words && data != c.disk0[b]
    ensures Legal(c, Start(c), run)
    ensures var s := After(c, Start(c), run);
            && s.Up? && |s.bufs| == 1 && Filled(c, s, 0) && s.bufs[0].lock.None? && s.bufs[0].blockno == b
            && s.bufs[0].data == data != Latest(c, s, b)
  {
    var run1, buf1 := BootsAndBegins(c);
    var run2, buf2 := Breads(c, run1, buf1, b);
    var s := After(c, Start(c), run2);
    var change, release := Cache(Modify(0, 0, data)), Cache(Release(0, 0));
    assert Enabled(c, s, change);
    assert Enabled(c, Apply(c, s, change), release);
    Extend(c, Start(c), run2, change);
    Extend(c, Start(c), run2 + [change], release);
    run := run2 + [change] + [release];
    ReplayAppend(c.disk0, [], Begin(0));
    assert [] + [Begin(0)] == [Begin(0)];
  }
}
