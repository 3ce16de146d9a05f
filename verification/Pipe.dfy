/** Pipes (kernel/pipe.c): any number of readers, writers and closers taking turns under the
    pipe's lock, with the ring buffer and its 32-bit counters. */
module Pipe {
  import opened Prelude

  const PIPESIZE: nat := 512
  const U32: nat := 0x1_0000_0000

  type byte = bv8

  /** A call of pipewrite: `base` is what this process had written before, `sent` what the
      call has put in so far (i is its length). */
  datatype Call = Call(n: int, base: seq<byte>, sent: seq<byte>)

  /** A call of piperead: it started to copy after `from` bytes had been consumed. */
  datatype Copying = Copying(n: int, from: nat, got: seq<byte>)

  /** Where a process is. The steps between taking the lock and letting it go are apart, so
      that kill can come in between. `dirty`: has put a byte in since taking the lock. */
  datatype Pc =
    | Idle
    | WAcquire(w: Call) | WTop(w: Call, dirty: bool) | WSleepy(w: Call) | WAsleep(w: Call) | WWake(w: Call)
    | WRelease(w: Call, ret: int)
    | RAcquire(n: int) | RTop(n: int) | RAsleep(n: int) | RCopy(c: Copying) | RWake(c: Copying)
    | RRelease(c: Copying, ret: int)
    | RKilled
    | CAcquire(writable: bool) | CTop(writable: bool) | CWake(writable: bool) | CRelease

  predicate Holding(pc: Pc) {
    pc.WTop? || pc.WSleepy? || pc.WWake? || pc.WRelease? || pc.RTop? || pc.RCopy? || pc.RWake? || pc.RRelease?
        || pc.RKilled?
    || pc.CTop? || pc.CWake? || pc.CRelease?
  }

  /** `written`, `writers` and `consumed` record every byte put in, who put it, and every
      byte taken out. */
  datatype State = State(
    data: seq<byte>, nread: nat, nwrite: nat, readopen: bool, writeopen: bool,
    holder: Option<nat>, pcs: map<nat, Pc>, killed: set<nat>,
    written: seq<byte>, writers: seq<nat>, consumed: seq<byte>)

  /** ok and ch are what copyin or copyout comes back with. */
  datatype Step =
    | Kill(p: nat)
    | StartWrite(p: nat, n: int)
    | StartRead(p: nat, n: int)
    | StartClose(p: nat, writable: bool)
    | Acquire(p: nat)
    | Turn(p: nat, ok: bool, ch: byte)

  function Inc(x: nat): nat { (x + 1) % U32 }

  predicate Empty(s: State) { s.nread == s.nwrite }

  predicate Full(s: State) { s.nwrite == (s.nread + PIPESIZE) % U32 }

  /** wakeup of everyone asleep on &nread, or on &nwrite. */
  function WakeReader(pc: Pc): Pc { if pc.RAsleep? then RAcquire(pc.n) else pc }

  function WakeWriter(pc: Pc): Pc { if pc.WAsleep? then WAcquire(pc.w) else pc }

  function WakeReaders(pcs: map<nat, Pc>): map<nat, Pc> { map p | p in pcs :: WakeReader(pcs[p]) }

  function WakeWriters(pcs: map<nat, Pc>): map<nat, Pc> { map p | p in pcs :: WakeWriter(pcs[p]) }

  function By(written: seq<byte>, writers: seq<nat>, p: nat): seq<byte>
    requires |written| == |writers|
  {
    if written == [] then [] else
      By(written[..|written| - 1], writers[..|writers| - 1], p) + if writers[|writers| - 1]
          == p then [written[|written| - 1]] else []
  }

  predicate Enabled(s: State, t: Step) {
    && t.p in s.pcs && |s.data| == PIPESIZE && |s.written| == |s.writers|
    && match t
       case Kill(p) => true
       case StartWrite(p, n) => s.pcs[p].Idle?
       case StartRead(p, n) => s.pcs[p].Idle?
       case StartClose(p, writable) => s.pcs[p].Idle?
       case Acquire(p) => s.holder.None? && (s.pcs[p].WAcquire? || s.pcs[p].RAcquire? || s.pcs[p].CAcquire?)
       case Turn(p, ok, ch) => Holding(s.pcs[p])
  }

  function Goto(s: State, p: nat, pc: Pc): State { s.(pcs := s.pcs[p := pc]) }

  function Acquired(pc: Pc): Pc
    requires pc.WAcquire? || pc.RAcquire? || pc.CAcquire?
  {
    match pc
    case WAcquire(w) => WTop(w, false)
    case RAcquire(n) => RTop(n)
    case CAcquire(writable) => CTop(writable)
  }

  function Put(s: State, p: nat, ch: byte): State
    requires |s.data| == PIPESIZE
  {
    s.(data := s.data[s.nwrite % PIPESIZE := ch], nwrite := Inc(s.nwrite), written := s.written + [ch],
        writers := s.writers + [p])
  }

  function Take(s: State): State
    requires |s.data| == PIPESIZE
  {
    s.(nread := Inc(s.nread), consumed := s.consumed + [s.data[s.nread % PIPESIZE]])
  }

  /** What one step under the lock does to the pipe, whom it wakes, where it goes, and
      whether it lets the lock go. */
  datatype Change = Nothing | PutByte | TakeByte | CloseRead | CloseWrite

  datatype Wakes = Nobody | Readers | Writers

  datatype Move = Move(change: Change, wakes: Wakes, pc: Pc, leave: bool)

  /** pipewrite's loop, from its test to the end of one turn. */
  function WriteTop(s: State, p: nat, w: Call, ok: bool, ch: byte): Move {
    if |w.sent| >= w.n then Move(Nothing, Nobody, WWake(w), false)
    else if !s.readopen || p in s.killed then Move(Nothing, Nobody, WRelease(w, -1), false)
    else if Full(s) then Move(Nothing, Readers, WSleepy(w), false)
    else if !ok then Move(Nothing, Nobody, WWake(w), false)
    else Move(PutByte, Nobody, WTop(w.(sent := w.sent + [ch]), true), false)
  }

  function ReadTop(s: State, p: nat, n: int): Move {
    if Empty(s) && s.writeopen then
      if p in s.killed then Move(Nothing, Nobody, RKilled, false) else Move(Nothing, Nobody, RAsleep(n), true)
    else Move(Nothing, Nobody, RCopy(Copying(n, |s.consumed|, [])), false)
  }

  function NextByte(s: State): byte
    requires |s.data| == PIPESIZE
  {
    s.data[s.nread % PIPESIZE]
  }

  /** piperead's copy loop: the byte is taken before copyout is tried. */
  function ReadCopy(s: State, c: Copying, ok: bool): Move
    requires |s.data| == PIPESIZE
  {
    if |c.got| >= c.n || Empty(s) then Move(Nothing, Nobody, RWake(c), false)
    else if !ok then Move(TakeByte, Nobody, RWake(c), false)
    else Move(TakeByte, Nobody, RCopy(c.(got := c.got + [NextByte(s)])), false)
  }

  function MoveOf(s: State, p: nat, pc: Pc, ok: bool, ch: byte): Move
    requires Holding(pc) && |s.data| == PIPESIZE
  {
    match pc
    case WTop(w, _) => WriteTop(s, p, w, ok, ch)
    case WSleepy(w) => Move(Nothing, Nobody, WAsleep(w), true)
    case WWake(w) => Move(Nothing, Readers, WRelease(w, |w.sent|), false)
    case WRelease(_, _) => Move(Nothing, Nobody, Idle, true)
    case RTop(n) => ReadTop(s, p, n)
    case RCopy(c) => ReadCopy(s, c, ok)
    case RWake(c) => Move(Nothing, Writers, RRelease(c, |c.got|), false)
    case RRelease(_, _) => Move(Nothing, Nobody, Idle, true)
    case RKilled => Move(Nothing, Nobody, Idle, true)
    case CTop(writable) => Move(if writable then CloseWrite else CloseRead, Nobody, CWake(writable), false)
    case CWake(writable) => Move(Nothing, if writable then Readers else Writers, CRelease, false)
    case CRelease => Move(Nothing, Nobody, Idle, true)
  }

  function Changed(s: State, change: Change, p: nat, ch: byte): State
    requires |s.data| == PIPESIZE
  {
    match change
    case Nothing => s
    case PutByte => Put(s, p, ch)
    case TakeByte => Take(s)
    case CloseRead => s.(readopen := false)
    case CloseWrite => s.(writeopen := false)
  }

  function Woken(pcs: map<nat, Pc>, wakes: Wakes): map<nat, Pc> {
    match wakes
    case Nobody => pcs
    case Readers => WakeReaders(pcs)
    case Writers => WakeWriters(pcs)
  }

  function Moved(s: State, p: nat, m: Move, ch: byte): State
    requires |s.data| == PIPESIZE
  {
    Changed(s, m.change, p, ch).(pcs := Woken(s.pcs, m.wakes)[p := m.pc], holder := if m.leave then None else s.holder)
  }

  function Apply(s: State, t: Step): State
    requires Enabled(s, t)
  {
    match t
    case Kill(p) => Goto(s, p, WakeReader(WakeWriter(s.pcs[p]))).(killed := s.killed + {p})
    case StartWrite(p, n) => Goto(s, p, WAcquire(Call(n, By(s.written, s.writers, p), [])))
    case StartRead(p, n) => Goto(s, p, RAcquire(n))
    case StartClose(p, writable) => Goto(s, p, CAcquire(writable))
    case Acquire(p) => Goto(s, p, Acquired(s.pcs[p])).(holder := Some(p))
    case Turn(p, ok, ch) => Moved(s, p, MoveOf(s, p, s.pcs[p], ok, ch), ch)
  }

  // ---- invariants ----

  ghost predicate RingInv(data: seq<byte>, nread: nat, nwrite: nat, written: seq<byte>, consumed: seq<byte>) {
    && |data| == PIPESIZE && nread == |consumed| % U32 && nwrite == |written| % U32
    && consumed <= written && |written| - |consumed| <= PIPESIZE
    && (forall k {:trigger written[k]} :: |consumed| <= k < |written| ==> data[k % PIPESIZE] == written[k])
  }

  ghost predicate LockInv(pcs: map<nat, Pc>, holder: Option<nat>) {
    && (holder.Some? ==> holder.value in pcs)
    && (forall p {:trigger pcs[p]} :: p in pcs ==> (Holding(pcs[p]) <==> holder == Some(p)))
  }

  /** A write call has put in exactly `sent`, after what its process wrote earlier. */
  ghost predicate CallOk(pc: Pc, mine: seq<byte>) {
    (pc.WAcquire? || pc.WTop? || pc.WSleepy? || pc.WAsleep? || pc.WWake? || pc.WRelease?) ==>
      && mine == pc.w.base + pc.w.sent && (pc.w.sent == [] || |pc.w.sent| <= pc.w.n)
      && (pc.WRelease? ==> pc.ret == -1 || pc.ret == |pc.w.sent|)
  }

  ghost predicate CallsInv(pcs: map<nat, Pc>, written: seq<byte>, writers: seq<nat>) {
    && |written| == |writers|
    && (forall p {:trigger CallOk(pcs[p], By(written, writers, p))} ::
         p in pcs ==> CallOk(pcs[p], By(written, writers, p)))
  }

  ghost predicate CopyOk(pc: Pc, consumed: seq<byte>) {
    (pc.RCopy? || pc.RWake? || pc.RRelease?) ==>
      && pc.c.from + |pc.c.got| <= |consumed| && consumed[pc.c.from..pc.c.from + |pc.c.got|] == pc.c.got
      && (pc.c.got == [] || |pc.c.got| <= pc.c.n)
      && (pc.RCopy? ==> pc.c.from + |pc.c.got| == |consumed|)
      && (pc.RRelease? ==> pc.ret == |pc.c.got|)
  }

  ghost predicate CopiesInv(pcs: map<nat, Pc>, consumed: seq<byte>) {
    forall p {:trigger CopyOk(pcs[p], consumed)} :: p in pcs ==> CopyOk(pcs[p], consumed)
  }

  ghost predicate DirtyInv(s: State) {
    forall p {:trigger s.pcs[p]} ::
      p in s.pcs && s.pcs[p].WTop? && s.pcs[p].dirty ==> s.readopen && |s.consumed| < |s.written|
  }

  /** The holder of the lock is on its way to wakeup(&nread), or to wakeup(&nwrite). */
  predicate WillWakeReaders(pc: Pc) { (pc.WTop? && pc.dirty) || pc.WWake? || (pc.CWake? && pc.writable) }

  predicate WillWakeWriters(pc: Pc) { pc.RCopy? || pc.RWake? || (pc.CWake? && !pc.writable) }

  ghost predicate ReadersWait(s: State) {
    (forall p {:trigger s.pcs[p]} :: p in s.pcs && s.pcs[p].RAsleep? ==>
      (Empty(s) && s.writeopen)
          || (s.holder.Some? && s.holder.value in s.pcs && WillWakeReaders(s.pcs[s.holder.value])))
  }

  ghost predicate WritersWait(s: State) {
    (forall p {:trigger s.pcs[p]} :: p in s.pcs && s.pcs[p].WAsleep? ==>
      (Full(s) && s.readopen) || (s.holder.Some? && s.holder.value in s.pcs && WillWakeWriters(s.pcs[s.holder.value])))
  }

  /** WSleepy only when there is reason to sleep. */
  ghost predicate SleepyInv(s: State) {
    forall p {:trigger s.pcs[p]} :: p in s.pcs && s.pcs[p].WSleepy? ==> Full(s) && s.readopen
  }

  /** Why a call gives up: the other end is closed, or the process was killed.  A read that
      has copied nothing found a byte or the end of the file. */
  ghost predicate ReturnOk(s: State, p: nat)
    requires p in s.pcs
  {
    var pc := s.pcs[p];
    && (pc.WRelease? && pc.ret == -1 ==> |pc.w.sent| < pc.w.n && (!s.readopen || p in s.killed))
    && (pc.RKilled? ==> p in s.killed && Empty(s) && s.writeopen)
    && (pc.RCopy? && pc.c.got == [] ==> !Empty(s) || !s.writeopen)
  }

  ghost predicate ReturnsInv(s: State) {
    forall p {:trigger ReturnOk(s, p)} :: p in s.pcs ==> ReturnOk(s, p)
  }

  ghost predicate Inv(s: State) {
    && RingInv(s.data, s.nread, s.nwrite, s.written, s.consumed)
    && LockInv(s.pcs, s.holder)
    && CallsInv(s.pcs, s.written, s.writers) && CopiesInv(s.pcs, s.consumed)
    && DirtyInv(s) && SleepyInv(s) && WritersWait(s) && ReturnsInv(s)
  }

  function Boot(procs: set<nat>): State {
    State(seq(PIPESIZE, _ => 0), 0, 0, true, true, None, map p | p in procs :: Idle, {}, [], [], [])
  }

  lemma BootInv(procs: set<nat>)
    ensures Inv(Boot(procs)) && ReadersWait(Boot(procs))
  {
  }

  // ---- the ring ----

  /** The 32-bit counters pick the same slots, and tell empty and full apart, however often
      they have wrapped. */
  lemma Counters(r: nat, w: nat)
    requires r <= w <= r + PIPESIZE
    ensures r % U32 % PIPESIZE == r % PIPESIZE
    ensures r % U32 == w % U32 <==> r == w
    ensures w % U32 == (r % U32 + PIPESIZE) % U32 <==> w == r + PIPESIZE
  {
    SameSlot(r);
    Apart(r, w);
    Apart(w, r + PIPESIZE);
    Apart(r, r + PIPESIZE);
  }

  lemma SameSlot(r: nat)
    ensures r % U32 % PIPESIZE == r % PIPESIZE
  {
    assert r == U32 * (r / U32) + r % U32;
  }

  lemma Apart(r: nat, w: nat)
    requires r <= w <= r + PIPESIZE
    ensures w % U32 == r % U32 + (w - r) || w % U32 == r % U32 + (w - r) - U32
  {
  }

  lemma NextCounter(r: nat)
    ensures Inc(r % U32) == (r + 1) % U32
  {
  }

  lemma SlotsApart(j: nat, k: nat)
    requires j < k < j + PIPESIZE
    ensures j % PIPESIZE != k % PIPESIZE
  {
  }

  lemma PutKeeps(s: State, p: nat, ch: byte)
    requires RingInv(s.data, s.nread, s.nwrite, s.written, s.consumed) && !Full(s)
    ensures var s' := Put(s, p, ch);
            RingInv(s'.data, s'.nread, s'.nwrite, s'.written, s'.consumed) && |s'.consumed| < |s'.written|
  {
    var r, w := |s.consumed|, |s.written|;
    Counters(r, w);
    Counters(w, w);
    NextCounter(w);
    var s' := Put(s, p, ch);
    forall k | r <= k < |s'.written|
      ensures s'.data[k % PIPESIZE] == s'.written[k]
    {
      if k < w { SlotsApart(k, w); assert s'.written[k] == s.written[k]; }
    }
  }

  lemma TakeKeeps(s: State)
    requires RingInv(s.data, s.nread, s.nwrite, s.written, s.consumed) && !Empty(s)
    ensures var s' := Take(s); RingInv(s'.data, s'.nread, s'.nwrite, s'.written, s'.consumed)
  {
    var r, w := |s.consumed|, |s.written|;
    Counters(r, w);
    NextCounter(r);
    assert s.data[r % PIPESIZE] == s.written[r];
  }

  /** The ring, from nread up to nwrite. */
  function Contents(data: seq<byte>, nread: nat, nwrite: nat): seq<byte>
    requires |data| == PIPESIZE
  {
    seq((nwrite - nread) % U32, k requires k >= 0 => data[(nread + k) % U32 % PIPESIZE])
  }

  lemma ContentsAt(r: nat, w: nat, k: nat)
    requires r <= w <= r + PIPESIZE && k < w - r
    ensures (r % U32 + k) % U32 % PIPESIZE == (r + k) % PIPESIZE
  {
  }

  lemma ContentsLength(r: nat, w: nat)
    requires r <= w <= r + PIPESIZE
    ensures (w % U32 - r % U32) % U32 == w - r
  {
  }

  lemma RingIsRest(s: State)
    requires RingInv(s.data, s.nread, s.nwrite, s.written, s.consumed)
    ensures Contents(s.data, s.nread, s.nwrite) == s.written[|s.consumed|..]
  {
    var r, w := |s.consumed|, |s.written|;
    ContentsLength(r, w);
    var c, rest := Contents(s.data, s.nread, s.nwrite), s.written[r..];
    forall k | 0 <= k < w - r
      ensures c[k] == rest[k]
    {
      ContentsAt(r, w, k);
      assert rest[k] == s.written[r + k];
    }
  }

  // ---- one step ----

  lemma ByPush(written: seq<byte>, writers: seq<nat>, p: nat, ch: byte, q: nat)
    requires |written| == |writers|
    ensures By(written + [ch], writers + [p], q) == By(written, writers, q) + if p == q then [ch] else []
  {
    assert (written + [ch])[..|written|] == written && (writers + [p])[..|writers|] == writers;
  }

  lemma WokenAt(pcs: map<nat, Pc>, wakes: Wakes, p: nat, pc: Pc, q: nat)
    requires p in pcs && q in pcs && p != q
    ensures q in Woken(pcs, wakes)[p := pc]
    ensures Woken(pcs, wakes)[p := pc][q] == if wakes == Readers then WakeReader(pcs[q])
              else if wakes == Writers then WakeWriter(pcs[q]) else pcs[q]
  {
  }

  /** What the moves have in common. */
  lemma MoveFacts(s: State, p: nat, m: Move, ok: bool, ch: byte)
    requires Enabled(s, Turn(p, ok, ch)) && m == MoveOf(s, p, s.pcs[p], ok, ch)
    ensures m.leave <==> !Holding(m.pc)
    ensures m.change.PutByte? ==>
              s.pcs[p].WTop? && !Full(s) && s.readopen
              && m.pc == WTop(s.pcs[p].w.(sent := s.pcs[p].w.sent + [ch]), true)
    ensures m.change.TakeByte? ==> s.pcs[p].RCopy? && !Empty(s)
    ensures m.change.CloseRead? ==> m.pc == CWake(false)
    ensures m.change.CloseWrite? ==> m.pc == CWake(true)
  {
  }

  lemma TurnRing(s: State, p: nat, m: Move, ok: bool, ch: byte)
    requires RingInv(s.data, s.nread, s.nwrite, s.written, s.consumed) && Enabled(s, Turn(p, ok, ch))
    requires m == MoveOf(s, p, s.pcs[p], ok, ch)
    ensures var s' := Moved(s, p, m, ch); RingInv(s'.data, s'.nread, s'.nwrite, s'.written, s'.consumed)
  {
    MoveFacts(s, p, m, ok, ch);
    if m.change.PutByte? { PutKeeps(s, p, ch); }
    if m.change.TakeByte? { TakeKeeps(s); }
  }

  lemma TurnLock(s: State, p: nat, m: Move, ok: bool, ch: byte)
    requires LockInv(s.pcs, s.holder) && Enabled(s, Turn(p, ok, ch)) && m == MoveOf(s, p, s.pcs[p], ok, ch)
    ensures LockInv(Moved(s, p, m, ch).pcs, Moved(s, p, m, ch).holder)
  {
    MoveFacts(s, p, m, ok, ch);
    var s' := Moved(s, p, m, ch);
    forall q | q in s'.pcs
      ensures Holding(s'.pcs[q]) <==> s'.holder == Some(q)
    {
      assert Holding(s.pcs[p]) && (Holding(s.pcs[q]) <==> s.holder == Some(q));
      if q != p { WokenAt(s.pcs, m.wakes, p, m.pc, q); }
    }
  }

  lemma TurnCalls(s: State, p: nat, m: Move, ok: bool, ch: byte)
    requires CallsInv(s.pcs, s.written, s.writers) && Enabled(s, Turn(p, ok, ch)) && m == MoveOf(s, p, s.pcs[p], ok, ch)
    ensures var s' := Moved(s, p, m, ch); CallsInv(s'.pcs, s'.written, s'.writers)
  {
    MoveFacts(s, p, m, ok, ch);
    var s' := Moved(s, p, m, ch);
    forall q | q in s'.pcs
      ensures CallOk(s'.pcs[q], By(s'.written, s'.writers, q))
    {
      assert CallOk(s.pcs[q], By(s.written, s.writers, q));
      ByPush(s.written, s.writers, p, ch, q);
      if q == p { TurnOwnCall(s, p, m, ok, ch); } else { WokenAt(s.pcs, m.wakes, p, m.pc, q); }
    }
  }

  lemma TurnOwnCall(s: State, p: nat, m: Move, ok: bool, ch: byte)
    requires Enabled(s, Turn(p, ok, ch)) && m == MoveOf(s, p, s.pcs[p], ok, ch)
    requires CallOk(s.pcs[p], By(s.written, s.writers, p))
    ensures CallOk(m.pc, By(s.written, s.writers, p) + if m.change.PutByte? then [ch] else [])
  {
    var pc := s.pcs[p];
    if pc.WTop? {
      assert pc.w.base + (pc.w.sent + [ch]) == (pc.w.base + pc.w.sent) + [ch];
    }
  }

  lemma CopyGrows(pc: Pc, consumed: seq<byte>, ch: byte)
    requires CopyOk(pc, consumed) && !pc.RCopy?
    ensures CopyOk(pc, consumed + [ch])
  {
    if pc.RWake? || pc.RRelease? {
      var i, j := pc.c.from, pc.c.from + |pc.c.got|;
      assert (consumed + [ch])[i..j] == consumed[i..j];
    }
  }

  lemma CopyTurn(c: Copying, consumed: seq<byte>, ch: byte)
    requires CopyOk(RCopy(c), consumed) && |c.got| < c.n
    ensures CopyOk(RCopy(c.(got := c.got + [ch])), consumed + [ch]) && CopyOk(RWake(c), consumed + [ch])
  {
    var i, j := c.from, c.from + |c.got|;
    assert (consumed + [ch])[i..j + 1] == consumed[i..j] + [ch];
    assert (consumed + [ch])[i..j] == consumed[i..j];
  }

  lemma TurnCopies(s: State, p: nat, m: Move, ok: bool, ch: byte)
    requires LockInv(s.pcs, s.holder) && CopiesInv(s.pcs, s.consumed) && Enabled(s, Turn(p, ok, ch))
    requires m == MoveOf(s, p, s.pcs[p], ok, ch)
    ensures var s' := Moved(s, p, m, ch); CopiesInv(s'.pcs, s'.consumed)
  {
    MoveFacts(s, p, m, ok, ch);
    var s' := Moved(s, p, m, ch);
    forall q | q in s'.pcs
      ensures CopyOk(s'.pcs[q], s'.consumed)
    {
      assert CopyOk(s.pcs[q], s.consumed) && Holding(s.pcs[p]) && (Holding(s.pcs[q]) <==> s.holder == Some(q));
      if q == p {
        TurnOwnCopy(s, p, m, ok, ch);
      } else {
        WokenAt(s.pcs, m.wakes, p, m.pc, q);
        CopyGrows(s.pcs[q], s.consumed, NextByte(s));
      }
    }
  }

  lemma TurnOwnCopy(s: State, p: nat, m: Move, ok: bool, ch: byte)
    requires Enabled(s, Turn(p, ok, ch)) && m == MoveOf(s, p, s.pcs[p], ok, ch) && CopyOk(s.pcs[p], s.consumed)
    ensures CopyOk(m.pc, if m.change.TakeByte? then s.consumed + [NextByte(s)] else s.consumed)
  {
    var pc := s.pcs[p];
    if pc.RCopy? {
      if |pc.c.got| < pc.c.n && !Empty(s) { CopyTurn(pc.c, s.consumed, NextByte(s)); }
    } else {
      OtherTurnCopy(s, p, m, ok, ch);
    }
  }

  /** Who is not copying takes nothing out, and starts to copy with nothing. */
  lemma OtherTurnCopy(s: State, p: nat, m: Move, ok: bool, ch: byte)
    requires Enabled(s, Turn(p, ok, ch)) && m == MoveOf(s, p, s.pcs[p], ok, ch) && CopyOk(s.pcs[p], s.consumed)
    requires !s.pcs[p].RCopy?
    ensures !m.change.TakeByte? && CopyOk(m.pc, s.consumed)
  {
  }

  lemma TurnDirty(s: State, p: nat, m: Move, ok: bool, ch: byte)
    requires Inv(s) && Enabled(s, Turn(p, ok, ch)) && m == MoveOf(s, p, s.pcs[p], ok, ch)
    ensures DirtyInv(Moved(s, p, m, ch)) && SleepyInv(Moved(s, p, m, ch))
  {
    MoveFacts(s, p, m, ok, ch);
    var s' := Moved(s, p, m, ch);
    forall q | q in s'.pcs
      ensures s'.pcs[q].WTop? && s'.pcs[q].dirty ==> s'.readopen && |s'.consumed| < |s'.written|
      ensures s'.pcs[q].WSleepy? ==> Full(s') && s'.readopen
    {
      assert Holding(s.pcs[p]) && (Holding(s.pcs[q]) <==> s.holder == Some(q));
      if q != p { WokenAt(s.pcs, m.wakes, p, m.pc, q); }
    }
  }

  lemma TurnReturns(s: State, p: nat, m: Move, ok: bool, ch: byte)
    requires LockInv(s.pcs, s.holder) && ReturnsInv(s) && Enabled(s, Turn(p, ok, ch))
    requires m == MoveOf(s, p, s.pcs[p], ok, ch)
    ensures ReturnsInv(Moved(s, p, m, ch))
  {
    var s' := Moved(s, p, m, ch);
    forall q | q in s'.pcs
      ensures ReturnOk(s', q)
    {
      assert ReturnOk(s, q) && Holding(s.pcs[p]) && (Holding(s.pcs[q]) <==> s.holder == Some(q));
      if q != p { WokenAt(s.pcs, m.wakes, p, m.pc, q); }
    }
  }

  lemma OtherStepReturns(s: State, t: Step)
    requires ReturnsInv(s) && Enabled(s, t) && !t.Turn?
    ensures ReturnsInv(Apply(s, t))
  {
    forall q | q in Apply(s, t).pcs
      ensures ReturnOk(Apply(s, t), q)
    {
      assert ReturnOk(s, q);
    }
  }

  /** The holder's move, as the writers that are asleep see it. */
  lemma MoveForWriters(s: State, p: nat, m: Move, ok: bool, ch: byte)
    requires Enabled(s, Turn(p, ok, ch)) && m == MoveOf(s, p, s.pcs[p], ok, ch)
    ensures m.wakes != Writers && m.change != PutByte ==> WillWakeWriters(s.pcs[p]) ==> WillWakeWriters(m.pc)
    ensures m.change == TakeByte || m.change == CloseRead ==> WillWakeWriters(m.pc)
    ensures m.change == PutByte ==> !Full(s) && !WillWakeWriters(s.pcs[p])
    ensures m.pc.WAsleep? ==> m.change == Nothing && m.wakes == Nobody && s.pcs[p].WSleepy?
    ensures m.leave ==> !WillWakeWriters(s.pcs[p]) && m.change == Nothing
  {
  }

  lemma TurnWritersWait(s: State, p: nat, m: Move, ok: bool, ch: byte)
    requires LockInv(s.pcs, s.holder) && SleepyInv(s) && WritersWait(s) && Enabled(s, Turn(p, ok, ch))
    requires m == MoveOf(s, p, s.pcs[p], ok, ch)
    ensures WritersWait(Moved(s, p, m, ch))
  {
    MoveForWriters(s, p, m, ok, ch);
    assert Holding(s.pcs[p]) && s.holder == Some(p);
    var s' := Moved(s, p, m, ch);
    forall q | q in s'.pcs && s'.pcs[q].WAsleep?
      ensures (Full(s') && s'.readopen)
                || (s'.holder.Some? && s'.holder.value in s'.pcs && WillWakeWriters(s'.pcs[s'.holder.value]))
    {
      if q != p {
        WokenAt(s.pcs, m.wakes, p, m.pc, q);
        assert s.pcs[q].WAsleep?;
      }
    }
  }

  /** The one step that leaves readers asleep beside a byte they could read: a writer that
      has put something in since it took the lock sees that it has been killed. */
  ghost predicate LeavesAsleep(s: State, t: Step) {
    && t.Turn? && t.p in s.pcs && s.pcs[t.p].WTop? && s.pcs[t.p].dirty
    && |s.pcs[t.p].w.sent| < s.pcs[t.p].w.n && t.p in s.killed
    && exists q :: q in s.pcs && s.pcs[q].RAsleep?
  }

  /** The holder's move, as the readers that are asleep see it. */
  lemma MoveForReaders(s: State, p: nat, m: Move, ok: bool, ch: byte)
    requires Enabled(s, Turn(p, ok, ch)) && m == MoveOf(s, p, s.pcs[p], ok, ch)
    requires (s.pcs[p].WTop? && s.pcs[p].dirty ==> s.readopen && (|s.pcs[p].w.sent| >= s.pcs[p].w.n || p !in s.killed))
    ensures m.wakes != Readers ==> WillWakeReaders(s.pcs[p]) ==> WillWakeReaders(m.pc)
    ensures m.change == PutByte || m.change == CloseWrite ==> WillWakeReaders(m.pc)
    ensures m.change == TakeByte ==> !Empty(s) && !WillWakeReaders(s.pcs[p])
    ensures m.pc.RAsleep? ==> m.change == Nothing && m.wakes == Nobody && Empty(s) && s.writeopen
    ensures m.leave ==> !WillWakeReaders(s.pcs[p]) && m.change == Nothing
  {
  }

  lemma TurnReadersWait(s: State, p: nat, m: Move, ok: bool, ch: byte)
    requires LockInv(s.pcs, s.holder) && DirtyInv(s) && ReadersWait(s) && Enabled(s, Turn(p, ok, ch))
    requires m == MoveOf(s, p, s.pcs[p], ok, ch) && !LeavesAsleep(s, Turn(p, ok, ch))
    ensures ReadersWait(Moved(s, p, m, ch))
  {
    assert Holding(s.pcs[p]) && s.holder == Some(p);
    var s' := Moved(s, p, m, ch);
    forall q | q in s'.pcs && s'.pcs[q].RAsleep?
      ensures (Empty(s') && s'.writeopen)
                || (s'.holder.Some? && s'.holder.value in s'.pcs && WillWakeReaders(s'.pcs[s'.holder.value]))
    {
      if q != p {
        WokenAt(s.pcs, m.wakes, p, m.pc, q);
        assert s.pcs[q].RAsleep?;
        MoveForReaders(s, p, m, ok, ch);
      }
    }
  }

  /** And that step does break it, for good until the next wakeup. */
  lemma LeftAsleep(s: State, t: Step)
    requires Inv(s) && Enabled(s, t) && LeavesAsleep(s, t)
    ensures !ReadersWait(Apply(s, t)) && !Empty(s)
  {
    assert s.readopen && |s.consumed| < |s.written|;
    Counters(|s.consumed|, |s.written|);
    assert Holding(s.pcs[t.p]);
    var q :| q in s.pcs && s.pcs[q].RAsleep?;
    var s' := Apply(s, t);
    assert s'.pcs[q].RAsleep?;
  }

  lemma OtherStepKeeps(s: State, t: Step)
    requires Inv(s) && Enabled(s, t) && !t.Turn?
    ensures Inv(Apply(s, t)) && (ReadersWait(s) ==> ReadersWait(Apply(s, t)))
  {
    OtherStepCalls(s, t);
    OtherStepReturns(s, t);
    OtherStepLock(s, t);
    OtherStepDirty(s, t);
    OtherStepWaits(s, t);
  }

  lemma OtherStepLock(s: State, t: Step)
    requires LockInv(s.pcs, s.holder) && Enabled(s, t) && !t.Turn?
    ensures LockInv(Apply(s, t).pcs, Apply(s, t).holder)
  {
    var s' := Apply(s, t);
    forall q | q in s'.pcs
      ensures Holding(s'.pcs[q]) <==> s'.holder == Some(q)
    {
      assert q in s.pcs && (Holding(s.pcs[q]) <==> s.holder == Some(q));
    }
  }

  lemma OtherStepDirty(s: State, t: Step)
    requires DirtyInv(s) && SleepyInv(s) && Enabled(s, t) && !t.Turn?
    ensures DirtyInv(Apply(s, t)) && SleepyInv(Apply(s, t))
  {
    var s' := Apply(s, t);
    forall q | q in s'.pcs
      ensures s'.pcs[q].WTop? && s'.pcs[q].dirty ==> s.pcs[q].WTop? && s.pcs[q].dirty
      ensures s'.pcs[q].WSleepy? ==> s.pcs[q].WSleepy?
    {
    }
  }

  lemma OtherStepCalls(s: State, t: Step)
    requires Inv(s) && Enabled(s, t) && !t.Turn?
    ensures var s' := Apply(s, t); CallsInv(s'.pcs, s'.written, s'.writers) && CopiesInv(s'.pcs, s'.consumed)
  {
    var s' := Apply(s, t);
    forall q | q in s'.pcs
      ensures CallOk(s'.pcs[q], By(s'.written, s'.writers, q)) && CopyOk(s'.pcs[q], s'.consumed)
    {
      assert CallOk(s.pcs[q], By(s.written, s.writers, q)) && CopyOk(s.pcs[q], s.consumed);
    }
  }

  lemma OtherStepWaits(s: State, t: Step)
    requires Inv(s) && Enabled(s, t) && !t.Turn?
    ensures WritersWait(Apply(s, t)) && (ReadersWait(s) ==> ReadersWait(Apply(s, t)))
  {
    var s' := Apply(s, t);
    forall q | q in s'.pcs
      ensures s'.pcs[q].WAsleep? ==> s.pcs[q].WAsleep?
      ensures s'.pcs[q].RAsleep? ==> s.pcs[q].RAsleep?
    {
    }
  }

  lemma NextKeepsInv(s: State, t: Step)
    requires Inv(s) && Enabled(s, t)
    ensures Inv(Apply(s, t))
  {
    if t.Turn? {
      var m := MoveOf(s, t.p, s.pcs[t.p], t.ok, t.ch);
      TurnRing(s, t.p, m, t.ok, t.ch);
      TurnLock(s, t.p, m, t.ok, t.ch);
      TurnCalls(s, t.p, m, t.ok, t.ch);
      TurnCopies(s, t.p, m, t.ok, t.ch);
      TurnDirty(s, t.p, m, t.ok, t.ch);
      TurnWritersWait(s, t.p, m, t.ok, t.ch);
      TurnReturns(s, t.p, m, t.ok, t.ch);
    } else {
      OtherStepKeeps(s, t);
    }
  }

  /** Readers sleep for cause after a step exactly when it is not the step named above. */
  lemma ReadersWaitIff(s: State, t: Step)
    requires Inv(s) && ReadersWait(s) && Enabled(s, t)
    ensures ReadersWait(Apply(s, t)) <==> !LeavesAsleep(s, t)
  {
    if LeavesAsleep(s, t) {
      LeftAsleep(s, t);
    } else if t.Turn? {
      TurnReadersWait(s, t.p, MoveOf(s, t.p, s.pcs[t.p], t.ok, t.ch), t.ok, t.ch);
    } else {
      OtherStepKeeps(s, t);
    }
  }

  // ---- whole runs ----

  ghost predicate Legal(s: State, run: seq<Step>)
    decreases |run|
  {
    run == [] || (Enabled(s, run[0]) && Legal(Apply(s, run[0]), run[1..]))
  }

  ghost function After(s: State, run: seq<Step>): State
    requires Legal(s, run)
    decreases |run|
  {
    if run == [] then s else After(Apply(s, run[0]), run[1..])
  }

  lemma {:induction false} RunKeepsInv(s: State, run: seq<Step>)
    requires Inv(s) && Legal(s, run)
    ensures Inv(After(s, run))
    decreases |run|
  {
    if run != [] {
      NextKeepsInv(s, run[0]);
      RunKeepsInv(Apply(s, run[0]), run[1..]);
    }
  }

  /** No step of the run is a killed writer leaving sleeping readers behind. */
  ghost predicate Considerate(s: State, run: seq<Step>)
    requires Legal(s, run)
    decreases |run|
  {
    run == [] || (!LeavesAsleep(s, run[0]) && Considerate(Apply(s, run[0]), run[1..]))
  }

  lemma {:induction false} RunKeepsWaits(s: State, run: seq<Step>)
    requires Inv(s) && ReadersWait(s) && Legal(s, run) && Considerate(s, run)
    ensures ReadersWait(After(s, run))
    decreases |run|
  {
    if run != [] {
      NextKeepsInv(s, run[0]);
      ReadersWaitIff(s, run[0]);
      RunKeepsWaits(Apply(s, run[0]), run[1..]);
    }
  }

  /** A run without kill is considerate. */
  lemma {:induction false} NoKillConsiderate(s: State, run: seq<Step>)
    requires Legal(s, run) && s.killed == {} && forall t :: t in run ==> !t.Kill?
    ensures Considerate(s, run)
    decreases |run|
  {
    if run != [] {
      assert run[0] in run && !run[0].Kill?;
      NoKillConsiderate(Apply(s, run[0]), run[1..]);
    }
  }

  /** First in, first out: what has been taken out is a prefix of what was put in, and the
      ring holds the rest, whatever the counters have wrapped to. */
  lemma BytesInOrder(procs: set<nat>, run: seq<Step>)
    requires Legal(Boot(procs), run)
    ensures var s := After(Boot(procs), run);
      |s.data| == 512 && s.consumed <= s.written && |s.written| <= |s.consumed| + 512
      && s.written == s.consumed + Contents(s.data, s.nread, s.nwrite)
  {
    BootInv(procs);
    RunKeepsInv(Boot(procs), run);
    var s := After(Boot(procs), run);
    RingIsRest(s);
    assert s.written == s.written[..|s.consumed|] + s.written[|s.consumed|..];
  }

  /** What a read call hands out is consecutive bytes of the stream, as many as it says; it
      gives up only in a process that was killed, with the pipe empty. */
  lemma ReadIsConsecutive(procs: set<nat>, run: seq<Step>, p: nat)
    requires Legal(Boot(procs), run)
    ensures var s := After(Boot(procs), run);
      p in s.pcs && s.pcs[p].RRelease? ==>
        var c := s.pcs[p].c;
        && s.pcs[p].ret == |c.got| && c.from + |c.got| <= |s.written| && c.got == s.written[c.from..c.from + |c.got|]
        && (c.got == [] || |c.got| <= c.n)
    ensures var s := After(Boot(procs), run);
      p in s.pcs && s.pcs[p].RKilled? ==> p in s.killed && s.written == s.consumed
  {
    BootInv(procs);
    RunKeepsInv(Boot(procs), run);
    var s := After(Boot(procs), run);
    if p in s.pcs && s.pcs[p].RKilled? {
      assert ReturnOk(s, p);
      Counters(|s.consumed|, |s.written|);
    }
    if p in s.pcs && s.pcs[p].RRelease? {
      assert CopyOk(s.pcs[p], s.consumed);
      var i, j := s.pcs[p].c.from, s.pcs[p].c.from + |s.pcs[p].c.got|;
      assert s.consumed[i..j] == s.written[i..j];
    }
  }

  /** What a write call put in is, in order, exactly the bytes it copied in.  It says how
      many, or -1, and -1 only when the pipe has no reader or the process was killed. */
  lemma WriteIsWhole(procs: set<nat>, run: seq<Step>, p: nat)
    requires Legal(Boot(procs), run)
    ensures var s := After(Boot(procs), run);
      |s.written| == |s.writers|
      && (p in s.pcs && s.pcs[p].WRelease? ==>
        var w := s.pcs[p].w;
        && By(s.written, s.writers, p) == w.base + w.sent && (w.sent == [] || |w.sent| <= w.n)
        && (s.pcs[p].ret == |w.sent| || s.pcs[p].ret == -1)
        && (s.pcs[p].ret == -1 ==> |w.sent| < w.n && (!s.readopen || p in s.killed)))
  {
    BootInv(procs);
    RunKeepsInv(Boot(procs), run);
    var s := After(Boot(procs), run);
    if p in s.pcs && s.pcs[p].WRelease? {
      assert CallOk(s.pcs[p], By(s.written, s.writers, p)) && ReturnOk(s, p);
    }
  }

  lemma {:induction false} LastStep(s: State, run: seq<Step>) returns (u: State, t: Step)
    requires Legal(s, run) && run != []
    ensures Legal(s, run[..|run| - 1]) && u == After(s, run[..|run| - 1]) && t == run[|run| - 1]
    ensures Enabled(u, t) && After(s, run) == Apply(u, t)
    decreases |run|
  {
    if |run| == 1 {
      u, t := s, run[0];
      assert run[..0] == [];
    } else {
      u, t := LastStep(Apply(s, run[0]), run[1..]);
      assert run[1..][..|run[1..]| - 1] == run[..|run| - 1][1..];
    }
  }

  /** p is done with the write call w, which ends with the number of bytes it put in. */
  predicate Wrote(s: State, p: nat, w: Call) {
    && p in s.pcs && (s.pcs[p].WWake? || s.pcs[p].WRelease?) && s.pcs[p].w == w
    && (s.pcs[p].WRelease? ==> s.pcs[p].ret >= 0)
  }

  /** Step t in state u is the copyin that makes p's write w stop. */
  ghost predicate CopyinFails(u: State, t: Step, p: nat, w: Call) {
    && t.Turn? && t.p == p && !t.ok
    && p in u.pcs && u.pcs[p].WTop? && u.pcs[p].w == w && !Full(u) && u.readopen && p !in u.killed
  }

  lemma WroteStep(u: State, t: Step, p: nat, w: Call)
    requires Enabled(u, t) && Wrote(Apply(u, t), p, w) && |w.sent| < w.n
    ensures Wrote(u, p, w) || CopyinFails(u, t, p, w)
  {
    if t.Turn? && t.p != p { WokenAt(u.pcs, MoveOf(u, t.p, u.pcs[t.p], t.ok, t.ch).wakes, t.p, Idle, p); }
  }

  /** A write call that returns fewer bytes than it was asked for, and not -1, met a copyin
      that failed at the very next byte. */
  lemma {:induction false} ShortWrite(s: State, run: seq<Step>, p: nat, w: Call) returns (i: nat)
    requires Legal(s, run) && !Wrote(s, p, w) && Wrote(After(s, run), p, w) && |w.sent| < w.n
    ensures i < |run| && Legal(s, run[..i]) && CopyinFails(After(s, run[..i]), run[i], p, w)
    decreases |run|
  {
    var u, t := LastStep(s, run);
    var before := run[..|run| - 1];
    WroteStep(u, t, p, w);
    i := |run| - 1;
    if Wrote(u, p, w) {
      i := ShortWrite(s, before, p, w);
      assert before[..i] == run[..i];
    }
  }

  /** p is done with copying in the read call c, which ends with the number of bytes. */
  predicate HasRead(s: State, p: nat, c: Copying) {
    p in s.pcs && (s.pcs[p].RWake? || s.pcs[p].RRelease?) && s.pcs[p].c == c
  }

  /** Step t in state u is where p's read c stops: the pipe is empty, and if nothing was read
      has no writer either, or the copyout fails. */
  ghost predicate ReadStops(u: State, t: Step, p: nat, c: Copying) {
    && t.Turn? && t.p == p && p in u.pcs && u.pcs[p] == RCopy(c)
    && (if Empty(u) then c.got == [] ==> !u.writeopen else !t.ok)
  }

  lemma ReadStep(u: State, t: Step, p: nat, c: Copying)
    requires ReturnsInv(u) && Enabled(u, t) && HasRead(Apply(u, t), p, c) && |c.got| < c.n
    ensures HasRead(u, p, c) || ReadStops(u, t, p, c)
  {
    assert p in u.pcs && ReturnOk(u, p);
    if t.Turn? && t.p != p { WokenAt(u.pcs, MoveOf(u, t.p, u.pcs[t.p], t.ok, t.ch).wakes, t.p, Idle, p); }
  }

  /** A read call that returns fewer bytes than it was asked for came to an empty pipe or met
      a copyout that failed; the pipe had no writer left if it returns none. */
  lemma {:induction false} ShortRead(s: State, run: seq<Step>, p: nat, c: Copying) returns (i: nat)
    requires Inv(s) && Legal(s, run) && !HasRead(s, p, c) && HasRead(After(s, run), p, c) && |c.got| < c.n
    ensures i < |run| && Legal(s, run[..i]) && ReadStops(After(s, run[..i]), run[i], p, c)
    decreases |run|
  {
    var u, t := LastStep(s, run);
    var before := run[..|run| - 1];
    RunKeepsInv(s, before);
    ReadStep(u, t, p, c);
    i := |run| - 1;
    if HasRead(u, p, c) {
      i := ShortRead(s, before, p, c);
      assert before[..i] == run[..i];
    }
  }

  /** p sleeps, or has told the readers and is about to. */
  predicate Sleeps(s: State, p: nat) {
    p in s.pcs && (s.pcs[p].RAsleep? || s.pcs[p].WSleepy? || s.pcs[p].WAsleep?)
  }

  /** Step t in state u is where p decides to sleep: for want of a byte or of room, with the
      other end open, and p has not been killed. */
  ghost predicate GoesToSleep(u: State, t: Step, p: nat) {
    && t.Turn? && t.p == p && p in u.pcs && p !in u.killed
    && ((u.pcs[p].RTop? && Empty(u) && u.writeopen) || (u.pcs[p].WTop? && Full(u) && u.readopen))
  }

  lemma SleepStep(u: State, t: Step, p: nat)
    requires Enabled(u, t) && Sleeps(Apply(u, t), p)
    ensures Sleeps(u, p) || GoesToSleep(u, t, p)
  {
    if t.Turn? && t.p != p { WokenAt(u.pcs, MoveOf(u, t.p, u.pcs[t.p], t.ok, t.ch).wakes, t.p, Idle, p); }
  }

  /** Nobody goes to sleep after it was killed. */
  lemma {:induction false} SleptAlive(s: State, run: seq<Step>, p: nat) returns (i: nat)
    requires Legal(s, run) && !Sleeps(s, p) && Sleeps(After(s, run), p)
    ensures i < |run| && Legal(s, run[..i]) && GoesToSleep(After(s, run[..i]), run[i], p)
    decreases |run|
  {
    var u, t := LastStep(s, run);
    var before := run[..|run| - 1];
    SleepStep(u, t, p);
    i := |run| - 1;
    if Sleeps(u, p) {
      i := SleptAlive(s, before, p);
      assert before[..i] == run[..i];
    }
  }

  /** When the lock is free, whoever is asleep has reason to be. For writers that holds in
      every run, for readers in every considerate one. */
  lemma SleepersHaveCause(procs: set<nat>, run: seq<Step>, p: nat)
    requires Legal(Boot(procs), run)
    ensures var s := After(Boot(procs), run);
      s.holder.None? && p in s.pcs && s.pcs[p].WAsleep? ==> |s.written| == |s.consumed| + 512 && s.readopen
    ensures var s := After(Boot(procs), run);
      Considerate(Boot(procs), run) && s.holder.None? && p in s.pcs && s.pcs[p].RAsleep? ==>
          s.written == s.consumed && s.writeopen
  {
    BootInv(procs);
    RunKeepsInv(Boot(procs), run);
    if Considerate(Boot(procs), run) { RunKeepsWaits(Boot(procs), run); }
    var s := After(Boot(procs), run);
    Counters(|s.consumed|, |s.written|);
    assert p in s.pcs && s.pcs[p].WAsleep? && s.holder.None? ==> Full(s);
  }

  /** So in a run without kill nobody sleeps through what they wait for. */
  lemma NoKillNoOversleep(procs: set<nat>, run: seq<Step>, p: nat)
    requires Legal(Boot(procs), run) && forall t :: t in run ==> !t.Kill?
    ensures var s := After(Boot(procs), run);
      s.holder.None? && p in s.pcs && s.pcs[p].RAsleep? ==> s.written == s.consumed && s.writeopen
  {
    NoKillConsiderate(Boot(procs), run);
    SleepersHaveCause(procs, run, p);
  }

  /** Nobody is stuck: whoever waits for the lock can take it when it is free, and when it is
      not, the one that holds it can go on. */
  lemma LockIsPassedOn(procs: set<nat>, run: seq<Step>, p: nat, n: int, ok: bool, ch: byte)
    requires Legal(Boot(procs), run) && p in After(Boot(procs), run).pcs
    ensures var s := After(Boot(procs), run);
      && (s.holder.Some? ==> Enabled(s, Turn(s.holder.value, ok, ch)))
      && (s.holder.None? && (s.pcs[p].WAcquire? || s.pcs[p].RAcquire? || s.pcs[p].CAcquire?) ==> Enabled(s, Acquire(p)))
      && (s.pcs[p].Idle? ==>
            Enabled(s, StartWrite(p, n)) && Enabled(s, StartRead(p, n)) && Enabled(s, StartClose(p, ok)))
  {
    BootInv(procs);
    RunKeepsInv(Boot(procs), run);
  }

  /** The run leads from s to s'. */
  ghost predicate Leads(s: State, run: seq<Step>, s': State) {
    Legal(s, run) && After(s, run) == s'
  }

  lemma ThreeSteps(s: State, a: Step, b: Step, c: Step)
    requires Enabled(s, a) && Enabled(Apply(s, a), b) && Enabled(Apply(Apply(s, a), b), c)
    ensures Leads(s, [a, b, c], Apply(Apply(Apply(s, a), b), c))
  {
    var s3 := Apply(Apply(Apply(s, a), b), c);
    assert Leads(s3, [], s3);
    assert [c][1..] == [] && [b, c][1..] == [c] && [a, b, c][1..] == [b, c];
    assert Leads(Apply(Apply(s, a), b), [c], s3);
    assert Leads(Apply(s, a), [b, c], s3);
  }

  lemma {:induction false} Chain(s: State, r1: seq<Step>, s1: State, r2: seq<Step>, s2: State)
    requires Leads(s, r1, s1) && Leads(s1, r2, s2)
    ensures Leads(s, r1 + r2, s2)
    decreases |r1|
  {
    if r1 == [] {
      assert r1 + r2 == r2;
    } else {
      assert (r1 + r2)[1..] == r1[1..] + r2;
      Chain(Apply(s, r1[0]), r1[1..], s1, r2, s2);
    }
  }

  ghost predicate ReaderSleeps(s: State) {
    && s.pcs == map[0 := RAsleep(1), 1 := Idle] && s.holder.None? && s.readopen && s.killed == {}
    && |s.data| == PIPESIZE
    && s.nread == 0 && s.nwrite == 0 && s.written == [] && s.writers == [] && s.consumed == []
  }

  ghost predicate ByteIn(s: State, ch: byte) {
    && s.pcs == map[0 := RAsleep(1), 1 := WTop(Call(2, [], [ch]), true)] && s.holder == Some(1) && s.readopen
    && |s.data| == PIPESIZE
    && s.written == [ch] && s.writers == [1] && s.consumed == []
  }

  ghost predicate LeftBehind(s: State, ch: byte) {
    s.holder.None? && 0 in s.pcs && s.pcs[0].RAsleep? && s.written == [ch] && s.consumed == []
  }

  lemma FallsAsleep(ch: byte) returns (s: State)
    ensures ReaderSleeps(s) && Leads(Boot({0, 1}), [StartRead(0, 1), Acquire(0), Turn(0, true, ch)], s)
  {
    var s0 := Boot({0, 1});
    ThreeSteps(s0, StartRead(0, 1), Acquire(0), Turn(0, true, ch));
    s := Apply(Apply(Apply(s0, StartRead(0, 1)), Acquire(0)), Turn(0, true, ch));
  }

  lemma PutsOne(s: State, ch: byte) returns (s': State)
    requires ReaderSleeps(s)
    ensures ByteIn(s', ch) && Leads(s, [StartWrite(1, 2), Acquire(1), Turn(1, true, ch)], s')
  {
    ThreeSteps(s, StartWrite(1, 2), Acquire(1), Turn(1, true, ch));
    s' := Apply(Apply(Apply(s, StartWrite(1, 2)), Acquire(1)), Turn(1, true, ch));
    assert By(s.written, s.writers, 1) == [] && [] + [ch] == [ch] && [] + [1] == [1];
    assert s'.pcs[1] == WTop(Call(2, [], [ch]), true);
  }

  lemma IsKilled(s: State, ch: byte) returns (s': State)
    requires ByteIn(s, ch)
    ensures LeftBehind(s', ch) && Leads(s, [Kill(1), Turn(1, true, ch), Turn(1, true, ch)], s')
  {
    ThreeSteps(s, Kill(1), Turn(1, true, ch), Turn(1, true, ch));
    s' := Apply(Apply(Apply(s, Kill(1)), Turn(1, true, ch)), Turn(1, true, ch));
  }

  /** With kill it can happen: a reader is left asleep, the lock free, a byte in the pipe. */
  lemma KilledWriterLeavesReader(ch: byte) returns (run: seq<Step>)
    ensures Legal(Boot({0, 1}), run) && LeftBehind(After(Boot({0, 1}), run), ch)
  {
    var s3 := FallsAsleep(ch);
    var s6 := PutsOne(s3, ch);
    var s9 := IsKilled(s6, ch);
    var r1, r2, r3 := [StartRead(0, 1), Acquire(0), Turn(0, true, ch)],
        [StartWrite(1, 2), Acquire(1), Turn(1, true, ch)], [Kill(1), Turn(1, true, ch), Turn(1, true, ch)];
    Chain(s3, r2, s6, r3, s9);
    Chain(Boot({0, 1}), r1, s3, r2 + r3, s9);
    run := r1 + (r2 + r3);
  }
}
