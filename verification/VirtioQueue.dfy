/** The queue that a virtio driver shares with its device: descriptors, the avail ring, the
    used ring, and the requests that are somewhere on the way between them
    (sections 2.6 and 5.2.6 of the Virtual I/O Device specification, version 1.1). */
module VirtioQueue {
  import opened Prelude

  const NUM: nat := 8
  const U16: nat := 0x1_0000

  function Inc(x: nat): nat { (x + 1) % U16 }

  /** The ring slot k places after a 16-bit index. */
  function Slot(start: nat, k: nat): (i: nat)
    ensures i < NUM
  {
    (start + k) % U16 % NUM
  }

  lemma SlotsDiffer(start: nat, j: nat, k: nat)
    requires j < k < j + NUM
    ensures Slot(start, j) != Slot(start, k)
  {
  }

  lemma SlotNext(start: nat, k: nat)
    ensures Slot(Inc(start), k) == Slot(start, k + 1)
  {
  }

  /** The entries of a ring from index `start` on are q, and the next index is idx. */
  ghost predicate RingHolds(ring: seq<nat>, start: nat, idx: nat, q: seq<nat>) {
    && |ring| == NUM && start < U16 && idx == (start + |q|) % U16
    && (forall k {:trigger q[k]} :: 0 <= k < |q| ==> ring[Slot(start, k)] == q[k])
  }

  /** Adding an entry overwrites none that is still to be read. */
  lemma RingPush(ring: seq<nat>, start: nat, idx: nat, q: seq<nat>, h: nat)
    requires RingHolds(ring, start, idx, q) && |q| < NUM
    ensures idx % NUM == Slot(start, |q|) && RingHolds(ring[idx % NUM := h], start, Inc(idx), q + [h])
  {
    var ring', q' := ring[idx % NUM := h], q + [h];
    forall k | 0 <= k < |q'|
      ensures ring'[Slot(start, k)] == q'[k]
    {
      if k < |q| { SlotsDiffer(start, k, |q|); assert q'[k] == q[k]; }
    }
  }

  lemma RingPop(ring: seq<nat>, start: nat, idx: nat, q: seq<nat>)
    requires RingHolds(ring, start, idx, q) && q != [] && |q| < NUM
    ensures ring[start % NUM] == q[0] && RingHolds(ring, Inc(start), idx, q[1..]) && start != idx
  {
    assert q[0] == ring[Slot(start, 0)];
    forall k | 0 <= k < |q[1..]|
      ensures ring[Slot(Inc(start), k)] == q[1..][k]
    {
      SlotNext(start, k);
      assert q[k + 1] == q[1..][k];
    }
  }

  lemma RingEmpty(ring: seq<nat>, start: nat, idx: nat, q: seq<nat>)
    requires RingHolds(ring, start, idx, q) && |q| < NUM
    ensures start == idx <==> q == []
  {
  }

  // ---- descriptors ----

  datatype Desc = Desc(addr: nat, len: nat, deviceWrites: bool, hasNext: bool, next: nat)

  const CLEARED: Desc := Desc(0, 0, false, false, 0)

  /** The request that a descriptor belongs to, by the head of its chain. */
  type Owners = seq<Option<nat>>

  ghost predicate ChainOk(desc: seq<Desc>, owner: Owners, h: nat, c: seq<nat>)
    requires |desc| == NUM && |owner| == NUM
  {
    && |c| == 3 && c[0] == h && c[0] < NUM && c[1] < NUM && c[2] < NUM && c[0] != c[1] && c[0] != c[2] && c[1] != c[2]
    && owner[c[0]] == Some(h) && owner[c[1]] == Some(h) && owner[c[2]] == Some(h)
    && desc[c[0]].hasNext && desc[c[0]].next == c[1] && desc[c[1]].hasNext && desc[c[1]].next == c[2]
    && !desc[c[2]].hasNext
  }

  /** Free descriptors and the chains of requests share out all descriptors, but for the
      `loose` ones that are being put together or taken apart. */
  ghost predicate SharedOut(desc: seq<Desc>, free: seq<bool>, owner: Owners, chains: map<nat, seq<nat>>,
                            loose: set<nat>)
  {
    && |desc| == NUM && |free| == NUM && |owner| == NUM
    && (forall i {:trigger free[i]} :: 0 <= i < NUM ==> (free[i] <==> owner[i].None? && i !in loose))
    && (forall i {:trigger i in loose} :: i in loose ==> i < NUM && owner[i].None?)
    && (forall i {:trigger owner[i]} ::
         0 <= i < NUM && owner[i].Some? ==> owner[i].value in chains && i in chains[owner[i].value])
    && (forall h {:trigger ChainOk(desc, owner, h, chains[h])} :: h in chains ==> ChainOk(desc, owner, h, chains[h]))
  }

  function CountFree(free: seq<bool>): nat {
    if free == [] then 0 else CountFree(free[..|free| - 1]) + (if free[|free| - 1] then 1 else 0)
  }

  lemma {:induction false} CountSet(free: seq<bool>, i: nat, v: bool)
    requires i < |free|
    ensures CountFree(free[i := v]) == CountFree(free) - (if free[i] then 1 else 0) + (if v then 1 else 0)
  {
    var last := |free| - 1;
    if i < last {
      assert free[i := v][..last] == free[..last][i := v];
      CountSet(free[..last], i, v);
    } else {
      assert free[i := v][..last] == free[..last];
    }
  }

  lemma {:induction false} CountAtMost(free: seq<bool>)
    ensures CountFree(free) <= |free|
  {
    if free != [] { CountAtMost(free[..|free| - 1]); }
  }

  // ---- requests ----

  datatype Phase = Queued | Taken | Used | Done

  predicate Differ(a: nat, b: nat) { a != b }

  ghost predicate Distinct(q: seq<nat>) {
    forall j, k {:trigger Differ(q[j], q[k])} :: 0 <= j < k < |q| ==> Differ(q[j], q[k])
  }

  /** q lists, once each, the requests in phase p. */
  ghost predicate Listed(phase: map<nat, Phase>, q: seq<nat>, p: Phase) {
    && Distinct(q)
    && (forall h {:trigger h in q} :: h in q <==> h in phase && phase[h] == p)
  }

  lemma {:induction false} DistinctFits(q: seq<nat>, s: set<nat>)
    requires Distinct(q) && forall h :: h in q ==> h in s
    ensures |q| <= |s|
    decreases |q|
  {
    if q != [] {
      var x, front := q[|q| - 1], q[..|q| - 1];
      forall j, k | 0 <= j < k < |front|
        ensures Differ(front[j], front[k])
      {
        assert Differ(q[j], q[k]);
      }
      forall h | h in front
        ensures h in s - {x}
      {
        var j :| 0 <= j < |front| && front[j] == h;
        assert Differ(q[j], q[|q| - 1]) && h in q;
      }
      DistinctFits(front, s - {x});
    }
  }

  /** For each request: its buffer, its status byte, and the buffer's disk flag. */
  ghost predicate RequestOk(info: seq<Option<nat>>, status: seq<nat>, onDisk: map<nat, bool>, h: nat, p: Phase, b: nat)
  {
    && h < |info| && h < |status| && info[h] == Some(b)
    && (p == Done ==> status[h] == 0)
    && b in onDisk && onDisk[b] == (p != Done)
  }

  ghost predicate Requests(info: seq<Option<nat>>, status: seq<nat>, onDisk: map<nat, bool>, phase: map<nat, Phase>,
                           bufOf: map<nat, nat>)
  {
    && phase.Keys == bufOf.Keys && |info| == NUM && |status| == NUM
    && (forall h {:trigger RequestOk(info, status, onDisk, h, phase[h], bufOf[h])} ::
         h in phase ==> RequestOk(info, status, onDisk, h, phase[h], bufOf[h]))
    && (forall g, h {:trigger bufOf[g], bufOf[h]} :: g in bufOf && h in bufOf && g != h ==> bufOf[g] != bufOf[h])
  }

  // ---- descriptor steps ----

  lemma TakeLoose(desc: seq<Desc>, free: seq<bool>, owner: Owners, chains: map<nat, seq<nat>>, loose: set<nat>, i: nat)
    requires SharedOut(desc, free, owner, chains, loose) && i < NUM && free[i]
    ensures SharedOut(desc, free[i := false], owner, chains, loose + {i})
  {
  }

  lemma DropLoose(desc: seq<Desc>, free: seq<bool>, owner: Owners, chains: map<nat, seq<nat>>, loose: set<nat>, i: nat)
    requires SharedOut(desc, free, owner, chains, loose) && i in loose
    ensures !free[i] && SharedOut(desc[i := CLEARED], free[i := true], owner, chains, loose - {i})
  {
    var desc' := desc[i := CLEARED];
    forall h | h in chains
      ensures ChainOk(desc', owner, h, chains[h])
    {
      assert ChainOk(desc, owner, h, chains[h]);
    }
  }

  lemma HeadsOwned(desc: seq<Desc>, free: seq<bool>, owner: Owners, chains: map<nat, seq<nat>>, loose: set<nat>)
    requires SharedOut(desc, free, owner, chains, loose)
    ensures forall h :: h in chains ==> h < NUM && owner[h] == Some(h)
  {
    forall h | h in chains
      ensures h < NUM && owner[h] == Some(h)
    {
      assert ChainOk(desc, owner, h, chains[h]);
    }
  }

  /** Three loose descriptors, linked up, become the chain of a new request. */
  lemma MakeChain(desc: seq<Desc>, desc': seq<Desc>, free: seq<bool>, owner: Owners, chains: map<nat, seq<nat>>,
                  c: seq<nat>)
    requires |c| == 3 && c[0] != c[1] && c[0] != c[2] && c[1] != c[2]
    requires SharedOut(desc, free, owner, chains, {c[0], c[1], c[2]})
    requires |desc'| == NUM && (forall i :: 0 <= i < NUM && i != c[0] && i != c[1] && i != c[2] ==> desc'[i] == desc[i])
    requires c[0] < NUM && c[1] < NUM && c[2] < NUM && desc'[c[0]].hasNext && desc'[c[0]].next == c[1]
    requires desc'[c[1]].hasNext && desc'[c[1]].next == c[2] && !desc'[c[2]].hasNext
    ensures c[0] !in chains
    ensures SharedOut(desc', free, owner[c[0] := Some(c[0])][c[1] := Some(c[0])][c[2] := Some(c[0])], chains[c[0] := c],
              {})
  {
    var owner', chains' := owner[c[0] := Some(c[0])][c[1] := Some(c[0])][c[2] := Some(c[0])], chains[c[0] := c];
    HeadsOwned(desc, free, owner, chains, {c[0], c[1], c[2]});
    forall h | h in chains'
      ensures ChainOk(desc', owner', h, chains'[h])
    {
      if h != c[0] { assert ChainOk(desc, owner, h, chains[h]); }
    }
    assert c[0] in c && c[1] in c && c[2] in c;
  }

  /** The chain of a finished request comes apart into three loose descriptors. */
  lemma BreakChain(desc: seq<Desc>, free: seq<bool>, owner: Owners, chains: map<nat, seq<nat>>, h: nat)
    requires SharedOut(desc, free, owner, chains, {}) && h in chains
    ensures ChainOk(desc, owner, h, chains[h])
    ensures var c := chains[h];
            SharedOut(desc, free, owner[c[0] := None][c[1] := None][c[2] := None], chains - {h}, {c[0], c[1], c[2]})
  {
    assert ChainOk(desc, owner, h, chains[h]);
    var c := chains[h];
    var owner', chains' := owner[c[0] := None][c[1] := None][c[2] := None], chains - {h};
    forall g | g in chains'
      ensures ChainOk(desc, owner', g, chains'[g])
    {
      assert ChainOk(desc, owner, g, chains[g]);
    }
    forall i | 0 <= i < NUM && owner'[i].Some?
      ensures owner'[i].value in chains' && i in chains'[owner'[i].value]
    {
    }
  }

  // ---- phases ----

  lemma PhaseAdd(phase: map<nat, Phase>, q: seq<nat>, h: nat, p: Phase)
    requires Listed(phase, q, p) && (h in phase ==> phase[h] != p)
    ensures Listed(phase[h := p], q + [h], p)
  {
    var q' := q + [h];
    assert h !in q;
    forall j, k | 0 <= j < k < |q'|
      ensures Differ(q'[j], q'[k])
    {
      if k < |q| { assert Differ(q[j], q[k]); } else { assert q[j] in q; }
    }
    forall g
      ensures g in q' <==> g in phase[h := p] && phase[h := p][g] == p
    {
      assert g in q <==> g in phase && phase[g] == p;
    }
  }

  lemma PhaseDrop(phase: map<nat, Phase>, q: seq<nat>, p: Phase, p': Phase)
    requires Listed(phase, q, p) && q != [] && p' != p
    ensures Listed(phase[q[0] := p'], q[1..], p)
  {
    var h, q' := q[0], q[1..];
    forall j, k | 0 <= j < k < |q'|
      ensures Differ(q'[j], q'[k])
    {
      assert Differ(q[j + 1], q[k + 1]);
    }
    forall k | 0 <= k < |q'|
      ensures q'[k] != h
    {
      assert Differ(q[0], q[k + 1]);
    }
    forall g
      ensures g in q' <==> g in phase[h := p'] && phase[h := p'][g] == p
    {
      assert g in q <==> g in phase && phase[g] == p;
      assert q == [h] + q';
    }
  }

  lemma PhaseOther(phase: map<nat, Phase>, q: seq<nat>, h: nat, p: Phase, p': Phase)
    requires Listed(phase, q, p) && p' != p && (h in phase ==> phase[h] != p)
    ensures Listed(phase[h := p'], q, p)
  {
  }

  lemma PhaseGone(phase: map<nat, Phase>, q: seq<nat>, h: nat, p: Phase)
    requires Listed(phase, q, p) && h in phase && phase[h] != p
    ensures Listed(phase - {h}, q, p)
  {
  }

  lemma QueueFits(phase: map<nat, Phase>, q: seq<nat>, p: Phase)
    requires Listed(phase, q, p)
    ensures |q| <= |phase|
  {
    DistinctFits(q, phase.Keys);
    assert |phase.Keys| == |phase|;
  }

  // ---- steps of a request ----

  lemma RequestNew(info: seq<Option<nat>>, status: seq<nat>, onDisk: map<nat, bool>, phase: map<nat, Phase>,
                   bufOf: map<nat, nat>, h: nat, b: nat)
    requires Requests(info, status, onDisk, phase, bufOf) && h !in phase && h < NUM
    requires forall g :: g in bufOf ==> bufOf[g] != b
    ensures Requests(info[h := Some(b)], status[h := 0xff], onDisk[b := true], phase[h := Queued], bufOf[h := b])
  {
    var info', status', onDisk', phase', bufOf' := info[h := Some(b)], status[h := 0xff], onDisk[b := true],
        phase[h := Queued], bufOf[h := b];
    forall g | g in phase'
      ensures RequestOk(info', status', onDisk', g, phase'[g], bufOf'[g])
    {
      if g != h { assert RequestOk(info, status, onDisk, g, phase[g], bufOf[g]); }
    }
  }

  lemma RequestMoves(info: seq<Option<nat>>, status: seq<nat>, onDisk: map<nat, bool>, phase: map<nat, Phase>,
                     bufOf: map<nat, nat>, h: nat, p: Phase, st: nat)
    requires Requests(info, status, onDisk, phase, bufOf) && h in phase && phase[h] != Done && (p == Taken || p == Used)
    ensures h < NUM && Requests(info, if p == Used then status[h := st] else status, onDisk, phase[h := p], bufOf)
  {
    assert RequestOk(info, status, onDisk, h, phase[h], bufOf[h]);
    var status', phase' := if p == Used then status[h := st] else status, phase[h := p];
    forall g | g in phase'
      ensures RequestOk(info, status', onDisk, g, phase'[g], bufOf[g])
    {
      assert RequestOk(info, status, onDisk, g, phase[g], bufOf[g]);
    }
  }

  lemma RequestDone(info: seq<Option<nat>>, status: seq<nat>, onDisk: map<nat, bool>, phase: map<nat, Phase>,
                    bufOf: map<nat, nat>, h: nat)
    requires Requests(info, status, onDisk, phase, bufOf) && h in phase && phase[h] == Used
    ensures h < NUM && h in bufOf && info[h] == Some(bufOf[h]) && bufOf[h] in onDisk && onDisk[bufOf[h]]
    ensures status[h] == 0 ==> Requests(info, status, onDisk[bufOf[h] := false], phase[h := Done], bufOf)
  {
    assert RequestOk(info, status, onDisk, h, phase[h], bufOf[h]);
    var onDisk', phase' := onDisk[bufOf[h] := false], phase[h := Done];
    forall g | g in phase' && status[h] == 0
      ensures RequestOk(info, status, onDisk', g, phase'[g], bufOf[g])
    {
      assert RequestOk(info, status, onDisk, g, phase[g], bufOf[g]);
      assert g != h ==> bufOf[g] != bufOf[h];
    }
  }

  lemma RequestGone(info: seq<Option<nat>>, status: seq<nat>, onDisk: map<nat, bool>, phase: map<nat, Phase>,
                    bufOf: map<nat, nat>, h: nat)
    requires Requests(info, status, onDisk, phase, bufOf) && h in phase && h < NUM
    ensures Requests(info[h := None], status, onDisk, phase - {h}, bufOf - {h})
  {
    var info', phase', bufOf' := info[h := None], phase - {h}, bufOf - {h};
    forall g | g in phase'
      ensures RequestOk(info', status, onDisk, g, phase'[g], bufOf'[g])
    {
      assert RequestOk(info, status, onDisk, g, phase[g], bufOf[g]);
    }
  }

  // ---- steps of the rings and requests together ----

  /** A ring with the place its reader has got to. */
  datatype Ring = Ring(slots: seq<nat>, start: nat, idx: nat)

  /** The requests: the phase and the buffer of each, and what waits on each ring, in order. */
  datatype Reqs = Reqs(phase: map<nat, Phase>, bufOf: map<nat, nat>, queued: seq<nat>, used: seq<nat>)

  /** Which descriptors each request has. */
  datatype Chains = Chains(owner: Owners, of: map<nat, seq<nat>>)

  ghost predicate RingOk(r: Ring, q: seq<nat>, phase: map<nat, Phase>, p: Phase) {
    RingHolds(r.slots, r.start, r.idx, q) && Listed(phase, q, p)
  }

  ghost predicate Wire(avail: Ring, usedR: Ring, info: seq<Option<nat>>, status: seq<nat>, onDisk: map<nat, bool>,
                       g: Reqs)
  {
    && RingOk(avail, g.queued, g.phase, Queued) && RingOk(usedR, g.used, g.phase, Used)
    && Requests(info, status, onDisk, g.phase, g.bufOf)
  }

  lemma FirstListed(phase: map<nat, Phase>, q: seq<nat>, p: Phase)
    requires Listed(phase, q, p) && q != []
    ensures q[0] in phase && phase[q[0]] == p
  {
    assert q[0] in q;
  }

  /** The entry after `start` on a ring, and the ring without it. */
  lemma NextEntry(ring: seq<nat>, start: nat, idx: nat, q: seq<nat>, phase: map<nat, Phase>, p: Phase, p': Phase)
    requires RingHolds(ring, start, idx, q) && Listed(phase, q, p) && start != idx && |phase| < NUM && p != p'
    ensures q != [] && ring[start % NUM] == q[0] && q[0] in phase && phase[q[0]] == p
    ensures RingHolds(ring, Inc(start), idx, q[1..]) && Listed(phase[q[0] := p'], q[1..], p)
  {
    QueueFits(phase, q, p);
    RingEmpty(ring, start, idx, q);
    RingPop(ring, start, idx, q);
    FirstListed(phase, q, p);
    PhaseDrop(phase, q, p, p');
  }

  lemma AddEntry(ring: seq<nat>, start: nat, idx: nat, q: seq<nat>, phase: map<nat, Phase>, h: nat, p: Phase)
    requires RingHolds(ring, start, idx, q) && Listed(phase, q, p) && |phase| < NUM && (h in phase ==> phase[h] != p)
    ensures RingHolds(ring[idx % NUM := h], start, Inc(idx), q + [h]) && Listed(phase[h := p], q + [h], p)
  {
    QueueFits(phase, q, p);
    RingPush(ring, start, idx, q, h);
    PhaseAdd(phase, q, h, p);
  }

  function Pushed(r: Ring, h: nat): Ring
    requires |r.slots| == NUM
  {
    Ring(r.slots[r.idx % NUM := h], r.start, Inc(r.idx))
  }

  function Popped(r: Ring): Ring {
    Ring(r.slots, Inc(r.start), r.idx)
  }

  function NewRequest(g: Reqs, h: nat, b: nat): Reqs {
    g.(phase := g.phase[h := Queued], bufOf := g.bufOf[h := b], queued := g.queued + [h])
  }

  function TakenBy(g: Reqs): Reqs
    requires g.queued != []
  {
    g.(phase := g.phase[g.queued[0] := Taken], queued := g.queued[1..])
  }

  function Completed(g: Reqs, h: nat): Reqs {
    g.(phase := g.phase[h := Used], used := g.used + [h])
  }

  function DoneWith(g: Reqs): Reqs
    requires g.used != []
  {
    g.(phase := g.phase[g.used[0] := Done], used := g.used[1..])
  }

  function Gone(g: Reqs, h: nat): Reqs {
    g.(phase := g.phase - {h}, bufOf := g.bufOf - {h})
  }

  lemma WireNew(avail: Ring, usedR: Ring, info: seq<Option<nat>>, status: seq<nat>, onDisk: map<nat, bool>, g: Reqs,
                h: nat, b: nat)
    requires Wire(avail, usedR, info, status, onDisk, g) && |g.phase| < NUM
    requires h !in g.phase && h < NUM && forall x :: x in g.bufOf ==> g.bufOf[x] != b
    ensures Wire(Pushed(avail, h), usedR, info[h := Some(b)], status[h := 0xff], onDisk[b := true], NewRequest(g, h, b))
  {
    RequestNew(info, status, onDisk, g.phase, g.bufOf, h, b);
    AddEntry(avail.slots, avail.start, avail.idx, g.queued, g.phase, h, Queued);
    PhaseOther(g.phase, g.used, h, Used, Queued);
  }

  lemma WireTake(avail: Ring, usedR: Ring, info: seq<Option<nat>>, status: seq<nat>, onDisk: map<nat, bool>, g: Reqs)
    requires Wire(avail, usedR, info, status, onDisk, g) && |g.phase| < NUM && avail.start != avail.idx
    ensures g.queued != [] && avail.slots[avail.start % NUM] == g.queued[0] && g.queued[0] in g.phase
    ensures Wire(Popped(avail), usedR, info, status, onDisk, TakenBy(g))
  {
    NextEntry(avail.slots, avail.start, avail.idx, g.queued, g.phase, Queued, Taken);
    RequestMoves(info, status, onDisk, g.phase, g.bufOf, g.queued[0], Taken, 0);
    PhaseOther(g.phase, g.used, g.queued[0], Used, Taken);
  }

  lemma WireComplete(avail: Ring, usedR: Ring, info: seq<Option<nat>>, status: seq<nat>, onDisk: map<nat, bool>,
                     g: Reqs, h: nat, st: nat)
    requires Wire(avail, usedR, info, status, onDisk, g) && |g.phase| < NUM && h in g.phase && g.phase[h] == Taken
    ensures h < |status| && Wire(avail, Pushed(usedR, h), info, status[h := st], onDisk, Completed(g, h))
  {
    RequestMoves(info, status, onDisk, g.phase, g.bufOf, h, Used, st);
    AddEntry(usedR.slots, usedR.start, usedR.idx, g.used, g.phase, h, Used);
    PhaseOther(g.phase, g.queued, h, Queued, Used);
  }

  lemma WireDone(avail: Ring, usedR: Ring, info: seq<Option<nat>>, status: seq<nat>, onDisk: map<nat, bool>, g: Reqs,
                 h: nat)
    requires Wire(avail, usedR, info, status, onDisk, g) && |g.phase| < NUM && usedR.start != usedR.idx
    requires h == usedR.slots[usedR.start % NUM]
    ensures g.used != [] && h == g.used[0] && h in g.phase && g.phase[h] == Used
    ensures h in g.bufOf && h < |status| && h < |info| && info[h] == Some(g.bufOf[h]) && g.bufOf[h] in onDisk
    ensures onDisk[g.bufOf[h]]
    ensures status[h] == 0 ==> Wire(avail, Popped(usedR), info, status, onDisk[g.bufOf[h] := false], DoneWith(g))
  {
    NextEntry(usedR.slots, usedR.start, usedR.idx, g.used, g.phase, Used, Done);
    PhaseOther(g.phase, g.queued, h, Queued, Done);
    RequestDone(info, status, onDisk, g.phase, g.bufOf, h);
  }

  lemma WireGone(avail: Ring, usedR: Ring, info: seq<Option<nat>>, status: seq<nat>, onDisk: map<nat, bool>, g: Reqs,
                 h: nat)
    requires Wire(avail, usedR, info, status, onDisk, g) && h in g.phase && g.phase[h] == Done
    ensures h < |info| && Wire(avail, usedR, info[h := None], status, onDisk, Gone(g, h))
  {
    assert RequestOk(info, status, onDisk, h, g.phase[h], g.bufOf[h]);
    RequestGone(info, status, onDisk, g.phase, g.bufOf, h);
    PhaseGone(g.phase, g.queued, h, Queued);
    PhaseGone(g.phase, g.used, h, Used);
  }

  ghost predicate LinksFrom(desc: seq<Desc>, c: seq<nat>, k: nat)
    requires |desc| == NUM && |c| == 3 && c[0] < NUM && c[1] < NUM && c[2] < NUM
  {
    && (k <= 0 ==> desc[c[0]].hasNext && desc[c[0]].next == c[1])
    && (k <= 1 ==> desc[c[1]].hasNext && desc[c[1]].next == c[2])
    && !desc[c[2]].hasNext
  }

  lemma LinksLeft(desc: seq<Desc>, c: seq<nat>, k: nat)
    requires |desc| == NUM && |c| == 3 && k < 3 && c[0] < NUM && c[1] < NUM && c[2] < NUM && Distinct(c)
    requires LinksFrom(desc, c, k)
    ensures k < 2 ==> LinksFrom(desc[c[k] := CLEARED], c, k + 1)
  {
    assert Differ(c[0], c[1]) && Differ(c[0], c[2]) && Differ(c[1], c[2]);
  }

  ghost predicate LooseChain(desc: seq<Desc>, h: nat, c: seq<nat>) {
    && |desc| == NUM && |c| == 3 && c[0] == h && c[0] < NUM && c[1] < NUM && c[2] < NUM && Distinct(c)
    && LinksFrom(desc, c, 0)
  }

  function Set(q: seq<nat>): set<nat> {
    set i | i in q
  }

  lemma SetTail(q: seq<nat>, j: nat)
    requires j < |q| && Distinct(q)
    ensures Set(q[j..]) - {q[j]} == Set(q[j + 1..]) && q[j] in Set(q[j..])
  {
    assert q[j..] == [q[j]] + q[j + 1..];
    var t := q[j + 1..];
    forall k | 0 <= k < |t|
      ensures t[k] != q[j]
    {
      assert Differ(q[j], q[j + 1 + k]);
    }
  }

  lemma SetPush(q: seq<nat>, i: nat)
    ensures Set(q + [i]) == Set(q) + {i}
  {
  }

  /** The descriptors in s were free and are not, and nothing else changed. */
  ghost predicate OnlyTaken(f0: seq<bool>, free: seq<bool>, s: set<nat>) {
    && |free| == |f0| == NUM
    && (forall k :: 0 <= k < NUM ==> free[k] == (f0[k] && k !in s))
    && (forall k :: k in s ==> k < NUM && f0[k])
  }

  ghost predicate AllFree(free: seq<bool>, c: seq<nat>) {
    forall k {:trigger c[k]} :: 0 <= k < |c| ==> c[k] < |free| && free[c[k]]
  }

  lemma {:induction false} EveryFree(free: seq<bool>)
    requires forall k :: 0 <= k < |free| ==> free[k]
    ensures CountFree(free) == |free|
  {
    if free != [] { EveryFree(free[..|free| - 1]); }
  }

  lemma {:induction false} NoneFree(free: seq<bool>)
    requires forall k :: 0 <= k < |free| ==> !free[k]
    ensures CountFree(free) == 0
  {
    if free != [] { NoneFree(free[..|free| - 1]); }
  }

  /** The three descriptors of a request: header, data and status byte. */
  ghost predicate Formatted(desc: seq<Desc>, c: seq<nat>, write: bool, header: nat, data: nat) {
    && |c| == 3 && c[0] < |desc| && c[1] < |desc| && c[2] < |desc|
    && desc[c[0]] == Desc(header, 16, false, true, c[1])
    && desc[c[1]] == Desc(data, 1024, !write, true, c[2])
    && desc[c[2]] == Desc(c[0], 1, true, false, 0)
  }

  ghost predicate Shared(desc: seq<Desc>, free: seq<bool>, ch: Chains, loose: set<nat>) {
    SharedOut(desc, free, ch.owner, ch.of, loose) && CountFree(free) + 3 * |ch.of| + |loose| == NUM
  }

  // ---- a device that goes on while the driver runs ----

  datatype DeviceAct = Takes | Completes(h: nat, st: nat)

  /** The chains the device is working on. */
  ghost function InHand(phase: map<nat, Phase>): set<nat> {
    set h | h in phase && phase[h] == Taken
  }

  ghost predicate WorksOn(taken: set<nat>, phase: map<nat, Phase>) {
    taken == InHand(phase)
  }

  lemma WorksMore(taken: set<nat>, phase: map<nat, Phase>, h: nat)
    requires WorksOn(taken, phase)
    ensures WorksOn(taken + {h}, phase[h := Taken])
  {
  }

  lemma WorksLess(taken: set<nat>, phase: map<nat, Phase>, h: nat, p: Phase)
    requires WorksOn(taken, phase) && p != Taken
    ensures WorksOn(taken - {h}, phase[h := p])
  {
  }

  lemma WorksSame(taken: set<nat>, phase: map<nat, Phase>, h: nat, p: Phase)
    requires WorksOn(taken, phase) && (h in phase ==> phase[h] != Taken) && p != Taken
    ensures WorksOn(taken, phase[h := p]) && WorksOn(taken, phase - {h})
  {
  }

  function Rank(p: Phase): nat {
    match p
    case Queued => 0
    case Taken => 1
    case Used => 2
    case Done => 3
  }

  /** Requests only move on. */
  ghost predicate Onward(p0: map<nat, Phase>, p: map<nat, Phase>) {
    p.Keys == p0.Keys && forall h {:trigger p[h]} :: h in p0 ==> Rank(p0[h]) <= Rank(p[h])
  }

  /** The requests that still wait for the interrupt. */
  ghost function Open(phase: map<nat, Phase>): set<nat> {
    set h | h in phase && phase[h] != Done
  }

  /** A request that was used and is so no more is done. */
  lemma UsedIsDone(p0: map<nat, Phase>, q0: seq<nat>, p: map<nat, Phase>)
    requires Listed(p0, q0, Used) && Listed(p, [], Used) && Onward(p0, p)
    ensures forall h :: h in q0 ==> h in p && p[h] == Done
  {
    forall h | h in q0
      ensures h in p && p[h] == Done
    {
      assert h in p0 && p0[h] == Used && h !in [];
    }
  }

  lemma OneOnward(p0: map<nat, Phase>, p: map<nat, Phase>, h: nat, x: Phase)
    requires Onward(p0, p) && h in p && Rank(p[h]) < Rank(x)
    ensures Onward(p0, p[h := x]) && (x != Done ==> Open(p[h := x]) == Open(p))
    ensures x == Done ==> Open(p[h := x]) == Open(p) - {h} && h in Open(p)
  {
  }

  /** The device has reported success for every request in q. */
  ghost predicate AllZero(status: seq<nat>, q: seq<nat>) {
    forall k {:trigger q[k]} :: 0 <= k < |q| ==> q[k] < |status| && status[q[k]] == 0
  }

  /** Nothing has been completed meanwhile: errors come up in q exactly if in q0. */
  ghost predicate SameErrors(status0: seq<nat>, q0: seq<nat>, status: seq<nat>, q: seq<nat>) {
    status == status0 && (AllZero(status0, q0) <==> AllZero(status, q))
  }

  lemma ZeroFirst(status: seq<nat>, q: seq<nat>)
    requires q != []
    ensures AllZero(status, q) <==> q[0] < |status| && status[q[0]] == 0 && AllZero(status, q[1..])
  {
    var t := q[1..];
    assert forall k :: 0 <= k < |t| ==> t[k] == q[k + 1];
    if q[0] < |status| && status[q[0]] == 0 && AllZero(status, t) {
      forall k | 0 <= k < |q|
        ensures q[k] < |status| && status[q[k]] == 0
      {
        if k > 0 { assert t[k - 1] == q[k]; }
      }
    }
  }

  lemma TakeOnward(p0: map<nat, Phase>, g: Reqs)
    requires g.queued != [] && g.queued[0] in g.phase && g.phase[g.queued[0]] == Queued && Onward(p0, g.phase)
    ensures Onward(p0, TakenBy(g).phase) && Open(TakenBy(g).phase) == Open(g.phase)
  {
    OneOnward(p0, g.phase, g.queued[0], Taken);
  }

  lemma CompleteOnward(p0: map<nat, Phase>, g: Reqs, h: nat)
    requires h in g.phase && g.phase[h] == Taken && Onward(p0, g.phase)
    ensures Onward(p0, Completed(g, h).phase) && Open(Completed(g, h).phase) == Open(g.phase)
  {
    OneOnward(p0, g.phase, h, Used);
  }

  /** The first completion on the used ring is dealt with. */
  lemma TurnDone(p0: map<nat, Phase>, g: Reqs, status: seq<nat>)
    requires g.used != [] && g.used[0] in g.phase && g.phase[g.used[0]] == Used && Onward(p0, g.phase)
    requires g.used[0] < |status| && status[g.used[0]] == 0
    ensures Onward(p0, DoneWith(g).phase) && Open(DoneWith(g).phase) < Open(g.phase)
    ensures AllZero(status, g.used) <==> AllZero(status, DoneWith(g).used)
  {
    ZeroFirst(status, g.used);
    OneOnward(p0, g.phase, g.used[0], Done);
  }

  /** The request is over, and its descriptors are loose. */
  lemma Dissolve(desc: seq<Desc>, free: seq<bool>, ch: Chains, h: nat) returns (c: seq<nat>, ch': Chains)
    requires Shared(desc, free, ch, {}) && h in ch.of
    ensures c == ch.of[h] && LooseChain(desc, h, c)
    ensures ch'.of == ch.of - {h} && Shared(desc, free, ch', Set(c))
  {
    BreakChain(desc, free, ch.owner, ch.of, h);
    c := ch.of[h];
    assert Set(c) == {c[0], c[1], c[2]};
    ch' := Chains(ch.owner[c[0] := None][c[1] := None][c[2] := None], ch.of - {h});
    assert |{c[0], c[1], c[2]}| == 3;
    assert |ch.of - {h}| == |ch.of| - 1;
  }

  lemma DoneIsClear(info: seq<Option<nat>>, status: seq<nat>, onDisk: map<nat, bool>, g: Reqs, h: nat)
    requires Requests(info, status, onDisk, g.phase, g.bufOf)
    requires h in g.bufOf && g.bufOf[h] in onDisk && !onDisk[g.bufOf[h]]
    ensures h in g.phase && g.phase[h] == Done
  {
    assert RequestOk(info, status, onDisk, h, g.phase[h], g.bufOf[h]);
  }
}
