/** The driver side of the virtio block device (kernel/virtio_disk.c), and a device that
    completes requests in any order. */
module VirtioDisk {
  import opened Prelude
  import opened VirtioQueue

  class Driver {
    var desc: seq<Desc>
    var free: seq<bool>
    var avail: Ring
    var usedR: Ring
    var info: seq<Option<nat>>
    var status: seq<nat>
    var onDisk: map<nat, bool>  // b->disk
    var taken: set<nat>         // what the device is working on
    ghost var chains: Chains
    ghost var reqs: Reqs

    ghost predicate Descriptors(loose: set<nat>)
      reads this`desc, this`free, this`chains
    {
      Shared(desc, free, chains, loose)
    }

    ghost predicate Protocol()
      reads this`avail, this`usedR, this`info, this`status, this`onDisk, this`taken, this`reqs
    {
      Wire(avail, usedR, info, status, onDisk, reqs) && WorksOn(taken, reqs.phase)
    }

    ghost predicate Valid()
      reads this
    {
      Descriptors({}) && Protocol() && reqs.phase.Keys == chains.of.Keys
    }

    /** virtio_disk_init: all descriptors start out unused. */
    constructor ()
      ensures Valid() && reqs.phase == map[] && CountFree(free) == NUM
    {
      desc := seq(NUM, _ => CLEARED);
      free := seq(NUM, _ => true);
      avail := Ring(seq(NUM, _ => 0), 0, 0);
      usedR := Ring(seq(NUM, _ => 0), 0, 0);
      info := seq(NUM, _ => None);
      status := seq(NUM, _ => 0);
      onDisk := map[];
      taken := {};
      chains := Chains(seq(NUM, _ => None), map[]);
      reqs := Reqs(map[], map[], [], []);
      new;
      EveryFree(free);
    }

    // ---- descriptors ----

    method AllocDesc(ghost loose: set<nat>) returns (i: int)
      requires Descriptors(loose)
      modifies this`free
      ensures -1 <= i < NUM
      ensures i == -1 ==> free == old(free) && Descriptors(loose) && forall j :: 0 <= j < NUM ==> !free[j]
      ensures i >= 0 ==> old(free)[i] && free == old(free)[i := false] && i !in loose && Descriptors(loose + {i})
      ensures i >= 0 ==> forall j :: 0 <= j < i ==> !old(free)[j]
    {
      var k := 0;
      while k < NUM
        invariant 0 <= k <= NUM && free == old(free) && forall j :: 0 <= j < k ==> !free[j]
      {
        if free[k] {
          TakeLoose(desc, free, chains.owner, chains.of, loose, k);
          CountSet(free, k, false);
          free := free[k := false];
          return k;
        }
        k := k + 1;
      }
      i := -1;
    }

    /** Neither panic is reached: the descriptor exists and is not free. */
    method FreeDesc(i: nat, ghost loose: set<nat>)
      requires Descriptors(loose) && i in loose
      modifies this`desc, this`free
      ensures Descriptors(loose - {i}) && desc == old(desc)[i := CLEARED] && free == old(free)[i := true]
      ensures !old(free)[i]
    {
      DropLoose(desc, free, chains.owner, chains.of, loose, i);
      CountSet(free, i, true);
      desc := desc[i := CLEARED];
      free := free[i := true];
    }

    /** Gives back the descriptors in idx. */
    method FreeAll(idx: seq<nat>, ghost f0: seq<bool>)
      requires Distinct(idx) && Descriptors(Set(idx)) && OnlyTaken(f0, free, Set(idx))
      modifies this`desc, this`free
      ensures Descriptors({}) && free == f0
    {
      var j := 0;
      assert idx[0..] == idx;
      while j < |idx|
        invariant 0 <= j <= |idx| && Descriptors(Set(idx[j..])) && OnlyTaken(f0, free, Set(idx[j..]))
      {
        SetTail(idx, j);
        FreeDesc(idx[j], Set(idx[j..]));
        j := j + 1;
      }
      assert idx[j..] == [];
    }

    /** Three descriptors, or none. */
    method Alloc3Desc() returns (ok: bool, idx: seq<nat>)
      requires Descriptors({})
      modifies this`desc, this`free
      ensures ok ==>
                |idx| == 3 && idx[0] != idx[1] && idx[0] != idx[2] && idx[1] != idx[2]
                && Descriptors({idx[0], idx[1], idx[2]}) && desc == old(desc)
      ensures !ok ==> Descriptors({}) && free == old(free) && CountFree(free) < 3
    {
      idx := [];
      var i := 0;
      while i < 3
        invariant 0 <= i <= 3 && |idx| == i && desc == old(desc) && Distinct(idx)
        invariant Descriptors(Set(idx)) && OnlyTaken(old(free), free, Set(idx))
        invariant CountFree(free) + i == CountFree(old(free))
      {
        var a := AllocDesc(Set(idx));
        if a < 0 {
          NoneFree(free);
          FreeAll(idx, old(free));
          return false, idx;
        }
        CountSet(old(free), a, false);
        SetPush(idx, a);
        idx := idx + [a];
        i := i + 1;
      }
      assert Set(idx) == {idx[0], idx[1], idx[2]};
      ok := true;
    }

    // ---- the driver ----

    /** The first half of virtio_disk_rw: None when three descriptors are not to be had and
        the process has to sleep. */
    method Submit(b: nat, write: bool, header: nat, data: nat) returns (r: Option<nat>)
      requires Valid() && forall h :: h in reqs.bufOf ==> reqs.bufOf[h] != b
      modifies this`desc, this`free, this`avail, this`info, this`status, this`onDisk, this`chains, this`reqs
      ensures Valid()
      ensures r.None? ==> CountFree(free) < 3 && reqs == old(reqs) && onDisk == old(onDisk) && avail == old(avail)
      ensures r.Some? ==> r.value !in old(reqs).phase && onDisk == old(onDisk)[b := true]
      ensures r.Some? ==> reqs == NewRequest(old(reqs), r.value, b)
      ensures r.Some? ==>
                r.value in chains.of && Formatted(desc, chains.of[r.value], write, header, data)
                && r.value < |status| && status[r.value] == 0xff
      ensures r.Some? ==> |old(avail).slots| == NUM && avail == Pushed(old(avail), r.value)
    {
      OneThird();
      var ok, idx := Alloc3Desc();
      if !ok { return None; }
      Enqueue(idx, b, write, header, data);
      r := Some(idx[0]);
    }

    method Enqueue(idx: seq<nat>, b: nat, write: bool, header: nat, data: nat)
      requires |idx| == 3 && idx[0] != idx[1] && idx[0] != idx[2] && idx[1] != idx[2]
      requires Descriptors({idx[0], idx[1], idx[2]})
      requires Protocol() && reqs.phase.Keys == chains.of.Keys && |reqs.phase| < NUM
      requires forall h :: h in reqs.bufOf ==> reqs.bufOf[h] != b
      modifies this`desc, this`avail, this`info, this`status, this`onDisk, this`chains, this`reqs
      ensures Valid() && idx[0] !in old(reqs).phase && onDisk == old(onDisk)[b := true]
      ensures reqs == NewRequest(old(reqs), idx[0], b) && chains.of == old(chains).of[idx[0] := idx]
      ensures Formatted(desc, idx, write, header, data) && idx[0] < |status| && status[idx[0]] == 0xff
      ensures |old(avail).slots| == NUM && avail == Pushed(old(avail), idx[0])
    {
      Format(idx, write, header, data);
      Publish(idx[0], b);
    }

    /** Fills in and links the three descriptors. */
    method Format(idx: seq<nat>, write: bool, header: nat, data: nat)
      requires |idx| == 3 && idx[0] != idx[1] && idx[0] != idx[2] && idx[1] != idx[2]
      requires Descriptors({idx[0], idx[1], idx[2]})
      modifies this`desc, this`chains
      ensures idx[0] !in old(chains).of && idx[0] < NUM && Descriptors({})
      ensures Formatted(desc, idx, write, header, data)
      ensures chains.of == old(chains).of[idx[0] := idx]
    {
      assert idx[0] in {idx[0], idx[1], idx[2]} && idx[1] in {idx[0], idx[1], idx[2]}
          && idx[2] in {idx[0], idx[1], idx[2]};
      var h := idx[0];
      var d := desc[h := Desc(header, 16, false, true, idx[1])][idx[1] := Desc(data, 1024, !write, true, idx[2])];
      d := d[idx[2] := Desc(h, 1, true, false, 0)];
      MakeChain(desc, d, free, chains.owner, chains.of, idx);
      assert |{idx[0], idx[1], idx[2]}| == 3;
      desc := d;
      chains := Chains(chains.owner[h := Some(h)][idx[1] := Some(h)][idx[2] := Some(h)], chains.of[h := idx]);
    }

    /** Records the buffer, and puts the chain on the avail ring. */
    method Publish(h: nat, b: nat)
      requires Protocol() && h !in reqs.phase && h < NUM && |reqs.phase| < NUM
      requires forall x :: x in reqs.bufOf ==> reqs.bufOf[x] != b
      modifies this`avail, this`info, this`status, this`onDisk, this`reqs
      ensures Protocol() && reqs == NewRequest(old(reqs), h, b) && onDisk == old(onDisk)[b := true]
      ensures |old(avail).slots| == NUM && avail == Pushed(old(avail), h) && h < |old(status)|
      ensures status == old(status)[h := 0xff]
    {
      WireNew(avail, usedR, info, status, onDisk, reqs, h, b);
      WorksSame(taken, reqs.phase, h, Queued);
      status := status[h := 0xff];
      onDisk := onDisk[b := true];
      info := info[h := Some(b)];
      avail := Pushed(avail, h);
      reqs := NewRequest(reqs, h, b);
    }

    /** At most a third as many requests are outstanding as there are descriptors. */
    lemma OneThird()
      requires Valid()
      ensures |reqs.phase| == |chains.of| && 3 * |reqs.phase| <= 8
    {
      assert |reqs.phase| == |reqs.phase.Keys| == |chains.of.Keys| == |chains.of|;
    }

    /** One turn of the interrupt loop.  The completion names a request that is on the used
        ring; None is the panic, reached exactly when the device has reported an error for
        it; otherwise exactly its buffer stops being the disk's. */
    method IntrStep() returns (r: Option<nat>)
      requires Valid() && usedR.start != usedR.idx
      modifies this`onDisk, this`usedR, this`reqs
      ensures Valid() && old(reqs).used != [] && old(reqs).used[0] in reqs.bufOf && old(reqs).used[0] < |status|
      ensures r.None? <==> status[old(reqs).used[0]] != 0
      ensures r.None? ==> onDisk == old(onDisk) && usedR == old(usedR) && reqs == old(reqs)
      ensures r.Some? ==>
                reqs == DoneWith(old(reqs)) && usedR == Popped(old(usedR)) && r.value == reqs.bufOf[old(reqs).used[0]]
      ensures r.Some? ==> r.value in old(onDisk) && old(onDisk)[r.value] && onDisk == old(onDisk)[r.value := false]
      ensures old(reqs).used[0] in old(reqs).phase && old(reqs).phase[old(reqs).used[0]] == Used
    {
      OneThird();
      var id := usedR.slots[usedR.start % NUM];
      WireDone(avail, usedR, info, status, onDisk, reqs, id);
      if status[id] != 0 { return None; }
      WorksSame(taken, reqs.phase, id, Done);
      var b := info[id].value;
      onDisk := onDisk[b := false];
      usedR := Popped(usedR);
      reqs := DoneWith(reqs);
      r := Some(b);
    }

    /** One turn, as a step of all requests. */
    method IntrTurn(ghost p0: map<nat, Phase>) returns (ok: bool)
      requires Valid() && usedR.start != usedR.idx && Onward(p0, reqs.phase)
      modifies this`onDisk, this`usedR, this`reqs
      ensures Valid() && Onward(p0, reqs.phase)
      ensures ok ==> Open(reqs.phase) < Open(old(reqs).phase)
      ensures ok ==> (AllZero(status, old(reqs).used) <==> AllZero(status, reqs.used))
      ensures !ok ==> reqs == old(reqs) && reqs.used != [] && reqs.used[0] < |status| && status[reqs.used[0]] != 0
    {
      ghost var g := reqs;
      var b := IntrStep();
      if b.None? { return false; }
      TurnDone(p0, g, status);
      ok := true;
    }

    /** The interrupt handler, with the device going on meanwhile: race[r] is what the device
        does before the r-th test of the loop.  The handler ends, whatever the device does.
        It panics exactly when it comes to a completion for which the device has reported
        an error; otherwise it leaves nothing on the used ring, and every request that was
        on it is done. */
    method Intr(race: seq<seq<DeviceAct>>) returns (ok: bool)
      requires Valid()
      modifies this`onDisk, this`usedR, this`reqs, this`avail, this`status, this`taken
      ensures Valid() && Onward(old(reqs).phase, reqs.phase)
      ensures ok ==> reqs.used == []
      ensures ok ==> forall h :: h in old(reqs).used ==> h in reqs.phase && reqs.phase[h] == Done
      ensures !ok ==> reqs.used != [] && reqs.used[0] < |status| && status[reqs.used[0]] != 0
      ensures race == [] ==> (ok <==> AllZero(old(status), old(reqs).used))
    {
      var r := 0;
      Race(if r < |race| then race[r] else [], old(reqs).phase);
      while usedR.start != usedR.idx
        invariant Valid() && Onward(old(reqs).phase, reqs.phase) && r >= 0
        invariant race == [] ==> SameErrors(old(status), old(reqs).used, status, reqs.used)
        decreases Open(reqs.phase)
      {
        ok := IntrTurn(old(reqs).phase);
        if !ok {
          ZeroFirst(status, reqs.used);
          return;
        }
        r := r + 1;
        Race(if r < |race| then race[r] else [], old(reqs).phase);
      }
      FewEntries();
      RingEmpty(usedR.slots, usedR.start, usedR.idx, reqs.used);
      UsedIsDone(old(reqs).phase, old(reqs).used, reqs.phase);
      ok := true;
    }

    /** What the device does while nobody stops it. */
    method Race(acts: seq<DeviceAct>, ghost p0: map<nat, Phase>)
      requires Valid() && Onward(p0, reqs.phase)
      modifies this`usedR, this`reqs, this`avail, this`status, this`taken
      ensures Valid() && Onward(p0, reqs.phase) && Open(reqs.phase) == Open(old(reqs).phase)
      ensures acts == [] ==> reqs == old(reqs) && usedR == old(usedR) && status == old(status)
    {
      var k := 0;
      while k < |acts|
        invariant 0 <= k <= |acts| && Valid() && Onward(p0, reqs.phase) && Open(reqs.phase) == Open(old(reqs).phase)
        invariant acts == [] ==> reqs == old(reqs) && usedR == old(usedR) && status == old(status)
      {
        RaceOne(acts[k], p0);
        k := k + 1;
      }
    }

    method RaceOne(act: DeviceAct, ghost p0: map<nat, Phase>)
      requires Valid() && Onward(p0, reqs.phase)
      modifies this`usedR, this`reqs, this`avail, this`status, this`taken
      ensures Valid() && Onward(p0, reqs.phase) && Open(reqs.phase) == Open(old(reqs).phase)
    {
      ghost var g := reqs;
      if act.Takes? && avail.start != avail.idx {
        var h := DeviceTake();
        TakeOnward(p0, g);
      } else if act.Completes? && act.h in taken {
        DeviceComplete(act.h, act.st);
        CompleteOnward(p0, g, act.h);
      }
    }

    lemma FewEntries()
      requires Valid()
      ensures |reqs.used| < NUM && |reqs.queued| < NUM
    {
      OneThird();
      QueueFits(reqs.phase, reqs.used, Used);
      QueueFits(reqs.phase, reqs.queued, Queued);
    }

    /** The rest of virtio_disk_rw: the flag is clear, so the chain comes back. */
    method Finish(h: nat)
      requires Valid() && h in reqs.bufOf && reqs.bufOf[h] in onDisk && !onDisk[reqs.bufOf[h]]
      modifies this`desc, this`free, this`info, this`chains, this`reqs
      ensures Valid() && h in old(chains).of
      ensures reqs == Gone(old(reqs), h) && chains.of == old(chains).of - {h}
      ensures AllFree(free, old(chains).of[h])
    {
      Forget(h);
      FreeRequest(h);
    }

    /** disk.info[idx[0]].b = 0 */
    method Forget(h: nat)
      requires Protocol() && h in reqs.bufOf && reqs.bufOf[h] in onDisk && !onDisk[reqs.bufOf[h]]
      modifies this`info, this`reqs
      ensures Protocol() && h in old(reqs).phase && reqs == Gone(old(reqs), h)
    {
      DoneIsClear(info, status, onDisk, reqs, h);
      WireGone(avail, usedR, info, status, onDisk, reqs, h);
      WorksSame(taken, reqs.phase, h, Done);
      info := info[h := None];
      reqs := Gone(reqs, h);
    }

    method FreeRequest(h: nat)
      requires Descriptors({}) && h in chains.of
      modifies this`desc, this`free, this`chains
      ensures Descriptors({}) && chains.of == old(chains).of - {h} && AllFree(free, old(chains).of[h])
    {
      ghost var c, ch := Dissolve(desc, free, chains, h);
      chains := ch;
      FreeChain(h, c);
    }

    /** Follows the next links; each descriptor on the way is in use. */
    method FreeChain(head: nat, ghost c: seq<nat>)
      requires LooseChain(desc, head, c) && Descriptors(Set(c))
      modifies this`desc, this`free
      ensures Descriptors({}) && AllFree(free, c)
    {
      var i := head;
      ghost var k := 0;
      assert c[0..] == c;
      while true
        invariant 0 <= k < 3 && i == c[k] && Descriptors(Set(c[k..])) && AllFree(free, c[..k]) && LinksFrom(desc, c, k)
        decreases 3 - k
      {
        var flag, nxt := desc[i].hasNext, desc[i].next;
        FreeLink(i, c, k);
        if !flag { break; }
        i := nxt;
        k := k + 1;
      }
      assert k == 2 && Set(c[3..]) == {} && c[..3] == c;
    }

    method FreeLink(i: nat, ghost c: seq<nat>, ghost k: nat)
      requires |c| == 3 && k < 3 && c[0] < NUM && c[1] < NUM && c[2] < NUM && Distinct(c)
      requires i == c[k] && Descriptors(Set(c[k..])) && AllFree(free, c[..k]) && LinksFrom(desc, c, k)
      modifies this`desc, this`free
      ensures Descriptors(Set(c[k + 1..])) && AllFree(free, c[..k + 1]) && (k < 2 ==> LinksFrom(desc, c, k + 1))
    {
      SetTail(c, k);
      LinksLeft(desc, c, k);
      FreeDesc(i, Set(c[k..]));
    }

    // ---- the device ----

    /** Takes the next chain from the avail ring. */
    method DeviceTake() returns (h: nat)
      requires Valid() && avail.start != avail.idx
      modifies this`avail, this`reqs, this`taken
      ensures Valid() && old(reqs).queued != [] && h == old(reqs).queued[0] && reqs == TakenBy(old(reqs))
      ensures avail == Popped(old(avail)) && taken == old(taken) + {h}
      ensures h in old(reqs).phase && old(reqs).phase[h] == Queued
    {
      OneThird();
      WireTake(avail, usedR, info, status, onDisk, reqs);
      h := avail.slots[avail.start % NUM];
      FirstListed(reqs.phase, reqs.queued, Queued);
      WorksMore(taken, reqs.phase, h);
      avail := Popped(avail);
      taken := taken + {h};
      reqs := TakenBy(reqs);
    }

    /** Completes any chain it has taken, with any status: no used entry still unread is
        overwritten. */
    method DeviceComplete(h: nat, st: nat)
      requires Valid() && h in taken
      modifies this`status, this`usedR, this`reqs, this`taken
      ensures h in old(reqs).phase && old(reqs).phase[h] == Taken && taken == old(taken) - {h}
      ensures Valid() && reqs == Completed(old(reqs), h)
      ensures |old(usedR).slots| == NUM && usedR == Pushed(old(usedR), h) && h < |old(status)|
      ensures status == old(status)[h := st]
    {
      OneThird();
      WireComplete(avail, usedR, info, status, onDisk, reqs, h, st);
      WorksLess(taken, reqs.phase, h, Used);
      status := status[h := st];
      usedR := Pushed(usedR, h);
      taken := taken - {h};
      reqs := Completed(reqs, h);
    }
  }
}
