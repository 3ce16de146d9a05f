/** The buffer cache of kernel/bio.c: NBUF buffers on a doubly linked ring kept in
    order of last release, with head.next the most recent and head.prev the least. */
module BufferCache {
  import opened Prelude

  /** A cursor position on the ring: position -1 and position |order| are the list
      head, the positions between are the buffers in order. */
  function NodeAt(head: nat, order: seq<nat>, k: int): nat
    requires -1 <= k <= |order|
  {
    if 0 <= k < |order| then order[k] else head
  }

  ghost predicate DistinctBelow(order: seq<nat>, n: nat) {
    && (forall k :: 0 <= k < |order| ==> order[k] < n)
    && (forall i, j :: 0 <= i < j < |order| ==> order[i] != order[j])
  }

  /** next and prev are mutually inverse around the ring head, order[0], order[1], ... */
  ghost predicate Ring(next: seq<nat>, prev: seq<nat>, head: nat, order: seq<nat>) {
    && |next| == |prev| == head + 1
    && DistinctBelow(order, head)
    && (forall k :: -1 <= k < |order| ==> next[NodeAt(head, order, k)] == NodeAt(head, order, k + 1))
    && (forall k :: 0 <= k <= |order| ==> prev[NodeAt(head, order, k)] == NodeAt(head, order, k - 1))
  }

  function RemoveAt(order: seq<nat>, p: nat): seq<nat>
    requires p < |order|
  {
    order[..p] + order[p + 1..]
  }

  /** b->next->prev = b->prev; b->prev->next = b->next takes b out of the ring. */
  lemma UnlinkRing(next: seq<nat>, prev: seq<nat>, head: nat, order: seq<nat>, p: nat)
    requires Ring(next, prev, head, order) && p < |order|
    ensures var b := order[p];
            prev[b] <= head && next[b] <= head &&
            Ring(next[prev[b] := next[b]], prev[next[b] := prev[b]], head, RemoveAt(order, p))
  {
    var b := order[p];
    assert NodeAt(head, order, p) == b;
    var before, after := NodeAt(head, order, p - 1), NodeAt(head, order, p + 1);
    assert prev[b] == before && next[b] == after;
    UnlinkNext(next, head, order, p);
    UnlinkPrev(prev, head, order, p);
  }

  lemma UnlinkNext(next: seq<nat>, head: nat, order: seq<nat>, p: nat)
    requires DistinctBelow(order, head) && p < |order| && |next| == head + 1
    requires forall k :: -1 <= k < |order| ==> next[NodeAt(head, order, k)] == NodeAt(head, order, k + 1)
    ensures var next', rest := next[NodeAt(head, order, p - 1) := NodeAt(head, order, p + 1)], RemoveAt(order, p);
            forall k :: -1 <= k < |rest| ==> next'[NodeAt(head, rest, k)] == NodeAt(head, rest, k + 1)
  {
    var next', rest := next[NodeAt(head, order, p - 1) := NodeAt(head, order, p + 1)], RemoveAt(order, p);
    forall k | -1 <= k < |rest|
      ensures next'[NodeAt(head, rest, k)] == NodeAt(head, rest, k + 1)
    {
      var m := if k < p then k else k + 1;
      RestNode(head, order, p, k);
      RestNode(head, order, p, k + 1);
      NodesDiffer(head, order, m, p - 1);
      assert next[NodeAt(head, order, m)] == NodeAt(head, order, m + 1);
    }
  }

  lemma UnlinkPrev(prev: seq<nat>, head: nat, order: seq<nat>, p: nat)
    requires DistinctBelow(order, head) && p < |order| && |prev| == head + 1
    requires forall k :: 0 <= k <= |order| ==> prev[NodeAt(head, order, k)] == NodeAt(head, order, k - 1)
    ensures var prev', rest := prev[NodeAt(head, order, p + 1) := NodeAt(head, order, p - 1)], RemoveAt(order, p);
            forall k :: 0 <= k <= |rest| ==> prev'[NodeAt(head, rest, k)] == NodeAt(head, rest, k - 1)
  {
    var prev', rest := prev[NodeAt(head, order, p + 1) := NodeAt(head, order, p - 1)], RemoveAt(order, p);
    forall k | 0 <= k <= |rest|
      ensures prev'[NodeAt(head, rest, k)] == NodeAt(head, rest, k - 1)
    {
      var m := if k < p then k else k + 1;
      RestNode(head, order, p, k);
      RestNode(head, order, p, k - 1);
      NodesDiffer(head, order, m, p + 1);
      assert prev[NodeAt(head, order, m)] == NodeAt(head, order, m - 1);
    }
  }

  lemma RestNode(head: nat, order: seq<nat>, p: nat, k: int)
    requires p < |order| && -1 <= k < |order|
    ensures NodeAt(head, RemoveAt(order, p), k) == NodeAt(head, order, if k < p then k else k + 1)
  {
  }

  /** Positions of a ring name different nodes, except that both ends are the head. */
  lemma NodesDiffer(head: nat, order: seq<nat>, i: int, j: int)
    requires DistinctBelow(order, head) && -1 <= i <= |order| && -1 <= j <= |order|
    ensures NodeAt(head, order, i) == NodeAt(head, order, j) <==>
            i == j || (i in {-1, |order|} && j in {-1, |order|})
  {
  }

  /** Linking b in just after the head. */
  lemma PushRing(next: seq<nat>, prev: seq<nat>, head: nat, order: seq<nat>, b: nat)
    requires Ring(next, prev, head, order) && b < head && b !in order
    ensures next[head] <= head
    ensures Ring(next[b := next[head]][head := b], prev[b := head][next[head] := b], head, [b] + order)
  {
    var first := NodeAt(head, order, 0);
    assert next[NodeAt(head, order, -1)] == first;
    var next', prev', longer := next[b := first][head := b], prev[b := head][first := b], [b] + order;
    forall k | -1 <= k < |longer|
      ensures next'[NodeAt(head, longer, k)] == NodeAt(head, longer, k + 1)
    {
      if k >= 1 {
        assert NodeAt(head, longer, k) == NodeAt(head, order, k - 1);
        assert NodeAt(head, longer, k + 1) == NodeAt(head, order, k);
      }
    }
    forall k | 0 <= k <= |longer|
      ensures prev'[NodeAt(head, longer, k)] == NodeAt(head, longer, k - 1)
    {
      if k >= 2 {
        assert NodeAt(head, longer, k) == NodeAt(head, order, k - 1);
        assert NodeAt(head, longer, k - 1) == NodeAt(head, order, k - 2);
        NodesDiffer(head, order, k - 1, 0);
        assert prev[NodeAt(head, order, k - 1)] == NodeAt(head, order, k - 2);
      }
    }
  }

  /** The six pointer writes of brelse move b to the front of the ring. */
  lemma MoveRing(next: seq<nat>, prev: seq<nat>, head: nat, order: seq<nat>, p: nat)
    requires Ring(next, prev, head, order) && p < |order|
    ensures var b := order[p];
            && prev[b] <= head && next[b] <= head
            && var next1, prev1 := next[prev[b] := next[b]], prev[next[b] := prev[b]];
               && next1[head] <= head
               && Ring(next1[b := next1[head]][head := b], prev1[b := head][next1[head] := b], head,
                       [b] + RemoveAt(order, p))
  {
    var b := order[p];
    UnlinkRing(next, prev, head, order, p);
    PushRing(next[prev[b] := next[b]], prev[next[b] := prev[b]], head, RemoveAt(order, p), b);
  }

  /** Releasing the buffer at position p now makes it the most recent one. */
  lemma MoveRecency(order: seq<nat>, stamp: seq<nat>, p: nat, now: nat)
    requires ByRecency(order, stamp) && p < |order| && DistinctBelow(order, |stamp|)
    requires forall i :: 0 <= i < |stamp| ==> stamp[i] <= now
    ensures ByRecency([order[p]] + RemoveAt(order, p), stamp[order[p] := now + 1])
  {
  }

  /** The fields of struct buf that bcache.lock protects. */
  datatype Slot = Slot(dev: nat, blockno: nat, valid: bool, refcnt: nat)

  predicate Has(b: Slot, dev: nat, blockno: nat) {
    b.dev == dev && b.blockno == blockno
  }

  /** No two buffers hold the same block of a real device; binit leaves every
      buffer with device 0. */
  ghost predicate UniqueKeys(slots: seq<Slot>) {
    forall i, j :: 0 <= i < j < |slots| && slots[i].dev != 0 ==>
      !Has(slots[j], slots[i].dev, slots[i].blockno)
  }

  lemma RefcntKeepsKeys(slots: seq<Slot>, b: nat, n: nat)
    requires UniqueKeys(slots) && b < |slots|
    ensures UniqueKeys(slots[b := slots[b].(refcnt := n)])
  {
  }

  lemma RecycleKeepsKeys(slots: seq<Slot>, b: nat, dev: nat, blockno: nat)
    requires UniqueKeys(slots) && b < |slots|
    requires forall i :: 0 <= i < |slots| ==> !Has(slots[i], dev, blockno)
    ensures UniqueKeys(slots[b := Slot(dev, blockno, false, 1)])
  {
  }

  /** Buffers nearer the front of the ring were released more recently. */
  ghost predicate ByRecency(order: seq<nat>, stamp: seq<nat>) {
    && (forall k :: 0 <= k < |order| ==> order[k] < |stamp|)
    && (forall i, j :: 0 <= i < j < |order| ==> stamp[order[i]] >= stamp[order[j]])
  }

  class Bcache {
    const nbuf: nat
    var slots: seq<Slot>
    var next: seq<nat>
    var prev: seq<nat>
    /** The buffers from head.next to head.prev. */
    ghost var order: seq<nat>
    /** When brelse last dropped each buffer's reference count to zero (bunpin leaves the ring
        alone, and with it the stamp), and the time now. */
    ghost var stamp: seq<nat>
    ghost var now: nat

    ghost predicate Valid()
      reads this
    {
      && |slots| == |stamp| == |order| == nbuf
      && Ring(next, prev, nbuf, order)
      && UniqueKeys(slots)
      && ByRecency(order, stamp)
      && (forall i :: 0 <= i < |stamp| ==> stamp[i] <= now)
    }

    /** binit */
    constructor (nbuf: nat)
      ensures Valid() && this.nbuf == nbuf
      ensures forall i :: 0 <= i < nbuf ==> slots[i] == Slot(0, 0, false, 0)
    {
      this.nbuf := nbuf;
      slots := seq(nbuf, _ => Slot(0, 0, false, 0));
      next := seq(nbuf + 1, _ => nbuf);
      prev := seq(nbuf + 1, _ => nbuf);
      order := [];
      stamp := seq(nbuf, _ => 0);
      now := 0;
      new;
      var b := 0;
      while b < nbuf
        invariant 0 <= b <= nbuf
        invariant |order| == b && forall k :: 0 <= k < b ==> order[k] < b
        invariant Ring(next, prev, nbuf, order)
        invariant |slots| == |stamp| == nbuf && now == 0
        invariant forall i :: 0 <= i < nbuf ==> slots[i] == Slot(0, 0, false, 0) && stamp[i] == 0
      {
        PushRing(next, prev, nbuf, order, b);
        var first := next[nbuf];
        next := next[b := first];
        prev := prev[b := nbuf];
        prev := prev[first := b];
        next := next[nbuf := b];
        order := [b] + order;
        b := b + 1;
      }
    }

    /** Every buffer is on the ring. */
    lemma AllOnRing(b: nat)
      requires Valid() && b < nbuf
      ensures b in order
    {
      AllBelow(order, nbuf, b);
    }

    /** bget: take a reference to the buffer that caches the block; if there is none,
        recycle the least recently released buffer nobody refers to.  None is the
        "no buffers" panic. */
    method Bget(dev: nat, blockno: nat) returns (r: Option<nat>)
      requires Valid()
      modifies this
      ensures Valid() && order == old(order) && stamp == old(stamp) && now == old(now)
      ensures r.None? <==> (forall i :: 0 <= i < nbuf ==> !Has(old(slots)[i], dev, blockno) && old(slots)[i].refcnt > 0)
      ensures r.None? ==> slots == old(slots)
      ensures r.Some? ==> r.value < nbuf
      ensures r.Some? && Has(old(slots)[r.value], dev, blockno) ==>
                slots == old(slots)[r.value := old(slots)[r.value].(refcnt := old(slots)[r.value].refcnt + 1)]
      ensures r.Some? && !Has(old(slots)[r.value], dev, blockno) ==>
                && (forall i :: 0 <= i < nbuf ==> !Has(old(slots)[i], dev, blockno))
                && old(slots)[r.value].refcnt == 0
                && (forall i :: 0 <= i < nbuf && old(slots)[i].refcnt == 0 ==> stamp[r.value] <= stamp[i])
                && slots == old(slots)[r.value := Slot(dev, blockno, false, 1)]
    {
      r := FindCached(dev, blockno);
      if r.Some? {
        var b := r.value;
        RefcntKeepsKeys(slots, b, slots[b].refcnt + 1);
        slots := slots[b := slots[b].(refcnt := slots[b].refcnt + 1)];
      } else {
        r := FindUnused();
        if r.Some? {
          RecycleKeepsKeys(slots, r.value, dev, blockno);
          slots := slots[r.value := Slot(dev, blockno, false, 1)];
        }
      }
    }

    /** bget's first loop, from head.next forward. */
    method FindCached(dev: nat, blockno: nat) returns (r: Option<nat>)
      requires Valid()
      ensures r.Some? ==> r.value < nbuf && Has(slots[r.value], dev, blockno)
      ensures r.None? ==> forall i :: 0 <= i < nbuf ==> !Has(slots[i], dev, blockno)
    {
      ghost var k := 0;
      var b := next[nbuf];
      assert b == NodeAt(nbuf, order, 0) by { assert NodeAt(nbuf, order, -1) == nbuf; }
      while b != nbuf
        invariant 0 <= k <= |order| && b == NodeAt(nbuf, order, k)
        invariant forall j :: 0 <= j < k ==> !Has(slots[order[j]], dev, blockno)
        decreases |order| - k
      {
        if Has(slots[b], dev, blockno) {
          return Some(b);
        }
        assert next[NodeAt(nbuf, order, k)] == NodeAt(nbuf, order, k + 1);
        b := next[b];
        k := k + 1;
      }
      forall i | 0 <= i < nbuf
        ensures !Has(slots[i], dev, blockno)
      {
        AllOnRing(i);
      }
      return None;
    }

    /** bget's second loop, from head.prev backward. */
    method FindUnused() returns (r: Option<nat>)
      requires Valid()
      ensures r.Some? ==>
                && r.value < nbuf && slots[r.value].refcnt == 0
                && forall i :: 0 <= i < nbuf && slots[i].refcnt == 0 ==> stamp[r.value] <= stamp[i]
      ensures r.None? ==> forall i :: 0 <= i < nbuf ==> slots[i].refcnt > 0
    {
      ghost var k := |order| - 1;
      assert prev[NodeAt(nbuf, order, |order|)] == NodeAt(nbuf, order, k);
      var b := prev[nbuf];
      while b != nbuf
        invariant -1 <= k < |order| && b == NodeAt(nbuf, order, k)
        invariant forall j :: k < j < |order| ==> slots[order[j]].refcnt > 0
        decreases k
      {
        if slots[b].refcnt == 0 {
          LeastRecent(b, k);
          return Some(b);
        }
        assert prev[NodeAt(nbuf, order, k)] == NodeAt(nbuf, order, k - 1);
        b := prev[b];
        k := k - 1;
      }
      forall i | 0 <= i < nbuf
        ensures slots[i].refcnt > 0
      {
        AllOnRing(i);
      }
      return None;
    }

    /** The last unused buffer on the ring was released no later than any other. */
    lemma LeastRecent(b: nat, k: nat)
      requires Valid() && k < |order| && order[k] == b
      requires forall j :: k < j < |order| ==> slots[order[j]].refcnt > 0
      ensures b < nbuf && forall i :: 0 <= i < nbuf && slots[i].refcnt == 0 ==> stamp[b] <= stamp[i]
    {
      forall i | 0 <= i < nbuf && slots[i].refcnt == 0
        ensures stamp[b] <= stamp[i]
      {
        AllOnRing(i);
        var j :| 0 <= j < |order| && order[j] == i;
      }
    }

    /** The part of brelse that holds bcache.lock: drop a reference and, if it was the
        last, make the buffer the most recently used one. */
    method Brelse(b: nat)
      requires Valid() && b < nbuf && slots[b].refcnt > 0
      modifies this
      ensures Valid()
      ensures slots == old(slots)[b := old(slots)[b].(refcnt := old(slots)[b].refcnt - 1)]
      ensures slots[b].refcnt > 0 ==> order == old(order) && stamp == old(stamp)
      ensures slots[b].refcnt == 0 ==> order[0] == b && order[1..] == Without(old(order), b)
    {
      RefcntKeepsKeys(slots, b, slots[b].refcnt - 1);
      slots := slots[b := slots[b].(refcnt := slots[b].refcnt - 1)];
      if slots[b].refcnt == 0 {
        MoveToFront(b);
      }
    }

    /** The relinking in brelse. */
    method MoveToFront(b: nat)
      requires Valid() && b < nbuf
      modifies this`next, this`prev, this`order, this`stamp, this`now
      ensures Valid() && order[0] == b && order[1..] == Without(old(order), b)
    {
      ghost var moved := MovedOrder(b);
      var after, before := next[b], prev[b];
      prev := prev[after := before];
      next := next[before := after];
      var first := next[nbuf];
      next := next[b := first];
      prev := prev[b := nbuf];
      prev := prev[first := b];
      next := next[nbuf := b];
      order := moved;
      now := now + 1;
      stamp := stamp[b := now];
    }

    /** The order after buffer b has been moved to the front. */
    lemma MovedOrder(b: nat) returns (moved: seq<nat>)
      requires Valid() && b < nbuf
      ensures |moved| == |order| && moved[0] == b && moved[1..] == Without(order, b)
      ensures ByRecency(moved, stamp[b := now + 1])
      ensures prev[b] <= nbuf && next[b] <= nbuf
      ensures var next1, prev1 := next[prev[b] := next[b]], prev[next[b] := prev[b]];
              && next1[nbuf] <= nbuf
              && Ring(next1[b := next1[nbuf]][nbuf := b], prev1[b := nbuf][next1[nbuf] := b], nbuf, moved)
    {
      AllOnRing(b);
      var p :| 0 <= p < |order| && order[p] == b;
      MoveRecency(order, stamp, p, now);
      WithoutIsRemoval(order, p, nbuf);
      MoveRing(next, prev, nbuf, order, p);
      moved := [b] + RemoveAt(order, p);
    }

    /** bpin */
    method Bpin(b: nat)
      requires Valid() && b < nbuf
      modifies this
      ensures Valid() && order == old(order)
      ensures slots == old(slots)[b := old(slots)[b].(refcnt := old(slots)[b].refcnt + 1)]
    {
      slots := slots[b := slots[b].(refcnt := slots[b].refcnt + 1)];
    }

    /** bunpin: unlike brelse it never moves the buffer on the ring. */
    method Bunpin(b: nat)
      requires Valid() && b < nbuf && slots[b].refcnt > 0
      modifies this
      ensures Valid() && order == old(order)
      ensures slots == old(slots)[b := old(slots)[b].(refcnt := old(slots)[b].refcnt - 1)]
    {
      slots := slots[b := slots[b].(refcnt := slots[b].refcnt - 1)];
    }
  }

  /** order with every occurrence of b left out. */
  ghost function Without(order: seq<nat>, b: nat): seq<nat> {
    if order == [] then []
    else if order[0] == b then Without(order[1..], b)
    else [order[0]] + Without(order[1..], b)
  }

  lemma {:induction false} WithoutAbsent(order: seq<nat>, b: nat)
    requires b !in order
    ensures Without(order, b) == order
  {
    if order != [] { WithoutAbsent(order[1..], b); }
  }

  lemma {:induction false} WithoutIsRemoval(order: seq<nat>, p: nat, n: nat)
    requires DistinctBelow(order, n) && p < |order|
    ensures Without(order, order[p]) == RemoveAt(order, p)
    decreases |order|
  {
    if p == 0 {
      assert order[0] !in order[1..];
      WithoutAbsent(order[1..], order[0]);
    } else {
      WithoutIsRemoval(order[1..], p - 1, n);
      assert RemoveAt(order, p) == [order[0]] + RemoveAt(order[1..], p - 1);
    }
  }

  /** n distinct numbers below n are all the numbers below n. */
  lemma AllBelow(order: seq<nat>, n: nat, b: nat)
    requires DistinctBelow(order, n) && |order| == n && b < n
    ensures b in order
  {
    RangeSize(n);
    ElementsSize(order, n);
    if b !in order {
      forall x | x in Elements(order)
        ensures x in Range(n) - {b}
      {
        InRange(n, x);
      }
      InRange(n, b);
      SubsetSize(Elements(order), Range(n) - {b});
      assert false;
    }
  }

  ghost function Range(n: nat): set<nat> {
    if n == 0 then {} else Range(n - 1) + {n - 1}
  }

  lemma {:induction false} InRange(n: nat, x: nat)
    ensures x in Range(n) <==> x < n
  {
    if n > 0 { InRange(n - 1, x); }
  }

  lemma {:induction false} RangeSize(n: nat)
    ensures |Range(n)| == n
  {
    if n > 0 {
      RangeSize(n - 1);
      InRange(n - 1, n - 1);
    }
  }

  ghost function Elements(xs: seq<nat>): (s: set<nat>)
    ensures forall x :: x in s <==> x in xs
  {
    if xs == [] then {} else Elements(xs[..|xs| - 1]) + {xs[|xs| - 1]}
  }

  lemma {:induction false} ElementsSize(xs: seq<nat>, n: nat)
    requires DistinctBelow(xs, n)
    ensures |Elements(xs)| == |xs|
    decreases |xs|
  {
    if xs != [] { ElementsSize(xs[..|xs| - 1], n); }
  }
}
