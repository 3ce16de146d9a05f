/** malloc, free and morecore (user/umalloc.c). */
module Malloc {
  import opened Prelude
  import opened FreeList

  type Headers = map<int, Header>

  ghost predicate LiveOk(ring: seq<Block>, live: seq<Block>, top: int) {
    && (forall k {:trigger ClearOf(ring, live[k])} :: 0 <= k < |live| ==> ClearOf(ring, live[k]) && End(live[k]) <= top)
    && (forall k, l {:trigger Apart(live[k], live[l])} :: 0 <= k < l < |live| ==> Apart(live[k], live[l]))
    && (forall i :: 0 <= i < |ring| ==> End(ring[i]) <= top && ring[i].addr < top)
  }

  ghost predicate SizesOk(mem: Headers, live: seq<Block>) {
    forall k :: 0 <= k < |live| ==> live[k].addr in mem && mem[live[k].addr].size == live[k].size
  }

  function Without(live: seq<Block>, k: nat): seq<Block>
    requires k < |live|
  {
    live[..k] + live[k + 1..]
  }

  // ---- free ----

  /** The header writes of free, for block b placed behind ring[p]. */
  function FreeWrites(mem: Headers, ring: seq<Block>, b: Block, p: nat): Headers
    requires p < |ring|
  {
    var next := Next(p, |ring|);
    var up := if JoinsUpper(ring, b, p)
              then Header(ring[Next(next, |ring|)].addr, b.size + ring[next].size)
              else Header(ring[next].addr, b.size);
    var mem1 := mem[b.addr := up];
    if JoinsLower(ring, b, p) then mem1[ring[p].addr := Header(up.ptr, ring[p].size + up.size)]
    else mem1[ring[p].addr := Header(b.addr, ring[p].size)]
  }

  lemma NotInRing(ring: seq<Block>, b: Block)
    requires Ordered(ring) && ClearOf(ring, b)
    ensures forall t :: 0 <= t < |ring| ==> ring[t].addr != b.addr
  {
    forall t | 0 <= t < |ring|
      ensures ring[t].addr != b.addr
    {
      assert t > 0 ==> Apart(b, ring[t]);
    }
  }

  lemma FreeLinks(mem: Headers, ring: seq<Block>, b: Block, p: nat)
    requires Ordered(ring) && Linked(mem, ring) && ClearOf(ring, b) && PlaceOf(ring, b, p)
    ensures Linked(FreeWrites(mem, ring, b, p), Freed(ring, b, p))
  {
    var lo, hi := JoinsLower(ring, b, p), JoinsUpper(ring, b, p);
    var i, j := if lo then p else p + 1, if hi then p + 2 else p + 1;
    var mem' := FreeWrites(mem, ring, b, p);
    NotInRing(ring, b);
    if lo {
      BaseNeverJoins(ring, b, p);
      assert LinkAt(mem, ring, p - 1);
      Increasing(ring, p - 1, p);
    }
    forall t | 0 <= t < |ring| && t != p
      ensures ring[t].addr in mem && ring[t].addr in mem' && mem'[ring[t].addr] == mem[ring[t].addr]
    {
      assert LinkAt(mem, ring, t);
      if t < p { Increasing(ring, t, p); } else { Increasing(ring, p, t); }
    }
    Relink(mem, ring, i, j, Joined(ring, b, p), mem');
  }

  lemma FreeKeepsLive(ring: seq<Block>, live: seq<Block>, top: int, k: nat, p: nat)
    requires Ordered(ring) && LiveOk(ring, live, top) && k < |live| && PlaceOf(ring, live[k], p)
    ensures LiveOk(Freed(ring, live[k], p), Without(live, k), top)
  {
    var b, rest := live[k], Without(live, k);
    assert ClearOf(ring, live[k]);
    var ring' := Freed(ring, b, p);
    forall l | 0 <= l < |rest|
      ensures ClearOf(ring', rest[l]) && End(rest[l]) <= top
    {
      var m := if l < k then l else l + 1;
      assert rest[l] == live[m] && ClearOf(ring, live[m]);
      if m < k { assert Apart(live[m], live[k]); } else { assert Apart(live[k], live[m]); }
      FreedClear(ring, b, p, rest[l]);
    }
    forall l, m | 0 <= l < m < |rest|
      ensures Apart(rest[l], rest[m])
    {
      assert Apart(live[if l < k then l else l + 1], live[if m < k then m else m + 1]);
    }
    FreedBounded(ring, b, p, top);
  }

  lemma FreedBounded(ring: seq<Block>, b: Block, p: nat, top: int)
    requires p < |ring| && End(b) <= top && b.size > 0
    requires (forall i :: 0 <= i < |ring| ==> End(ring[i]) <= top && ring[i].addr < top)
    ensures forall i ::
              0 <= i < |Freed(ring, b, p)| ==> End(Freed(ring, b, p)[i]) <= top && Freed(ring, b, p)[i].addr < top
  {
    var lo, hi := JoinsLower(ring, b, p), JoinsUpper(ring, b, p);
    forall t | 0 <= t < |Freed(ring, b, p)|
      ensures End(Freed(ring, b, p)[t]) <= top && Freed(ring, b, p)[t].addr < top
    {
      PutAt(ring, if lo then p else p + 1, if hi then p + 2 else p + 1, Joined(ring, b, p), t);
    }
  }

  lemma FreeKeepsSizes(mem: Headers, ring: seq<Block>, live: seq<Block>, top: int, k: nat, p: nat)
    requires Ordered(ring) && LiveOk(ring, live, top) && SizesOk(mem, live) && k < |live| && p < |ring|
    ensures SizesOk(FreeWrites(mem, ring, live[k], p), Without(live, k))
  {
    var rest := Without(live, k);
    forall l | 0 <= l < |rest|
      ensures rest[l].addr in FreeWrites(mem, ring, live[k], p)
      ensures FreeWrites(mem, ring, live[k], p)[rest[l].addr].size == rest[l].size
    {
      var m := if l < k then l else l + 1;
      assert rest[l] == live[m];
      assert Apart(live[if m < k then m else k], live[if m < k then k else m]);
      NotInRing(ring, live[m]);
    }
  }

  // ---- walking the ring ----

  /** d steps on from s. */
  function Walk(s: nat, d: nat, n: nat): nat
    requires s < n && d < n
  {
    if s + d < n then s + d else s + d - n
  }

  function Dist(i: nat, j: nat, n: nat): nat
    requires i < n && j < n
  {
    if i <= j then j - i else j + n - i
  }

  ghost predicate HeapOk(mem: Headers, ring: seq<Block>, live: seq<Block>, top: int, obtained: nat) {
    && Ordered(ring) && Linked(mem, ring) && LiveOk(ring, live, top) && SizesOk(mem, live)
    && Sum(ring) + Sum(live) == obtained
  }

  lemma FreeKeeps(mem: Headers, ring: seq<Block>, live: seq<Block>, top: int, obtained: nat, k: nat, p: nat)
    requires HeapOk(mem, ring, live, top, obtained) && k < |live| && PlaceOf(ring, live[k], p)
    ensures HeapOk(FreeWrites(mem, ring, live[k], p), Freed(ring, live[k], p), Without(live, k), top, obtained)
    ensures Freed(ring, live[k], p)[0] == ring[0]
  {
    FreedOrdered(ring, live[k], p);
    FreeLinks(mem, ring, live[k], p);
    FreeKeepsLive(ring, live, top, k, p);
    FreeKeepsSizes(mem, ring, live, top, k, p);
    FreedSum(ring, live[k], p);
    SumCut(live, k);
  }

  /** The loop of free stops at i exactly when i is the place of the block. */
  lemma StopsAtPlace(mem: Headers, ring: seq<Block>, b: Block, i: nat)
    requires Ordered(ring) && Linked(mem, ring) && ClearOf(ring, b) && i < |ring|
    ensures ring[i].addr in mem
    ensures var p := ring[i].addr; var q := mem[p].ptr;
            (b.addr > p && b.addr < q) || (p >= q && (b.addr > p || b.addr < q)) <==> PlaceOf(ring, b, i)
  {
    assert LinkAt(mem, ring, i);
    if i + 1 < |ring| { Increasing(ring, i, i + 1); }
    NotInRing(ring, b);
  }

  // ---- taking a block ----

  /** The last nu units of a free block. */
  function Tail(b: Block, nu: nat): Block
    requires nu <= b.size
  {
    Block(End(b) - nu, nu)
  }

  /** The ring once nu units have been taken from the end of block i. */
  function Taken(ring: seq<Block>, i: nat, nu: nat): seq<Block>
    requires i < |ring| && nu <= ring[i].size
  {
    if nu == ring[i].size then ring[..i] + ring[i + 1..] else ring[i := Block(ring[i].addr, ring[i].size - nu)]
  }

  lemma TakenAt(ring: seq<Block>, i: nat, nu: nat, t: nat)
    requires i < |ring| && nu <= ring[i].size && t < |Taken(ring, i, nu)|
    ensures Taken(ring, i, nu)[t] == if nu == ring[i].size then ring[if t < i then t else t + 1]
                                     else if t == i then Block(ring[i].addr, ring[i].size - nu) else ring[t]
  {
  }

  lemma TakenOrdered(ring: seq<Block>, i: nat, nu: nat)
    requires Ordered(ring) && 1 <= i < |ring| && 0 < nu <= ring[i].size
    ensures Ordered(Taken(ring, i, nu)) && Taken(ring, i, nu)[0] == ring[0]
  {
    if nu == ring[i].size {
      OrderedCut(ring, i);
    } else {
      var ring' := Taken(ring, i, nu);
      forall t, u | 0 < t < u < |ring'|
        ensures Before(ring'[t], ring'[u])
      {
        assert Before(ring[t], ring[u]);
      }
    }
  }

  lemma {:induction false} SumSet(ring: seq<Block>, i: nat, b: Block)
    requires i < |ring|
    ensures Sum(ring[i := b]) == Sum(ring) - ring[i].size + b.size
  {
    assert ring[i := b] == Put(ring, i, i + 1, b);
    SumPut(ring, i, i + 1, b);
    SumPart(ring, i, i + 1);
  }

  lemma TakenSum(ring: seq<Block>, i: nat, nu: nat)
    requires i < |ring| && nu <= ring[i].size
    ensures Sum(Taken(ring, i, nu)) == Sum(ring) - nu
  {
    if nu == ring[i].size { SumCut(ring, i); } else { SumSet(ring, i, Block(ring[i].addr, ring[i].size - nu)); }
  }

  lemma TakenClear(ring: seq<Block>, i: nat, nu: nat, x: Block)
    requires Ordered(ring) && 1 <= i < |ring| && 0 < nu <= ring[i].size && ClearOf(ring, x)
    ensures ClearOf(Taken(ring, i, nu), x) && Apart(x, Tail(ring[i], nu))
  {
    TakenOrdered(ring, i, nu);
    assert Apart(x, ring[i]);
    forall t | 0 < t < |Taken(ring, i, nu)|
      ensures Apart(x, Taken(ring, i, nu)[t])
    {
      TakenAt(ring, i, nu, t);
      var u := if nu == ring[i].size && t >= i then t + 1 else t;
      assert Apart(x, ring[u]);
    }
  }

  lemma TailClear(ring: seq<Block>, i: nat, nu: nat)
    requires Ordered(ring) && 1 <= i < |ring| && 0 < nu <= ring[i].size
    ensures ClearOf(Taken(ring, i, nu), Tail(ring[i], nu))
  {
    TakenOrdered(ring, i, nu);
    var ring' := Taken(ring, i, nu);
    forall t | 0 < t < |ring'|
      ensures Apart(Tail(ring[i], nu), ring'[t])
    {
      TakenAt(ring, i, nu, t);
      var u := if nu == ring[i].size && t >= i then t + 1 else t;
      if u < i { assert Before(ring[u], ring[i]); } else if u > i { assert Before(ring[i], ring[u]); }
    }
  }

  lemma TakeKeepsLive(ring: seq<Block>, live: seq<Block>, top: int, i: nat, nu: nat)
    requires Ordered(ring) && LiveOk(ring, live, top) && 1 <= i < |ring| && 0 < nu <= ring[i].size
    ensures LiveOk(Taken(ring, i, nu), live + [Tail(ring[i], nu)], top)
  {
    var ring', live' := Taken(ring, i, nu), live + [Tail(ring[i], nu)];
    TailClear(ring, i, nu);
    forall k | 0 <= k < |live'|
      ensures ClearOf(ring', live'[k]) && End(live'[k]) <= top
    {
      if k < |live| { assert ClearOf(ring, live[k]); TakenClear(ring, i, nu, live[k]); }
    }
    forall k, l | 0 <= k < l < |live'|
      ensures Apart(live'[k], live'[l])
    {
      if l < |live| { assert Apart(live[k], live[l]); }
      else { assert ClearOf(ring, live[k]); TakenClear(ring, i, nu, live[k]); }
    }
    forall t | 0 <= t < |ring'|
      ensures End(ring'[t]) <= top && ring'[t].addr < top
    {
      TakenAt(ring, i, nu, t);
    }
  }

  /** The header writes of malloc for block i of the ring. */
  function TakeWrites(mem: Headers, ring: seq<Block>, i: nat, nu: nat): Headers
    requires 1 <= i < |ring| && nu <= ring[i].size
  {
    var p := ring[i].addr;
    if nu == ring[i].size then mem[ring[i - 1].addr := Header(ring[Next(i, |ring|)].addr, ring[i - 1].size)]
    else
      var q := Tail(ring[i], nu).addr;
      mem[p := Header(ring[Next(i, |ring|)].addr, ring[i].size - nu)][q := Header(if q in mem then mem[q].ptr else 0,
          nu)]
  }

  lemma TakeLinks(mem: Headers, ring: seq<Block>, i: nat, nu: nat)
    requires Ordered(ring) && Linked(mem, ring) && 1 <= i < |ring| && 0 < nu <= ring[i].size
    ensures Linked(TakeWrites(mem, ring, i, nu), Taken(ring, i, nu))
  {
    if nu == ring[i].size {
      assert LinkAt(mem, ring, i);
      Unlink(mem, ring, i);
    } else {
      var ring', mem' := Taken(ring, i, nu), TakeWrites(mem, ring, i, nu);
      TailClear(ring, i, nu);
      TakenOrdered(ring, i, nu);
      NotInRing(ring', Tail(ring[i], nu));
      forall t | 0 <= t < |ring'|
        ensures LinkAt(mem', ring', t)
      {
        assert LinkAt(mem, ring, t);
        if t < i { Increasing(ring, t, i); } else if t > i { Increasing(ring, i, t); }
      }
    }
  }

  lemma TakeKeepsSizes(mem: Headers, ring: seq<Block>, live: seq<Block>, top: int, i: nat, nu: nat)
    requires Ordered(ring) && Linked(mem, ring) && LiveOk(ring, live, top) && SizesOk(mem, live) && 1 <= i < |ring|
    requires 0 < nu <= ring[i].size
    ensures SizesOk(TakeWrites(mem, ring, i, nu), live + [Tail(ring[i], nu)])
  {
    var live' := live + [Tail(ring[i], nu)];
    assert LinkAt(mem, ring, i);
    Increasing(ring, i - 1, i);
    forall k | 0 <= k < |live'|
      ensures live'[k].addr in TakeWrites(mem, ring, i, nu)
      ensures TakeWrites(mem, ring, i, nu)[live'[k].addr].size == live'[k].size
    {
      if k < |live| {
        assert ClearOf(ring, live[k]) && Apart(live[k], ring[i]);
        NotInRing(ring, live[k]);
      }
    }
  }

  lemma TakeKeeps(mem: Headers, ring: seq<Block>, live: seq<Block>, top: int, obtained: nat, i: nat, nu: nat)
    requires HeapOk(mem, ring, live, top, obtained) && 1 <= i < |ring| && 0 < nu <= ring[i].size
    ensures HeapOk(TakeWrites(mem, ring, i, nu), Taken(ring, i, nu), live + [Tail(ring[i], nu)], top, obtained)
    ensures Taken(ring, i, nu)[0] == ring[0] && i - 1 < |Taken(ring, i, nu)|
    ensures Taken(ring, i, nu)[i - 1].addr == ring[i - 1].addr
  {
    TakenOrdered(ring, i, nu);
    TakeLinks(mem, ring, i, nu);
    TakeKeepsLive(ring, live, top, i, nu);
    TakeKeepsSizes(mem, ring, live, top, i, nu);
    TakenSum(ring, i, nu);
    SumSplit(live, [Tail(ring[i], nu)]);
    SumOne(Tail(ring[i], nu));
  }

  /** Blocks in use and free blocks never overlap, free blocks never touch, and together
      they are exactly the units that came from sbrk. */
  lemma Partition(mem: Headers, ring: seq<Block>, live: seq<Block>, top: int, obtained: nat)
    requires HeapOk(mem, ring, live, top, obtained)
    ensures forall k, l :: 0 <= k < l < |live| ==> Apart(live[k], live[l])
    ensures forall k, i :: 0 <= k < |live| && 0 < i < |ring| ==> Apart(live[k], ring[i])
    ensures forall i, j :: 0 <= i < j < |ring| ==> ring[i].addr < ring[j].addr && End(ring[i]) < ring[j].addr
    ensures Sum(ring[1..]) + Sum(live) == obtained
  {
    forall k, i | 0 <= k < |live| && 0 < i < |ring|
      ensures Apart(live[k], ring[i])
    {
      assert ClearOf(ring, live[k]);
    }
    forall i, j | 0 <= i < j < |ring|
      ensures ring[i].addr < ring[j].addr && End(ring[i]) < ring[j].addr
    {
      if i > 0 { assert Before(ring[i], ring[j]); }
    }
    SumSplit([ring[0]], ring[1..]);
    SumOne(ring[0]);
    assert [ring[0]] + ring[1..] == ring;
  }

  // ---- more memory ----

  /** Units from sbrk above everything there is, as one more block in use. */
  lemma GrowKeeps(mem: Headers, ring: seq<Block>, live: seq<Block>, top: int, obtained: nat, hp: int, nu: nat,
                  h: Header)
    requires HeapOk(mem, ring, live, top, obtained) && hp >= top && nu > 0 && h.size == nu
    ensures HeapOk(mem[hp := h], ring, live + [Block(hp, nu)], hp + nu, obtained + nu)
  {
    GrowMem(mem, ring, live, top, hp, nu, h);
    GrowLive(ring, live, top, hp, nu);
    SumSplit(live, [Block(hp, nu)]);
    SumOne(Block(hp, nu));
  }

  lemma GrowMem(mem: Headers, ring: seq<Block>, live: seq<Block>, top: int, hp: int, nu: nat, h: Header)
    requires Ordered(ring) && Linked(mem, ring) && LiveOk(ring, live, top) && SizesOk(mem, live)
    requires hp >= top && nu > 0 && h.size == nu
    ensures Linked(mem[hp := h], ring) && SizesOk(mem[hp := h], live + [Block(hp, nu)])
  {
    var live', mem' := live + [Block(hp, nu)], mem[hp := h];
    forall i | 0 <= i < |ring|
      ensures LinkAt(mem', ring, i)
    {
      assert LinkAt(mem, ring, i);
    }
    forall k | 0 <= k < |live'|
      ensures live'[k].addr in mem' && mem'[live'[k].addr].size == live'[k].size
    {
      if k < |live| { assert ClearOf(ring, live[k]); }
    }
  }

  lemma GrowLive(ring: seq<Block>, live: seq<Block>, top: int, hp: int, nu: nat)
    requires Ordered(ring) && LiveOk(ring, live, top) && hp >= top && nu > 0
    ensures LiveOk(ring, live + [Block(hp, nu)], hp + nu)
  {
    var live' := live + [Block(hp, nu)];
    forall k | 0 <= k < |live'|
      ensures ClearOf(ring, live'[k]) && End(live'[k]) <= hp + nu
    {
      if k < |live| { assert ClearOf(ring, live[k]); }
    }
    forall k, l | 0 <= k < l < |live'|
      ensures Apart(live'[k], live'[l])
    {
      if l < |live| { assert Apart(live[k], live[l]); } else { assert ClearOf(ring, live[k]); }
    }
  }

  ghost predicate AllSmaller(ring: seq<Block>, nu: nat) {
    forall i :: 0 <= i < |ring| ==> ring[i].size < nu
  }

  const INT: nat := 0x1_0000_0000

  /** The units that sbrk adds to the heap when asked for nu of them: its argument is an int
      of bytes, and where that comes out negative growproc leaves the heap as it is. */
  function Granted(nu: nat): nat {
    var bytes := 16 * nu % INT;
    if bytes < INT / 2 then bytes / 16 else 0
  }

  const SBRK_LIMIT: nat := INT / 2 / 16

  /** sbrk gives all that it is asked for exactly below this limit. */
  lemma GrantedIff(nu: nat)
    ensures Granted(nu) == nu <==> nu < 0x800_0000
    ensures Granted(nu) <= nu
  {
  }

  /** What morecore comes back with: a place to go on from, nothing because sbrk failed, or
      fewer units than it goes on to claim. */
  datatype Core = Grown(p: int) | Nothing | TooFew

  /** What malloc comes back with; Overruns is the write of a header into memory that sbrk
      did not give. */
  datatype Outcome = Gave(addr: int) | NoMemory | Overruns

  function Ask(nu: nat): nat {
    if nu < 4096 then 4096 else nu
  }

  /** A second lap: the first found nothing, and sbrk has given enough. */
  ghost predicate Again(ring0: seq<Block>, nunits: nat, more: Option<int>) {
    AllSmaller(ring0, nunits) && more.Some? && nunits < SBRK_LIMIT
  }

  /** Header units for nbytes and the header itself. */
  function Units(nbytes: nat): nat {
    (nbytes + 15) / 16 + 1
  }

  class Allocator {
    const base: int
    var mem: Headers
    var freep: int // 0 before the first malloc
    ghost var ring: seq<Block>
    ghost var f: nat
    ghost var live: seq<Block>
    ghost var top: int
    ghost var obtained: nat

    ghost predicate Valid()
      reads this
    {
      && base > 0 && |ring| >= 1 && ring[0] == Block(base, 0)
      && (freep == 0 ==> live == [] && ring == [Block(base, 0)] && obtained == 0 && base < top)
      && (freep != 0 ==> HeapOk(mem, ring, live, top, obtained) && f < |ring| && ring[f].addr == freep)
    }

    constructor (base: int, top: int)
      requires 0 < base < top
      ensures Valid() && live == [] && this.base == base && this.top == top && obtained == 0
    {
      this.base, mem, freep := base, map[], 0;
      ring, f, live, this.top, obtained := [Block(base, 0)], 0, [], top, 0;
    }

    /** The search loop of free: ends at the last free block below b. */
    method Locate(ghost b: Block, bp: int) returns (p: int, ghost i: nat)
      requires Valid() && freep != 0 && ClearOf(ring, b) && b.addr == bp
      ensures PlaceOf(ring, b, i) && p == ring[i].addr && p in mem
    {
      ghost var place := FindPlace(ring, b);
      p, i := freep, f;
      StopsAtPlace(mem, ring, b, i);
      while !(bp > p && bp < mem[p].ptr)
        invariant i < |ring| && ring[i].addr == p && p in mem
        decreases Dist(i, place, |ring|)
      {
        StopsAtPlace(mem, ring, b, i);
        if p >= mem[p].ptr && (bp > p || bp < mem[p].ptr) { break; }
        assert LinkAt(mem, ring, i);
        i := Next(i, |ring|);
        p := mem[p].ptr;
        assert LinkAt(mem, ring, i);
      }
      StopsAtPlace(mem, ring, b, i);
    }

    /** free of a live block: it joins the ring, merged with the free blocks it touches. */
    method Free(ap: int, ghost k: nat)
      requires Valid() && freep != 0 && k < |live| && live[k].addr == ap - 1
      modifies this`mem, this`freep, this`ring, this`f, this`live
      ensures Valid() && freep != 0 && live == Without(old(live), k)
      ensures f < |old(ring)| && PlaceOf(old(ring), old(live)[k], f) && ring == Freed(old(ring), old(live)[k], f)
    {
      var bp := ap - 1;
      ghost var b := live[k];
      ghost var i;
      var p;
      p, i := Locate(b, bp);
      FreeKeeps(mem, ring, live, top, obtained, k, i);
      FreedAt(ring, b, i);
      assert p != 0;
      WriteHeaders(p, bp, i, b);
      freep := p;
      ring, f, live := Freed(ring, b, i), i, Without(live, k);
    }

    /** The two header updates of free. */
    method WriteHeaders(p: int, bp: int, ghost i: nat, ghost b: Block)
      requires Ordered(ring) && Linked(mem, ring) && ClearOf(ring, b) && PlaceOf(ring, b, i)
      requires p == ring[i].addr && bp == b.addr && bp in mem && mem[bp].size == b.size
      modifies this`mem
      ensures mem == FreeWrites(old(mem), ring, b, i)
    {
      assert LinkAt(mem, ring, i);
      ghost var next := Next(i, |ring|);
      assert LinkAt(mem, ring, next);
      var q := mem[p].ptr;
      Neighbours(ring, b, i);
      if bp + mem[bp].size == q {
        mem := mem[bp := Header(mem[q].ptr, mem[bp].size + mem[q].size)];
      } else {
        mem := mem[bp := Header(q, mem[bp].size)];
      }
      NotInRing(ring, b);
      if p + mem[p].size == bp {
        mem := mem[p := Header(mem[bp].ptr, mem[p].size + mem[bp].size)];
      } else {
        mem := mem[p := Header(bp, mem[p].size)];
      }
    }

    /** Asks sbrk for at least nu units; `more` is where it says they are, if it does. */
    method Morecore(nu: nat, more: Option<int>) returns (r: Core)
      requires Valid() && freep != 0 && 0 < nu && (more.Some? ==> more.value >= top)
      modifies this`mem, this`freep, this`ring, this`f, this`live, this`top, this`obtained
      ensures Valid() && freep != 0 && live == old(live)
      ensures r.Nothing? <==> more.None?
      ensures r.TooFew? <==> more.Some? && Granted(Ask(nu)) < Ask(nu)
      ensures !r.Grown? ==> ring == old(ring) && obtained == old(obtained) && freep == old(freep) && f == old(f)
      ensures r.Grown? ==> r.p == freep && obtained == old(obtained) + Ask(nu)
      ensures r.Grown? ==> !AllSmaller(ring, nu)
    {
      if more.None? { return Nothing; }
      if Granted(Ask(nu)) < Ask(nu) { return TooFew; }
      Obtain(more.value, Ask(nu));
      r := Grown(freep);
    }

    /** The n units from sbrk at hp go to free. */
    method Obtain(hp: int, n: nat)
      requires Valid() && freep != 0 && 0 < n && hp >= top
      modifies this`mem, this`freep, this`ring, this`f, this`live, this`top, this`obtained
      ensures Valid() && freep != 0 && live == old(live) && obtained == old(obtained) + n && !AllSmaller(ring, n)
    {
      var h := Header(if hp in mem then mem[hp].ptr else 0, n);
      GrowKeeps(mem, ring, live, top, obtained, hp, n, h);
      mem := mem[hp := h];
      live, top, obtained := live + [Block(hp, n)], hp + n, obtained + n;
      ghost var full := live;
      Free(hp + 1, |live| - 1);
      assert Without(full, |full| - 1) == old(live);
      ghost var g := BigBlock(old(ring), Block(hp, n), f);
    }

    lemma BigBlock(ring0: seq<Block>, b: Block, p: nat) returns (g: nat)
      requires p < |ring0| && ring == Freed(ring0, b, p)
      ensures g < |ring| && ring[g].size >= b.size
    {
      FreedAt(ring0, b, p);
      g := if JoinsLower(ring0, b, p) then p else p + 1;
    }

    /** The header writes of malloc: unlink the block at p, or cut its tail off. */
    method Carve(prevp: int, p: int, nu: nat, ghost i: nat) returns (q: int)
      requires Ordered(ring) && Linked(mem, ring) && 1 <= i < |ring| && 0 < nu <= ring[i].size && p == ring[i].addr
      requires prevp == ring[i - 1].addr
      modifies this`mem
      ensures mem == TakeWrites(old(mem), ring, i, nu) && q == Tail(ring[i], nu).addr
    {
      assert LinkAt(mem, ring, i) && LinkAt(mem, ring, i - 1);
      q := p;
      if mem[p].size == nu {
        mem := mem[prevp := Header(mem[p].ptr, mem[prevp].size)];
      } else {
        mem := mem[p := Header(mem[p].ptr, mem[p].size - nu)];
        q := p + mem[p].size;
        mem := mem[q := Header(if q in mem then mem[q].ptr else 0, nu)];
      }
    }

    /** Takes the last nu units of the free block at p, the one after prevp. */
    method Take(prevp: int, p: int, nu: nat, ghost i: nat) returns (a: int)
      requires Valid() && freep != 0 && 1 <= i < |ring| && 0 < nu <= ring[i].size && p == ring[i].addr
      requires prevp == ring[i - 1].addr
      modifies this`mem, this`freep, this`ring, this`f, this`live
      ensures Valid() && freep != 0 && live == old(live) + [Block(a - 1, nu)] && ring == Taken(old(ring), i, nu)
    {
      TakeKeeps(mem, ring, live, top, obtained, i, nu);
      Increasing(ring, 0, i);
      if i > 1 { Increasing(ring, 0, i - 1); }
      assert prevp > 0;
      var q := Carve(prevp, p, nu, i);
      live := live + [Tail(ring[i], nu)];
      ring, f := Taken(ring, i, nu), i - 1;
      freep := prevp;
      a := q + 1;
    }

    /** Takes from the block at p if it is large enough. */
    method Look(prevp: int, p: int, nunits: nat, ghost d: nat) returns (a: Option<int>)
      requires Valid() && freep != 0 && nunits > 0 && d < |ring| && OnLap(mem, ring, f, d, prevp, p)
      requires Smaller(ring, f, d, nunits)
      modifies this`mem, this`freep, this`ring, this`f, this`live
      ensures Valid() && freep != 0
      ensures a.Some? ==> live == old(live) + [Block(a.value - 1, nunits)] && !AllSmaller(old(ring), nunits)
      ensures obtained == old(obtained)
      ensures a.None? ==>
                mem == old(mem) && freep == old(freep) && ring == old(ring) && f == old(f) && live == old(live)
                && Smaller(ring, f, d + 1, nunits)
    {
      ghost var i := Walk(Next(f, |ring|), d, |ring|);
      assert LinkAt(mem, ring, i);
      if mem[p].size >= nunits {
        BeforeOnLap(mem, ring, f, d, prevp, p, nunits);
        var q := Take(prevp, p, nunits, i);
        return Some(q);
      }
      SmallerMore(ring, f, d, nunits);
      a := None;
    }

    /** malloc's loop from freep until it is back there: first fit, or no block is enough. */
    method Lap(nunits: nat) returns (a: Option<int>)
      requires Valid() && freep != 0 && 0 < nunits
      modifies this`mem, this`freep, this`ring, this`f, this`live
      ensures Valid() && freep != 0
      ensures a.Some? <==> !AllSmaller(old(ring), nunits)
      ensures a.Some? ==> live == old(live) + [Block(a.value - 1, nunits)]
      ensures a.None? ==>
                mem == old(mem) && freep == old(freep) && ring == old(ring) && f == old(f) && live == old(live)
    {
      StartLap(mem, ring, f);
      var prevp, p := freep, mem[freep].ptr;
      ghost var d := 0;
      while true
        invariant Valid() && freep != 0 && d < |ring|
        invariant mem == old(mem) && freep == old(freep) && ring == old(ring) && f == old(f) && live == old(live)
        invariant OnLap(mem, ring, f, d, prevp, p) && Smaller(ring, f, d, nunits)
        decreases |ring| - d
      {
        a := Look(prevp, p, nunits, d);
        if a.Some? { return; }
        if p == freep { break; }
        NextOnLap(mem, ring, f, d, prevp, p);
        d := d + 1;
        prevp, p := p, mem[p].ptr;
      }
      LapDone(ring, f, d, nunits);
    }

    /** First fit from freep on, and another lap after morecore: malloc's one loop, with the
        laps told apart. */
    method Search(nunits: nat, more: Option<int>) returns (r: Outcome)
      requires Valid() && freep != 0 && 0 < nunits && (more.Some? ==> more.value >= top)
      modifies this`mem, this`freep, this`ring, this`f, this`live, this`top, this`obtained
      ensures Valid() && freep != 0
      ensures r.NoMemory? <==> more.None? && AllSmaller(old(ring), nunits)
      ensures r.Overruns? <==> more.Some? && nunits >= SBRK_LIMIT && AllSmaller(old(ring), nunits)
      ensures !r.Gave? ==> live == old(live) && ring == old(ring) && obtained == old(obtained)
      ensures r.Gave? ==> live == old(live) + [Block(r.addr - 1, nunits)]
      ensures obtained == old(obtained) || AllSmaller(old(ring), nunits)
    {
      ghost var grown := false;
      while true
        invariant Valid() && freep != 0 && live == old(live)
        invariant if grown then Again(old(ring), nunits, more) && !AllSmaller(ring, nunits)
                  else ring == old(ring) && obtained == old(obtained) && top == old(top)
        decreases !grown
      {
        var a := Lap(nunits);
        if a.Some? { return Gave(a.value); }
        GrantedIff(Ask(nunits));
        var q := Morecore(nunits, more);
        if !q.Grown? { return if q.Nothing? then NoMemory else Overruns; }
        grown := true;
      }
    }

    /** Fails only when no free block is large enough and sbrk gives nothing; otherwise
        hands out units that were not in use, asking sbrk only if no block was enough.
        Where it has to ask for SBRK_LIMIT units or more, and exactly there, it goes on to
        use memory that it did not get. */
    method Malloc(nbytes: nat, more: Option<int>) returns (r: Outcome)
      requires Valid() && (more.Some? ==> more.value >= top)
      modifies this`mem, this`freep, this`ring, this`f, this`live, this`top, this`obtained
      ensures Valid() && freep != 0
      ensures r.NoMemory? <==> more.None? && AllSmaller(old(ring), Units(nbytes))
      ensures r.Overruns? <==> more.Some? && Units(nbytes) >= SBRK_LIMIT && AllSmaller(old(ring), Units(nbytes))
      ensures !r.Gave? ==> live == old(live) && ring == old(ring) && obtained == old(obtained)
      ensures r.Gave? ==> live == old(live) + [Block(r.addr - 1, Units(nbytes))] && 16 * (Units(nbytes) - 1) >= nbytes
      ensures obtained == old(obtained) || AllSmaller(old(ring), Units(nbytes))
    {
      var nunits := Units(nbytes);
      if freep == 0 { Init(); }
      r := Search(nunits, more);
    }

    /** The first malloc: base is the only block on the ring. */
    method Init()
      requires Valid() && freep == 0
      modifies this`mem, this`freep, this`f
      ensures Valid() && freep != 0
    {
      mem := mem[base := Header(base, 0)];
      freep := base;
      f := 0;
      BaseRing(mem, base, top);
    }
  }

  lemma BaseRing(mem: Headers, base: int, top: int)
    requires base in mem && mem[base] == Header(base, 0) && base < top
    ensures HeapOk(mem, [Block(base, 0)], [], top, 0)
  {
    var ring := [Block(base, 0)];
    assert LinkAt(mem, ring, 0);
    SumOne(ring[0]);
  }

  // ---- a lap of the ring ----

  /** malloc has gone d steps beyond the block after freep. */
  ghost predicate OnLap(mem: Headers, ring: seq<Block>, f: nat, d: nat, prevp: int, p: int) {
    && f < |ring| && d < |ring|
    && p == ring[Walk(Next(f, |ring|), d, |ring|)].addr
    && prevp == ring[if d == 0 then f else Walk(Next(f, |ring|), d - 1, |ring|)].addr
  }

  /** The blocks passed so far are too small. */
  ghost predicate Smaller(ring: seq<Block>, f: nat, d: nat, nu: nat)
    requires f < |ring| && d <= |ring|
  {
    forall e :: 0 <= e < d ==> ring[Walk(Next(f, |ring|), e, |ring|)].size < nu
  }

  lemma StartLap(mem: Headers, ring: seq<Block>, f: nat)
    requires Linked(mem, ring) && f < |ring|
    ensures ring[f].addr in mem && OnLap(mem, ring, f, 0, ring[f].addr, mem[ring[f].addr].ptr)
  {
    assert LinkAt(mem, ring, f);
  }

  lemma NextOnLap(mem: Headers, ring: seq<Block>, f: nat, d: nat, prevp: int, p: int)
    requires Ordered(ring) && Linked(mem, ring) && OnLap(mem, ring, f, d, prevp, p) && p != ring[f].addr
    ensures d + 1 < |ring| && p in mem && OnLap(mem, ring, f, d + 1, p, mem[p].ptr)
  {
    assert LinkAt(mem, ring, Walk(Next(f, |ring|), d, |ring|));
  }

  lemma SmallerMore(ring: seq<Block>, f: nat, d: nat, nu: nat)
    requires f < |ring| && d < |ring| && Smaller(ring, f, d, nu) && ring[Walk(Next(f, |ring|), d, |ring|)].size < nu
    ensures Smaller(ring, f, d + 1, nu)
  {
  }

  /** Back at freep, every block has been looked at. */
  lemma LapDone(ring: seq<Block>, f: nat, d: nat, nu: nat)
    requires Ordered(ring) && f < |ring| && d < |ring| && Smaller(ring, f, d + 1, nu)
    requires ring[Walk(Next(f, |ring|), d, |ring|)].addr == ring[f].addr
    ensures AllSmaller(ring, nu)
  {
    var i := Walk(Next(f, |ring|), d, |ring|);
    if i < f { Increasing(ring, i, f); } else if f < i { Increasing(ring, f, i); }
    forall i | 0 <= i < |ring|
      ensures ring[i].size < nu
    {
      var e := Dist(Next(f, |ring|), i, |ring|);
      assert Walk(Next(f, |ring|), e, |ring|) == i && e <= d;
    }
  }

  lemma BeforeOnLap(mem: Headers, ring: seq<Block>, f: nat, d: nat, prevp: int, p: int, nu: nat)
    requires Ordered(ring) && OnLap(mem, ring, f, d, prevp, p) && nu > 0
    requires ring[Walk(Next(f, |ring|), d, |ring|)].size >= nu
    ensures var i := Walk(Next(f, |ring|), d, |ring|); i >= 1 && prevp == ring[i - 1].addr
  {
  }
}
