/** The free list of the user-level allocator (user/umalloc.c), after section 8.7 of The C
    Programming Language, 2nd edition: a ring of blocks in address order.  Addresses and
    sizes count headers. */
module FreeList {
  datatype Block = Block(addr: int, size: nat)

  function End(b: Block): int { b.addr + b.size }

  /** s.ptr and s.size of the header at an address. */
  datatype Header = Header(ptr: int, size: nat)

  predicate Apart(a: Block, b: Block) {
    End(a) <= b.addr || End(b) <= a.addr
  }

  predicate Before(a: Block, b: Block) {
    End(a) < b.addr
  }

  function Next(i: nat, n: nat): nat {
    if i + 1 >= n then 0 else i + 1
  }

  /** ring[0] is the static block `base` of size 0; the others are in address order, and
      no two of them touch. */
  ghost predicate Ordered(ring: seq<Block>) {
    && |ring| >= 1 && ring[0].size == 0
    && (forall i :: 0 < i < |ring| ==> ring[i].size > 0 && ring[0].addr < ring[i].addr)
    && (forall i, j {:trigger Before(ring[i], ring[j])} :: 0 < i < j < |ring| ==> Before(ring[i], ring[j]))
  }

  predicate LinkAt(mem: map<int, Header>, ring: seq<Block>, i: nat)
    requires i < |ring|
  {
    ring[i].addr in mem && mem[ring[i].addr] == Header(ring[Next(i, |ring|)].addr, ring[i].size)
  }

  /** The headers in memory form the ring: one cycle with a single wrap. */
  ghost predicate Linked(mem: map<int, Header>, ring: seq<Block>) {
    forall i {:trigger LinkAt(mem, ring, i)} :: 0 <= i < |ring| ==> LinkAt(mem, ring, i)
  }

  function Sum(s: seq<Block>): nat {
    if s == [] then 0 else Sum(s[..|s| - 1]) + s[|s| - 1].size
  }

  lemma {:induction false} SumSplit(s: seq<Block>, t: seq<Block>)
    ensures Sum(s + t) == Sum(s) + Sum(t)
  {
    if t == [] {
      assert s + t == s;
    } else {
      assert (s + t)[..|s + t| - 1] == s + t[..|t| - 1];
      SumSplit(s, t[..|t| - 1]);
    }
  }

  /** ring with the blocks i..j replaced by b. */
  function Put(ring: seq<Block>, i: nat, j: nat, b: Block): seq<Block>
    requires i <= j <= |ring|
  {
    ring[..i] + [b] + ring[j..]
  }

  lemma SumThree(a: seq<Block>, b: seq<Block>, c: seq<Block>)
    ensures Sum(a + b + c) == Sum(a) + Sum(b) + Sum(c)
  {
    SumSplit(a + b, c);
    SumSplit(a, b);
  }

  lemma SumOne(b: Block)
    ensures Sum([b]) == b.size
  {
    assert [b][..0] == [];
  }

  lemma SumPut(ring: seq<Block>, i: nat, j: nat, b: Block)
    requires i <= j <= |ring|
    ensures Sum(Put(ring, i, j, b)) == Sum(ring) - Sum(ring[i..j]) + b.size
  {
    SumThree(ring[..i], [b], ring[j..]);
    SumOne(b);
    SumThree(ring[..i], ring[i..j], ring[j..]);
    assert ring[..i] + ring[i..j] + ring[j..] == ring;
  }

  lemma SumWithout(a: seq<Block>, x: Block, c: seq<Block>)
    ensures Sum(a + c) == Sum(a + [x] + c) - x.size
  {
    SumSplit(a, c);
    SumThree(a, [x], c);
    SumOne(x);
  }

  lemma SplitAt(ring: seq<Block>, i: nat)
    requires i < |ring|
    ensures ring[..i] + [ring[i]] + ring[i + 1..] == ring
  {
  }

  lemma SumCut(ring: seq<Block>, i: nat)
    requires i < |ring|
    ensures Sum(ring[..i] + ring[i + 1..]) == Sum(ring) - ring[i].size
  {
    SplitAt(ring, i);
    SumWithout(ring[..i], ring[i], ring[i + 1..]);
  }

  lemma Increasing(ring: seq<Block>, i: nat, j: nat)
    requires Ordered(ring) && i < j < |ring|
    ensures ring[i].addr < ring[j].addr
  {
    if i > 0 { assert Before(ring[i], ring[j]); }
  }

  /** Writing the header of the new block and of its predecessor relinks the ring. */
  lemma Relink(mem: map<int, Header>, ring: seq<Block>, i: nat, j: nat, b: Block, mem': map<int, Header>)
    requires Ordered(ring) && Linked(mem, ring) && 1 <= i <= j <= |ring|
    requires b.addr in mem' && mem'[b.addr] == Header(if j == |ring| then ring[0].addr else ring[j].addr, b.size)
    requires ring[i - 1].addr in mem' && mem'[ring[i - 1].addr] == Header(b.addr, ring[i - 1].size)
    requires forall t ::
               0 <= t < |ring| && !(i - 1 <= t < j) ==>
               ring[t].addr in mem' && ring[t].addr in mem && mem'[ring[t].addr] == mem[ring[t].addr]
    ensures Linked(mem', Put(ring, i, j, b))
  {
    var ring' := Put(ring, i, j, b);
    forall t | 0 <= t < |ring'|
      ensures LinkAt(mem', ring', t)
    {
      if t < i { assert LinkAt(mem, ring, t); }
      else if t > i { assert ring'[t] == ring[t - i - 1 + j] && LinkAt(mem, ring, t - i - 1 + j); }
    }
  }

  lemma OrderedCut(ring: seq<Block>, i: nat)
    requires Ordered(ring) && 1 <= i < |ring|
    ensures Ordered(ring[..i] + ring[i + 1..])
  {
    var ring' := ring[..i] + ring[i + 1..];
    forall t | 0 < t < |ring'|
      ensures ring'[t].size > 0 && ring[0].addr < ring'[t].addr
    {
      assert ring'[t] == ring[if t < i then t else t + 1];
    }
    forall t, u | 0 < t < u < |ring'|
      ensures Before(ring'[t], ring'[u])
    {
      assert Before(ring[if t < i then t else t + 1], ring[if u < i then u else u + 1]);
    }
  }

  /** Unlinking block i: its predecessor takes over its pointer. */
  lemma Unlink(mem: map<int, Header>, ring: seq<Block>, i: nat)
    requires Ordered(ring) && Linked(mem, ring) && 1 <= i < |ring|
    ensures ring[i - 1].addr in mem && ring[i].addr in mem
    ensures Linked(mem[ring[i - 1].addr := Header(mem[ring[i].addr].ptr, ring[i - 1].size)], ring[..i] + ring[i + 1..])
  {
    assert LinkAt(mem, ring, i) && LinkAt(mem, ring, i - 1);
    var ring' := ring[..i] + ring[i + 1..];
    var mem' := mem[ring[i - 1].addr := Header(mem[ring[i].addr].ptr, ring[i - 1].size)];
    forall t | 0 <= t < |ring'|
      ensures LinkAt(mem', ring', t)
    {
      var u := if t < i then t else t + 1;
      assert ring'[t] == ring[u] && LinkAt(mem, ring, u);
      if u < i - 1 { Increasing(ring, u, i - 1); } else if u > i - 1 { Increasing(ring, i - 1, u); }
    }
  }

  // ---- where a block belongs ----

  /** The block at p is the last one below b. */
  predicate PlaceOf(ring: seq<Block>, b: Block, p: nat) {
    p < |ring| && ring[p].addr < b.addr && (p + 1 < |ring| ==> b.addr < ring[p + 1].addr)
  }

  ghost predicate ClearOf(ring: seq<Block>, b: Block) {
    && |ring| >= 1 && ring[0].addr < b.addr && b.size > 0
    && (forall i {:trigger Apart(b, ring[i])} :: 0 < i < |ring| ==> Apart(b, ring[i]))
  }

  lemma FindPlace(ring: seq<Block>, b: Block) returns (p: nat)
    requires Ordered(ring) && ClearOf(ring, b)
    ensures PlaceOf(ring, b, p)
  {
    p := 0;
    while p + 1 < |ring| && ring[p + 1].addr < b.addr
      invariant p < |ring| && ring[p].addr < b.addr
    {
      p := p + 1;
    }
    assert p + 1 < |ring| ==> Apart(b, ring[p + 1]);
  }

  /** What the neighbours at p look like once b is between them. */
  lemma Neighbours(ring: seq<Block>, b: Block, p: nat)
    requires Ordered(ring) && ClearOf(ring, b) && PlaceOf(ring, b, p)
    ensures forall i :: 0 < i <= p ==> End(ring[i]) <= b.addr
    ensures forall j :: p < j < |ring| ==> End(b) <= ring[j].addr
    ensures forall i :: 0 < i < p ==> Before(ring[i], b) && (p < |ring| ==> Before(ring[i], ring[p]))
    ensures forall j :: p + 1 < j < |ring| ==> Before(b, ring[j]) && Before(ring[p + 1], ring[j])
  {
    if p > 0 { assert Apart(b, ring[p]); }
    if p + 1 < |ring| { assert Apart(b, ring[p + 1]); }
    forall i | 0 < i < p
      ensures Before(ring[i], b) && Before(ring[i], ring[p])
    {
      assert Before(ring[i], ring[p]);
    }
    forall j | p + 1 < j < |ring|
      ensures Before(b, ring[j]) && Before(ring[p + 1], ring[j])
    {
      assert Before(ring[p + 1], ring[j]);
    }
  }

  predicate JoinsLower(ring: seq<Block>, b: Block, p: nat)
    requires p < |ring|
  {
    End(ring[p]) == b.addr
  }

  predicate JoinsUpper(ring: seq<Block>, b: Block, p: nat)
    requires p < |ring|
  {
    p + 1 < |ring| && End(b) == ring[p + 1].addr
  }

  function Joined(ring: seq<Block>, b: Block, p: nat): Block
    requires p < |ring|
  {
    var size := b.size + (if JoinsUpper(ring, b, p) then ring[p + 1].size else 0);
    if JoinsLower(ring, b, p) then Block(ring[p].addr, ring[p].size + size) else Block(b.addr, size)
  }

  /** The ring after free puts b behind p and joins it with the blocks it touches. */
  function Freed(ring: seq<Block>, b: Block, p: nat): seq<Block>
    requires p < |ring|
  {
    Put(ring, if JoinsLower(ring, b, p) then p else p + 1, if JoinsUpper(ring, b, p) then p + 2 else p + 1,
        Joined(ring, b, p))
  }

  lemma BaseNeverJoins(ring: seq<Block>, b: Block, p: nat)
    requires Ordered(ring) && ClearOf(ring, b) && p < |ring| && JoinsLower(ring, b, p)
    ensures p >= 1
  {
  }

  lemma PutAt(ring: seq<Block>, i: nat, j: nat, b: Block, t: nat)
    requires i <= j <= |ring| && t < |Put(ring, i, j, b)|
    ensures Put(ring, i, j, b)[t] == if t < i then ring[t] else if t == i then b else ring[t - i - 1 + j]
  {
  }

  lemma PutOrdered(ring: seq<Block>, i: nat, j: nat, b: Block)
    requires Ordered(ring) && 1 <= i <= j <= |ring| && b.size > 0 && ring[0].addr < b.addr
    requires forall t :: 0 < t < i ==> Before(ring[t], b)
    requires forall t :: j <= t < |ring| ==> Before(b, ring[t])
    ensures Ordered(Put(ring, i, j, b)) && Put(ring, i, j, b)[0] == ring[0]
  {
    var ring' := Put(ring, i, j, b);
    forall t | 0 < t < |ring'|
      ensures ring'[t].size > 0 && ring[0].addr < ring'[t].addr
    {
      PutAt(ring, i, j, b, t);
    }
    forall t, u | 0 < t < u < |ring'|
      ensures Before(ring'[t], ring'[u])
    {
      PutAt(ring, i, j, b, t);
      PutAt(ring, i, j, b, u);
      var t', u' := if t < i then t else t - i - 1 + j, if u < i then u else u - i - 1 + j;
      if t != i && u != i { assert Before(ring[t'], ring[u']); }
    }
  }

  lemma FreedOrdered(ring: seq<Block>, b: Block, p: nat)
    requires Ordered(ring) && ClearOf(ring, b) && PlaceOf(ring, b, p)
    ensures Ordered(Freed(ring, b, p)) && Freed(ring, b, p)[0] == ring[0]
  {
    Neighbours(ring, b, p);
    var lo, hi := JoinsLower(ring, b, p), JoinsUpper(ring, b, p);
    forall t | 0 < t < (if lo then p else p + 1)
      ensures Before(ring[t], Joined(ring, b, p))
    {
      assert t < p ==> Before(ring[t], b) && Before(ring[t], ring[p]);
    }
    PutOrdered(ring, if lo then p else p + 1, if hi then p + 2 else p + 1, Joined(ring, b, p));
  }

  /** Where free leaves its pointer, and where the freed units now are. */
  lemma FreedAt(ring: seq<Block>, b: Block, p: nat)
    requires p < |ring|
    ensures p < |Freed(ring, b, p)| && Freed(ring, b, p)[p].addr == ring[p].addr
    ensures var g := if JoinsLower(ring, b, p) then p else p + 1;
            g < |Freed(ring, b, p)| && Freed(ring, b, p)[g] == Joined(ring, b, p)
  {
    var lo, hi := JoinsLower(ring, b, p), JoinsUpper(ring, b, p);
    var i, j := if lo then p else p + 1, if hi then p + 2 else p + 1;
    PutAt(ring, i, j, Joined(ring, b, p), p);
    PutAt(ring, i, j, Joined(ring, b, p), i);
  }

  lemma SumPart(ring: seq<Block>, i: nat, j: nat)
    requires i <= j <= |ring| && j <= i + 2
    ensures Sum(ring[i..j]) == (if j > i then ring[i].size else 0) + (if j > i + 1 then ring[i + 1].size else 0)
  {
    if j == i + 1 {
      assert ring[i..j] == [ring[i]];
      SumOne(ring[i]);
    } else if j == i + 2 {
      SumTwo(ring[i], ring[i + 1]);
      assert ring[i..j] == [ring[i], ring[i + 1]];
    }
  }

  lemma SumTwo(a: Block, b: Block)
    ensures Sum([a, b]) == a.size + b.size
  {
    assert [a, b][..1] == [a];
    SumOne(a);
  }

  /** The joined block is as large as b and what it takes the place of. */
  lemma JoinedSize(ring: seq<Block>, b: Block, p: nat, i: nat, j: nat)
    requires p < |ring| && i == (if JoinsLower(ring, b, p) then p else p + 1)
    requires j == (if JoinsUpper(ring, b, p) then p + 2 else p + 1)
    ensures Joined(ring, b, p).size == Sum(ring[i..j]) + b.size
  {
    SumPart(ring, i, j);
  }

  lemma {:induction false} FreedSum(ring: seq<Block>, b: Block, p: nat)
    requires p < |ring|
    ensures Sum(Freed(ring, b, p)) == Sum(ring) + b.size
  {
    var i, j := if JoinsLower(ring, b, p) then p else p + 1, if JoinsUpper(ring, b, p) then p + 2 else p + 1;
    JoinedSize(ring, b, p, i, j);
    SumPut(ring, i, j, Joined(ring, b, p));
  }

  lemma FreedClear(ring: seq<Block>, b: Block, p: nat, x: Block)
    requires Ordered(ring) && ClearOf(ring, b) && PlaceOf(ring, b, p) && ClearOf(ring, x) && Apart(x, b)
    ensures ClearOf(Freed(ring, b, p), x)
  {
    FreedOrdered(ring, b, p);
    var lo, hi := JoinsLower(ring, b, p), JoinsUpper(ring, b, p);
    var i, j := if lo then p else p + 1, if hi then p + 2 else p + 1;
    var ring' := Freed(ring, b, p);
    JoinedClear(ring, b, p, x);
    forall t | 0 < t < |ring'|
      ensures Apart(x, ring'[t])
    {
      PutAt(ring, i, j, Joined(ring, b, p), t);
    }
  }

  lemma JoinedClear(ring: seq<Block>, b: Block, p: nat, x: Block)
    requires Ordered(ring) && ClearOf(ring, b) && PlaceOf(ring, b, p) && ClearOf(ring, x) && Apart(x, b)
    ensures Apart(x, Joined(ring, b, p))
  {
    if JoinsLower(ring, b, p) {
      BaseNeverJoins(ring, b, p);
      assert Apart(x, ring[p]);
    }
    if JoinsUpper(ring, b, p) { assert Apart(x, ring[p + 1]); }
  }
}
