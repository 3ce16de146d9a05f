/** The page allocator and the user page tables (kernel/kalloc.c, kernel/vm.c).
    Every managed page is at all times on the free list once, owned once by a node of a
    page-table tree, or held once by the code that is moving it. */
module VirtualMemory {
  import opened Prelude
  import opened PageTable
  import opened AddressSpace
  import opened PageCount

  ghost predicate Pool(managed: set<nat>, free: seq<nat>, own: map<nat, Node>, held: set<nat>) {
    && (forall i, j :: 0 <= i < j < |free| ==> free[i] != free[j])
    && (forall p :: p in free ==> p in managed && p !in own && p !in held)
    && (forall p :: p in own ==> p in managed && p !in held)
    && held <= managed
    && (forall p :: p in managed ==> p in free || p in own || p in held)
  }

  lemma PopPool(managed: set<nat>, free: seq<nat>, own: map<nat, Node>, held: set<nat>)
    requires Pool(managed, free, own, held) && free != []
    ensures Pool(managed, free[1..], own, held + {free[0]})
  {
    assert forall p :: p in free ==> p == free[0] || p in free[1..];
  }

  lemma PushPool(managed: set<nat>, free: seq<nat>, own: map<nat, Node>, held: set<nat>, p: nat)
    requires Pool(managed, free, own, held) && p in held
    ensures Pool(managed, [p] + free, own, held - {p})
  {
  }

  lemma FreeSet(free: seq<nat>) returns (s: set<nat>)
    requires forall i, j :: 0 <= i < j < |free| ==> free[i] != free[j]
    ensures |s| == |free| && forall p :: p in s <==> p in free
  {
    if free == [] {
      s := {};
    } else {
      var t := FreeSet(free[1..]);
      s := t + {free[0]};
    }
  }

  lemma {:induction false} SameSize(at: map<Node, nat>, own: map<nat, Node>)
    requires Inverse(at, own)
    ensures |at| == |own|
    decreases at.Keys
  {
    if n :| n in at {
      InverseDrop(at, own, n);
      SameSize(at - {n}, own - {at[n]});
      LessOne(at, n);
      LessOne(own, at[n]);
    } else {
      assert own == map[];
    }
  }

  lemma LessOne<K, V>(m: map<K, V>, k: K)
    requires k in m
    ensures |m - {k}| == |m| - 1
  {
    assert (m - {k}).Keys == m.Keys - {k};
    assert |m| == |m.Keys| && |m - {k}| == |(m - {k}).Keys|;
  }

  /** The free pages, the pages of the trees and the pages in flight add up to all pages. */
  lemma PagesAddUp(managed: set<nat>, free: seq<nat>, at: map<Node, nat>, own: map<nat, Node>, held: set<nat>)
    requires Pool(managed, free, own, held) && Inverse(at, own)
    ensures |free| + |at| + |held| == |managed|
    ensures forall p :: p in managed ==> (p in free <==> p !in own && p !in held)
  {
    var s := FreeSet(free);
    SameSize(at, own);
    var taken := own.Keys + held;
    assert own.Keys !! held && |taken| == |own.Keys| + |held| && |own| == |own.Keys|;
    assert s !! taken && s + taken == managed;
  }

  /** The user pages of a process and the free pages are different pages. */
  lemma UserPagesFit(at: map<Node, nat>, own: map<nat, Node>, managed: set<nat>, free: seq<nat>, r: nat, n: nat)
    requires Contiguous(at, r, n) && Inverse(at, own) && Pool(managed, free, own, {}) && n <= MAXVPN
    ensures n + |free| <= |managed|
  {
    CountUserPages(at, own, r, n);
    SubsetSize(UserPages(at, r, n), own.Keys);
    SameSize(at, own);
    PagesAddUp(managed, free, at, own, {});
  }

  predicate From(lo: nat, p: nat) { lo <= p }

  ghost function PageRange(lo: nat, hi: nat): set<nat> {
    set p: nat | p < hi && From(lo, p)
  }

  /** What mappages comes back with: success, no page for a table, or one of its panics. */
  datatype Mapping = Done | NoTable | Remap | NoSize

  class Vm {
    var mem: Memory
    var free: seq<nat>
    ghost var at: map<Node, nat>
    ghost var own: map<nat, Node>
    ghost var held: set<nat>
    ghost const managed: set<nat>

    ghost predicate Sound(hole: Option<Node>)
      reads this
    {
      && Tree(mem, at, hole)
      && Inverse(at, own)
      && Pool(managed, free, own, held)
      && managed <= mem.Keys
    }

    ghost predicate Valid()
      reads this
    {
      Sound(None)
    }

    lemma AddUp()
      requires Valid()
      ensures |free| + |at| + |held| == |managed|
    {
      PagesAddUp(managed, free, at, own, held);
    }

    // ---- kalloc.c ----

    /** kinit: the whole pages between end and PHYSTOP, all on the free list. */
    constructor (end: nat, physTop: nat)
      ensures Valid() && at == map[] && held == {}
      ensures managed == PageRange(Pages(end), physTop / PGSIZE)
    {
      var lo, hi := Pages(end), physTop / PGSIZE;
      mem := map p: nat | p < hi && From(lo, p) :: Fill(0);
      free := [];
      at, own := map[], map[];
      held := PageRange(lo, hi);
      managed := PageRange(lo, hi);
      new;
      var p := lo;
      while (p + 1) * PGSIZE <= physTop
        invariant lo <= p && (p <= hi || p == lo)
        invariant Valid() && at == map[] && held == PageRange(p, hi)
        decreases hi - p
      {
        Kfree(p, None);
        p := p + 1;
      }
    }

    /** Fails only when no page is free. */
    method Kalloc() returns (p: Option<nat>)
      requires Valid()
      modifies this`mem, this`free, this`held
      ensures Valid()
      ensures p.None? <==> old(free) == []
      ensures p.None? ==> mem == old(mem) && free == [] && held == old(held)
      ensures p.Some? ==> p.value !in old(held) && p.value !in own && held == old(held) + {p.value}
      ensures p.Some? ==> mem == old(mem)[p.value := Fill(5)] && old(free) == [p.value] + free
    {
      if free == [] { return None; }
      var r := free[0];
      PopPool(managed, free, own, held);
      OtherPageKeeps(mem, at, own, None, r, Fill(5));
      free := free[1..];
      mem := mem[r := Fill(5)];
      held := held + {r};
      p := Some(r);
    }

    /** The caller holds the page, so it is managed, not free and not mapped. */
    method Kfree(p: nat, ghost hole: Option<Node>)
      requires Sound(hole) && p in held
      modifies this`mem, this`free, this`held
      ensures Sound(hole)
      ensures held == old(held) - {p} && free == [p] + old(free) && mem == old(mem)[p := Fill(1)]
    {
      PushPool(managed, free, own, held, p);
      OtherPageKeeps(mem, at, own, hole, p, Fill(1));
      mem := mem[p := Fill(1)];
      free := [p] + free;
      held := held - {p};
    }

    // ---- walk ----

    /** The lookup of one level failed: allocate, zero and link a table below it. */
    method GrowTable(t: nat, i: nat, ghost n: Node) returns (p: Option<nat>)
      requires Valid() && n in at && at[n] == t && Depth(n) < 2 && i < ENTRIES && IsTable(mem, t) && !mem[t].ptes[i].v
      requires (n.Root? ==> i < ENTRIES / 2)
      modifies this`mem, this`free, this`at, this`own, this`held
      ensures Valid() && held == old(held)
      ensures p.None? ==> mem == old(mem) && free == old(free) == [] && at == old(at) && own == old(own)
      ensures p.Some? ==> p.value !in old(own) && p.value !in old(held) && old(free) == [p.value] + free
      ensures p.Some? ==> mem == AddTable(old(mem), t, i, p.value) && at == old(at)[Child(n, i) := p.value]
      ensures p.Some? ==> own == old(own)[p.value := Child(n, i)]
    {
      p := Kalloc();
      if p.Some? {
        var q := p.value;
        NodeAway(t, n, q);
        AddTableKeeps(mem, at, own, n, i, q);
        AddTableSkips(old(mem), t, i, q, Fill(5));
        mem := mem[q := ZeroTable()];
        mem := SetEntry(mem, t, i, Pointer(q));
        at, own := at[Child(n, i) := q], own[q := Child(n, i)];
        held := held - {q};
      }
    }

    lemma NodeAway(t: nat, n: Node, q: nat)
      requires Valid() && n in at && at[n] == t && q !in own
      ensures t != q
    {
    }

    lemma AddTableSkips(m: Memory, t: nat, i: nat, q: nat, page: Page)
      requires IsTable(m, t) && i < ENTRIES && t != q
      ensures AddTable(m[q := page], t, i, q) == AddTable(m, t, i, q)
    {
    }

    /** One level down from the table at n, made if alloc is set. */
    method Descend(t: nat, i: nat, alloc: bool, ghost n: Node) returns (p: Option<nat>)
      requires Valid() && n in at && at[n] == t && Depth(n) < 2 && i < ENTRIES && (n.Root? ==> i < ENTRIES / 2)
      modifies this`mem, this`free, this`at, this`own, this`held
      ensures Valid() && held == old(held)
      ensures if p.Some? then Child(n, i) in at && p.value == at[Child(n, i)]
              else Child(n, i) !in at && (alloc ==> free == [])
      ensures p.None? || !alloc || Child(n, i) in old(at) ==>
                mem == old(mem) && free == old(free) && at == old(at) && own == old(own)
      ensures Child(n, i) !in old(at) && p.Some? ==> at == old(at)[Child(n, i) := p.value]
      ensures SameEntries(old(mem), mem, old(at)) && DataKept(old(mem), old(own), old(held), mem)
    {
      assert NodeOk(mem, at, None, n);
      NotYet(mem, at, None, n, i);
      var e := mem[t].ptes[i];
      if e.v {
        assert NodeOk(mem, at, None, Child(n, i));
        return Some(e.ppn);
      }
      if !alloc { return None; }
      p := GrowTable(t, i, n);
      if p.Some? {
        AddTableEntries(old(mem), old(at), old(own), n, i, p.value);
      }
    }

    /** The page holding the lowest-level entry for page v, made if alloc is set. */
    method Walk(r: nat, v: nat, alloc: bool) returns (t: Option<nat>)
      requires Valid() && Root(r) in at && v < MAXVPN
      modifies this`mem, this`free, this`at, this`own, this`held
      ensures Valid() && held == old(held)
      ensures t.Some? ==> LowNode(r, v) in at && t.value == at[LowNode(r, v)]
      ensures t.None? ==> LowNode(r, v) !in at && (alloc ==> free == [])
      ensures !alloc ==> mem == old(mem) && free == old(free) && at == old(at) && own == old(own)
      ensures Grown(old(at), at, r, v) && SameEntries(old(mem), mem, old(at))
      ensures DataKept(old(mem), old(own), old(held), mem)
    {
      var level := 2;
      var page := r;
      assert NodeOk(mem, at, None, Root(r));
      while level > 0
        invariant 0 <= level <= 2 && NodeAt(r, v, level) in at && at[NodeAt(r, v, level)] == page
        invariant Valid() && held == old(held)
        invariant !alloc ==> mem == old(mem) && free == old(free) && at == old(at) && own == old(own)
        invariant Grown(old(at), at, r, v) && SameEntries(old(mem), mem, old(at))
        invariant DataKept(old(mem), old(own), old(held), mem)
      {
        ghost var mem0, at0, own0 := mem, at, own;
        var next := Descend(page, Px(level, v), alloc, NodeAt(r, v, level));
        KeptAcross(old(mem), mem0, mem, old(at), at0, old(own), own0, held);
        GrownBelow(old(at), at0, at, r, v, level);
        if next.None? {
          LowNeedsMid(r, v);
          return None;
        }
        page := next.value;
        level := level - 1;
      }
      t := Some(page);
    }

    lemma LowNeedsMid(r: nat, v: nat)
      requires Valid()
      ensures LowNode(r, v) in at ==> MidNode(r, v) in at
    {
      if LowNode(r, v) in at { assert NodeOk(mem, at, None, LowNode(r, v)); }
    }

    // ---- mappages ----

    /** Write a new lowest entry for page v; if owned, the space takes over the page. */
    method PutNew(t: nat, r: nat, v: nat, e: Pte, ghost owned: bool)
      requires Valid() && v < MAXVPN && LowNode(r, v) in at && at[LowNode(r, v)] == t && !Flat(mem, at, r, v).v
      requires e.v && IsLeaf(e) && (if owned then e.ppn in held && IsFrame(mem, e.ppn) else !e.u)
      modifies this`mem, this`at, this`own, this`held
      ensures Valid() && IsTable(old(mem), t) && mem == SetEntry(old(mem), t, Px(0, v), e) && UserNode(r, v) !in old(at)
      ensures at == if owned then old(at)[UserNode(r, v) := e.ppn] else old(at)
      ensures own == if owned then old(own)[e.ppn := UserNode(r, v)] else old(own)
      ensures held == if owned then old(held) - {e.ppn} else old(held)
      ensures OneEntry(old(mem), mem, old(at), r, v, e)
    {
      PathDepth(r, v);
      assert NodeOk(mem, at, None, LowNode(r, v));
      NotYet(mem, at, None, LowNode(r, v), Px(0, v));
      ghost var at' := if owned then at[UserNode(r, v) := e.ppn] else at;
      if owned {
        MapOwnedKeeps(mem, at, own, LowNode(r, v), Px(0, v), e);
        InverseAdd(at, own, UserNode(r, v), e.ppn);
        own, held := own[e.ppn := UserNode(r, v)], held - {e.ppn};
      } else {
        SetEntryKeeps(mem, at, own, None, LowNode(r, v), Px(0, v), e);
      }
      SetEntryEntries(mem, at, old(own), at', r, v, e);
      at := at';
      mem := SetEntry(mem, t, Px(0, v), e);
    }

    /** Write the lowest entry for page v; ownership stays as it is. */
    method PutEntry(t: nat, r: nat, v: nat, e: Pte, ghost hole: Option<Node>)
      requires Sound(hole) && v < MAXVPN && LowNode(r, v) in at && at[LowNode(r, v)] == t
      requires hole == None || (hole == Some(UserNode(r, v)) && hole.value !in at)
      requires e.v ==> IsLeaf(e) && (e.u ==> UserNode(r, v) in at)
      requires UserNode(r, v) in at ==> e.v && e.ppn == at[UserNode(r, v)]
      modifies this`mem
      ensures Valid() && IsTable(old(mem), t) && mem == SetEntry(old(mem), t, Px(0, v), e)
      ensures hole == None ==> OneEntry(old(mem), mem, at, r, v, e)
    {
      PathDepth(r, v);
      assert NodeOk(mem, at, hole, LowNode(r, v));
      SetEntryKeeps(mem, at, own, hole, LowNode(r, v), Px(0, v), e);
      if hole == None { SetEntryEntries(mem, at, own, at, r, v, e); }
      mem := SetEntry(mem, t, Px(0, v), e);
    }

    lemma EntryKept(mem0: Memory, own0: map<nat, Node>, held0: set<nat>, t: nat, i: nat, e: Pte, n: Node)
      requires Sound(None) && n in at && at[n] == t && Depth(n) < 3 && t !in held0 && i < ENTRIES
      requires DataKept(mem0, own0, held0, mem) && (t in own0 ==> Depth(own0[t]) < 3)
      ensures IsTable(mem, t) && DataKept(mem0, own0, held0, SetEntry(mem, t, i, e))
    {
      assert NodeOk(mem, at, None, n);
    }

    /** One page of mappages.  `owned`: the space takes over a page the caller holds. */
    method MapPage(r: nat, v: nat, e: Pte, ghost owned: bool) returns (ok: bool)
      requires Valid() && Root(r) in at && v < MAXVPN && !Lookup(mem, r, v).v
      requires e.v && IsLeaf(e) && (if owned then e.ppn in held && IsFrame(mem, e.ppn) else !e.u)
      modifies this`mem, this`free, this`at, this`own, this`held
      ensures Valid() && (if ok then MidNode(r, v) in at && LowNode(r, v) in at else LowNode(r, v) !in at && free == [])
      ensures held == if ok && owned then old(held) - {e.ppn} else old(held)
      ensures if ok then OneEntry(old(mem), mem, old(at), r, v, e) else SameEntries(old(mem), mem, old(at))
      ensures MapGrown(old(at), at, r, v, ok && owned, e.ppn) && DataKept(old(mem), old(own), old(held), mem)
    {
      var t := Walk(r, v, true);
      if t.None? { return false; }
      LookupIsFlat(mem, at, r, v);
      LowNeedsMid(r, v);
      LowNotData(old(at), old(own), old(held), r, v);
      EntryKept(old(mem), old(own), old(held), t.value, Px(0, v), e, LowNode(r, v));
      PutNew(t.value, r, v, e, owned);
      ok := true;
    }

    /** One page of mappages that no address space takes over, with its panic. */
    method MapNext(r: nat, v: nat, e: Pte) returns (res: Mapping)
      requires Valid() && Root(r) in at && v < MAXVPN && e.v && IsLeaf(e) && !e.u
      modifies this`mem, this`free, this`at, this`own, this`held
      ensures Valid() && held == old(held) && (forall n :: n in old(at) ==> n in at && at[n] == old(at)[n])
      ensures res.Remap? <==> Lookup(old(mem), r, v).v
      ensures res.NoTable? ==> LowNode(r, v) !in at && free == []
      ensures if res.Done? then OneEntry(old(mem), mem, old(at), r, v, e) else SameEntries(old(mem), mem, old(at))
      ensures !res.NoSize?
    {
      var t := Walk(r, v, true);
      assert Lookup(mem, r, v) == Lookup(old(mem), r, v);
      LookupIsFlat(mem, at, r, v);
      if t.None? { return NoTable; }
      assert NodeOk(mem, at, None, LowNode(r, v));
      if mem[t.value].ptes[Px(0, v)].v { return Remap; }
      var ok := MapPage(r, v, e, false);
      res := if ok then Done else NoTable;
    }

    /** mappages: npages pages from v on get consecutive frames from the one in e on.  It stops
        with the panic at the first page that is mapped already, and with an error where a
        table is needed and no page is left; what it had mapped before stays. */
    method Mappages(r: nat, v: nat, npages: nat, e: Pte) returns (res: Mapping, done: nat)
      requires Valid() && Root(r) in at && v + npages <= MAXVPN && e.v && IsLeaf(e) && !e.u
      modifies this`mem, this`free, this`at, this`own, this`held
      ensures Valid() && held == old(held) && done <= npages
      ensures RangeMapped(old(mem), mem, old(at), r, v, v + done, e)
      ensures forall w :: v <= w < v + done ==> !Lookup(old(mem), r, w).v
      ensures res.NoSize? <==> npages == 0
      ensures res.Done? <==> 0 < npages == done
      ensures res.Remap? <==> done < npages && Lookup(old(mem), r, v + done).v
      ensures res.NoTable? ==> LowNode(r, v + done) !in at && free == []
    {
      done := 0;
      if npages == 0 { return NoSize, 0; }
      res := Done;
      while done < npages
        invariant done <= npages && Valid() && held == old(held) && res.Done?
        invariant forall n :: n in old(at) ==> n in at && at[n] == old(at)[n]
        invariant RangeMapped(old(mem), mem, old(at), r, v, v + done, e)
        invariant forall w :: v <= w < v + done ==> !Lookup(old(mem), r, w).v
      {
        res := MapAfter(r, v, done, e, old(mem), old(at));
        if !res.Done? { return; }
        done := done + 1;
      }
    }

    /** One turn of its loop. */
    method MapAfter(r: nat, v: nat, done: nat, e: Pte, ghost m0: Memory, ghost a0: map<Node, nat>)
      returns (res: Mapping)
      requires Valid() && Root(r) in a0 && v + done < MAXVPN && e.v && IsLeaf(e) && !e.u
      requires (forall n :: n in a0 ==> n in at && at[n] == a0[n]) && RangeMapped(m0, mem, a0, r, v, v + done, e)
      modifies this`mem, this`free, this`at, this`own, this`held
      ensures Valid() && held == old(held) && (forall n :: n in a0 ==> n in at && at[n] == a0[n])
      ensures !res.NoSize? && RangeMapped(m0, mem, a0, r, v, if res.Done? then v + done + 1 else v + done, e)
      ensures res.Remap? <==> Lookup(m0, r, v + done).v
      ensures res.NoTable? ==> LowNode(r, v + done) !in at && free == []
    {
      assert Lookup(mem, r, v + done) == Lookup(m0, r, v + done);
      res := MapNext(r, v + done, e.(ppn := e.ppn + done));
      if res.Done? {
        RangeMappedStep(m0, old(mem), mem, a0, old(at), r, v, v + done, e);
      } else {
        RangeMappedStill(m0, old(mem), mem, a0, old(at), r, v, v + done, e);
      }
    }

    /** The lowest table is not a page whose bytes anyone keeps. */
    lemma LowNotData(at0: map<Node, nat>, own0: map<nat, Node>, held0: set<nat>, r: nat, v: nat)
      requires Valid() && LowNode(r, v) in at && held0 == held && Inverse(at0, own0)
      requires (forall n :: n in at0 ==> n in at && at[n] == at0[n])
      ensures at[LowNode(r, v)] !in held0 && (at[LowNode(r, v)] in own0 ==> Depth(own0[at[LowNode(r, v)]]) < 3)
    {
      PathDepth(r, v);
      var t := at[LowNode(r, v)];
      if t in own0 { assert at[own0[t]] == t; }
    }

    // ---- uvmunmap ----

    /** The owner of a page with nothing below it hands the page to the running code. */
    ghost method LetGo(u: Node)
      requires Valid() && u in at && (forall i :: Child(u, i) !in at)
      modifies this`at, this`own, this`held
      ensures Sound(if u.Child? then Some(u) else None)
      ensures at == old(at) - {u} && own == old(own) - {old(at)[u]} && held == old(held) + {old(at)[u]}
    {
      DropKeeps(mem, at, u);
      InverseDrop(at, own, u);
      var p := at[u];
      at, own, held := at - {u}, own - {p}, held + {p};
    }

    /** The page of the entry for v goes back to the allocator. */
    method FreeEntry(t: nat, r: nat, v: nat)
      requires Valid() && v < MAXVPN && UserNode(r, v) in at && LowNode(r, v) in at && at[LowNode(r, v)] == t
      modifies this`mem, this`free, this`at, this`own, this`held
      ensures Sound(Some(UserNode(r, v))) && held == old(held)
      ensures at == old(at) - {UserNode(r, v)} && own == old(own) - {old(at)[UserNode(r, v)]}
      ensures free == [old(at)[UserNode(r, v)]] + old(free) && mem == old(mem)[old(at)[UserNode(r, v)] := Fill(1)]
    {
      ghost var u := UserNode(r, v);
      PathDepth(r, v);
      assert NodeOk(mem, at, None, u);
      NothingBelow(mem, at, None, u);
      var p := mem[t].ptes[Px(0, v)].ppn;
      LetGo(u);
      Kfree(p, Some(u));
    }

    /** One page of uvmunmap: the entry is there and is a leaf, so no panic. */
    method UnmapPage(r: nat, v: nat, doFree: bool)
      requires Valid() && Root(r) in at && v < MAXVPN && Lookup(mem, r, v).v && (doFree <==> UserNode(r, v) in at)
      modifies this`mem, this`free, this`at, this`own, this`held
      ensures Valid() && held == old(held) && OneEntry(old(mem), mem, old(at), r, v, EMPTY)
      ensures at == (if doFree then old(at) - {UserNode(r, v)} else old(at))
      ensures own == if doFree then old(own) - {old(at)[UserNode(r, v)]} else old(own)
      ensures DataKept(old(mem), own, held, mem)
    {
      LookupIsFlat(mem, at, r, v);
      var t := Walk(r, v, false);
      var e := mem[t.value].ptes[Px(0, v)];
      assert NodeOk(mem, at, None, LowNode(r, v));
      assert e.v && IsLeaf(e);
      ghost var u := UserNode(r, v);
      if doFree {
        ClearFreed(mem, at, own, r, v, Fill(1));
        FreeEntry(t.value, r, v);
      } else {
        ClearShared(mem, at, own, r, v);
      }
      PutEntry(t.value, r, v, EMPTY, if doFree then Some(u) else None);
    }

    /** The iteration of uvmunmap for page a, from memory m0 and ownership a0 at the start. */
    method UnmapNext(r: nat, ghost lo: nat, a: nat, ghost hi: nat, doFree: bool, ghost m0: Memory,
                     ghost a0: map<Node, nat>)
      requires Valid() && Root(r) in a0 && lo <= a < hi <= MAXVPN && AllMapped(m0, a0, r, lo, hi, doFree)
      requires Unmapped(m0, a0, mem, at, own, held, r, lo, a, doFree)
      modifies this`mem, this`free, this`at, this`own, this`held
      ensures Valid() && held == old(held) && Unmapped(m0, a0, mem, at, own, held, r, lo, a + 1, doFree)
    {
      NextMapped(m0, mem, a0, r, lo, a, hi, doFree);
      UnmapPage(r, a, doFree);
      UnmapStep(m0, a0, old(mem), old(at), old(own), held, mem, at, own, r, lo, a, doFree);
    }

    /** Each page in the range is mapped, and owned exactly when it is to be freed. */
    method Uvmunmap(r: nat, v: nat, npages: nat, doFree: bool)
      requires Valid() && Root(r) in at && v + npages <= MAXVPN
      requires AllMapped(mem, at, r, v, v + npages, doFree)
      modifies this`mem, this`free, this`at, this`own, this`held
      ensures Valid() && held == old(held)
      ensures Unmapped(old(mem), old(at), mem, at, own, held, r, v, v + npages, doFree)
    {
      var a := v;
      UnmapNone(mem, at, own, held, r, v, doFree);
      while a < v + npages
        invariant v <= a <= v + npages && Valid() && held == old(held)
        invariant Unmapped(old(mem), old(at), mem, at, own, held, r, v, a, doFree)
      {
        UnmapNext(r, v, a, v + npages, doFree, old(mem), old(at));
        a := a + 1;
      }
    }

    /** Takes the user bit off the entry for v and leaves the rest. */
    method Uvmclear(r: nat, v: nat)
      requires Valid() && Root(r) in at && v < MAXVPN && LowNode(r, v) in at
      modifies this`mem, this`free, this`at, this`own, this`held
      ensures Valid() && held == old(held) && at == old(at) && own == old(own) && free == old(free)
      ensures OneEntry(old(mem), mem, at, r, v, Lookup(old(mem), r, v).(u := false))
    {
      LookupIsFlat(mem, at, r, v);
      var t := Walk(r, v, false);
      assert NodeOk(mem, at, None, LowNode(r, v));
      if UserNode(r, v) in at { assert NodeOk(mem, at, None, UserNode(r, v)); }
      var e := mem[t.value].ptes[Px(0, v)];
      PutEntry(t.value, r, v, e.(u := false), None);
    }

    // ---- freewalk ----

    /** Slot i of the table at n: free the subtree below it, then clear the entry. */
    method FreeSlot(t: nat, i: nat, ghost n: Node, ghost m0: Memory, ghost a0: map<Node, nat>)
      requires Valid() && n in at && at[n] == t && Depth(n) < 3 && i < ENTRIES && NoLeaves(mem, at, n)
      requires Cleared(m0, a0, mem, at, held, n, i)
      modifies this`mem, this`free, this`at, this`own, this`held
      ensures Valid() && held == old(held) && n in at && at[n] == t && NoLeaves(mem, at, n)
      ensures Cleared(m0, a0, mem, at, held, n, i + 1)
      decreases 3 - Depth(n), 0
    {
      var e := mem[t].ptes[i];
      EntryKind(mem, at, n, i);
      if e.v && !IsLeaf(e) {
        NoLeavesBelow(mem, at, n, i);
        Freewalk(e.ppn, Child(n, i));
        AfterChild(m0, a0, old(mem), old(at), old(own), mem, at, held, n, i);
        LeavesAfterChild(old(mem), old(at), old(own), mem, at, held, n, i);
        SetEntryKeeps(mem, at, own, Some(Child(n, i)), n, i, EMPTY);
        mem := SetEntry(mem, t, i, EMPTY);
      } else {
        assert !e.v;
        NoChild(m0, a0, mem, at, held, n, i);
      }
    }

    /** Frees the tables at and below n; no leaf is left in them, so no panic. */
    method Freewalk(t: nat, ghost n: Node)
      requires Valid() && n in at && at[n] == t && Depth(n) < 3 && NoLeaves(mem, at, n)
      modifies this`mem, this`free, this`at, this`own, this`held
      ensures Sound(if n.Child? then Some(n) else None) && held == old(held)
      ensures at == Gone(old(at), n) && PagesKept(old(mem), mem, at, held)
      decreases 3 - Depth(n), 1
    {
      var i := 0;
      NoneCleared(mem, at, held, n);
      while i < ENTRIES
        invariant 0 <= i <= ENTRIES && Valid() && held == old(held) && n in at && at[n] == t && NoLeaves(mem, at, n)
        invariant Cleared(old(mem), old(at), mem, at, held, n, i)
      {
        FreeSlot(t, i, n, old(mem), old(at));
        i := i + 1;
      }
      FreeTable(t, n, old(mem), old(at));
    }

    /** Every entry of n is clear: the table itself goes back to the allocator. */
    method FreeTable(t: nat, ghost n: Node, ghost m0: Memory, ghost a0: map<Node, nat>)
      requires Valid() && n in at && at[n] == t && Depth(n) < 3 && Cleared(m0, a0, mem, at, held, n, ENTRIES)
      modifies this`mem, this`free, this`at, this`own, this`held
      ensures Sound(if n.Child? then Some(n) else None) && held == old(held)
      ensures at == Gone(a0, n) && PagesKept(m0, mem, at, held)
    {
      AllCleared(m0, a0, mem, at, own, held, n);
      LetGo(n);
      Kfree(t, if n.Child? then Some(n) else None);
    }

    // ---- one new page at a time ----

    /** kalloc followed by filling the page. */
    method NewPage(page: Page) returns (p: Option<nat>)
      requires Valid() && page.Frame? && |page.bytes| == PGSIZE
      modifies this`mem, this`free, this`held
      ensures Valid() && (p.None? <==> old(free) == [])
      ensures p.None? ==> mem == old(mem) && free == old(free) && held == old(held)
      ensures p.Some? ==>
                p.value !in old(held) && p.value !in own && held == old(held) + {p.value}
                && mem == old(mem)[p.value := page]
      ensures SameEntries(old(mem), mem, at)
    {
      p := Kalloc();
      if p.Some? {
        OtherPage(old(mem), at, own, p.value, page);
        OtherPageKeeps(mem, at, own, None, p.value, page);
        mem := mem[p.value := page];
        assert mem == old(mem)[p.value := page];
      }
    }

    /** Allocate, fill and map page a; on failure give the page back. */
    method MapFresh(r: nat, a: nat, page: Page, e: Pte) returns (ok: bool, ghost ppn: nat)
      requires Valid() && Root(r) in at && a < MAXVPN && !Lookup(mem, r, a).v
      requires page.Frame? && |page.bytes| == PGSIZE && e.v && IsLeaf(e)
      modifies this`mem, this`free, this`at, this`own, this`held
      ensures Valid() && held == old(held) && DataKept(old(mem), old(own), old(held), mem)
      ensures MapGrown(old(at), at, r, a, ok, ppn)
      ensures ok ==> MidNode(r, a) in at && LowNode(r, a) in at
      ensures !ok ==> if old(free) == [] then free == [] else |free| == 1 && LowNode(r, a) !in at
      ensures ok ==> ppn in mem && mem[ppn] == page
      ensures if ok then OneEntry(old(mem), mem, old(at), r, a, e.(ppn := ppn)) else SameEntries(old(mem), mem, old(at))
    {
      var p := NewPage(page);
      if p.None? { return false, 0; }
      ppn := p.value;
      ok := MapPage(r, a, e.(ppn := p.value), true);
      if !ok {
        OtherPage(mem, at, own, p.value, Fill(1));
        Kfree(p.value, None);
      }
    }

    /** The same as one more page of a range: it takes exactly what page a was short of, and
        fails when there is less. */
    method MapNew(r: nat, a: nat, page: Page, e: Pte, ghost lo: nat, ghost m0: Memory, ghost a0: map<Node, nat>)
      returns (ok: bool)
      requires Valid() && Root(r) in a0 && Filled(m0, a0, mem, at, r, lo, a) && lo <= a < MAXVPN && !Lookup(mem, r, a).v
      requires page.Frame? && |page.bytes| == PGSIZE && e.v && IsLeaf(e)
      modifies this`mem, this`free, this`at, this`own, this`held
      ensures Valid() && held == old(held) && DataKept(old(mem), old(own), old(held), mem)
      ensures Filled(m0, a0, mem, at, r, lo, if ok then a + 1 else a)
      ensures forall n :: n in old(at) ==> n in at && at[n] == old(at)[n]
      ensures if ok then |old(free)| == |free| + Short(old(at), r, a) else |old(free)| < Short(old(at), r, a)
      ensures ok ==> UserNode(r, a) in at && at[UserNode(r, a)] in mem && mem[at[UserNode(r, a)]] == page
      ensures ok ==> OneEntry(old(mem), mem, old(at), r, a, e.(ppn := at[UserNode(r, a)]))
      ensures !ok ==> SameEntries(old(mem), mem, old(at))
    {
      ghost var ppn;
      AddUp();
      ok, ppn := MapFresh(r, a, page, e);
      AddUp();
      if ok {
        PathAdded(old(at), at, r, a, ppn);
        FilledStep(m0, a0, old(mem), old(at), mem, at, r, lo, a, e.(ppn := ppn));
      } else {
        if old(free) != [] { PathCut(old(at), at, r, a, ppn); }
        FilledSame(m0, a0, old(mem), old(at), mem, at, r, lo, a, ppn);
      }
    }

    // ---- uvmalloc and uvmdealloc ----

    method GrowOne(r: nat, a: nat, e: Pte, ghost lo: nat, ghost m0: Memory, ghost a0: map<Node, nat>,
                   ghost own0: map<nat, Node>, ghost f0: nat) returns (ok: bool, ghost lack: nat)
      requires Valid() && Root(r) in a0 && lo <= a && e.v && IsLeaf(e) && |managed| < USERTOP && Inverse(a0, own0)
      requires Vacant(m0, r, lo, USERTOP) && Contiguous(a0, r, lo)
      requires Growing(m0, a0, own0, mem, at, held, r, lo, a, e, Fill(0))
      requires f0 <= |free| + Lack(a0, r, lo, a)
      modifies this`mem, this`free, this`at, this`own, this`held
      ensures Valid() && held == old(held) && a < USERTOP
      ensures lack == Lack(a0, r, lo, a + 1) && if ok then f0 <= |free| + lack else f0 < lack
      ensures (!ok ==> Filled(m0, a0, mem, at, r, lo, a) && DataKept(m0, own0, held, mem))
      ensures ok ==> Growing(m0, a0, own0, mem, at, held, r, lo, a + 1, e, Fill(0))
    {
      NextVacant(m0, a0, mem, at, own, managed, r, lo, a);
      LackStep(mem, a0, at, r, lo, a);
      lack := Lack(a0, r, lo, a + 1);
      ok := MapNew(r, a, Fill(0), e, lo, m0, a0);
      DataKeptGrow(m0, a0, own0, old(mem), old(at), old(own), held, mem);
      if ok { HoldsStep(old(mem), old(at), old(own), held, mem, at, r, lo, a, e, Fill(0)); }
    }

    /** Shrinks to newsz bytes; a newsz that is not below oldsz changes nothing. */
    method Uvmdealloc(r: nat, oldsz: nat, newsz: nat) returns (sz: nat)
      requires Valid() && Root(r) in at && Pages(oldsz) <= MAXVPN
      requires newsz < oldsz ==> AllMapped(mem, at, r, Pages(newsz), Pages(oldsz), true)
      modifies this`mem, this`free, this`at, this`own, this`held
      ensures Valid() && held == old(held) && sz == if newsz < oldsz then newsz else oldsz
      ensures newsz >= oldsz ==> mem == old(mem) && free == old(free) && at == old(at) && own == old(own)
      ensures newsz < oldsz ==> Unmapped(old(mem), old(at), mem, at, own, held, r, Pages(newsz), Pages(oldsz), true)
    {
      if newsz >= oldsz { return oldsz; }
      if Pages(newsz) < Pages(oldsz) {
        Uvmunmap(r, Pages(newsz), Pages(oldsz) - Pages(newsz), true);
      } else {
        UnmapNone(mem, at, own, held, r, Pages(newsz), true);
      }
      sz := newsz;
    }

    /** Takes back the pages of a growth that failed at page a. */
    method Shrink(r: nat, a: nat, lo: nat, ghost m0: Memory, ghost a0: map<Node, nat>, ghost own0: map<nat, Node>)
      requires Valid() && Root(r) in a0 && lo <= a <= USERTOP && Inverse(a0, own0) && Vacant(m0, r, lo, USERTOP)
      requires Filled(m0, a0, mem, at, r, lo, a) && DataKept(m0, own0, held, mem)
      modifies this`mem, this`free, this`at, this`own, this`held
      ensures Valid() && held == old(held) && Undone(m0, a0, own0, mem, at, held, r)
    {
      FilledMapped(m0, a0, mem, at, r, lo, a);
      assert Pages(lo * PGSIZE) == lo && Pages(a * PGSIZE) == a;
      var _ := Uvmdealloc(r, a * PGSIZE, lo * PGSIZE);
      if a == lo { UnmapNone(mem, at, own, held, r, lo, true); }
      UndoneFill(m0, a0, own0, old(mem), old(at), old(own), mem, at, own, held, r, lo, a);
    }

    /** A growth that got to its end had pages enough. */
    lemma AllTaken(m0: Memory, a0: map<Node, nat>, own0: map<nat, Node>, free0: seq<nat>, r: nat, lo: nat, hi: nat)
      requires Valid() && Filled(m0, a0, mem, at, r, lo, hi) && Inverse(a0, own0) && Pool(managed, free0, own0, held)
      requires hi <= MAXVPN
      ensures |free0| >= Lack(a0, r, lo, hi)
    {
      PagesAddUp(managed, free0, a0, own0, held);
      AddUp();
      forall w | lo <= w < hi
        ensures LowNode(r, w) in at && MidNode(r, w) in at
      {
        TablesThere(mem, at, r, w);
      }
      AllThere(at.Keys, a0, r, lo, hi);
      assert |at| == |at.Keys|;
    }

    lemma GrowTaken(m0: Memory, a0: map<Node, nat>, own0: map<nat, Node>, free0: seq<nat>, r: nat, lo: nat, hi: nat)
      requires Valid() && Filled(m0, a0, mem, at, r, lo, hi) && Inverse(a0, own0) && Pool(managed, free0, own0, held)
      requires |managed| < USERTOP && Contiguous(a0, r, lo)
      ensures |free0| >= Lack(a0, r, lo, hi)
    {
      UserBelowTop(at, own, managed, r, hi);
      AllTaken(m0, a0, own0, free0, r, lo, hi);
    }

    /** The loop of uvmalloc over pages lo..hi; stops at the page a that cannot be had. */
    method GrowRange(r: nat, lo: nat, hi: nat, e: Pte) returns (a: nat)
      requires Valid() && Root(r) in at && e.v && IsLeaf(e) && |managed| < USERTOP && lo <= hi
      requires Contiguous(at, r, lo) && Vacant(mem, r, lo, USERTOP)
      modifies this`mem, this`free, this`at, this`own, this`held
      ensures Valid() && held == old(held) && lo <= a <= hi
      ensures a < hi ==>
                a < USERTOP && Filled(old(mem), old(at), mem, at, r, lo, a) && DataKept(old(mem), old(own), held, mem)
      ensures a == hi ==> Growing(old(mem), old(at), old(own), mem, at, held, r, lo, hi, e, Fill(0))
      ensures a < hi ==> |old(free)| < Lack(old(at), r, lo, a + 1)
    {
      a := lo;
      ghost var lack := 0;
      FilledNone(mem, at, r, lo);
      while a < hi
        invariant lo <= a <= hi && Valid() && held == old(held)
        invariant lack == Lack(old(at), r, lo, a) && |old(free)| <= |free| + lack
        invariant Growing(old(mem), old(at), old(own), mem, at, held, r, lo, a, e, Fill(0))
      {
        var done;
        done, lack := GrowOne(r, a, e, lo, old(mem), old(at), old(own), |old(free)|);
        if !done { return; }
        a := a + 1;
      }
    }

    /** Pages lo..hi of r, zeroed, or what there was. */
    method GrowPages(r: nat, lo: nat, hi: nat, e: Pte) returns (ok: bool)
      requires Valid() && Root(r) in at && e.v && IsLeaf(e) && |managed| < USERTOP && lo <= hi
      requires Contiguous(at, r, lo) && Vacant(mem, r, lo, USERTOP)
      modifies this`mem, this`free, this`at, this`own, this`held
      ensures Valid() && held == old(held)
      ensures ok ==> Growing(old(mem), old(at), old(own), mem, at, held, r, lo, hi, e, Fill(0))
      ensures !ok ==> Undone(old(mem), old(at), old(own), mem, at, held, r)
      ensures ok <==> |old(free)| >= Lack(old(at), r, lo, hi)
    {
      var a := GrowRange(r, lo, hi, e);
      ok := a == hi;
      if ok {
        GrowTaken(old(mem), old(at), old(own), old(free), r, lo, hi);
      } else {
        LackMore(old(at), r, lo, a + 1, hi);
        Shrink(r, a, lo, old(mem), old(at), old(own));
      }
    }

    /** Grows from oldsz to newsz bytes with zeroed pages, or fails and takes them all back. */
    method Uvmalloc(r: nat, oldsz: nat, newsz: nat, e: Pte) returns (sz: nat, ghost ok: bool)
      requires Valid() && Root(r) in at && e.v && IsLeaf(e) && |managed| < USERTOP
      requires Contiguous(at, r, Pages(oldsz)) && Vacant(mem, r, Pages(oldsz), USERTOP)
      modifies this`mem, this`free, this`at, this`own, this`held
      ensures Valid() && held == old(held) && (newsz < oldsz ==> ok && sz == oldsz && mem == old(mem) && at == old(at))
      ensures newsz >= oldsz && ok ==>
                sz == newsz && Growing(old(mem), old(at), old(own), mem, at, held, r, Pages(oldsz), Pages(newsz), e,
                Fill(0))
      ensures !ok ==> sz == 0 && Undone(old(mem), old(at), old(own), mem, at, held, r)
      ensures newsz >= oldsz ==> (ok <==> |old(free)| >= Lack(old(at), r, Pages(oldsz), Pages(newsz)))
    {
      if newsz < oldsz { return oldsz, true; }
      var done := GrowPages(r, Pages(oldsz), Pages(newsz), e);
      return if done then newsz else 0, done;
    }

    /** Frees the user pages and then the page table; only user pages are still mapped. */
    method Uvmfree(r: nat, sz: nat)
      requires Valid() && Root(r) in at && Pages(sz) <= MAXVPN
      requires AllMapped(mem, at, r, 0, Pages(sz), true) && Vacant(mem, r, Pages(sz), MAXVPN)
      modifies this`mem, this`free, this`at, this`own, this`held
      ensures Valid() && held == old(held) && Freed(old(mem), old(at), mem, at, own, held, r)
    {
      if sz > 0 {
        Uvmunmap(r, 0, Pages(sz), true);
      } else {
        UnmapNone(mem, at, own, held, r, 0, true);
      }
      ghost var mem1, at1, own1 := mem, at, own;
      VacantNoLeaves(mem, at, r);
      assert NodeOk(mem, at, None, Root(r));
      Freewalk(r, Root(r));
      FreedAll(old(mem), old(at), mem1, at1, own1, mem, at, own, held, r, Pages(sz));
    }

    // ---- uvmcopy ----

    method CopyOne(r: nat, s: nat, a: nat, ghost n: nat, ghost m0: Memory, ghost a0: map<Node, nat>,
                   ghost own0: map<nat, Node>, ghost f0: nat) returns (ok: bool, ghost lack: nat)
      requires Valid() && Root(r) in a0 && Root(s) in a0 && r != s && Inverse(a0, own0) && a < n <= USERTOP
      requires AllMapped(m0, a0, r, 0, n, true) && Vacant(m0, s, 0, USERTOP)
      requires Copying(m0, a0, own0, mem, at, held, r, s, a)
      requires f0 <= |free| + Lack(a0, s, 0, a)
      modifies this`mem, this`free, this`at, this`own, this`held
      ensures Valid() && held == old(held)
      ensures lack == Lack(a0, s, 0, a + 1) && if ok then f0 <= |free| + lack else f0 < lack
      ensures (!ok ==> Filled(m0, a0, mem, at, s, 0, a) && DataKept(m0, own0, held, mem))
      ensures ok ==> Copying(m0, a0, own0, mem, at, held, r, s, a + 1)
    {
      SourcePage(m0, a0, mem, at, r, s, n, a);
      var t := Walk(r, a, false);
      var e := mem[t.value].ptes[Px(0, a)];
      LackStep(mem, a0, at, s, 0, a);
      lack := Lack(a0, s, 0, a + 1);
      ok := MapNew(s, a, mem[e.ppn], e, 0, m0, a0);
      DataKeptGrow(m0, a0, own0, old(mem), old(at), old(own), held, mem);
      if ok { CopyStep(old(mem), old(at), old(own), held, mem, at, r, s, a, e.(ppn := at[UserNode(s, a)])); }
    }

    method CopyRange(r: nat, s: nat, n: nat) returns (a: nat)
      requires Valid() && Root(r) in at && Root(s) in at && r != s && n <= USERTOP
      requires AllMapped(mem, at, r, 0, n, true) && Vacant(mem, s, 0, USERTOP)
      modifies this`mem, this`free, this`at, this`own, this`held
      ensures Valid() && held == old(held) && a <= n
      ensures a < n ==> Filled(old(mem), old(at), mem, at, s, 0, a) && DataKept(old(mem), old(own), held, mem)
      ensures a == n ==> Copying(old(mem), old(at), old(own), mem, at, held, r, s, n)
      ensures a == n <==> |old(free)| >= Lack(old(at), s, 0, n)
    {
      a := 0;
      ghost var lack := 0;
      FilledNone(mem, at, s, 0);
      while a < n
        invariant a <= n && Valid() && held == old(held)
        invariant lack == Lack(old(at), s, 0, a) && |old(free)| <= |free| + lack
        invariant Copying(old(mem), old(at), old(own), mem, at, held, r, s, a)
      {
        var done;
        done, lack := CopyOne(r, s, a, n, old(mem), old(at), old(own), |old(free)|);
        if !done {
          LackMore(old(at), s, 0, a + 1, n);
          return;
        }
        a := a + 1;
      }
      AllTaken(old(mem), old(at), old(own), old(free), s, 0, n);
    }

    /** Copies the pages of r to fresh pages of s with the same flags, or frees them again. */
    method Uvmcopy(r: nat, s: nat, sz: nat) returns (ok: bool)
      requires Valid() && Root(r) in at && Root(s) in at && r != s && Pages(sz) <= USERTOP
      requires AllMapped(mem, at, r, 0, Pages(sz), true) && Vacant(mem, s, 0, USERTOP)
      modifies this`mem, this`free, this`at, this`own, this`held
      ensures Valid() && held == old(held)
      ensures ok ==> Copying(old(mem), old(at), old(own), mem, at, held, r, s, Pages(sz))
      ensures !ok ==> Undone(old(mem), old(at), old(own), mem, at, held, s)
      ensures ok <==> |old(free)| >= Lack(old(at), s, 0, Pages(sz))
    {
      var i := CopyRange(r, s, Pages(sz));
      if i == Pages(sz) { return true; }
      Uncopy(s, i, old(mem), old(at), old(own));
      ok := false;
    }

    /** The error exit of uvmcopy: the a pages copied so far are freed. */
    method Uncopy(s: nat, a: nat, ghost m0: Memory, ghost a0: map<Node, nat>, ghost own0: map<nat, Node>)
      requires Valid() && Root(s) in at && a <= USERTOP && Vacant(m0, s, 0, USERTOP) && Inverse(a0, own0)
      requires Filled(m0, a0, mem, at, s, 0, a) && DataKept(m0, own0, held, mem)
      modifies this`mem, this`free, this`at, this`own, this`held
      ensures Valid() && held == old(held) && Undone(m0, a0, own0, mem, at, held, s)
    {
      FilledMapped(m0, a0, mem, at, s, 0, a);
      ghost var mem1, at1, own1 := mem, at, own;
      Uvmunmap(s, 0, a, true);
      UndoneFill(m0, a0, own0, mem1, at1, own1, mem, at, own, held, s, 0, a);
    }

    // ---- page tables of processes ----

    method Uvmcreate() returns (p: Option<nat>)
      requires Valid()
      modifies this`mem, this`free, this`at, this`own, this`held
      ensures Valid() && held == old(held) && SameEntries(old(mem), mem, old(at))
      ensures DataKept(old(mem), old(own), old(held), mem)
      ensures p.None? <==> old(free) == []
      ensures p.None? ==> at == old(at) && own == old(own)
      ensures p.Some? ==> at == old(at)[Root(p.value) := p.value]
      ensures p.Some? ==> NewSpace(old(at), at, p.value) && Vacant(mem, p.value, 0, MAXVPN)
    {
      p := Kalloc();
      if p.Some? {
        var q := p.value;
        RootKeeps(old(mem), at, own, q);
        assert old(mem)[q := ZeroTable()] == mem[q := ZeroTable()];
        mem := mem[q := ZeroTable()];
        at, own, held := at[Root(q) := q], own[q := Root(q)], held - {q};
      }
    }

    /** Map one page the space does not own into a space that is being built. */
    method MapShared(r: nat, v: nat, e: Pte, ghost shared: map<nat, Pte>, ghost m0: Memory, ghost a0: map<Node, nat>,
                     ghost own0: map<nat, Node>) returns (ok: bool)
      requires Valid() && Building(m0, a0, own0, mem, at, held, r) && OnlyShared(mem, r, shared) && Inverse(a0, own0)
      requires v < MAXVPN && v !in shared && e.v && IsLeaf(e) && !e.u
      modifies this`mem, this`free, this`at, this`own, this`held
      ensures Valid() && held == old(held) && Building(m0, a0, own0, mem, at, held, r)
      ensures OnlyShared(mem, r, if ok then shared[v := e] else shared)
      ensures MapGrown(old(at), at, r, v, false, e.ppn)
      ensures if ok then MidNode(r, v) in at && LowNode(r, v) in at else LowNode(r, v) !in at && free == []
    {
      ok := MapPage(r, v, e, false);
      if ok { BuildMap(m0, a0, own0, old(mem), old(at), old(own), mem, at, held, r, shared, v, e); }
      else { BuildSame(m0, a0, own0, old(mem), old(at), old(own), mem, at, held, r, shared, v, e.ppn); }
    }

    /** Give up on a space that is being built: everything is as it was before it. */
    method DropSpace(r: nat, ghost m0: Memory, ghost a0: map<Node, nat>, ghost own0: map<nat, Node>)
      requires Valid() && Building(m0, a0, own0, mem, at, held, r) && OnlyShared(mem, r, map[]) && Tree(m0, a0, None)
      requires Inverse(a0, own0)
      modifies this`mem, this`free, this`at, this`own, this`held
      ensures Valid() && held == old(held) && at == a0 && SameEntries(m0, mem, a0) && DataKept(m0, own0, held, mem)
    {
      Uvmfree(r, 0);
      BuildDrop(m0, a0, own0, old(mem), old(at), mem, at, own, held, r);
    }

    /** A page table with only the trampoline in it. */
    method MapTrampoline(code: Pte) returns (p: Option<nat>)
      requires Valid() && code.v && IsLeaf(code) && !code.u
      modifies this`mem, this`free, this`at, this`own, this`held
      ensures Valid() && held == old(held)
      ensures p.None? ==>
                at == old(at) && SameEntries(old(mem), mem, old(at)) && DataKept(old(mem), old(own), held, mem)
      ensures p.Some? ==> Building(old(mem), old(at), old(own), mem, at, held, p.value)
      ensures p.Some? ==> OnlyShared(mem, p.value, map[TRAMPOLINE := code])
      ensures p.Some? <==> |old(free)| >= 3
      ensures p.Some? ==> at.Keys == old(at).Keys + Shell(p.value)
    {
      AddUp();
      p := Uvmcreate();
      if p.None? { return; }
      var r := p.value;
      NoneBelow(old(mem), old(at), r);
      var ok := MapShared(r, TRAMPOLINE, code, map[], old(mem), old(at), old(own));
      AddUp();
      if ok {
        ShellDone(old(at), at, r, code.ppn);
      } else {
        ShellFails(old(at), at, r, code.ppn);
        DropSpace(r, old(mem), old(at), old(own));
        p := None;
      }
    }

    /** The trapframe beside the trampoline; where that fails the page table goes again. */
    method MapTrapframe(r: nat, code: Pte, frame: Pte, ghost m0: Memory, ghost a0: map<Node, nat>,
                        ghost own0: map<nat, Node>) returns (ok: bool)
      requires Valid() && Building(m0, a0, own0, mem, at, held, r) && OnlyShared(mem, r, map[TRAMPOLINE := code])
      requires Tree(m0, a0, None) && Inverse(a0, own0) && code.v && frame.v && IsLeaf(frame) && !frame.u
      modifies this`mem, this`free, this`at, this`own, this`held
      ensures Valid() && held == old(held)
      ensures !ok ==> LowNode(r, TRAPFRAME) !in old(at)
      ensures !ok ==> at == a0 && SameEntries(m0, mem, a0) && DataKept(m0, own0, held, mem)
      ensures ok ==> Building(m0, a0, own0, mem, at, held, r) && MapGrown(old(at), at, r, TRAPFRAME, false, frame.ppn)
      ensures ok ==> OnlyShared(mem, r, map[TRAMPOLINE := code, TRAPFRAME := frame])
    {
      ok := MapShared(r, TRAPFRAME, frame, map[TRAMPOLINE := code], m0, a0, own0);
      if !ok {
        UnmapShared(r, TRAMPOLINE, map[TRAMPOLINE := code], m0, a0, own0);
        DropSpace(r, m0, a0, own0);
      }
    }

    /** A page table with the trampoline and the trapframe and no user memory: it takes three
        pages, and fails when there are fewer. */
    method ProcPagetable(trampoline: nat, tf: nat) returns (p: Option<nat>)
      requires Valid()
      modifies this`mem, this`free, this`at, this`own, this`held
      ensures Valid() && held == old(held)
      ensures p.None? ==>
                at == old(at) && SameEntries(old(mem), mem, old(at)) && DataKept(old(mem), old(own), held, mem)
      ensures p.Some? ==> Building(old(mem), old(at), old(own), mem, at, held, p.value)
      ensures p.Some? ==> OnlyShared(mem, p.value, map[TRAMPOLINE := Pte(trampoline, true, true, false, true, false),
                                                       TRAPFRAME := Pte(tf, true, true, true, false, false)])
      ensures p.Some? <==> |old(free)| >= 3
      ensures p.Some? ==> at.Keys == old(at).Keys + Shell(p.value)
    {
      var code, frame := Pte(trampoline, true, true, false, true, false), Pte(tf, true, true, true, false, false);
      p := MapTrampoline(code);
      if p.None? { return; }
      ghost var at1 := at;
      var ok := MapTrapframe(p.value, code, frame, old(mem), old(at), old(own));
      ShellKept(old(at), at1, at, p.value, ok, tf);
      p := if ok then p else None;
    }

    method UnmapShared(r: nat, v: nat, ghost shared: map<nat, Pte>, ghost m0: Memory, ghost a0: map<Node, nat>,
                       ghost own0: map<nat, Node>)
      requires Valid() && Building(m0, a0, own0, mem, at, held, r) && OnlyShared(mem, r, shared) && Tree(m0, a0, None)
      requires Inverse(a0, own0)
      requires v < MAXVPN && v in shared && shared[v].v
      modifies this`mem, this`free, this`at, this`own, this`held
      ensures Valid() && held == old(held) && Building(m0, a0, own0, mem, at, held, r)
      ensures OnlyShared(mem, r, shared - {v})
    {
      NoUserPages(a0, at, m0, r, v);
      Uvmunmap(r, v, 1, false);
      BuildUnmap(m0, a0, own0, old(mem), old(at), old(own), mem, at, own, held, r, shared, v);
    }

    /** A process takes over the page that is to be its trapframe. */
    ghost method AdoptTrap(r: nat, tf: nat)
      requires Valid() && Trap(r) !in at && tf in held && IsFrame(mem, tf)
      modifies this`at, this`own, this`held
      ensures Valid() && at == old(at)[Trap(r) := tf] && own == old(own)[tf := Trap(r)] && held == old(held) - {tf}
    {
      TrapKeeps(mem, at, own, r, tf);
      at, own, held := at[Trap(r) := tf], own[tf := Trap(r)], held - {tf};
    }
  }
}
