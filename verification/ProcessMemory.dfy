/** The memory of processes (kernel/proc.c): allocproc, freeproc, growproc and the copy in
    fork.  Between calls no page is in flight: every managed page is free or belongs to
    exactly one process. */
module ProcessMemory {
  import opened Prelude
  import opened PageTable
  import opened AddressSpace
  import opened PageCount
  import opened VirtualMemory

  /** User memory 0..sz, nothing between it and the trapframe, and the two shared pages. */
  ghost predicate SpaceMapped(mem: Memory, at: map<Node, nat>, r: nat, sz: nat) {
    && Root(r) in at && Pages(sz) <= USERTOP
    && AllMapped(mem, at, r, 0, Pages(sz), true)
    && Vacant(mem, r, Pages(sz), USERTOP)
    && AllMapped(mem, at, r, TRAPFRAME, MAXVPN, false)
  }

  /** p->sz and p->trapframe; the page table identifies the process. */
  datatype Space = Space(sz: nat, tf: nat)

  ghost predicate SpaceOk(mem: Memory, at: map<Node, nat>, r: nat, sp: Space) {
    && SpaceMapped(mem, at, r, sp.sz)
    && Trap(r) in at && at[Trap(r)] == sp.tf && Lookup(mem, r, TRAPFRAME).ppn == sp.tf
  }

  ghost predicate AllSpaces(mem: Memory, at: map<Node, nat>, spaces: map<nat, Space>) {
    && (forall r {:trigger SpaceOk(mem, at, r, spaces[r])} :: r in spaces ==> SpaceOk(mem, at, r, spaces[r]))
    && (forall r :: Root(r) in at || Trap(r) in at ==> r in spaces)
  }

  predicate InSpace(r: nat, n: Node) {
    n == Root(r) || n == Trap(r) || Below(r, n)
  }

  /** Only r's own nodes and entries changed. */
  ghost predicate OnlySpace(m0: Memory, a0: map<Node, nat>, mem: Memory, at: map<Node, nat>, r: nat) {
    && (forall n :: !InSpace(r, n) ==> (n in at <==> n in a0))
    && (forall n :: !InSpace(r, n) && n in at && n in a0 ==> at[n] == a0[n])
    && (forall r', v :: r' != r && Root(r') in a0 && 0 <= v < MAXVPN ==> Lookup(mem, r', v) == Lookup(m0, r', v))
  }

  lemma SpacesSame(m0: Memory, mem: Memory, at: map<Node, nat>, spaces: map<nat, Space>)
    requires AllSpaces(m0, at, spaces) && SameEntries(m0, mem, at)
    ensures AllSpaces(mem, at, spaces)
  {
    forall r | r in spaces
      ensures SpaceOk(mem, at, r, spaces[r])
    {
      assert SpaceOk(m0, at, r, spaces[r]);
    }
  }

  lemma OtherUser(r: nat, r': nat, v: nat)
    requires r != r'
    ensures !InSpace(r, UserNode(r', v)) && !InSpace(r, Root(r')) && !InSpace(r, Trap(r'))
  {
    OtherRoot(r, r', v);
  }

  lemma SpaceKept(m0: Memory, a0: map<Node, nat>, mem: Memory, at: map<Node, nat>, r: nat, r': nat, sp: Space)
    requires SpaceOk(m0, a0, r', sp) && OnlySpace(m0, a0, mem, at, r) && r' != r
    ensures SpaceOk(mem, at, r', sp)
  {
    OtherUser(r, r', 0);
    forall v | 0 <= v < MAXVPN
      ensures Lookup(mem, r', v) == Lookup(m0, r', v) && (UserNode(r', v) in at <==> UserNode(r', v) in a0)
    {
      OtherUser(r, r', v);
    }
  }

  lemma SpacesKept(m0: Memory, a0: map<Node, nat>, mem: Memory, at: map<Node, nat>, spaces: map<nat, Space>, r: nat)
    requires AllSpaces(m0, a0, spaces) && OnlySpace(m0, a0, mem, at, r)
    ensures forall r' :: r' in spaces && r' != r ==> SpaceOk(mem, at, r', spaces[r'])
    ensures forall r' :: r' != r && (Root(r') in at || Trap(r') in at) ==> r' in spaces
  {
    forall r' | r' != r
      ensures r' in spaces ==> SpaceOk(mem, at, r', spaces[r'])
      ensures Root(r') in at || Trap(r') in at ==> r' in spaces
    {
      OtherUser(r, r', 0);
      if r' in spaces { SpaceKept(m0, a0, mem, at, r, r', spaces[r']); }
    }
  }

  lemma SpacesNow(m0: Memory, a0: map<Node, nat>, mem: Memory, at: map<Node, nat>, spaces: map<nat, Space>, r: nat,
                  sp: Space)
    requires AllSpaces(m0, a0, spaces) && OnlySpace(m0, a0, mem, at, r) && SpaceOk(mem, at, r, sp)
    ensures AllSpaces(mem, at, spaces[r := sp])
  {
    SpacesKept(m0, a0, mem, at, spaces, r);
  }

  lemma SpacesWithout(m0: Memory, a0: map<Node, nat>, mem: Memory, at: map<Node, nat>, spaces: map<nat, Space>, r: nat)
    requires AllSpaces(m0, a0, spaces) && OnlySpace(m0, a0, mem, at, r) && Root(r) !in at && Trap(r) !in at
    ensures AllSpaces(mem, at, spaces - {r})
  {
    SpacesKept(m0, a0, mem, at, spaces, r);
  }

  // ---- growing and shrinking ----

  lemma GrowOnly(m0: Memory, a0: map<Node, nat>, mem: Memory, at: map<Node, nat>, r: nat, lo: nat, hi: nat)
    requires Filled(m0, a0, mem, at, r, lo, hi)
    ensures OnlySpace(m0, a0, mem, at, r)
  {
  }

  lemma GrowSpace(m0: Memory, a0: map<Node, nat>, mem: Memory, at: map<Node, nat>, r: nat, sp: Space, newsz: nat)
    requires SpaceOk(m0, a0, r, sp) && sp.sz <= newsz && Filled(m0, a0, mem, at, r, Pages(sp.sz), Pages(newsz))
    requires Pages(newsz) <= USERTOP
    ensures SpaceOk(mem, at, r, sp.(sz := newsz))
  {
    forall v | TRAPFRAME <= v < MAXVPN
      ensures UserNode(r, v) !in at
    {
      NotInRange(r, Pages(sp.sz), Pages(newsz), v);
      PathBelow(r, v);
    }
  }

  lemma NotInRange(r: nat, lo: nat, hi: nat, v: nat)
    requires v < MAXVPN && hi <= v
    ensures UserNode(r, v) !in UserNodes(r, lo, hi)
  {
    if w :| lo <= w < hi && UserNode(r, w) == UserNode(r, v) { UserNodeInjective(r, w, v); }
  }

  lemma UndoneOnly(m0: Memory, a0: map<Node, nat>, own0: map<nat, Node>, mem: Memory, at: map<Node, nat>,
                   held: set<nat>, r: nat)
    requires Undone(m0, a0, own0, mem, at, held, r)
    ensures OnlySpace(m0, a0, mem, at, r)
  {
  }

  lemma UndoneSpace(m0: Memory, a0: map<Node, nat>, own0: map<nat, Node>, mem: Memory, at: map<Node, nat>,
                    held: set<nat>, r: nat, sp: Space)
    requires SpaceOk(m0, a0, r, sp) && Undone(m0, a0, own0, mem, at, held, r)
    ensures SpaceOk(mem, at, r, sp)
  {
    forall v | 0 <= v < MAXVPN
      ensures UserNode(r, v) in at <==> UserNode(r, v) in a0
    {
      PathBelow(r, v);
    }
  }

  lemma ShrinkOnly(m0: Memory, a0: map<Node, nat>, mem: Memory, at: map<Node, nat>, own: map<nat, Node>, held: set<nat>,
                   r: nat, lo: nat, hi: nat)
    requires Unmapped(m0, a0, mem, at, own, held, r, lo, hi, true)
    ensures OnlySpace(m0, a0, mem, at, r)
  {
    forall n | n in UserNodes(r, lo, hi)
      ensures Below(r, n)
    {
      var w :| lo <= w < hi && n == UserNode(r, w);
      PathBelow(r, w);
    }
  }

  lemma ShrinkSpace(m0: Memory, a0: map<Node, nat>, mem: Memory, at: map<Node, nat>, own: map<nat, Node>,
                    held: set<nat>, r: nat, sp: Space, newsz: nat)
    requires SpaceOk(m0, a0, r, sp) && newsz < sp.sz
    requires Unmapped(m0, a0, mem, at, own, held, r, Pages(newsz), Pages(sp.sz), true)
    ensures SpaceOk(mem, at, r, sp.(sz := newsz))
  {
    forall v | 0 <= v < Pages(newsz)
      ensures UserNode(r, v) in at
    {
      BeforeRange(r, Pages(newsz), Pages(sp.sz), v);
    }
    assert Root(r) !in UserNodes(r, Pages(newsz), Pages(sp.sz)) && Trap(r) !in UserNodes(r, Pages(newsz), Pages(sp.sz));
  }

  lemma BeforeRange(r: nat, lo: nat, hi: nat, v: nat)
    requires v < lo && hi <= MAXVPN
    ensures UserNode(r, v) !in UserNodes(r, lo, hi)
  {
    if w :| lo <= w < hi && UserNode(r, w) == UserNode(r, v) { UserNodeInjective(r, w, v); }
  }

  lemma GrownBelowTop(m0: Memory, a0: map<Node, nat>, mem: Memory, at: map<Node, nat>, own: map<nat, Node>,
                      managed: set<nat>, r: nat, sp: Space, newsz: nat)
    requires SpaceOk(m0, a0, r, sp) && Filled(m0, a0, mem, at, r, Pages(sp.sz), Pages(newsz))
    requires Inverse(at, own) && own.Keys <= managed && |managed| < USERTOP
    ensures Pages(newsz) <= USERTOP
  {
    assert Contiguous(at, r, Pages(newsz));
    UserBelowTop(at, own, managed, r, Pages(newsz));
  }

  lemma UndoneSpaces(m0: Memory, a0: map<Node, nat>, own0: map<nat, Node>, mem: Memory, at: map<Node, nat>,
                     held: set<nat>, spaces: map<nat, Space>, r: nat)
    requires AllSpaces(m0, a0, spaces) && r in spaces && Undone(m0, a0, own0, mem, at, held, r)
    ensures AllSpaces(mem, at, spaces)
  {
    var sp := spaces[r];
    UndoneOnly(m0, a0, own0, mem, at, held, r);
    UndoneSpace(m0, a0, own0, mem, at, held, r, sp);
    SpacesNow(m0, a0, mem, at, spaces, r, sp);
    assert spaces == spaces[r := sp];
  }

  lemma GrownSpaces(m0: Memory, a0: map<Node, nat>, mem: Memory, at: map<Node, nat>, own: map<nat, Node>,
                    managed: set<nat>, spaces: map<nat, Space>, r: nat, newsz: nat)
    requires AllSpaces(m0, a0, spaces) && r in spaces && spaces[r].sz <= newsz
    requires Filled(m0, a0, mem, at, r, Pages(spaces[r].sz), Pages(newsz))
    requires Inverse(at, own) && own.Keys <= managed && |managed| < USERTOP
    ensures AllSpaces(mem, at, spaces[r := spaces[r].(sz := newsz)])
  {
    var sp := spaces[r];
    GrownBelowTop(m0, a0, mem, at, own, managed, r, sp, newsz);
    GrowOnly(m0, a0, mem, at, r, Pages(sp.sz), Pages(newsz));
    GrowSpace(m0, a0, mem, at, r, sp, newsz);
    SpacesNow(m0, a0, mem, at, spaces, r, sp.(sz := newsz));
  }

  // ---- a new process ----

  /** Everything there was is kept, and what was added is the new process r's. */
  ghost predicate Newborn(a0: map<Node, nat>, at: map<Node, nat>, r: nat) {
    && Root(r) !in a0 && Trap(r) !in a0
    && (forall n :: n in a0 ==> n in at && at[n] == a0[n])
    && (forall n :: n in at && n !in a0 ==> InSpace(r, n))
  }

  lemma BornOnly(m0: Memory, a0: map<Node, nat>, own0: map<nat, Node>, mem: Memory, at: map<Node, nat>, held: set<nat>,
                 r: nat, tf: nat)
    requires Building(m0, a0, own0, mem, at, held, r) && Trap(r) !in a0
    ensures Newborn(a0, at[Trap(r) := tf], r) && OnlySpace(m0, a0, mem, at[Trap(r) := tf], r)
  {
  }

  function SharedPages(trampoline: nat, tf: nat): map<nat, Pte> {
    map[TRAMPOLINE := Pte(trampoline, true, true, false, true, false),
        TRAPFRAME := Pte(tf, true, true, true, false, false)]
  }

  lemma BornSpace(m0: Memory, a0: map<Node, nat>, own0: map<nat, Node>, mem: Memory, at: map<Node, nat>, held: set<nat>,
                  r: nat, trampoline: nat, tf: nat)
    requires Tree(m0, a0, None) && Building(m0, a0, own0, mem, at, held, r)
    requires OnlyShared(mem, r, SharedPages(trampoline, tf))
    ensures SpaceOk(mem, at[Trap(r) := tf], r, Space(0, tf))
  {
    var at' := at[Trap(r) := tf];
    forall v | 0 <= v < MAXVPN
      ensures UserNode(r, v) !in at'
    {
      NoUserPages(a0, at, m0, r, v);
    }
  }

  lemma BornSpaces(m0: Memory, a0: map<Node, nat>, own0: map<nat, Node>, mem: Memory, at: map<Node, nat>,
                   held: set<nat>, r: nat, trampoline: nat, tf: nat, spaces: map<nat, Space>)
    requires Tree(m0, a0, None) && Building(m0, a0, own0, mem, at, held, r)
    requires OnlyShared(mem, r, SharedPages(trampoline, tf))
    requires AllSpaces(m0, a0, spaces)
    ensures r !in spaces && Trap(r) !in at && Newborn(a0, at[Trap(r) := tf], r)
    ensures AllSpaces(mem, at[Trap(r) := tf], spaces[r := Space(0, tf)])
  {
    assert r in spaces ==> SpaceOk(m0, a0, r, spaces[r]);
    BornOnly(m0, a0, own0, mem, at, held, r, tf);
    BornSpace(m0, a0, own0, mem, at, held, r, trampoline, tf);
    SpacesNow(m0, a0, mem, at[Trap(r) := tf], spaces, r, Space(0, tf));
  }

  // ---- the end of a process ----

  lemma TrapGone(m0: Memory, a0: map<Node, nat>, mem: Memory, r: nat, sp: Space)
    requires SpaceOk(m0, a0, r, sp) && SameEntries(m0, mem, a0)
    ensures SpaceMapped(mem, a0 - {Trap(r)}, r, sp.sz)
  {
  }

  /** Both shared pages have been unmapped. */
  ghost predicate Unshared(m0: Memory, a0: map<Node, nat>, mem: Memory, own: map<nat, Node>, held: set<nat>, r: nat,
                           sz: nat)
  {
    && AllMapped(mem, a0, r, 0, Pages(sz), true) && Vacant(mem, r, Pages(sz), MAXVPN)
    && (forall r', v :: r' != r && Root(r') in a0 && 0 <= v < MAXVPN ==> Lookup(mem, r', v) == Lookup(m0, r', v))
    && DataKept(m0, own, held, mem)
  }

  lemma UnshareTwo(m0: Memory, a0: map<Node, nat>, mem1: Memory, own1: map<nat, Node>, mem2: Memory,
                   own2: map<nat, Node>, held: set<nat>, r: nat, sz: nat)
    requires SpaceMapped(m0, a0, r, sz) && Inverse(a0, own1) && Inverse(a0, own2)
    requires Unmapped(m0, a0, mem1, a0, own1, held, r, TRAMPOLINE, TRAMPOLINE + 1, false)
    requires Unmapped(mem1, a0, mem2, a0, own2, held, r, TRAPFRAME, TRAPFRAME + 1, false)
    ensures Unshared(m0, a0, mem2, own2, held, r, sz)
  {
    DataKeptShrink(m0, mem1, mem2, own1, own2, held);
  }

  lemma FreedFromStart(m0: Memory, a0: map<Node, nat>, mem1: Memory, own1: map<nat, Node>, mem2: Memory,
                       at2: map<Node, nat>, own2: map<nat, Node>, held: set<nat>, r: nat, sz: nat)
    requires Unshared(m0, a0, mem1, own1, held, r, sz) && Freed(mem1, a0, mem2, at2, own2, held, r)
    requires Inverse(a0, own1) && Inverse(at2, own2)
    ensures Freed(m0, a0, mem2, at2, own2, held, r)
  {
    DataKeptShrink(m0, mem1, mem2, own1, own2, held);
  }

  /** Ownership without anything of process r. */
  ghost function Ended(at: map<Node, nat>, r: nat): map<Node, nat> {
    Gone(at - {Trap(r)}, Root(r))
  }

  lemma EndedOnly(m0: Memory, a0: map<Node, nat>, mem: Memory, at: map<Node, nat>, r: nat)
    requires at == Ended(a0, r)
    requires (forall r', v :: r' != r && Root(r') in a0 && 0 <= v < MAXVPN ==> Lookup(mem, r', v) == Lookup(m0, r', v))
    ensures OnlySpace(m0, a0, mem, at, r) && Root(r) !in at && Trap(r) !in at
  {
  }

  /** The end of a process that was just born leaves what there was before it. */
  lemma EndedNewborn(m0: Memory, a0: map<Node, nat>, at: map<Node, nat>, r: nat)
    requires Tree(m0, a0, None) && Newborn(a0, at, r)
    ensures Ended(at, r) == a0
  {
    forall n | n in a0
      ensures n in Ended(at, r)
    {
      if Below(r, n) { NothingUnder(m0, a0, r, n); }
    }
  }

  /** Freeing and overwriting the page of a node with nothing below it changes no entry. */
  lemma OldPage(mem: Memory, at: map<Node, nat>, own: map<nat, Node>, n: Node, page: Page)
    requires Tree(mem, at, None) && Inverse(at, own) && n in at && Depth(n) >= 3 && page.Frame?
    requires |page.bytes| == PGSIZE
    ensures SameEntries(mem, mem[at[n] := page], at) && (forall i :: Child(n, i) !in at)
  {
    NothingBelow(mem, at, None, n);
    FrameWrite(mem, at, own, n, page);
  }

  lemma EndedSpaces(m0: Memory, a0: map<Node, nat>, mem1: Memory, own1: map<nat, Node>, mem2: Memory,
                    at2: map<Node, nat>, own2: map<nat, Node>, spaces: map<nat, Space>, r: nat)
    requires AllSpaces(m0, a0, spaces) && SameEntries(m0, mem1, a0) && DataKept(m0, own1, {}, mem1)
    requires Inverse(at2, own2)
    requires Freed(mem1, a0 - {Trap(r)}, mem2, at2, own2, {}, r) && Inverse(a0 - {Trap(r)}, own1)
    ensures at2 == Ended(a0, r) && AllSpaces(mem2, at2, spaces - {r})
    ensures SameEntries(m0, mem2, at2) && DataKept(m0, own2, {}, mem2)
  {
    forall r', v | r' != r && Root(r') in a0 && 0 <= v < MAXVPN
      ensures Lookup(mem2, r', v) == Lookup(m0, r', v)
    {
      OtherRoot(r, r', v);
    }
    EndedOnly(m0, a0, mem2, at2, r);
    SpacesWithout(m0, a0, mem2, at2, spaces, r);
    DataKeptShrink(m0, mem1, mem2, own1, own2, {});
  }

  lemma NewbornGrew(a0: map<Node, nat>, at1: map<Node, nat>, at2: map<Node, nat>, r: nat, lo: nat, hi: nat)
    requires Newborn(a0, at1, r) && Grew(at1, at2, r, lo, hi)
    ensures Newborn(a0, at2, r)
  {
  }

  /** From before fork to after its copy, whether the copy worked or was undone. */
  lemma ForkedOver(m0: Memory, a0: map<Node, nat>, own0: map<nat, Node>, mem1: Memory, at1: map<Node, nat>,
                   own1: map<nat, Node>, mem2: Memory, at2: map<Node, nat>, r: nat, s: nat, ok: bool, n: nat)
    requires Inverse(a0, own0) && Inverse(at1, own1) && Newborn(a0, at1, s) && SameEntries(m0, mem1, a0)
    requires DataKept(m0, own0, {}, mem1)
    requires if ok then Copying(mem1, at1, own1, mem2, at2, {}, r, s, n) else Undone(mem1, at1, own1, mem2, at2, {}, s)
    ensures Newborn(a0, at2, s) && SameEntries(m0, mem2, a0) && DataKept(m0, own0, {}, mem2)
  {
    NewbornGrew(a0, at1, at2, s, 0, if ok then n else 0);
    DataKeptGrow(m0, a0, own0, mem1, at1, own1, {}, mem2);
  }

  lemma SameKept(m0: Memory, a0: map<Node, nat>, own0: map<nat, Node>, mem1: Memory, own1: map<nat, Node>, mem2: Memory,
                 own2: map<nat, Node>)
    requires SameEntries(m0, mem1, a0) && SameEntries(mem1, mem2, a0) && DataKept(m0, own0, {}, mem1)
    requires DataKept(mem1, own2, {}, mem2)
    requires Inverse(a0, own0) && Inverse(a0, own2)
    ensures SameEntries(m0, mem2, a0) && DataKept(m0, own0, {}, mem2)
  {
    DataKeptGrow(m0, a0, own0, mem1, a0, own2, {}, mem2);
  }

  /** Bytes of an address are the bytes of uint64 arithmetic: sz + n may wrap below zero. */
  function Add64(sz: nat, n: int): nat
    requires -0x8000_0000 <= n
  {
    if sz + n >= 0 then sz + n else sz + n + 0x1_0000_0000_0000_0000
  }

  /** PTE_R | PTE_U | PTE_W, the flags of memory from sbrk. */
  const HEAP: Pte := Pte(0, true, true, true, false, true)

  function Resized(spaces: map<nat, Space>, r: nat, sz: nat): map<nat, Space>
    requires r in spaces
  {
    spaces[r := spaces[r].(sz := sz)]
  }

  lemma AddedSpace(s0: map<nat, Space>, s1: map<nat, Space>, p: nat, sz: nat)
    requires p !in s0 && p in s1 && s1 == s0[p := s1[p]]
    ensures s1 - {p} == s0
    ensures Resized(s1, p, sz)[p].sz == sz && Resized(s1, p, sz) == s0[p := Resized(s1, p, sz)[p]]
  {
  }

  class ProcTable {
    const vm: Vm
    const trampoline: nat
    var spaces: map<nat, Space>

    ghost predicate Valid()
      reads this, vm
    {
      vm.Valid() && vm.held == {} && AllSpaces(vm.mem, vm.at, spaces) && |vm.managed| < USERTOP
    }

    constructor (vm: Vm, trampoline: nat)
      requires vm.Valid() && vm.at == map[] && vm.held == {} && |vm.managed| < USERTOP
      ensures Valid() && this.vm == vm && spaces == map[]
    {
      this.vm := vm;
      this.trampoline := trampoline;
      spaces := map[];
    }

    /** uvmalloc for sbrk: the new size, or 0. */
    method MoreMemory(r: nat, n: nat) returns (newsz: nat)
      requires Valid() && r in spaces && n > 0
      modifies vm
      ensures vm.Valid() && vm.held == {}
      ensures newsz != 0 ==> newsz == spaces[r].sz + n && AllSpaces(vm.mem, vm.at, spaces[r := spaces[r].(sz := newsz)])
      ensures newsz != 0 ==>
                Growing(old(vm.mem), old(vm.at), old(vm.own), vm.mem, vm.at, {}, r, Pages(spaces[r].sz), Pages(newsz),
                HEAP, Fill(0))
      ensures newsz == 0 ==>
                AllSpaces(vm.mem, vm.at, spaces) && Undone(old(vm.mem), old(vm.at), old(vm.own), vm.mem, vm.at, {}, r)
      ensures newsz != 0 <==>
                |old(vm.free)| >= Lack(old(vm.at), r, Pages(spaces[r].sz), Pages(spaces[r].sz + n))
    {
      assert SpaceOk(vm.mem, vm.at, r, spaces[r]);
      ghost var done;
      newsz, done := vm.Uvmalloc(r, spaces[r].sz, spaces[r].sz + n, HEAP);
      if newsz == 0 {
        UndoneSpaces(old(vm.mem), old(vm.at), old(vm.own), vm.mem, vm.at, {}, spaces, r);
      } else {
        GrownSpaces(old(vm.mem), old(vm.at), vm.mem, vm.at, vm.own, vm.managed, spaces, r, newsz);
      }
    }

    /** growproc(n) with n > 0: zeroed pages, or failure with every user page as it was.  It
        fails exactly when there are too few pages for the new pages and the tables they lack. */
    method Grow(r: nat, n: nat) returns (ok: bool)
      requires Valid() && r in spaces && n > 0
      modifies this`spaces, vm
      ensures Valid() && spaces == (if ok then Resized(old(spaces), r, old(spaces)[r].sz + n) else old(spaces))
      ensures ok ==>
                Growing(old(vm.mem), old(vm.at), old(vm.own), vm.mem, vm.at, {}, r, Pages(old(spaces)[r].sz),
                Pages(old(spaces)[r].sz + n), HEAP, Fill(0))
      ensures !ok ==> Undone(old(vm.mem), old(vm.at), old(vm.own), vm.mem, vm.at, {}, r)
      ensures ok <==> |old(vm.free)| >= Lack(old(vm.at), r, Pages(old(spaces)[r].sz), Pages(old(spaces)[r].sz + n))
    {
      var newsz := MoreMemory(r, n);
      if newsz == 0 { return false; }
      spaces := spaces[r := spaces[r].(sz := newsz)];
      ok := true;
    }

    /** growproc(n) with n < 0: below zero the size wraps and nothing happens. */
    method Cut(r: nat, n: int)
      requires Valid() && r in spaces && -0x8000_0000 <= n < 0
      modifies this`spaces, vm
      ensures Valid()
      ensures spaces == if old(spaces)[r].sz + n >= 0 then Resized(old(spaces), r, old(spaces)[r].sz + n)
                else old(spaces)
      ensures old(spaces)[r].sz + n >= 0 ==>
                Unmapped(old(vm.mem), old(vm.at), vm.mem, vm.at, vm.own, {}, r, Pages(old(spaces)[r].sz + n),
                    Pages(old(spaces)[r].sz), true)
      ensures old(spaces)[r].sz + n < 0 ==> vm.mem == old(vm.mem) && vm.at == old(vm.at)
    {
      var sp := spaces[r];
      assert SpaceOk(vm.mem, vm.at, r, spaces[r]);
      WrapIsLarge(sp.sz, n);
      var newsz := vm.Uvmdealloc(r, sp.sz, Add64(sp.sz, n));
      if newsz < sp.sz {
        ShrinkOnly(old(vm.mem), old(vm.at), vm.mem, vm.at, vm.own, {}, r, Pages(newsz), Pages(sp.sz));
        ShrinkSpace(old(vm.mem), old(vm.at), vm.mem, vm.at, vm.own, {}, r, sp, newsz);
        SpacesNow(old(vm.mem), old(vm.at), vm.mem, vm.at, spaces, r, sp.(sz := newsz));
      } else {
        assert sp.(sz := newsz) == sp && spaces[r := sp] == spaces;
      }
      spaces := spaces[r := sp.(sz := newsz)];
    }

    // ---- allocproc, freeproc, fork ----

    /** The trapframe and page table of a new process, four pages; with fewer it fails and
        keeps nothing. */
    method AllocProc() returns (p: Option<nat>)
      requires Valid()
      modifies this`spaces, vm
      ensures Valid() && SameEntries(old(vm.mem), vm.mem, old(vm.at)) && DataKept(old(vm.mem), old(vm.own), {}, vm.mem)
      ensures p.None? ==> spaces == old(spaces) && vm.at == old(vm.at)
      ensures p.Some? ==> p.value !in old(spaces) && p.value in spaces && spaces[p.value].sz == 0
      ensures p.Some? ==> spaces == old(spaces)[p.value := spaces[p.value]] && Newborn(old(vm.at), vm.at, p.value)
      ensures p.Some? <==> |old(vm.free)| >= 4
      ensures p.Some? ==> vm.at.Keys == old(vm.at).Keys + Bare(p.value)
    {
      var tf := vm.Kalloc();
      if tf.None? { return None; }
      OtherPage(old(vm.mem), vm.at, vm.own, tf.value, Fill(5));
      ghost var m1 := vm.mem;
      SpacesSame(old(vm.mem), m1, vm.at, spaces);
      p := vm.ProcPagetable(trampoline, tf.value);
      if p.None? {
        OtherPage(vm.mem, vm.at, vm.own, tf.value, Fill(1));
        vm.Kfree(tf.value, None);
        SpacesSame(old(vm.mem), vm.mem, vm.at, spaces);
      } else {
        BornSpaces(m1, old(vm.at), old(vm.own), vm.mem, vm.at, vm.held, p.value, trampoline, tf.value, spaces);
        BareKeys(old(vm.at), vm.at, p.value, tf.value);
        vm.AdoptTrap(p.value, tf.value);
        spaces := spaces[p.value := Space(0, tf.value)];
      }
    }

    method ProcFreepagetable(r: nat, sz: nat)
      requires vm.Valid() && SpaceMapped(vm.mem, vm.at, r, sz)
      modifies vm
      ensures vm.Valid() && vm.held == old(vm.held) && Freed(old(vm.mem), old(vm.at), vm.mem, vm.at, vm.own, vm.held, r)
    {
      vm.Uvmunmap(r, TRAMPOLINE, 1, false);
      ghost var mem1, own1 := vm.mem, vm.own;
      vm.Uvmunmap(r, TRAPFRAME, 1, false);
      ghost var mem2, own2 := vm.mem, vm.own;
      UnshareTwo(old(vm.mem), vm.at, mem1, own1, mem2, own2, vm.held, r, sz);
      vm.Uvmfree(r, sz);
      FreedFromStart(old(vm.mem), old(vm.at), mem2, own2, vm.mem, vm.at, vm.own, vm.held, r, sz);
    }

    method FreeTrap(r: nat)
      requires Valid() && r in spaces
      modifies vm
      ensures vm.Valid() && vm.held == {} && vm.at == old(vm.at) - {Trap(r)}
      ensures SpaceMapped(vm.mem, vm.at, r, spaces[r].sz)
      ensures SameEntries(old(vm.mem), vm.mem, old(vm.at)) && DataKept(old(vm.mem), vm.own, {}, vm.mem)
      ensures forall p :: p in vm.own ==> p in old(vm.own) && vm.own[p] == old(vm.own)[p]
    {
      var sp := spaces[r];
      assert SpaceOk(vm.mem, vm.at, r, spaces[r]);
      OldPage(vm.mem, vm.at, vm.own, Trap(r), Fill(1));
      vm.LetGo(Trap(r));
      vm.Kfree(sp.tf, None);
      TrapGone(old(vm.mem), old(vm.at), vm.mem, r, sp);
    }

    /** Frees the trapframe, the user pages and the page table: exactly what r owned. */
    method FreeProc(r: nat)
      requires Valid() && r in spaces
      modifies this`spaces, vm
      ensures Valid() && spaces == old(spaces) - {r} && vm.at == Ended(old(vm.at), r)
      ensures SameEntries(old(vm.mem), vm.mem, vm.at) && DataKept(old(vm.mem), vm.own, {}, vm.mem)
    {
      FreeTrap(r);
      ghost var mem1, at1, own1 := vm.mem, vm.at, vm.own;
      ProcFreepagetable(r, spaces[r].sz);
      EndedSpaces(old(vm.mem), old(vm.at), mem1, own1, vm.mem, vm.at, vm.own, spaces, r);
      spaces := spaces - {r};
    }

    method CopyMemory(r: nat, s: nat) returns (ok: bool)
      requires Valid() && r in spaces && s in spaces && r != s && spaces[s].sz == 0
      modifies vm
      ensures vm.Valid() && vm.held == {}
      ensures ok ==> AllSpaces(vm.mem, vm.at, Resized(spaces, s, spaces[r].sz))
      ensures ok ==> Copying(old(vm.mem), old(vm.at), old(vm.own), vm.mem, vm.at, {}, r, s, Pages(spaces[r].sz))
      ensures !ok ==>
                AllSpaces(vm.mem, vm.at, spaces) && Undone(old(vm.mem), old(vm.at), old(vm.own), vm.mem, vm.at, {}, s)
      ensures ok <==> |old(vm.free)| >= Lack(old(vm.at), s, 0, Pages(spaces[r].sz))
    {
      assert SpaceOk(vm.mem, vm.at, r, spaces[r]) && SpaceOk(vm.mem, vm.at, s, spaces[s]);
      assert Pages(spaces[s].sz) == 0;
      ok := vm.Uvmcopy(r, s, spaces[r].sz);
      if ok {
        GrownSpaces(old(vm.mem), old(vm.at), vm.mem, vm.at, vm.own, vm.managed, spaces, s, spaces[r].sz);
      } else {
        UndoneSpaces(old(vm.mem), old(vm.at), old(vm.own), vm.mem, vm.at, {}, spaces, s);
      }
    }

    /** uvmcopy into a new process, which then has the same size. */
    method CopyInto(r: nat, s: nat) returns (ok: bool)
      requires Valid() && r in spaces && s in spaces && r != s && spaces[s].sz == 0
      modifies this`spaces, vm
      ensures Valid() && spaces == (if ok then Resized(old(spaces), s, old(spaces)[r].sz) else old(spaces))
      ensures ok ==> Copying(old(vm.mem), old(vm.at), old(vm.own), vm.mem, vm.at, {}, r, s, Pages(old(spaces)[r].sz))
      ensures !ok ==> Undone(old(vm.mem), old(vm.at), old(vm.own), vm.mem, vm.at, {}, s)
      ensures ok <==> |old(vm.free)| >= Lack(old(vm.at), s, 0, Pages(old(spaces)[r].sz))
    {
      ok := CopyMemory(r, s);
      if ok { spaces := Resized(spaces, s, spaces[r].sz); }
    }

    /** What the copy into the new process s will need. */
    lemma ForkNeeds(r: nat, s: nat, m0: Memory, a0: map<Node, nat>, own0: map<nat, Node>, free0: seq<nat>, n: nat)
      requires Valid() && r in spaces && Tree(m0, a0, None) && Root(s) !in a0 && Trap(s) !in a0
      requires Inverse(a0, own0) && Pool(vm.managed, free0, own0, {}) && n == Pages(spaces[r].sz)
      requires vm.at.Keys == a0.Keys + Bare(s)
      ensures |vm.free| >= Lack(vm.at, s, 0, n) <==> |free0| >= 4 + PagesAndTables(n)
    {
      assert SpaceOk(vm.mem, vm.at, r, spaces[r]);
      PagesAddUp(vm.managed, free0, a0, own0, {});
      PagesAddUp(vm.managed, vm.free, vm.at, vm.own, {});
      NoneBelow(m0, a0, s);
      BareSize(a0, vm.at, s);
      UserPagesFit(vm.at, vm.own, vm.managed, vm.free, r, n);
      LackInBare(a0, vm.at, s, n, |vm.free|);
    }

    /** freeproc of a process that never ran. */
    method Abandon(s: nat, ghost m0: Memory, ghost a0: map<Node, nat>, ghost own0: map<nat, Node>)
      requires Valid() && s in spaces && Tree(m0, a0, None) && Inverse(a0, own0)
      requires Newborn(a0, vm.at, s) && SameEntries(m0, vm.mem, a0) && DataKept(m0, own0, {}, vm.mem)
      modifies this`spaces, vm
      ensures Valid() && spaces == old(spaces) - {s} && vm.at == a0
      ensures SameEntries(m0, vm.mem, a0) && DataKept(m0, own0, {}, vm.mem)
    {
      EndedNewborn(m0, a0, vm.at, s);
      FreeProc(s);
      SameKept(m0, a0, own0, old(vm.mem), old(vm.own), vm.mem, vm.own);
    }

    /** The memory side of fork: the child is a copy on fresh pages, or nothing changed.  It
        works exactly when there are pages for the trapframe, the root and the two tables above
        the shared pages, for every page of the parent, and for the tables over those. */
    method Fork(r: nat) returns (p: Option<nat>)
      requires Valid() && r in spaces
      modifies this`spaces, vm
      ensures Valid() && SameEntries(old(vm.mem), vm.mem, old(vm.at)) && DataKept(old(vm.mem), old(vm.own), {}, vm.mem)
      ensures p.None? ==> spaces == old(spaces) && vm.at == old(vm.at)
      ensures p.Some? ==> p.value !in old(spaces) && Newborn(old(vm.at), vm.at, p.value)
      ensures p.Some? ==>
                p.value in spaces && spaces == old(spaces)[p.value := spaces[p.value]]
                && spaces[p.value].sz == old(spaces)[r].sz
      ensures p.Some? ==> forall w :: 0 <= w < Pages(old(spaces)[r].sz) ==> CopyOf(vm.mem, vm.at, r, p.value, w)
      ensures p.Some? <==> |old(vm.free)| >= 4 + PagesAndTables(Pages(old(spaces)[r].sz))
    {
      p := AllocProc();
      if p.None? { return; }
      ForkNeeds(r, p.value, old(vm.mem), old(vm.at), old(vm.own), old(vm.free), Pages(old(spaces)[r].sz));
      ghost var mem1, at1, own1 := vm.mem, vm.at, vm.own;
      AddedSpace(old(spaces), spaces, p.value, spaces[r].sz);
      var ok := CopyInto(r, p.value);
      ForkedOver(old(vm.mem), old(vm.at), old(vm.own), mem1, at1, own1, vm.mem, vm.at, r, p.value, ok,
          Pages(old(spaces)[r].sz));
      if !ok {
        Abandon(p.value, old(vm.mem), old(vm.at), old(vm.own));
        p := None;
      }
    }
  }

  lemma WrapIsLarge(sz: nat, n: int)
    requires -0x8000_0000 <= n < 0 && Pages(sz) <= USERTOP
    ensures Add64(sz, n) < sz <==> sz + n >= 0
  {
  }
}
