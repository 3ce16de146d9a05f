/** What the operations of kernel/vm.c do to entries, ownership and bytes: relations
    between the memory and ownership before and after, and the steps that build them. */
module AddressSpace {
  import opened Prelude
  import opened PageTable

  function NodeAt(r: nat, v: nat, level: nat): Node {
    if level >= 2 then Root(r) else if level == 1 then MidNode(r, v) else LowNode(r, v)
  }

  /** Only tables on the way to page v of r were added. */
  ghost predicate Grown(at: map<Node, nat>, at': map<Node, nat>, r: nat, v: nat) {
    && (forall n :: n in at ==> n in at' && at'[n] == at[n])
    && (forall n :: n in at' && n !in at ==> n == MidNode(r, v) || n == LowNode(r, v))
  }

  ghost predicate MapGrown(at: map<Node, nat>, at': map<Node, nat>, r: nat, v: nat, owned: bool, ppn: nat) {
    && (forall n :: n in at ==> n in at' && at'[n] == at[n])
    && (forall n :: n in at' && n !in at ==> n == MidNode(r, v) || n == LowNode(r, v) || (owned && n == UserNode(r, v)))
    && (owned ==> UserNode(r, v) !in at && UserNode(r, v) in at' && at'[UserNode(r, v)] == ppn)
  }

  /** Mapped pages and held pages keep their bytes. */
  ghost predicate DataKept(mem: Memory, own: map<nat, Node>, held: set<nat>, mem': Memory) {
    forall p {:trigger mem'[p]} {:trigger p in mem'} ::
      p in mem && (p in held || (p in own && Depth(own[p]) >= 3)) ==> p in mem' && mem'[p] == mem[p]
  }

  ghost function UserNodes(r: nat, lo: nat, hi: nat): set<Node> {
    set w | lo <= w < hi :: UserNode(r, w)
  }

  ghost predicate RangeGone(mem: Memory, mem': Memory, at: map<Node, nat>, r: nat, lo: nat, hi: nat) {
    forall r', w {:trigger Lookup(mem', r', w)} :: Root(r') in at && 0 <= w < MAXVPN ==>
      Lookup(mem', r', w) == if r' == r && lo <= w < hi then EMPTY else Lookup(mem, r', w)
  }

  /** Pages lo..hi of r lead to consecutive frames from the one in e on. */
  ghost predicate RangeMapped(mem: Memory, mem': Memory, at: map<Node, nat>, r: nat, lo: nat, hi: nat, e: Pte) {
    forall r', w {:trigger Lookup(mem', r', w)} :: Root(r') in at && 0 <= w < MAXVPN ==>
      Lookup(mem', r', w) == if r' == r && lo <= w < hi then e.(ppn := e.ppn + (w - lo)) else Lookup(mem, r', w)
  }

  lemma RangeMappedStep(mem: Memory, mem0: Memory, mem1: Memory, at: map<Node, nat>, at0: map<Node, nat>, r: nat,
                        lo: nat, a: nat, e: Pte)
    requires RangeMapped(mem, mem0, at, r, lo, a, e) && lo <= a && (forall r' :: Root(r') in at ==> Root(r') in at0)
    requires OneEntry(mem0, mem1, at0, r, a, e.(ppn := e.ppn + (a - lo)))
    ensures RangeMapped(mem, mem1, at, r, lo, a + 1, e)
  {
    forall r', w | Root(r') in at && 0 <= w < MAXVPN
      ensures Lookup(mem1, r', w) ==
              if r' == r && lo <= w < a + 1 then e.(ppn := e.ppn + (w - lo)) else Lookup(mem, r', w)
    {
      assert Lookup(mem0, r', w) ==
          if r' == r && lo <= w < a then e.(ppn := e.ppn + (w - lo)) else Lookup(mem, r', w);
    }
  }

  lemma RangeMappedStill(mem: Memory, mem0: Memory, mem1: Memory, at: map<Node, nat>, at0: map<Node, nat>, r: nat,
                         lo: nat, a: nat, e: Pte)
    requires RangeMapped(mem, mem0, at, r, lo, a, e) && (forall r' :: Root(r') in at ==> Root(r') in at0)
    requires SameEntries(mem0, mem1, at0)
    ensures RangeMapped(mem, mem1, at, r, lo, a, e)
  {
    forall r', w | Root(r') in at && 0 <= w < MAXVPN
      ensures Lookup(mem1, r', w) ==
              if r' == r && lo <= w < a then e.(ppn := e.ppn + (w - lo)) else Lookup(mem, r', w)
    {
      assert Lookup(mem1, r', w) == Lookup(mem0, r', w);
    }
  }

  /** The ownership left when pages lo..hi of r have been unmapped. */
  ghost function Unowned(at: map<Node, nat>, r: nat, lo: nat, hi: nat, doFree: bool): map<Node, nat> {
    if doFree then at - UserNodes(r, lo, hi) else at
  }

  lemma NotYetGone(at: map<Node, nat>, r: nat, lo: nat, a: nat, doFree: bool)
    requires a < MAXVPN
    ensures UserNode(r, a) in at <==> UserNode(r, a) in Unowned(at, r, lo, a, doFree)
    ensures forall r' :: Root(r') in at ==> Root(r') in Unowned(at, r, lo, a, doFree)
  {
    if w :| lo <= w < a && UserNode(r, w) == UserNode(r, a) { UserNodeInjective(r, w, a); }
  }

  ghost predicate AllMapped(mem: Memory, at: map<Node, nat>, r: nat, lo: nat, hi: nat, owned: bool) {
    forall w :: lo <= w < hi ==> Lookup(mem, r, w).v && (owned <==> UserNode(r, w) in at)
  }

  lemma NextMapped(mem: Memory, mem0: Memory, at: map<Node, nat>, r: nat, lo: nat, a: nat, hi: nat, doFree: bool)
    requires AllMapped(mem, at, r, lo, hi, doFree) && lo <= a < hi <= MAXVPN && Root(r) in at
    requires RangeGone(mem, mem0, at, r, lo, a)
    ensures Lookup(mem0, r, a).v && (doFree <==> UserNode(r, a) in Unowned(at, r, lo, a, doFree))
    ensures forall r' :: Root(r') in at ==> Root(r') in Unowned(at, r, lo, a, doFree)
  {
    NotYetGone(at, r, lo, a, doFree);
  }

  /** What unmapping pages lo..hi of r has done to entries, ownership and bytes. */
  ghost predicate Unmapped(mem: Memory, at: map<Node, nat>, mem': Memory, at': map<Node, nat>, own': map<nat, Node>,
                           held: set<nat>, r: nat, lo: nat, hi: nat, doFree: bool) {
    && RangeGone(mem, mem', at, r, lo, hi)
    && at' == Unowned(at, r, lo, hi, doFree)
    && DataKept(mem, own', held, mem')
  }

  lemma UnmapNone(mem: Memory, at: map<Node, nat>, own: map<nat, Node>, held: set<nat>, r: nat, v: nat, doFree: bool)
    ensures Unmapped(mem, at, mem, at, own, held, r, v, v, doFree)
  {
    assert UserNodes(r, v, v) == {};
  }

  lemma UnmapStep(mem: Memory, at: map<Node, nat>, mem0: Memory, at0: map<Node, nat>, own0: map<nat, Node>,
                  held: set<nat>, mem1: Memory, at1: map<Node, nat>, own1: map<nat, Node>, r: nat, lo: nat, a: nat,
                  doFree: bool)
    requires Unmapped(mem, at, mem0, at0, own0, held, r, lo, a, doFree) && lo <= a
    requires OneEntry(mem0, mem1, at0, r, a, EMPTY) && at1 == (if doFree then at0 - {UserNode(r, a)} else at0)
    requires DataKept(mem0, own1, held, mem1) && (forall p :: p in own1 ==> p in own0 && own1[p] == own0[p])
    requires forall r' :: Root(r') in at ==> Root(r') in at0
    ensures Unmapped(mem, at, mem1, at1, own1, held, r, lo, a + 1, doFree)
  {
    RangeGoneStep(mem, mem0, mem1, at, at0, r, lo, a);
    DataKeptShrink(mem, mem0, mem1, own0, own1, held);
    UserNodesStep(r, lo, a);
  }

  lemma RangeGoneStep(mem: Memory, mem0: Memory, mem1: Memory, at: map<Node, nat>, at0: map<Node, nat>, r: nat, lo: nat,
                      a: nat)
    requires RangeGone(mem, mem0, at, r, lo, a) && OneEntry(mem0, mem1, at0, r, a, EMPTY) && lo <= a
    requires forall r' :: Root(r') in at ==> Root(r') in at0
    ensures RangeGone(mem, mem1, at, r, lo, a + 1)
  {
  }

  lemma DataKeptShrink(mem: Memory, mem0: Memory, mem1: Memory, own0: map<nat, Node>, own1: map<nat, Node>,
                       held: set<nat>)
    requires DataKept(mem, own0, held, mem0) && DataKept(mem0, own1, held, mem1)
    requires forall p :: p in own1 ==> p in own0 && own1[p] == own0[p]
    ensures DataKept(mem, own1, held, mem1)
  {
  }

  lemma UserNodesStep(r: nat, lo: nat, a: nat)
    requires lo <= a
    ensures UserNodes(r, lo, a + 1) == UserNodes(r, lo, a) + {UserNode(r, a)}
  {
    forall n | n in UserNodes(r, lo, a + 1)
      ensures n in UserNodes(r, lo, a) + {UserNode(r, a)}
    {
      var w :| lo <= w < a + 1 && UserNode(r, w) == n;
      if w < a { assert UserNode(r, w) in UserNodes(r, lo, a); }
    }
    forall n | n in UserNodes(r, lo, a) + {UserNode(r, a)}
      ensures n in UserNodes(r, lo, a + 1)
    {
      var w :| lo <= w < a + 1 && UserNode(r, w) == n;
    }
  }

  lemma GrownBelow(at: map<Node, nat>, at0: map<Node, nat>, at1: map<Node, nat>, r: nat, v: nat, level: nat)
    requires Grown(at, at0, r, v) && 1 <= level <= 2
    requires at1 == at0
               || (NodeAt(r, v, level - 1) in at1 && NodeAt(r, v, level - 1) !in at0
               && at1 == at0[NodeAt(r, v, level - 1) := at1[NodeAt(r, v, level - 1)]])
    ensures Grown(at, at1, r, v)
  {
  }

  lemma KeptAcross(mem: Memory, mem0: Memory, mem1: Memory, at: map<Node, nat>, at0: map<Node, nat>,
                   own: map<nat, Node>, own0: map<nat, Node>, held: set<nat>)
    requires Inverse(at, own) && Inverse(at0, own0) && (forall n :: n in at ==> n in at0 && at0[n] == at[n])
    requires SameEntries(mem, mem0, at) && SameEntries(mem0, mem1, at0)
    requires DataKept(mem, own, held, mem0) && DataKept(mem0, own0, held, mem1)
    ensures SameEntries(mem, mem1, at) && DataKept(mem, own, held, mem1)
  {
    forall p | p in mem && (p in held || (p in own && Depth(own[p]) >= 3))
      ensures p in mem1 && mem1[p] == mem[p]
    {
      if p in own { assert at0[own[p]] == p; }
    }
  }

  /** Writing a frame changes no table. */
  lemma FrameWrite(mem: Memory, at: map<Node, nat>, own: map<nat, Node>, u: Node, page: Page)
    requires Tree(mem, at, None) && Inverse(at, own) && u in at && Depth(u) >= 3 && page.Frame?
    requires |page.bytes| == PGSIZE
    ensures Tree(mem[at[u] := page], at, None) && SameEntries(mem, mem[at[u] := page], at)
  {
    var mem' := mem[at[u] := page];
    forall n | n in at
      ensures at[n] in mem && (n != u ==> at[n] != at[u]) && (Depth(n) >= 3 ==> IsFrame(mem', at[n]))
    {
      assert NodeOk(mem, at, None, n);
    }
    SamePagesKeep(mem, mem', at, None);
    SameTablesEntries(mem, mem', at, at);
  }

  // ---- the part of a tree below a node ----

  /** The child of n that m is, or lies below. */
  function Kid(n: Node, m: Node): Option<nat> {
    if !m.Child? then None else if m.parent == n then Some(m.i) else Kid(n, m.parent)
  }

  ghost function Without(at: map<Node, nat>, n: Node, k: nat): map<Node, nat> {
    map m | m in at && !(Kid(n, m).Some? && Kid(n, m).value < k) :: at[m]
  }

  /** Ownership without n and everything below it. */
  ghost function Gone(at: map<Node, nat>, n: Node): map<Node, nat> {
    map m | m in at && m != n && Kid(n, m).None? :: at[m]
  }

  ghost predicate NoLeaves(mem: Memory, at: map<Node, nat>, n: Node) {
    forall m, i ::
      m in at && Depth(m) == 2 && (m == n || Kid(n, m).Some?) && 0 <= i < ENTRIES ==> !Entry(mem, at[m], i).v
  }

  ghost predicate PagesKept(mem: Memory, mem': Memory, at: map<Node, nat>, held: set<nat>) {
    && (forall m :: m in at ==> at[m] in mem && at[m] in mem' && mem'[at[m]] == mem[at[m]])
    && (forall p :: p in held && p in mem ==> p in mem' && mem'[p] == mem[p])
  }

  /** The first k slots of n have been freed and cleared; the rest is as it was. */
  ghost predicate Cleared(mem: Memory, at: map<Node, nat>, mem': Memory, at': map<Node, nat>, held: set<nat>, n: Node,
                          k: nat)
  {
    && at' == Without(at, n, k)
    && n in at && IsTable(mem', at[n])
    && PagesKept(mem, mem', at' - {n}, held)
    && (forall j :: 0 <= j < k && j < ENTRIES ==> !mem'[at[n]].ptes[j].v)
  }

  lemma KidDepth(n: Node, m: Node)
    ensures Kid(n, m).Some? ==> Depth(m) > Depth(n)
  {
  }

  lemma KidSplit(n: Node, i: nat, m: Node)
    ensures Kid(n, m) == Some(i) <==> m == Child(n, i) || Kid(Child(n, i), m).Some?
  {
    KidDepth(n, m);
    KidDepth(Child(n, i), m);
    if m.Child? && m.parent != n { KidSplit(n, i, m.parent); }
    if m.Child? { KidDepth(Child(n, i), m.parent); }
  }

  lemma KidInTree(mem: Memory, at: map<Node, nat>, hole: Option<Node>, n: Node, m: Node)
    requires Tree(mem, at, hole) && m in at && Kid(n, m).Some?
    ensures Child(n, Kid(n, m).value) in at
  {
    assert NodeOk(mem, at, hole, m);
    if m.parent != n { KidInTree(mem, at, hole, n, m.parent); }
    else { assert m == Child(n, m.i); }
  }

  lemma EntryKind(mem: Memory, at: map<Node, nat>, n: Node, i: nat)
    requires Tree(mem, at, None) && n in at && Depth(n) < 3 && i < ENTRIES && NoLeaves(mem, at, n)
    ensures IsTable(mem, at[n])
    ensures var e := mem[at[n]].ptes[i];
            if e.v then !IsLeaf(e) && Depth(n) < 2 && Child(n, i) in at
                && at[Child(n, i)] == e.ppn else Child(n, i) !in at
  {
    assert NodeOk(mem, at, None, n);
    NotYet(mem, at, None, n, i);
    if mem[at[n]].ptes[i].v {
      assert Entry(mem, at[n], i).v;
      assert NodeOk(mem, at, None, Child(n, i));
    }
  }

  lemma NoLeavesBelow(mem: Memory, at: map<Node, nat>, n: Node, i: nat)
    requires NoLeaves(mem, at, n)
    ensures NoLeaves(mem, at, Child(n, i))
  {
    forall m, j | m in at && Depth(m) == 2 && (m == Child(n, i) || Kid(Child(n, i), m).Some?) && 0 <= j < ENTRIES
      ensures !Entry(mem, at[m], j).v
    {
      KidSplit(n, i, m);
    }
  }

  lemma NoneCleared(mem: Memory, at: map<Node, nat>, held: set<nat>, n: Node)
    requires Tree(mem, at, None) && n in at && Depth(n) < 3
    ensures Cleared(mem, at, mem, at, held, n, 0)
  {
    assert NodeOk(mem, at, None, n);
    forall m | m in at
      ensures at[m] in mem
    {
      assert NodeOk(mem, at, None, m);
    }
  }

  lemma NoChild(m0: Memory, a0: map<Node, nat>, mem: Memory, at: map<Node, nat>, held: set<nat>, n: Node, i: nat)
    requires Cleared(m0, a0, mem, at, held, n, i) && Tree(mem, at, None) && i < ENTRIES && Child(n, i) !in at
    requires !mem[a0[n]].ptes[i].v
    ensures Cleared(m0, a0, mem, at, held, n, i + 1)
  {
    forall m | m in at
      ensures m in Without(a0, n, i + 1)
    {
      if Kid(n, m).Some? { KidInTree(mem, at, None, n, m); }
    }
  }

  lemma GoneStep(a0: map<Node, nat>, at: map<Node, nat>, n: Node, i: nat)
    requires at == Without(a0, n, i)
    ensures Gone(at, Child(n, i)) == Without(a0, n, i + 1)
  {
    forall m | m in a0
      ensures m in Gone(at, Child(n, i)) <==> m in Without(a0, n, i + 1)
    {
      KidSplit(n, i, m);
    }
  }

  lemma GoneKeepsParent(at: map<Node, nat>, n: Node, i: nat)
    requires n in at
    ensures n in Gone(at, Child(n, i)) && Gone(at, Child(n, i))[n] == at[n]
  {
    KidDepth(Child(n, i), n);
  }

  /** The child's subtree is gone and its entry cleared. */
  lemma AfterChild(m0: Memory, a0: map<Node, nat>, mem1: Memory, at1: map<Node, nat>, own1: map<nat, Node>,
                   mem2: Memory, at2: map<Node, nat>, held: set<nat>, n: Node, i: nat)
    requires Cleared(m0, a0, mem1, at1, held, n, i) && i < ENTRIES && n in at1 && IsTable(mem1, at1[n])
    requires at1[n] !in held
    requires Inverse(at1, own1) && at2 == Gone(at1, Child(n, i)) && PagesKept(mem1, mem2, at2, held)
    ensures n in at2 && at2[n] == at1[n] && IsTable(mem2, at2[n])
    ensures Cleared(m0, a0, SetEntry(mem2, at2[n], i, EMPTY), at2, held, n, i + 1)
  {
    GoneStep(a0, at1, n, i);
    GoneKeepsParent(at1, n, i);
    var t := at1[n];
    var mem3 := SetEntry(mem2, t, i, EMPTY);
    assert mem2[t] == mem1[t];
    forall m | m in at2 - {n}
      ensures at2[m] in m0 && at2[m] in mem3 && mem3[at2[m]] == m0[at2[m]]
    {
      assert m in at1 - {n} && at1[m] != t;
    }
  }

  lemma LeavesAfterChild(mem1: Memory, at1: map<Node, nat>, own1: map<nat, Node>, mem2: Memory, at2: map<Node, nat>,
                         held: set<nat>, n: Node, i: nat)
    requires NoLeaves(mem1, at1, n) && n in at1 && i < ENTRIES && IsTable(mem1, at1[n]) && Inverse(at1, own1)
    requires at2 == Gone(at1, Child(n, i)) && PagesKept(mem1, mem2, at2, held) && n in at2
    ensures IsTable(mem2, at1[n]) && NoLeaves(SetEntry(mem2, at1[n], i, EMPTY), at2, n)
  {
    var t := at1[n];
    var mem3 := SetEntry(mem2, t, i, EMPTY);
    forall m, j | m in at2 && Depth(m) == 2 && (m == n || Kid(n, m).Some?) && 0 <= j < ENTRIES
      ensures !Entry(mem3, at2[m], j).v
    {
      assert !Entry(mem1, at1[m], j).v;
      if m != n { assert at1[m] != t; }
    }
  }

  lemma NoKids(mem: Memory, at: map<Node, nat>, n: Node)
    requires Tree(mem, at, None) && n in at && IsTable(mem, at[n])
    requires (forall j :: 0 <= j < ENTRIES ==> !mem[at[n]].ptes[j].v)
    ensures forall i :: Child(n, i) !in at
  {
    forall i
      ensures Child(n, i) !in at
    {
      NotYet(mem, at, None, n, i);
    }
  }

  lemma AllCleared(m0: Memory, a0: map<Node, nat>, mem: Memory, at: map<Node, nat>, own: map<nat, Node>, held: set<nat>,
                   n: Node)
    requires Cleared(m0, a0, mem, at, held, n, ENTRIES) && Tree(mem, at, None) && Inverse(at, own) && n in at
    requires at[n] !in held
    ensures forall i :: Child(n, i) !in at
    ensures at - {n} == Gone(a0, n) && PagesKept(m0, mem[at[n] := Fill(1)], at - {n}, held)
  {
    NoKids(mem, at, n);
    forall m | m in at && m != n
      ensures Kid(n, m).None?
    {
      if Kid(n, m).Some? { KidInTree(mem, at, None, n, m); }
    }
    forall m | m in Gone(a0, n)
      ensures m in at
    {
    }
    forall m | m in at - {n}
      ensures at[m] != at[n]
    {
    }
  }

  // ---- filling a range of pages ----

  predicate Below(r: nat, n: Node) {
    Kid(Root(r), n).Some?
  }

  /** Nothing was dropped; tables of r were added, and the user pages lo..hi of r. */
  ghost predicate Grew(a0: map<Node, nat>, at: map<Node, nat>, r: nat, lo: nat, hi: nat) {
    && (forall n :: n in a0 ==> n in at && at[n] == a0[n])
    && (forall n :: n in at && n !in a0 ==> Below(r, n) && (Depth(n) < 3 || n in UserNodes(r, lo, hi)))
  }

  ghost predicate EntriesBut(m0: Memory, a0: map<Node, nat>, mem: Memory, r: nat, lo: nat, hi: nat) {
    forall r', w {:trigger Lookup(mem, r', w)} ::
      Root(r') in a0 && 0 <= w < MAXVPN && !(r' == r && lo <= w < hi) ==> Lookup(mem, r', w) == Lookup(m0, r', w)
  }

  ghost predicate Filled(m0: Memory, a0: map<Node, nat>, mem: Memory, at: map<Node, nat>, r: nat, lo: nat, hi: nat) {
    && Grew(a0, at, r, lo, hi)
    && EntriesBut(m0, a0, mem, r, lo, hi)
    && (forall w :: lo <= w < hi ==> UserNode(r, w) in at && UserNode(r, w) !in a0 && Lookup(mem, r, w).v)
  }

  lemma FilledNone(mem: Memory, at: map<Node, nat>, r: nat, lo: nat)
    ensures Filled(mem, at, mem, at, r, lo, lo)
  {
  }

  lemma PathBelow(r: nat, v: nat)
    ensures Below(r, MidNode(r, v)) && Below(r, LowNode(r, v)) && Below(r, UserNode(r, v))
    ensures Depth(MidNode(r, v)) == 1 && Depth(LowNode(r, v)) == 2 && Depth(UserNode(r, v)) == 3
  {
    PathDepth(r, v);
    assert Kid(Root(r), MidNode(r, v)).Some?;
    assert Kid(Root(r), LowNode(r, v)).Some?;
  }

  lemma GrewStep(a0: map<Node, nat>, at1: map<Node, nat>, at2: map<Node, nat>, r: nat, lo: nat, a: nat, owned: bool,
                 ppn: nat)
    requires Grew(a0, at1, r, lo, a) && MapGrown(at1, at2, r, a, owned, ppn) && lo <= a
    ensures Grew(a0, at2, r, lo, if owned then a + 1 else a)
  {
    UserNodesStep(r, lo, a);
    PathBelow(r, a);
  }

  lemma FilledStep(m0: Memory, a0: map<Node, nat>, mem1: Memory, at1: map<Node, nat>, mem2: Memory, at2: map<Node, nat>,
                   r: nat, lo: nat, a: nat, e: Pte)
    requires Filled(m0, a0, mem1, at1, r, lo, a) && lo <= a < MAXVPN && Root(r) in a0 && e.v
    requires OneEntry(mem1, mem2, at1, r, a, e) && MapGrown(at1, at2, r, a, true, e.ppn)
    ensures Filled(m0, a0, mem2, at2, r, lo, a + 1)
  {
    GrewStep(a0, at1, at2, r, lo, a, true, e.ppn);
  }

  lemma FilledSame(m0: Memory, a0: map<Node, nat>, mem1: Memory, at1: map<Node, nat>, mem2: Memory, at2: map<Node, nat>,
                   r: nat, lo: nat, a: nat, ppn: nat)
    requires Filled(m0, a0, mem1, at1, r, lo, a) && lo <= a < MAXVPN && Root(r) in a0
    requires SameEntries(mem1, mem2, at1) && MapGrown(at1, at2, r, a, false, ppn)
    ensures Filled(m0, a0, mem2, at2, r, lo, a)
  {
    GrewStep(a0, at1, at2, r, lo, a, false, ppn);
  }

  // ---- user memory from 0 up ----

  const USERTOP: nat := MAXVPN - 2 // TRAPFRAME / PGSIZE

  /** PGROUNDUP(sz) / PGSIZE. */
  function Pages(sz: nat): nat {
    (sz + PGSIZE - 1) / PGSIZE
  }

  ghost predicate Contiguous(at: map<Node, nat>, r: nat, n: nat) {
    forall v :: 0 <= v < n ==> UserNode(r, v) in at
  }

  ghost predicate Vacant(mem: Memory, r: nat, lo: nat, hi: nat) {
    forall v :: lo <= v < hi ==> !Lookup(mem, r, v).v
  }

  ghost function UserPages(at: map<Node, nat>, r: nat, n: nat): set<nat>
    requires Contiguous(at, r, n)
  {
    if n == 0 then {} else UserPages(at, r, n - 1) + {at[UserNode(r, n - 1)]}
  }

  lemma {:induction false} UserPageOf(at: map<Node, nat>, r: nat, n: nat, p: nat) returns (v: nat)
    requires Contiguous(at, r, n) && p in UserPages(at, r, n)
    ensures v < n && at[UserNode(r, v)] == p
  {
    v := n - 1;
    if p != at[UserNode(r, v)] { v := UserPageOf(at, r, n - 1, p); }
  }

  lemma {:induction false} CountUserPages(at: map<Node, nat>, own: map<nat, Node>, r: nat, n: nat)
    requires Contiguous(at, r, n) && Inverse(at, own) && n <= MAXVPN
    ensures |UserPages(at, r, n)| == n && UserPages(at, r, n) <= own.Keys
  {
    if n > 0 {
      CountUserPages(at, own, r, n - 1);
      var p := at[UserNode(r, n - 1)];
      if p in UserPages(at, r, n - 1) {
        var v := UserPageOf(at, r, n - 1, p);
        UserNodeInjective(r, v, n - 1);
      }
    }
  }

  /** There is not enough memory for user pages to reach the trapframe. */
  lemma UserBelowTop(at: map<Node, nat>, own: map<nat, Node>, managed: set<nat>, r: nat, n: nat)
    requires Contiguous(at, r, n) && Inverse(at, own) && own.Keys <= managed && |managed| < USERTOP
    ensures n < USERTOP
  {
    var k := if n < USERTOP then n else USERTOP;
    CountUserPages(at, own, r, k);
    SubsetSize(UserPages(at, r, k), managed);
  }

  /** Pages lo..hi of r hold `page` and carry the flags of e. */
  ghost predicate Holds(mem: Memory, at: map<Node, nat>, r: nat, lo: nat, hi: nat, e: Pte, page: Page) {
    forall w :: lo <= w < hi ==>
      UserNode(r, w) in at && at[UserNode(r, w)] in mem && mem[at[UserNode(r, w)]] == page
      && Lookup(mem, r, w) == e.(ppn := at[UserNode(r, w)])
  }

  lemma KeptFrame(mem: Memory, mem': Memory, at: map<Node, nat>, own: map<nat, Node>, held: set<nat>, u: Node)
    requires DataKept(mem, own, held, mem') && Inverse(at, own) && u in at && Depth(u) >= 3 && at[u] in mem
    ensures at[u] in mem' && mem'[at[u]] == mem[at[u]]
  {
  }

  lemma HoldsStep(mem1: Memory, at1: map<Node, nat>, own1: map<nat, Node>, held: set<nat>,
                  mem2: Memory, at2: map<Node, nat>, r: nat, lo: nat, a: nat, e: Pte, page: Page)
    requires Holds(mem1, at1, r, lo, a, e, page) && DataKept(mem1, own1, held, mem2) && Inverse(at1, own1)
    requires lo <= a < MAXVPN
    requires (forall n :: n in at1 ==> n in at2 && at2[n] == at1[n]) && UserNode(r, a) in at2 && Root(r) in at1
    requires at2[UserNode(r, a)] in mem2 && mem2[at2[UserNode(r, a)]] == page
    requires OneEntry(mem1, mem2, at1, r, a, e.(ppn := at2[UserNode(r, a)]))
    ensures Holds(mem2, at2, r, lo, a + 1, e, page)
  {
    forall w | lo <= w < a
      ensures at2[UserNode(r, w)] in mem2 && mem2[at2[UserNode(r, w)]] == page
    {
      PathBelow(r, w);
      KeptFrame(mem1, mem2, at1, own1, held, UserNode(r, w));
    }
  }

  lemma DataKeptGrow(m0: Memory, a0: map<Node, nat>, own0: map<nat, Node>, mem1: Memory, at1: map<Node, nat>,
                     own1: map<nat, Node>, held: set<nat>, mem2: Memory)
    requires DataKept(m0, own0, held, mem1) && DataKept(mem1, own1, held, mem2) && Inverse(a0, own0)
    requires Inverse(at1, own1)
    requires forall n :: n in a0 && Depth(n) >= 3 ==> n in at1 && at1[n] == a0[n]
    ensures DataKept(m0, own0, held, mem2)
  {
    forall p | p in m0 && (p in held || (p in own0 && Depth(own0[p]) >= 3))
      ensures p in mem2 && mem2[p] == m0[p]
    {
      if p !in held { assert at1[own0[p]] == p; }
    }
  }

  /** uvmalloc has filled pages lo..a of r. */
  ghost predicate Growing(m0: Memory, a0: map<Node, nat>, own0: map<nat, Node>, mem: Memory, at: map<Node, nat>,
                          held: set<nat>, r: nat, lo: nat, a: nat, e: Pte, page: Page)
  {
    && Filled(m0, a0, mem, at, r, lo, a)
    && Holds(mem, at, r, lo, a, e, page)
    && DataKept(m0, own0, held, mem)
  }

  lemma NextVacant(m0: Memory, a0: map<Node, nat>, mem: Memory, at: map<Node, nat>, own: map<nat, Node>,
                   managed: set<nat>, r: nat, lo: nat, a: nat)
    requires Filled(m0, a0, mem, at, r, lo, a) && Vacant(m0, r, lo, USERTOP) && Contiguous(a0, r, lo) && lo <= a
    requires Root(r) in a0
    requires Inverse(at, own) && own.Keys <= managed && |managed| < USERTOP
    ensures a < USERTOP && !Lookup(mem, r, a).v
  {
    UserBelowTop(at, own, managed, r, a);
  }

  /** The pages filled so far have been unmapped and freed again. */
  ghost predicate Undone(m0: Memory, a0: map<Node, nat>, own0: map<nat, Node>, mem: Memory, at: map<Node, nat>,
                         held: set<nat>, r: nat)
  {
    && Grew(a0, at, r, 0, 0)
    && (forall r', w {:trigger Lookup(mem, r', w)} :: Root(r') in a0 && 0 <= w < MAXVPN ==>
          Lookup(mem, r', w) == Lookup(m0, r', w) || (r' == r && !Lookup(mem, r', w).v && !Lookup(m0, r', w).v))
    && DataKept(m0, own0, held, mem)
  }

  lemma GrewBack(a0: map<Node, nat>, at1: map<Node, nat>, at2: map<Node, nat>, r: nat, lo: nat, a: nat)
    requires Grew(a0, at1, r, lo, a) && at2 == at1 - UserNodes(r, lo, a)
    requires (forall w :: lo <= w < a ==> UserNode(r, w) !in a0)
    ensures Grew(a0, at2, r, 0, 0)
  {
  }

  lemma UndoneFill(m0: Memory, a0: map<Node, nat>, own0: map<nat, Node>, mem1: Memory, at1: map<Node, nat>,
                   own1: map<nat, Node>, mem2: Memory, at2: map<Node, nat>, own2: map<nat, Node>, held: set<nat>,
                   r: nat, lo: nat, a: nat)
    requires Filled(m0, a0, mem1, at1, r, lo, a) && Vacant(m0, r, lo, USERTOP) && a <= USERTOP
    requires DataKept(m0, own0, held, mem1) && Inverse(a0, own0) && Inverse(at2, own2)
    requires Unmapped(mem1, at1, mem2, at2, own2, held, r, lo, a, true)
    ensures Undone(m0, a0, own0, mem2, at2, held, r)
  {
    GrewBack(a0, at1, at2, r, lo, a);
    DataKeptGrow(m0, a0, own0, mem1, at2, own2, held, mem2);
    assert forall r' :: Root(r') in a0 ==> Root(r') in at1;
  }

  lemma FilledMapped(m0: Memory, a0: map<Node, nat>, mem: Memory, at: map<Node, nat>, r: nat, lo: nat, a: nat)
    requires Filled(m0, a0, mem, at, r, lo, a)
    ensures AllMapped(mem, at, r, lo, a, true)
  {
  }

  // ---- taking a whole address space apart ----

  lemma PxOf(i2: nat, i1: nat, i0: nat)
    requires i2 < ENTRIES / 2 && i1 < ENTRIES && i0 < ENTRIES
    ensures var v := i2 * 0x40000 + i1 * 512 + i0; v < MAXVPN && Px(2, v) == i2 && Px(1, v) == i1 && Px(0, v) == i0
  {
    var v := i2 * 0x40000 + i1 * 512 + i0;
    assert v / 512 == i2 * 512 + i1;
  }

  /** A lowest table of r is the one for some page below MAXVA. */
  lemma LowTable(mem: Memory, at: map<Node, nat>, r: nat, m: Node, i: nat) returns (v: nat)
    requires Tree(mem, at, None) && m in at && Depth(m) == 2 && Below(r, m) && i < ENTRIES
    ensures v < MAXVPN && m == LowNode(r, v) && i == Px(0, v)
  {
    assert NodeOk(mem, at, None, m);
    var p := m.parent;
    assert NodeOk(mem, at, None, p);
    assert Depth(p) == 1 && p.Child? && Depth(p.parent) == 0;
    assert Kid(Root(r), p.parent) == None && Kid(Root(r), p).Some?;
    PxOf(p.i, m.i, i);
    v := p.i * 0x40000 + m.i * 512 + i;
  }

  lemma VacantNoLeaves(mem: Memory, at: map<Node, nat>, r: nat)
    requires Tree(mem, at, None) && Root(r) in at && Vacant(mem, r, 0, MAXVPN)
    ensures NoLeaves(mem, at, Root(r))
  {
    forall m, i | m in at && Depth(m) == 2 && (m == Root(r) || Kid(Root(r), m).Some?) && 0 <= i < ENTRIES
      ensures !Entry(mem, at[m], i).v
    {
      var v := LowTable(mem, at, r, m, i);
      LookupIsFlat(mem, at, r, v);
    }
  }

  lemma GoneUsers(at: map<Node, nat>, r: nat, n: nat)
    ensures Gone(at - UserNodes(r, 0, n), Root(r)) == Gone(at, Root(r))
  {
    forall m | m in UserNodes(r, 0, n)
      ensures Below(r, m)
    {
      var w :| 0 <= w < n && m == UserNode(r, w);
      PathBelow(r, w);
    }
  }

  lemma OtherRoot(r: nat, r': nat, v: nat)
    requires r != r'
    ensures !Below(r, LowNode(r', v)) && !Below(r, Root(r'))
  {
    assert Kid(Root(r), Root(r')) == None && Kid(Root(r), MidNode(r', v)) == None;
  }

  lemma GoneEntries(mem1: Memory, at1: map<Node, nat>, mem2: Memory, at2: map<Node, nat>, held: set<nat>, r: nat)
    requires Tree(mem1, at1, None) && Tree(mem2, at2, None) && at2 == Gone(at1, Root(r))
    requires PagesKept(mem1, mem2, at2, held)
    ensures SameEntries(mem1, mem2, at2)
  {
    forall r', v | Root(r') in at2 && 0 <= v < MAXVPN
      ensures Lookup(mem2, r', v) == Lookup(mem1, r', v)
    {
      OtherRoot(r, r', v);
      LookupIsFlat(mem1, at1, r', v);
      LookupIsFlat(mem2, at2, r', v);
    }
  }

  lemma GoneKeepsData(mem1: Memory, mem2: Memory, at2: map<Node, nat>, own2: map<nat, Node>, held: set<nat>)
    requires PagesKept(mem1, mem2, at2, held) && Inverse(at2, own2)
    ensures DataKept(mem1, own2, held, mem2)
  {
  }

  /** The address space of r is gone; every other one is as it was. */
  ghost predicate Freed(m0: Memory, a0: map<Node, nat>, mem: Memory, at: map<Node, nat>, own: map<nat, Node>,
                        held: set<nat>, r: nat)
  {
    && at == Gone(a0, Root(r))
    && SameEntries(m0, mem, at)
    && DataKept(m0, own, held, mem)
  }

  lemma FreedAll(m0: Memory, a0: map<Node, nat>, mem1: Memory, at1: map<Node, nat>, own1: map<nat, Node>,
                 mem2: Memory, at2: map<Node, nat>, own2: map<nat, Node>, held: set<nat>, r: nat, n: nat)
    requires Unmapped(m0, a0, mem1, at1, own1, held, r, 0, n, true) && Tree(mem1, at1, None) && Tree(mem2, at2, None)
    requires Inverse(at1, own1) && Inverse(at2, own2) && at2 == Gone(at1, Root(r)) && PagesKept(mem1, mem2, at2, held)
    ensures Freed(m0, a0, mem2, at2, own2, held, r)
  {
    GoneUsers(a0, r, n);
    GoneEntries(mem1, at1, mem2, at2, held, r);
    GoneKeepsData(mem1, mem2, at2, own2, held);
    DataKeptShrink(m0, mem1, mem2, own1, own2, held);
  }

  // ---- copying user memory ----

  ghost predicate CopyOf(mem: Memory, at: map<Node, nat>, r: nat, s: nat, w: nat) {
    && UserNode(r, w) in at && UserNode(s, w) in at && at[UserNode(r, w)] in mem && at[UserNode(s, w)] in mem
    && mem[at[UserNode(s, w)]] == mem[at[UserNode(r, w)]]
    && Lookup(mem, s, w) == Lookup(mem, r, w).(ppn := at[UserNode(s, w)])
  }

  /** uvmcopy has copied pages 0..a of r to s. */
  ghost predicate Copying(m0: Memory, a0: map<Node, nat>, own0: map<nat, Node>, mem: Memory, at: map<Node, nat>,
                          held: set<nat>, r: nat, s: nat, a: nat)
  {
    && Filled(m0, a0, mem, at, s, 0, a)
    && (forall w :: 0 <= w < a ==> CopyOf(mem, at, r, s, w))
    && DataKept(m0, own0, held, mem)
  }

  lemma CopyKept(mem1: Memory, at1: map<Node, nat>, own1: map<nat, Node>, held: set<nat>, mem2: Memory,
                 at2: map<Node, nat>, r: nat, s: nat, a: nat, w: nat, e: Pte)
    requires CopyOf(mem1, at1, r, s, w) && DataKept(mem1, own1, held, mem2) && Inverse(at1, own1) && w < a < MAXVPN
    requires (forall n :: n in at1 ==> n in at2 && at2[n] == at1[n]) && Root(r) in at1 && Root(s) in at1 && r != s
    requires OneEntry(mem1, mem2, at1, s, a, e)
    ensures CopyOf(mem2, at2, r, s, w)
  {
    PathBelow(r, w);
    PathBelow(s, w);
    KeptFrame(mem1, mem2, at1, own1, held, UserNode(r, w));
    KeptFrame(mem1, mem2, at1, own1, held, UserNode(s, w));
  }

  lemma CopyStep(mem1: Memory, at1: map<Node, nat>, own1: map<nat, Node>, held: set<nat>, mem2: Memory,
                 at2: map<Node, nat>, r: nat, s: nat, a: nat, e: Pte)
    requires forall w :: 0 <= w < a ==> CopyOf(mem1, at1, r, s, w)
    requires DataKept(mem1, own1, held, mem2) && Inverse(at1, own1) && a < MAXVPN
    requires (forall n :: n in at1 ==> n in at2 && at2[n] == at1[n]) && Root(r) in at1 && Root(s) in at1 && r != s
    requires UserNode(r, a) in at1 && at1[UserNode(r, a)] in mem1 && UserNode(s, a) in at2
    requires at2[UserNode(s, a)] in mem2
    requires mem2[at2[UserNode(s, a)]] == mem1[at1[UserNode(r, a)]]
    requires OneEntry(mem1, mem2, at1, s, a, e) && e == Lookup(mem1, r, a).(ppn := at2[UserNode(s, a)])
    ensures forall w :: 0 <= w < a + 1 ==> CopyOf(mem2, at2, r, s, w)
  {
    forall w | 0 <= w < a
      ensures CopyOf(mem2, at2, r, s, w)
    {
      CopyKept(mem1, at1, own1, held, mem2, at2, r, s, a, w, e);
    }
    PathBelow(r, a);
    KeptFrame(mem1, mem2, at1, own1, held, UserNode(r, a));
  }

  /** The parent's page a is mapped, owned and readable while the copy goes on. */
  lemma SourcePage(m0: Memory, a0: map<Node, nat>, mem: Memory, at: map<Node, nat>, r: nat, s: nat, n: nat, a: nat)
    requires AllMapped(m0, a0, r, 0, n, true) && Filled(m0, a0, mem, at, s, 0, a) && a < n <= MAXVPN && r != s
    requires Root(r) in a0 && Tree(mem, at, None)
    ensures Root(r) in at && Lookup(mem, r, a).v && LowNode(r, a) in at && UserNode(r, a) in at
    ensures Lookup(mem, r, a) == Entry(mem, at[LowNode(r, a)], Px(0, a)) && IsTable(mem, at[LowNode(r, a)])
    ensures IsLeaf(Lookup(mem, r, a))
    ensures IsFrame(mem, at[UserNode(r, a)]) && Lookup(mem, r, a).ppn == at[UserNode(r, a)]
  {
    assert UserNode(r, a) in a0;
    assert NodeOk(mem, at, None, UserNode(r, a));
    assert NodeOk(mem, at, None, LowNode(r, a));
    PathBelow(r, a);
    LookupIsFlat(mem, at, r, a);
  }

  // ---- a new address space ----

  const TRAMPOLINE: nat := MAXVPN - 1
  const TRAPFRAME: nat := USERTOP

  /** The tables of a new space r were added and nothing else. */
  ghost predicate NewSpace(a0: map<Node, nat>, at: map<Node, nat>, r: nat) {
    && Root(r) !in a0 && Root(r) in at
    && (forall n :: n in a0 ==> n in at && at[n] == a0[n])
    && (forall n :: n in at && n !in a0 ==> n == Root(r) || (Below(r, n) && Depth(n) < 3))
  }

  lemma NewSpaceMap(a0: map<Node, nat>, at1: map<Node, nat>, at2: map<Node, nat>, r: nat, v: nat, ppn: nat)
    requires NewSpace(a0, at1, r) && MapGrown(at1, at2, r, v, false, ppn)
    ensures NewSpace(a0, at2, r)
  {
    PathBelow(r, v);
  }

  lemma NothingUnder(mem: Memory, at: map<Node, nat>, r: nat, n: Node)
    requires Tree(mem, at, None) && n in at && Below(r, n)
    ensures Root(r) in at
  {
    KidInTree(mem, at, None, Root(r), n);
    assert NodeOk(mem, at, None, Child(Root(r), Kid(Root(r), n).value));
  }

  lemma NoneBelow(mem: Memory, at: map<Node, nat>, r: nat)
    requires Tree(mem, at, None) && Root(r) !in at
    ensures forall n :: n in at ==> !Below(r, n)
  {
    forall n | n in at && Below(r, n)
      ensures false
    {
      NothingUnder(mem, at, r, n);
    }
  }

  /** Taking the new space apart again leaves the ownership there was before. */
  lemma NewSpaceGone(m0: Memory, a0: map<Node, nat>, at: map<Node, nat>, r: nat)
    requires Tree(m0, a0, None) && NewSpace(a0, at, r)
    ensures Gone(at, Root(r)) == a0
  {
    forall n | n in a0
      ensures n in Gone(at, Root(r))
    {
      if Below(r, n) { NothingUnder(m0, a0, r, n); }
    }
  }

  lemma NoUserPages(a0: map<Node, nat>, at: map<Node, nat>, m0: Memory, r: nat, v: nat)
    requires Tree(m0, a0, None) && NewSpace(a0, at, r)
    ensures UserNode(r, v) !in at
  {
    PathBelow(r, v);
    if UserNode(r, v) in a0 { NothingUnder(m0, a0, r, UserNode(r, v)); }
  }

  lemma FreshRoot(mem: Memory, at: map<Node, nat>, own: map<nat, Node>, p: nat)
    requires Tree(mem, at, None) && Inverse(at, own)
    ensures Root(p) in at ==> p in own
  {
    if Root(p) in at { assert NodeOk(mem, at, None, Root(p)); }
  }

  lemma RootKeeps(mem: Memory, at: map<Node, nat>, own: map<nat, Node>, p: nat)
    requires Tree(mem, at, None) && Inverse(at, own) && p !in own
    ensures Root(p) !in at && Tree(mem[p := ZeroTable()], at[Root(p) := p], None)
    ensures Inverse(at[Root(p) := p], own[p := Root(p)])
    ensures NewSpace(at, at[Root(p) := p], p) && SameEntries(mem, mem[p := ZeroTable()], at)
    ensures Vacant(mem[p := ZeroTable()], p, 0, MAXVPN)
  {
    FreshRoot(mem, at, own, p);
    InverseAdd(at, own, Root(p), p);
    var mem', at' := mem[p := ZeroTable()], at[Root(p) := p];
    OtherPageKeeps(mem, at, own, None, p, ZeroTable());
    OtherPage(mem, at, own, p, ZeroTable());
    forall n | n in at'
      ensures NodeOk(mem', at', None, n)
    {
      if n in at { assert NodeOk(mem', at, None, n); }
    }
  }

  /** A space r is being built on top of what there was. */
  ghost predicate Building(m0: Memory, a0: map<Node, nat>, own0: map<nat, Node>, mem: Memory, at: map<Node, nat>,
                           held: set<nat>, r: nat)
  {
    NewSpace(a0, at, r) && SameEntries(m0, mem, a0) && DataKept(m0, own0, held, mem)
  }

  /** The entries of r are the ones in `shared`, which maps no page that r owns. */
  ghost predicate OnlyShared(mem: Memory, r: nat, shared: map<nat, Pte>) {
    forall v :: 0 <= v < MAXVPN ==> if v in shared then Lookup(mem, r, v) == shared[v] else !Lookup(mem, r, v).v
  }

  lemma BuildMap(m0: Memory, a0: map<Node, nat>, own0: map<nat, Node>, mem1: Memory, at1: map<Node, nat>,
                 own1: map<nat, Node>, mem2: Memory, at2: map<Node, nat>, held: set<nat>, r: nat, shared: map<nat, Pte>,
                 v: nat, e: Pte)
    requires Building(m0, a0, own0, mem1, at1, held, r) && OnlyShared(mem1, r, shared) && Inverse(a0, own0)
    requires Inverse(at1, own1)
    requires OneEntry(mem1, mem2, at1, r, v, e) && MapGrown(at1, at2, r, v, false, e.ppn)
    requires DataKept(mem1, own1, held, mem2)
    ensures Building(m0, a0, own0, mem2, at2, held, r) && OnlyShared(mem2, r, shared[v := e])
  {
    NewSpaceMap(a0, at1, at2, r, v, e.ppn);
    DataKeptGrow(m0, a0, own0, mem1, at1, own1, held, mem2);
  }

  lemma BuildSame(m0: Memory, a0: map<Node, nat>, own0: map<nat, Node>, mem1: Memory, at1: map<Node, nat>,
                  own1: map<nat, Node>, mem2: Memory, at2: map<Node, nat>, held: set<nat>, r: nat,
                  shared: map<nat, Pte>, v: nat, ppn: nat)
    requires Building(m0, a0, own0, mem1, at1, held, r) && OnlyShared(mem1, r, shared) && Inverse(a0, own0)
    requires Inverse(at1, own1)
    requires SameEntries(mem1, mem2, at1) && MapGrown(at1, at2, r, v, false, ppn) && DataKept(mem1, own1, held, mem2)
    ensures Building(m0, a0, own0, mem2, at2, held, r) && OnlyShared(mem2, r, shared)
  {
    NewSpaceMap(a0, at1, at2, r, v, ppn);
    DataKeptGrow(m0, a0, own0, mem1, at1, own1, held, mem2);
  }

  lemma BuildUnmap(m0: Memory, a0: map<Node, nat>, own0: map<nat, Node>, mem1: Memory, at1: map<Node, nat>,
                   own1: map<nat, Node>, mem2: Memory, at2: map<Node, nat>, own2: map<nat, Node>, held: set<nat>,
                   r: nat, shared: map<nat, Pte>, v: nat)
    requires Building(m0, a0, own0, mem1, at1, held, r) && OnlyShared(mem1, r, shared) && Inverse(a0, own0)
    requires Inverse(at2, own2)
    requires Unmapped(mem1, at1, mem2, at2, own2, held, r, v, v + 1, false) && v < MAXVPN
    ensures Building(m0, a0, own0, mem2, at2, held, r) && OnlyShared(mem2, r, shared - {v})
  {
    DataKeptGrow(m0, a0, own0, mem1, at2, own2, held, mem2);
  }

  lemma BuildDrop(m0: Memory, a0: map<Node, nat>, own0: map<nat, Node>, mem1: Memory, at1: map<Node, nat>,
                  mem2: Memory, at2: map<Node, nat>, own2: map<nat, Node>, held: set<nat>, r: nat)
    requires Building(m0, a0, own0, mem1, at1, held, r) && Tree(m0, a0, None) && Inverse(a0, own0) && Inverse(at2, own2)
    requires Freed(mem1, at1, mem2, at2, own2, held, r)
    ensures at2 == a0 && SameEntries(m0, mem2, a0) && DataKept(m0, own0, held, mem2)
  {
    NewSpaceGone(m0, a0, at1, r);
    DataKeptGrow(m0, a0, own0, mem1, at2, own2, held, mem2);
  }

  lemma TrapKeeps(mem: Memory, at: map<Node, nat>, own: map<nat, Node>, r: nat, tf: nat)
    requires Tree(mem, at, None) && Inverse(at, own) && Trap(r) !in at && tf !in own && IsFrame(mem, tf)
    ensures Tree(mem, at[Trap(r) := tf], None) && Inverse(at[Trap(r) := tf], own[tf := Trap(r)])
  {
    var at' := at[Trap(r) := tf];
    InverseAdd(at, own, Trap(r), tf);
    forall n | n in at'
      ensures NodeOk(mem, at', None, n)
    {
      if n in at { assert NodeOk(mem, at, None, n); }
    }
  }
}
