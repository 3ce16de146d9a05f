/** Three-level page tables in physical memory (kernel/vm.c, kernel/riscv.h), and the
    tree they form.  Page numbers stand for page-aligned addresses. */
module PageTable {
  import opened Prelude

  const PGSIZE: nat := 4096
  const ENTRIES: nat := 512
  const MAXVPN: nat := 0x400_0000 // MAXVA / PGSIZE

  datatype Pte = Pte(ppn: nat, v: bool, r: bool, w: bool, x: bool, u: bool)

  const EMPTY: Pte := Pte(0, false, false, false, false, false)

  predicate IsLeaf(e: Pte) {
    e.r || e.w || e.x
  }

  function Pointer(ppn: nat): Pte {
    Pte(ppn, true, false, false, false, false)
  }

  datatype Page = Table(ptes: seq<Pte>) | Frame(bytes: seq<nat>)

  function ZeroTable(): Page {
    Table(seq(ENTRIES, _ => EMPTY))
  }

  function Fill(b: nat): Page {
    Frame(seq(PGSIZE, _ => b))
  }

  type Memory = map<nat, Page>

  // ---- virtual addresses ----

  /** PX(level, va) of the page with number v. */
  function Px(level: nat, v: nat): (i: nat)
    ensures i < ENTRIES
  {
    if level == 0 then v % 512 else if level == 1 then v / 512 % 512 else v / 0x40000 % 512
  }

  lemma PxInjective(v: nat, w: nat)
    requires v < MAXVPN && w < MAXVPN
    requires forall level :: 0 <= level <= 2 ==> Px(level, v) == Px(level, w)
    ensures v == w
  {
    assert Px(0, v) == Px(0, w) && Px(1, v) == Px(1, w) && Px(2, v) == Px(2, w);
    assert v / 0x40000 == v / 512 / 512 && w / 0x40000 == w / 512 / 512;
  }

  // ---- the words in memory ----

  function Bit(b: bool): nat { if b then 1 else 0 }

  function FlagBits(e: Pte): nat {
    Bit(e.v) + 2 * Bit(e.r) + 4 * Bit(e.w) + 8 * Bit(e.x) + 16 * Bit(e.u)
  }

  /** PA2PTE(pa) | flags: shifting right by 12 and left by 10. */
  function Encode(e: Pte): nat {
    (e.ppn * PGSIZE) / 4096 * 1024 + FlagBits(e)
  }

  predicate BitOf(w: nat, k: nat) {
    if k == 0 then w % 2 == 1 else BitOf(w / 2, k - 1)
  }

  /** PTE2PA and the flag tests. */
  function Decode(w: nat): Pte {
    Pte(w / 1024 * 4096 / PGSIZE, BitOf(w, 0), BitOf(w, 1), BitOf(w, 2), BitOf(w, 3), BitOf(w, 4))
  }

  lemma TopBit(b: bool, rest: nat, k: nat)
    ensures BitOf(Bit(b) + 2 * rest, 0) == b && BitOf(Bit(b) + 2 * rest, k + 1) == BitOf(rest, k)
  {
    assert (Bit(b) + 2 * rest) / 2 == rest;
  }

  /** The page number as the bits above the five flags. */
  lemma EncodeBits(e: Pte) returns (q1: nat, q2: nat, q3: nat, q4: nat)
    ensures Encode(e) == Bit(e.v) + 2 * q1 && q1 == Bit(e.r) + 2 * q2 && q2 == Bit(e.w) + 2 * q3
    ensures q3 == Bit(e.x) + 2 * q4
    ensures q4 == Bit(e.u) + 2 * (32 * e.ppn)
  {
    q4 := Bit(e.u) + 2 * (32 * e.ppn);
    q3 := Bit(e.x) + 2 * q4;
    q2 := Bit(e.w) + 2 * q3;
    q1 := Bit(e.r) + 2 * q2;
  }

  lemma EncodePage(e: Pte)
    ensures Encode(e) / 1024 == e.ppn && Encode(e) % 1024 == FlagBits(e)
  {
    assert FlagBits(e) < 32;
  }

  /** What is stored is what is read, and the flags are the low bits. */
  lemma EncodeDecode(e: Pte)
    ensures Decode(Encode(e)) == e
    ensures Encode(e) % 1024 == FlagBits(e)
  {
    EncodePage(e);
    DecodeFlags(e);
  }

  lemma DecodeFlags(e: Pte)
    ensures var w := Encode(e);
            BitOf(w, 0) == e.v && BitOf(w, 1) == e.r && BitOf(w, 2) == e.w && BitOf(w, 3) == e.x && BitOf(w, 4) == e.u
  {
    var q1, q2, q3, q4 := EncodeBits(e);
    TopBit(e.v, q1, 0); TopBit(e.v, q1, 1); TopBit(e.v, q1, 2); TopBit(e.v, q1, 3);
    TopBit(e.r, q2, 0); TopBit(e.r, q2, 1); TopBit(e.r, q2, 2);
    TopBit(e.w, q3, 0); TopBit(e.w, q3, 1);
    TopBit(e.x, q4, 0);
    TopBit(e.u, 32 * e.ppn, 0);
  }

  // ---- what the hardware and walk see ----

  function Entry(mem: Memory, t: nat, i: nat): Pte {
    if t in mem && mem[t].Table? && i < |mem[t].ptes| then mem[t].ptes[i] else EMPTY
  }

  /** The leaf entry for page v under root r, found by following the levels in memory. */
  function Lookup(mem: Memory, r: nat, v: nat): Pte {
    var e2 := Entry(mem, r, Px(2, v));
    if !e2.v then EMPTY else
    var e1 := Entry(mem, e2.ppn, Px(1, v));
    if !e1.v then EMPTY else Entry(mem, e1.ppn, Px(0, v))
  }

  // ---- the tree ----

  /** Who owns a page: the root of an address space, its trapframe, or slot i of a table. */
  datatype Node = Root(r: nat) | Trap(r: nat) | Child(parent: Node, i: nat)

  function Depth(n: Node): nat {
    match n
    case Root(_) => 0
    case Trap(_) => 3
    case Child(p, _) => Depth(p) + 1
  }

  function RootOf(n: Node): nat {
    match n
    case Root(r) => r
    case Trap(r) => r
    case Child(p, _) => RootOf(p)
  }

  function MidNode(r: nat, v: nat): Node { Child(Root(r), Px(2, v)) }

  function LowNode(r: nat, v: nat): Node { Child(MidNode(r, v), Px(1, v)) }

  function UserNode(r: nat, v: nat): Node { Child(LowNode(r, v), Px(0, v)) }

  lemma PathDepth(r: nat, v: nat)
    ensures Depth(MidNode(r, v)) == 1 && Depth(LowNode(r, v)) == 2 && Depth(UserNode(r, v)) == 3
  {
    assert Depth(MidNode(r, v)) == 1;
    assert Depth(LowNode(r, v)) == 2;
  }

  lemma UserNodeInjective(r: nat, v: nat, w: nat)
    requires v < MAXVPN && w < MAXVPN && UserNode(r, v) == UserNode(r, w)
    ensures v == w
  {
    PxInjective(v, w);
  }

  ghost predicate Inverse(at: map<Node, nat>, own: map<nat, Node>) {
    && (forall n :: n in at ==> at[n] in own && own[at[n]] == n)
    && (forall p :: p in own ==> own[p] in at && at[own[p]] == p)
  }

  predicate IsTable(mem: Memory, t: nat) {
    t in mem && mem[t].Table? && |mem[t].ptes| == ENTRIES
  }

  predicate IsFrame(mem: Memory, t: nat) {
    t in mem && mem[t].Frame? && |mem[t].bytes| == PGSIZE
  }

  /** One valid entry i of the table at n: a pointer to the table below it, or a leaf, and
      a leaf that users may use maps a page the space owns. */
  predicate EntryOk(at: map<Node, nat>, n: Node, i: nat, e: Pte) {
    if Depth(n) < 2 then e == Pointer(e.ppn) && Child(n, i) in at
    else IsLeaf(e) && (e.u ==> Child(n, i) in at)
  }

  ghost predicate TableOk(at: map<Node, nat>, hole: Option<Node>, n: Node, ptes: seq<Pte>) {
    && |ptes| == ENTRIES
    && (forall i :: 0 <= i < ENTRIES && ptes[i].v && hole != Some(Child(n, i)) ==> EntryOk(at, n, i, ptes[i]))
  }

  /** Every owned page below a root is where its slot says. */
  predicate LinkOk(mem: Memory, at: map<Node, nat>, n: Node)
    requires n in at
  {
    match n
    case Root(r) => at[n] == r
    case Trap(r) => true
    case Child(p, i) =>
      && p in at && i < (if p.Root? then ENTRIES / 2 else ENTRIES) && Depth(p) < 3 && IsTable(mem, at[p])
      && mem[at[p]].ptes[i].v && mem[at[p]].ptes[i].ppn == at[n]
  }

  ghost predicate NodeOk(mem: Memory, at: map<Node, nat>, hole: Option<Node>, n: Node)
    requires n in at
  {
    && LinkOk(mem, at, n)
    && (if Depth(n) < 3 then at[n] in mem && mem[at[n]].Table? && TableOk(at, hole, n, mem[at[n]].ptes)
        else IsFrame(mem, at[n]))
  }

  /** `hole` is a slot whose page has just been freed and whose entry is not yet cleared. */
  ghost predicate Tree(mem: Memory, at: map<Node, nat>, hole: Option<Node>) {
    forall n {:trigger NodeOk(mem, at, hole, n)} :: n in at ==> NodeOk(mem, at, hole, n)
  }

  // ---- the tree refines a flat map ----

  /** The flat map, read off the ownership of tables. */
  function Flat(mem: Memory, at: map<Node, nat>, r: nat, v: nat): Pte {
    if LowNode(r, v) in at then Entry(mem, at[LowNode(r, v)], Px(0, v)) else EMPTY
  }

  lemma LookupIsFlat(mem: Memory, at: map<Node, nat>, r: nat, v: nat)
    requires Tree(mem, at, None) && Root(r) in at
    ensures Lookup(mem, r, v) == Flat(mem, at, r, v)
    ensures Entry(mem, r, Px(2, v)).v <==> MidNode(r, v) in at
    ensures MidNode(r, v) in at ==> (Entry(mem, at[MidNode(r, v)], Px(1, v)).v <==> LowNode(r, v) in at)
  {
    assert NodeOk(mem, at, None, Root(r));
    if LowNode(r, v) in at { assert NodeOk(mem, at, None, LowNode(r, v)); }
    if MidNode(r, v) in at { assert NodeOk(mem, at, None, MidNode(r, v)); }
  }

  // ---- steps of the tree ----

  function AddTable(mem: Memory, t: nat, i: nat, p: nat): Memory
    requires IsTable(mem, t) && i < ENTRIES
  {
    mem[p := ZeroTable()][t := Table(mem[t].ptes[i := Pointer(p)])]
  }

  function SetEntry(mem: Memory, t: nat, i: nat, e: Pte): Memory
    requires IsTable(mem, t) && i < ENTRIES
  {
    mem[t := Table(mem[t].ptes[i := e])]
  }

  lemma InverseAdd(at: map<Node, nat>, own: map<nat, Node>, n: Node, p: nat)
    requires Inverse(at, own) && n !in at && p !in own
    ensures Inverse(at[n := p], own[p := n])
  {
  }

  lemma InverseDrop(at: map<Node, nat>, own: map<nat, Node>, n: Node)
    requires Inverse(at, own) && n in at
    ensures Inverse(at - {n}, own - {at[n]})
  {
  }

  lemma NotYet(mem: Memory, at: map<Node, nat>, hole: Option<Node>, n: Node, i: nat)
    requires Tree(mem, at, hole) && n in at
    ensures Child(n, i) in at ==> Entry(mem, at[n], i).v
  {
    if Child(n, i) in at { assert NodeOk(mem, at, hole, Child(n, i)); }
  }

  lemma AddTableOther(mem: Memory, at: map<Node, nat>, own: map<nat, Node>, n: Node, i: nat, p: nat, m: Node)
    requires Tree(mem, at, None) && Inverse(at, own) && n in at && Depth(n) < 2 && i < ENTRIES && IsTable(mem, at[n])
    requires !mem[at[n]].ptes[i].v && p !in own && m in at && m != n && Child(n, i) !in at
    ensures NodeOk(AddTable(mem, at[n], i, p), at[Child(n, i) := p], None, m)
  {
    assert NodeOk(mem, at, None, m);
    var mem', at' := AddTable(mem, at[n], i, p), at[Child(n, i) := p];
    assert mem'[at[m]] == mem[at[m]];
    if m.Child? { assert NodeOk(mem, at, None, m.parent); }
  }

  /** walk with alloc: a zeroed page becomes the table below slot i of n. */
  lemma AddTableKeeps(mem: Memory, at: map<Node, nat>, own: map<nat, Node>, n: Node, i: nat, p: nat)
    requires Tree(mem, at, None) && Inverse(at, own) && n in at && Depth(n) < 2 && i < ENTRIES && IsTable(mem, at[n])
    requires !mem[at[n]].ptes[i].v && p !in own && (n.Root? ==> i < ENTRIES / 2)
    ensures Child(n, i) !in at
    ensures Tree(AddTable(mem, at[n], i, p), at[Child(n, i) := p], None)
    ensures Inverse(at[Child(n, i) := p], own[p := Child(n, i)])
  {
    NotYet(mem, at, None, n, i);
    InverseAdd(at, own, Child(n, i), p);
    var mem', at' := AddTable(mem, at[n], i, p), at[Child(n, i) := p];
    forall m | m in at'
      ensures NodeOk(mem', at', None, m)
    {
      if m in at && m != n { AddTableOther(mem, at, own, n, i, p, m); }
      else if m == n { assert NodeOk(mem, at, None, n); AddTableHere(mem, at, own, n, i, p); }
    }
  }

  lemma AddTableHere(mem: Memory, at: map<Node, nat>, own: map<nat, Node>, n: Node, i: nat, p: nat)
    requires n in at && NodeOk(mem, at, None, n) && Inverse(at, own) && Depth(n) < 2 && i < ENTRIES
    requires IsTable(mem, at[n])
    requires p !in own && Child(n, i) !in at
    ensures NodeOk(AddTable(mem, at[n], i, p), at[Child(n, i) := p], None, n)
  {
    if n.Child? { assert n.parent in at && at[n.parent] != at[n]; }
  }

  lemma AddTableFlat(mem: Memory, at: map<Node, nat>, own: map<nat, Node>, n: Node, i: nat, p: nat, r: nat, v: nat)
    requires Tree(mem, at, None) && Inverse(at, own) && n in at && Depth(n) < 2 && i < ENTRIES && IsTable(mem, at[n])
    requires !mem[at[n]].ptes[i].v && p !in own
    ensures Flat(AddTable(mem, at[n], i, p), at[Child(n, i) := p], r, v) == Flat(mem, at, r, v)
  {
    var low := LowNode(r, v);
    NotYet(mem, at, None, n, i);
    PathDepth(r, v);
    if low in at { assert at[low] != at[n]; }
  }

  lemma SetOther(mem: Memory, at: map<Node, nat>, own: map<nat, Node>, hole: Option<Node>, n: Node, i: nat, e: Pte,
                 m: Node)
    requires Inverse(at, own) && n in at && i < ENTRIES && IsTable(mem, at[n]) && m in at && m != n
    requires hole == None || hole == Some(Child(n, i))
    requires NodeOk(mem, at, hole, m) && (m == Child(n, i) ==> e.v && e.ppn == at[m])
    ensures NodeOk(SetEntry(mem, at[n], i, e), at, None, m)
  {
    assert at[m] != at[n];
    if m.Child? && m.parent != n { assert at[m.parent] != at[n]; }
  }

  lemma SetHere(mem: Memory, at: map<Node, nat>, own: map<nat, Node>, hole: Option<Node>, n: Node, i: nat, e: Pte)
    requires Inverse(at, own) && n in at && i < ENTRIES && IsTable(mem, at[n]) && Depth(n) < 3
    requires hole == None || hole == Some(Child(n, i))
    requires NodeOk(mem, at, hole, n) && (e.v ==> EntryOk(at, n, i, e))
    ensures NodeOk(SetEntry(mem, at[n], i, e), at, None, n)
  {
    if n.Child? { assert n.parent != n && at[n.parent] != at[n]; }
  }

  /** Writing one entry of one table, with the hole (if any) at that entry. */
  lemma SetEntryKeeps(mem: Memory, at: map<Node, nat>, own: map<nat, Node>, hole: Option<Node>, n: Node, i: nat, e: Pte)
    requires Tree(mem, at, hole) && Inverse(at, own) && n in at && Depth(n) < 3 && i < ENTRIES && IsTable(mem, at[n])
    requires hole == None || hole == Some(Child(n, i))
    requires e.v ==> EntryOk(at, n, i, e)
    requires Child(n, i) in at ==> e.v && e.ppn == at[Child(n, i)]
    ensures Tree(SetEntry(mem, at[n], i, e), at, None)
  {
    forall m | m in at
      ensures NodeOk(SetEntry(mem, at[n], i, e), at, None, m)
    {
      assert NodeOk(mem, at, hole, m);
      if m != n { SetOther(mem, at, own, hole, n, i, e, m); } else { SetHere(mem, at, own, hole, n, i, e); }
    }
  }

  /** A page that slot i of the lowest table n already maps becomes owned by that slot. */
  lemma AdoptKeeps(mem: Memory, at: map<Node, nat>, n: Node, i: nat, p: nat)
    requires Tree(mem, at, None) && n in at && Depth(n) == 2 && i < ENTRIES && IsTable(mem, at[n])
    requires mem[at[n]].ptes[i].v && mem[at[n]].ptes[i].ppn == p && IsFrame(mem, p) && Child(n, i) !in at
    ensures Tree(mem, at[Child(n, i) := p], None)
  {
    var at' := at[Child(n, i) := p];
    forall m | m in at'
      ensures NodeOk(mem, at', None, m)
    {
      if m in at { assert NodeOk(mem, at, None, m); }
    }
  }

  /** mappages with a page the space is to own: the entry and the ownership together. */
  lemma MapOwnedKeeps(mem: Memory, at: map<Node, nat>, own: map<nat, Node>, n: Node, i: nat, e: Pte)
    requires Tree(mem, at, None) && Inverse(at, own) && n in at && Depth(n) == 2 && i < ENTRIES && IsTable(mem, at[n])
    requires !mem[at[n]].ptes[i].v && e.v && IsLeaf(e) && e.ppn !in own && IsFrame(mem, e.ppn)
    ensures Child(n, i) !in at
    ensures Tree(SetEntry(mem, at[n], i, e), at[Child(n, i) := e.ppn], None)
  {
    NotYet(mem, at, None, n, i);
    var shut := e.(u := false);
    SetEntryKeeps(mem, at, own, None, n, i, shut);
    var mid := SetEntry(mem, at[n], i, shut);
    AdoptKeeps(mid, at, n, i, e.ppn);
    var at', own' := at[Child(n, i) := e.ppn], own[e.ppn := Child(n, i)];
    InverseAdd(at, own, Child(n, i), e.ppn);
    SetEntryKeeps(mid, at', own', None, n, i, e);
    assert mem[at[n]].ptes[i := shut][i := e] == mem[at[n]].ptes[i := e];
    assert SetEntry(mid, at[n], i, e) == SetEntry(mem, at[n], i, e);
  }

  /** The owner of a page with nothing below it lets go of it. */
  lemma DropKeeps(mem: Memory, at: map<Node, nat>, m: Node)
    requires Tree(mem, at, None) && m in at && (forall i :: Child(m, i) !in at)
    ensures Tree(mem, at - {m}, if m.Child? then Some(m) else None)
  {
    var at' := at - {m};
    var hole := if m.Child? then Some(m) else None;
    forall n | n in at'
      ensures NodeOk(mem, at', hole, n)
    {
      assert NodeOk(mem, at, None, n);
      if n.Child? { assert n == Child(n.parent, n.i); }
    }
  }

  lemma SamePagesKeep(mem: Memory, mem': Memory, at: map<Node, nat>, hole: Option<Node>)
    requires Tree(mem, at, hole)
    requires forall n ::
               n in at ==>
                 && at[n] in mem && at[n] in mem'
                 && (Depth(n) < 3 ==> mem'[at[n]] == mem[at[n]])
                 && (Depth(n) >= 3 ==> IsFrame(mem', at[n]))
    ensures Tree(mem', at, hole)
  {
    forall n | n in at
      ensures NodeOk(mem', at, hole, n)
    {
      assert NodeOk(mem, at, hole, n);
      if n.Child? { assert n.parent in at; }
    }
  }

  /** A page nobody owns can hold anything. */
  lemma OtherPageKeeps(mem: Memory, at: map<Node, nat>, own: map<nat, Node>, hole: Option<Node>, p: nat, page: Page)
    requires Tree(mem, at, hole) && Inverse(at, own) && p !in own
    ensures Tree(mem[p := page], at, hole)
  {
    forall n | n in at
      ensures at[n] in mem && at[n] != p && (Depth(n) >= 3 ==> IsFrame(mem[p := page], at[n]))
    {
      assert NodeOk(mem, at, hole, n);
    }
    SamePagesKeep(mem, mem[p := page], at, hole);
  }

  lemma SetEntryFlat(mem: Memory, at: map<Node, nat>, own: map<nat, Node>, r: nat, v: nat, e: Pte, r': nat, w: nat)
    requires Inverse(at, own) && LowNode(r, v) in at && IsTable(mem, at[LowNode(r, v)]) && v < MAXVPN && w < MAXVPN
    ensures Flat(SetEntry(mem, at[LowNode(r, v)], Px(0, v), e), at, r', w)
         == if r' == r && w == v then e else Flat(mem, at, r', w)
  {
    var low, low' := LowNode(r, v), LowNode(r', w);
    if low' in at {
      if low' != low { assert at[low'] != at[low]; }
      else if w != v { LowSlots(r, v, w); }
    }
  }

  lemma LowSlots(r: nat, v: nat, w: nat)
    requires v < MAXVPN && w < MAXVPN && v != w && LowNode(r, v) == LowNode(r, w)
    ensures Px(0, v) != Px(0, w)
  {
    if Px(0, v) == Px(0, w) { UserNodeInjective(r, v, w); }
  }

  // ---- entries seen from outside ----

  /** Every entry of every address space in at reads the same. */
  ghost predicate SameEntries(mem: Memory, mem': Memory, at: map<Node, nat>) {
    forall r, v {:trigger Lookup(mem', r, v)} ::
      Root(r) in at && 0 <= v < MAXVPN ==> Lookup(mem', r, v) == Lookup(mem, r, v)
  }

  /** Every entry reads the same but the one for page v under r, which reads e. */
  ghost predicate OneEntry(mem: Memory, mem': Memory, at: map<Node, nat>, r: nat, v: nat, e: Pte) {
    forall r', w {:trigger Lookup(mem', r', w)} :: Root(r') in at && 0 <= w < MAXVPN ==>
      Lookup(mem', r', w) == if r' == r && w == v then e else Lookup(mem, r', w)
  }

  lemma AddTableEntries(mem: Memory, at: map<Node, nat>, own: map<nat, Node>, n: Node, i: nat, p: nat)
    requires Tree(mem, at, None) && Inverse(at, own) && n in at && Depth(n) < 2 && i < ENTRIES && IsTable(mem, at[n])
    requires !mem[at[n]].ptes[i].v && p !in own && (n.Root? ==> i < ENTRIES / 2)
    ensures SameEntries(mem, AddTable(mem, at[n], i, p), at)
  {
    AddTableKeeps(mem, at, own, n, i, p);
    var mem', at' := AddTable(mem, at[n], i, p), at[Child(n, i) := p];
    forall r, v | Root(r) in at && 0 <= v < MAXVPN
      ensures Lookup(mem', r, v) == Lookup(mem, r, v)
    {
      LookupIsFlat(mem, at, r, v);
      LookupIsFlat(mem', at', r, v);
      AddTableFlat(mem, at, own, n, i, p, r, v);
    }
  }

  lemma SetEntryEntries(mem: Memory, at: map<Node, nat>, own: map<nat, Node>, at': map<Node, nat>, r: nat, v: nat,
                        e: Pte)
    requires Tree(mem, at, None) && Inverse(at, own) && LowNode(r, v) in at && v < MAXVPN
    requires IsTable(mem, at[LowNode(r, v)])
    requires Tree(SetEntry(mem, at[LowNode(r, v)], Px(0, v), e), at', None)
    requires forall n :: n in at && Depth(n) < 3 ==> n in at' && at'[n] == at[n]
    requires forall n :: n in at' && Depth(n) < 3 ==> n in at
    ensures OneEntry(mem, SetEntry(mem, at[LowNode(r, v)], Px(0, v), e), at, r, v, e)
  {
    var mem' := SetEntry(mem, at[LowNode(r, v)], Px(0, v), e);
    forall r', w | Root(r') in at && 0 <= w < MAXVPN
      ensures Lookup(mem', r', w) == if r' == r && w == v then e else Lookup(mem, r', w)
    {
      LookupIsFlat(mem, at, r', w);
      PathDepth(r', w);
      LookupIsFlat(mem', at', r', w);
      SetEntryFlat(mem, at, own, r, v, e, r', w);
    }
  }

  lemma SameTablesEntries(mem: Memory, mem': Memory, at: map<Node, nat>, at': map<Node, nat>)
    requires Tree(mem, at, None) && Tree(mem', at', None)
    requires forall n ::
               n in at && Depth(n) < 3 ==>
               n in at' && at'[n] == at[n] && at[n] in mem' && at[n] in mem && mem'[at[n]] == mem[at[n]]
    requires forall n :: n in at' && Depth(n) < 3 ==> n in at
    ensures SameEntries(mem, mem', at)
  {
    forall r, v | Root(r) in at && 0 <= v < MAXVPN
      ensures Lookup(mem', r, v) == Lookup(mem, r, v)
    {
      LookupIsFlat(mem, at, r, v);
      PathDepth(r, v);
      LookupIsFlat(mem', at', r, v);
    }
  }

  lemma NothingBelow(mem: Memory, at: map<Node, nat>, hole: Option<Node>, n: Node)
    requires Tree(mem, at, hole)
    ensures forall i :: Child(n, i) in at ==> Depth(n) < 3
  {
    forall i | Child(n, i) in at
      ensures Depth(n) < 3
    {
      assert NodeOk(mem, at, hole, Child(n, i));
    }
  }

  /** uvmunmap with do_free, entry by entry: letting go of the page, then clearing. */
  lemma ClearOwned(mem: Memory, at: map<Node, nat>, own: map<nat, Node>, r: nat, v: nat)
    requires Tree(mem, at, None) && Inverse(at, own) && UserNode(r, v) in at && v < MAXVPN
    ensures LowNode(r, v) in at && IsTable(mem, at[LowNode(r, v)])
    ensures Tree(mem, at - {UserNode(r, v)}, Some(UserNode(r, v)))
    ensures Inverse(at - {UserNode(r, v)}, own - {at[UserNode(r, v)]})
    ensures var mem' := SetEntry(mem, at[LowNode(r, v)], Px(0, v), EMPTY);
            Tree(mem', at - {UserNode(r, v)}, None) && OneEntry(mem, mem', at, r, v, EMPTY)
  {
    var u := UserNode(r, v);
    assert NodeOk(mem, at, None, u);
    PathDepth(r, v);
    NothingBelow(mem, at, None, u);
    DropKeeps(mem, at, u);
    InverseDrop(at, own, u);
    SetEntryKeeps(mem, at - {u}, own - {at[u]}, Some(u), LowNode(r, v), Px(0, v), EMPTY);
    SetEntryEntries(mem, at, own, at - {u}, r, v, EMPTY);
  }

  lemma ClearShared(mem: Memory, at: map<Node, nat>, own: map<nat, Node>, r: nat, v: nat)
    requires Tree(mem, at, None) && Inverse(at, own) && LowNode(r, v) in at && UserNode(r, v) !in at && v < MAXVPN
    ensures IsTable(mem, at[LowNode(r, v)])
    ensures OneEntry(mem, SetEntry(mem, at[LowNode(r, v)], Px(0, v), EMPTY), at, r, v, EMPTY)
  {
    PathDepth(r, v);
    assert NodeOk(mem, at, None, LowNode(r, v));
    SetEntryKeeps(mem, at, own, None, LowNode(r, v), Px(0, v), EMPTY);
    SetEntryEntries(mem, at, own, at, r, v, EMPTY);
  }

  /** The freed page's bytes do not matter to any entry. */
  lemma ClearFreed(mem: Memory, at: map<Node, nat>, own: map<nat, Node>, r: nat, v: nat, page: Page)
    requires Tree(mem, at, None) && Inverse(at, own) && UserNode(r, v) in at && v < MAXVPN
    ensures LowNode(r, v) in at && IsTable(mem, at[LowNode(r, v)]) && at[LowNode(r, v)] != at[UserNode(r, v)]
    ensures var freed := mem[at[UserNode(r, v)] := page];
            && IsTable(freed, at[LowNode(r, v)])
            && OneEntry(mem, SetEntry(freed, at[LowNode(r, v)], Px(0, v), EMPTY), at, r, v, EMPTY)
  {
    var u, t := UserNode(r, v), at[UserNode(r, v)];
    ClearOwned(mem, at, own, r, v);
    assert NodeOk(mem, at, None, u);
    assert at[LowNode(r, v)] != t;
    var mem1 := SetEntry(mem, at[LowNode(r, v)], Px(0, v), EMPTY);
    var mem2 := SetEntry(mem[t := page], at[LowNode(r, v)], Px(0, v), EMPTY);
    assert mem2 == mem1[t := page];
    OtherPage(mem1, at - {u}, own - {t}, t, page);
  }

  lemma OtherPage(mem: Memory, at: map<Node, nat>, own: map<nat, Node>, t: nat, page: Page)
    requires Tree(mem, at, None) && Inverse(at, own) && t !in own
    ensures SameEntries(mem, mem[t := page], at)
  {
    forall n | n in at
      ensures at[n] != t && at[n] in mem
    {
      assert NodeOk(mem, at, None, n);
    }
    OtherPageKeeps(mem, at, own, None, t, page);
    SameTablesEntries(mem, mem[t := page], at, at);
  }
}
