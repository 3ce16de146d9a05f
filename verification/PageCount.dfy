/** How many pages a range of user memory takes: its own pages, and the tables on the way to
    them that are not there yet (kernel/vm.c). */
module PageCount {
  import opened Prelude
  import opened PageTable
  import opened AddressSpace

  /** What mapping page v of r takes: the page, and the tables that are not there. */
  function Short(at: map<Node, nat>, r: nat, v: nat): nat {
    1 + (if LowNode(r, v) in at then 0 else 1) + (if MidNode(r, v) in at then 0 else 1)
  }

  /** Of those tables, the ones that no page of lo..v has in common with v. */
  function FirstTables(at: map<Node, nat>, r: nat, lo: nat, v: nat): nat {
    (if (v == lo || v % 512 == 0) && LowNode(r, v) !in at then 1 else 0)
    + (if (v == lo || v % 0x40000 == 0) && MidNode(r, v) !in at then 1 else 0)
  }

  /** What mapping pages lo..hi of r takes: a page each, a lowest table for every run of 512
      pages that has none, and one above it for every run of 512 * 512 that has none. */
  function Lack(at: map<Node, nat>, r: nat, lo: nat, hi: nat): nat {
    if hi <= lo then 0 else Lack(at, r, lo, hi - 1) + 1 + FirstTables(at, r, lo, hi - 1)
  }

  lemma {:induction false} LackMore(at: map<Node, nat>, r: nat, lo: nat, hi: nat, top: nat)
    requires hi <= top
    ensures Lack(at, r, lo, hi) <= Lack(at, r, lo, top)
    decreases top
  {
    if hi < top { LackMore(at, r, lo, hi, top - 1); }
  }

  // ---- tables are shared by the pages of a run ----

  lemma SameTables(r: nat, v: nat, w: nat)
    requires v < MAXVPN && w < MAXVPN
    ensures LowNode(r, v) == LowNode(r, w) <==> v / 512 == w / 512
    ensures MidNode(r, v) == MidNode(r, w) <==> v / 0x40000 == w / 0x40000
  {
    assert v / 0x40000 == v / 512 / 512 && w / 0x40000 == w / 512 / 512;
  }

  lemma LastTables(r: nat, v: nat)
    requires 0 < v
    ensures v % 512 != 0 ==> LowNode(r, v) == LowNode(r, v - 1)
    ensures v % 0x40000 != 0 ==> MidNode(r, v) == MidNode(r, v - 1)
  {
    assert v / 0x40000 == v / 512 / 512 && (v - 1) / 0x40000 == (v - 1) / 512 / 512;
  }

  lemma TablesThere(mem: Memory, at: map<Node, nat>, r: nat, v: nat)
    requires Tree(mem, at, None) && UserNode(r, v) in at
    ensures LowNode(r, v) in at && MidNode(r, v) in at
  {
    assert NodeOk(mem, at, None, UserNode(r, v));
    assert NodeOk(mem, at, None, LowNode(r, v));
  }

  /** Page a, after the pages before it, takes no more than its part of what was lacking. */
  lemma {:induction false} LackStep(mem: Memory, a0: map<Node, nat>, at: map<Node, nat>, r: nat, lo: nat, a: nat)
    requires Tree(mem, at, None) && lo <= a && (a > lo ==> UserNode(r, a - 1) in at)
    requires forall n :: n in a0 ==> n in at
    ensures Lack(a0, r, lo, a) + Short(at, r, a) <= Lack(a0, r, lo, a + 1)
  {
    if a > lo {
      LastTables(r, a);
      TablesThere(mem, at, r, a - 1);
    }
  }

  // ---- counting the nodes ----

  lemma {:induction false} OneMore<T>(s: set<T>, x: T) returns (t: set<T>)
    ensures t == s + {x} && |t| == |s| + if x in s then 0 else 1
  {
    t := s + {x};
    if x in s { assert t == s; }
  }

  /** Mapping one page adds exactly what it was short of. */
  lemma PathAdded(at: map<Node, nat>, at': map<Node, nat>, r: nat, v: nat, ppn: nat)
    requires MapGrown(at, at', r, v, true, ppn) && MidNode(r, v) in at' && LowNode(r, v) in at'
    ensures |at'| == |at| + Short(at, r, v)
  {
    var one := OneMore(at.Keys, MidNode(r, v));
    var two := OneMore(one, LowNode(r, v));
    var three := OneMore(two, UserNode(r, v));
    assert at'.Keys == three;
    assert |at| == |at.Keys| && |at'| == |at'.Keys|;
  }

  /** With a page for page v, and none for the last table on the way to it. */
  lemma PathCut(at: map<Node, nat>, at': map<Node, nat>, r: nat, v: nat, ppn: nat)
    requires LowNode(r, v) !in at' && MapGrown(at, at', r, v, false, ppn)
    ensures |at'| + 1 < |at| + Short(at, r, v)
  {
    var one := OneMore(at.Keys, MidNode(r, v));
    assert at'.Keys <= one;
    SubsetSize(at'.Keys, one);
    assert |at| == |at.Keys| && |at'| == |at'.Keys|;
  }

  /** With pages lo..hi mapped and their tables there, all that a0 lacked is there. */
  lemma {:induction false} AllThere(s: set<Node>, a0: map<Node, nat>, r: nat, lo: nat, hi: nat)
    requires a0.Keys <= s && hi <= MAXVPN
    requires forall w :: lo <= w < hi ==> UserNode(r, w) in s && UserNode(r, w) !in a0
    requires forall w :: lo <= w < hi ==> LowNode(r, w) in s && MidNode(r, w) in s
    ensures |a0| + Lack(a0, r, lo, hi) <= |s|
    decreases hi
  {
    if hi <= lo {
      SubsetSize(a0.Keys, s);
    } else {
      var v := hi - 1;
      var t := WithoutPage(s, a0, r, lo, v);
      AllThere(t, a0, r, lo, v);
    }
  }

  /** Take away page v and the tables that only it needs. */
  lemma WithoutPage(s: set<Node>, a0: map<Node, nat>, r: nat, lo: nat, v: nat) returns (t: set<Node>)
    requires a0.Keys <= s && lo <= v < MAXVPN && UserNode(r, v) in s && UserNode(r, v) !in a0
    requires LowNode(r, v) in s && MidNode(r, v) in s
    ensures a0.Keys <= t && |t| == |s| - 1 - FirstTables(a0, r, lo, v)
    ensures forall w :: lo <= w < v && UserNode(r, w) in s ==> UserNode(r, w) in t
    ensures forall w :: lo <= w < v && LowNode(r, w) in s ==> LowNode(r, w) in t
    ensures forall w :: lo <= w < v && MidNode(r, w) in s ==> MidNode(r, w) in t
  {
    var one := OneLess(s, UserNode(r, v), true);
    var two := OneLess(one, LowNode(r, v), (v == lo || v % 512 == 0) && LowNode(r, v) !in a0);
    t := OneLess(two, MidNode(r, v), (v == lo || v % 0x40000 == 0) && MidNode(r, v) !in a0);
    forall w | lo <= w < v
      ensures UserNode(r, w) != UserNode(r, v)
      ensures v % 512 == 0 ==> LowNode(r, w) != LowNode(r, v)
      ensures v % 0x40000 == 0 ==> MidNode(r, w) != MidNode(r, v)
    {
      if UserNode(r, w) == UserNode(r, v) { UserNodeInjective(r, v, w); }
      SameTables(r, v, w);
    }
  }

  lemma OneLess<T>(s: set<T>, x: T, drop: bool) returns (t: set<T>)
    requires x in s
    ensures t == if drop then s - {x} else s
    ensures |t| == |s| - if drop then 1 else 0
  {
    t := if drop then s - {x} else s;
  }

  // ---- the number in round figures ----

  /** For k more pages, wherever they start and whatever tables there are. */
  lemma LackAtMost(at: map<Node, nat>, r: nat, lo: nat, hi: nat)
    requires lo <= hi
    ensures Lack(at, r, lo, hi) <= hi - lo + (hi - lo) / 512 + (hi - lo) / 0x40000 + 4
  {
    LackRuns(at, r, lo, hi);
    RunsAtMost(lo, hi);
  }

  /** How many runs of k pages the range lo..hi meets. */
  function Runs(lo: nat, hi: nat, k: nat): int
    requires k > 0
  {
    if hi <= lo then 0 else (hi - 1) / k - lo / k + 1
  }

  lemma RunsStep(lo: nat, v: nat)
    requires lo <= v
    ensures Runs(lo, v + 1, 512) == Runs(lo, v, 512) + if v == lo || v % 512 == 0 then 1 else 0
    ensures Runs(lo, v + 1, 0x40000) == Runs(lo, v, 0x40000) + if v == lo || v % 0x40000 == 0 then 1 else 0
  {
  }

  lemma RunsAtMost(lo: nat, hi: nat)
    requires lo <= hi
    ensures Runs(lo, hi, 512) <= (hi - lo) / 512 + 2 && Runs(lo, hi, 0x40000) <= (hi - lo) / 0x40000 + 2
  {
    var k := hi - lo;
    if k > 0 {
      assert (lo + k - 1) / 512 <= lo / 512 + k / 512 + 1;
      assert (lo + k - 1) / 0x40000 <= lo / 0x40000 + k / 0x40000 + 1;
    }
  }

  lemma {:induction false} LackRuns(at: map<Node, nat>, r: nat, lo: nat, hi: nat)
    requires lo <= hi
    ensures hi - lo <= Lack(at, r, lo, hi) <= hi - lo + Runs(lo, hi, 512) + Runs(lo, hi, 0x40000)
    ensures (forall v :: lo <= v < hi ==> LowNode(r, v) !in at && MidNode(r, v) !in at) ==>
              Lack(at, r, lo, hi) == hi - lo + Runs(lo, hi, 512) + Runs(lo, hi, 0x40000)
  {
    if lo < hi {
      LackRuns(at, r, lo, hi - 1);
      RunsStep(lo, hi - 1);
    }
  }

  // ---- a process with no user memory ----

  /** The root and the two tables that lead to the shared pages. */
  function Shell(r: nat): set<Node> {
    {Root(r), MidNode(r, TRAMPOLINE), LowNode(r, TRAMPOLINE)}
  }

  function Bare(r: nat): set<Node> {
    Shell(r) + {Trap(r)}
  }

  /** No page for the second table that the trampoline needs. */
  lemma ShellFails(a0: map<Node, nat>, at: map<Node, nat>, r: nat, ppn: nat)
    requires MapGrown(a0[Root(r) := r], at, r, TRAMPOLINE, false, ppn) && LowNode(r, TRAMPOLINE) !in at
    requires Root(r) !in a0
    ensures |at| <= |a0| + 2
  {
    var one := OneMore(a0.Keys, Root(r));
    var two := OneMore(one, MidNode(r, TRAMPOLINE));
    assert at.Keys <= two;
    SubsetSize(at.Keys, two);
    assert |a0| == |a0.Keys| && |at| == |at.Keys|;
  }

  lemma ShellDone(a0: map<Node, nat>, at: map<Node, nat>, r: nat, ppn: nat)
    requires MapGrown(a0[Root(r) := r], at, r, TRAMPOLINE, false, ppn) && LowNode(r, TRAMPOLINE) in at
    requires MidNode(r, TRAMPOLINE) in at && (forall m :: m in a0 ==> m != Root(r) && !Below(r, m))
    ensures at.Keys == a0.Keys + Shell(r) && |at| == |a0| + 3
  {
    PathBelow(r, TRAMPOLINE);
    ShellSize(a0, at, r);
  }

  lemma ShellSize(a0: map<Node, nat>, at: map<Node, nat>, r: nat)
    requires at.Keys == a0.Keys + Shell(r) && Root(r) !in a0 && MidNode(r, TRAMPOLINE) !in a0
    requires LowNode(r, TRAMPOLINE) !in a0
    ensures |at| == |a0| + 3
  {
    var one := OneMore(a0.Keys, Root(r));
    var two := OneMore(one, MidNode(r, TRAMPOLINE));
    var three := OneMore(two, LowNode(r, TRAMPOLINE));
    assert at.Keys == three;
    assert |a0| == |a0.Keys| && |at| == |at.Keys|;
  }

  /** The trapframe is found through the tables of the trampoline. */
  lemma ShellKept(a0: map<Node, nat>, at: map<Node, nat>, at': map<Node, nat>, r: nat, ok: bool, ppn: nat)
    requires at.Keys == a0.Keys + Shell(r)
    requires if ok then MapGrown(at, at', r, TRAPFRAME, false, ppn) else LowNode(r, TRAPFRAME) !in at
    ensures ok && at'.Keys == a0.Keys + Shell(r)
  {
    SameTables(r, TRAMPOLINE, TRAPFRAME);
    assert ok;
    assert at'.Keys == at.Keys;
  }

  lemma BareKeys(a0: map<Node, nat>, at: map<Node, nat>, r: nat, tf: nat)
    requires at.Keys == a0.Keys + Shell(r) && Trap(r) !in at
    ensures at[Trap(r) := tf].Keys == a0.Keys + Bare(r)
  {
  }

  lemma BareSize(a0: map<Node, nat>, at: map<Node, nat>, r: nat)
    requires at.Keys == a0.Keys + Bare(r) && Trap(r) !in a0 && (forall m :: m in a0 ==> m != Root(r) && !Below(r, m))
    ensures |at| == |a0| + 4
  {
    PathBelow(r, TRAMPOLINE);
    FourMore(a0.Keys, Root(r), MidNode(r, TRAMPOLINE), LowNode(r, TRAMPOLINE), Trap(r), at.Keys);
    assert |a0| == |a0.Keys| && |at| == |at.Keys|;
  }

  lemma FourMore<T>(s: set<T>, w: T, x: T, y: T, z: T, t: set<T>)
    requires w !in s && x !in s && y !in s && z !in s && w != x && w != y && w != z && x != y && x != z && y != z
    requires t == s + ({w, x, y} + {z})
    ensures |t| == |s| + 4
  {
    var one := OneMore(s, w);
    var two := OneMore(one, x);
    var three := OneMore(two, y);
    var four := OneMore(three, z);
    assert t == four;
  }

  /** n pages from 0 on and their tables. */
  function PagesAndTables(n: nat): nat {
    n + (n + 511) / 512 + (n + 0x3_FFFF) / 0x4_0000
  }

  /** A bare process has no table for its first 255 * 2^18 pages. */
  lemma NoTables(a0: map<Node, nat>, at: map<Node, nat>, r: nat, v: nat)
    requires at.Keys == a0.Keys + Bare(r) && (forall m :: m in a0 ==> !Below(r, m)) && v < 255 * 0x40000
    ensures LowNode(r, v) !in at && MidNode(r, v) !in at
  {
    PathBelow(r, v);
    SameTables(r, v, TRAMPOLINE);
  }

  /** A copy of n pages into a bare process r: where there are not twice n pages it fails
      whatever the tables, and otherwise it takes exactly PagesAndTables(n). */
  lemma LackInBare(a0: map<Node, nat>, at: map<Node, nat>, r: nat, n: nat, f: nat)
    requires at.Keys == a0.Keys + Bare(r) && (forall m :: m in a0 ==> !Below(r, m)) && f + n < USERTOP
    ensures f >= Lack(at, r, 0, n) <==> f >= PagesAndTables(n)
  {
    LackRuns(at, r, 0, n);
    if n <= 255 * 0x40000 {
      forall v | 0 <= v < n
        ensures LowNode(r, v) !in at && MidNode(r, v) !in at
      {
        NoTables(a0, at, r, v);
      }
    }
  }
}
