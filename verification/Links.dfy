/** Directories and link counts (kernel/fs.c, kernel/sysfile.c): what the entries of
    directories and the nlink fields of inodes have to do with each other. */
module Links {
  import opened Prelude

  const DIRSIZ: nat := 14
  const ROOTINO: nat := 1
  const MAXLINK: int := 32767

  type byte = bv8
  type Name = seq<byte>

  // ---- names ----

  function Zeros(n: nat): (z: Name)
    ensures |z| == n
  {
    seq(n, _ => 0)
  }

  /** strncpy into a dirent: from the first NUL on, NULs. */
  function Canon(s: Name): (c: Name)
    ensures |c| == |s|
  {
    if s == [] then [] else if s[0] == 0 then Zeros(|s|) else [s[0]] + Canon(s[1..])
  }

  /** strncmp gives 0. */
  predicate SameName(s: Name, t: Name)
    requires |s| == |t|
  {
    s == [] || (s[0] == t[0] && (s[0] == 0 || SameName(s[1..], t[1..])))
  }

  /** Names compare equal exactly when their directory entries hold the same bytes. */
  lemma {:induction false} SameNameIff(s: Name, t: Name)
    requires |s| == |t|
    ensures SameName(s, t) <==> Canon(s) == Canon(t)
  {
    if s != [] {
      assert Canon(s)[0] == s[0] && Canon(t)[0] == t[0];
      if s[0] == t[0] && s[0] != 0 {
        SameNameIff(s[1..], t[1..]);
        assert Canon(s)[1..] == Canon(s[1..]) && Canon(t)[1..] == Canon(t[1..]);
      }
    }
  }

  lemma {:induction false} CanonTwice(s: Name)
    ensures Canon(Canon(s)) == Canon(s)
  {
    if s != [] && s[0] != 0 {
      CanonTwice(s[1..]);
      assert Canon(s)[1..] == Canon(s[1..]);
    }
  }

  const DOT: Name := [0x2e] + Zeros(13)
  const DOTDOT: Name := [0x2e, 0x2e] + Zeros(12)

  // ---- inodes ----

  datatype Kind = File | Device | Dir

  /** A slot with inum 0 is free. */
  datatype Entry = Entry(inum: nat, name: Name)

  datatype Node = Node(kind: Kind, nlink: int, entries: seq<Entry>)

  type Nodes = map<nat, Node>

  /** A directory that still has links. */
  predicate Linked(nodes: Nodes, d: nat) {
    d in nodes && nodes[d].kind == Dir && nodes[d].nlink > 0
  }

  /** Slot k of the linked directory d names inode i, and is not its ".". */
  predicate Names(nodes: Nodes, d: nat, k: nat, i: nat) {
    Linked(nodes, d) && k < |nodes[d].entries| && nodes[d].entries[k].inum == i && nodes[d].entries[k].name != DOT
  }

  /** All the slots that name i. */
  ghost function LinksTo(nodes: Nodes, i: nat): set<(nat, nat)> {
    set d, k | d in nodes && 0 <= k < |nodes[d].entries| && Names(nodes, d, k, i) :: (d, k)
  }

  ghost predicate CountOk(nodes: Nodes, i: nat) {
    i in nodes ==> nodes[i].nlink == |LinksTo(nodes, i)|
  }

  predicate Apart(a: Entry, b: Entry) {
    a.inum == 0 || b.inum == 0 || a.name != b.name
  }

  /** No two entries in use have the same name, and names are as strncpy leaves them. */
  ghost predicate Uniq(es: seq<Entry>) {
    && (forall j, k {:trigger Apart(es[j], es[k])} :: 0 <= j < k < |es| ==> Apart(es[j], es[k]))
    && (forall k {:trigger es[k].name} ::
         0 <= k < |es| ==> es[k].inum == 0 || (|es[k].name| == DIRSIZ && Canon(es[k].name) == es[k].name))
  }

  ghost predicate Shape(d: nat, es: seq<Entry>) {
    |es| >= 2 && es[0] == Entry(d, DOT) && es[1].name == DOTDOT && es[1].inum != 0 && Uniq(es)
  }

  ghost predicate NodeOk(i: nat, n: Node) {
    && i != 0 && (n.kind == Dir ==> Shape(i, n.entries)) && (n.kind != Dir ==> n.entries == [])
    && (n.kind == Dir && n.nlink <= 0 ==> forall k {:trigger n.entries[k]} ::
         2 <= k < |n.entries| ==> n.entries[k].inum == 0)
  }

  function Parent(nodes: Nodes, d: nat): nat
    requires d in nodes && |nodes[d].entries| >= 2
  {
    nodes[d].entries[1].inum
  }

  /** The linked directory i other than the root is named once, by slot at[i] of its "..". */
  ghost predicate Hangs(nodes: Nodes, at: map<nat, nat>, i: nat)
  {
    Linked(nodes, i) && i != ROOTINO ==>
      |nodes[i].entries| >= 2 && i in at && at[i] >= 2 && Names(nodes, Parent(nodes, i), at[i], i)
  }

  /** An entry leads to an inode that is there, and to a directory only from its "..". */
  ghost predicate Leads(nodes: Nodes, at: map<nat, nat>, d: nat, k: nat, i: nat) {
    Names(nodes, d, k, i) && i != 0 ==>
      && i in nodes
      && (k >= 2 && nodes[i].kind == Dir ==>
        i != ROOTINO && nodes[i].nlink > 0 && |nodes[i].entries| >= 2 && Parent(nodes, i) == d && i in at && at[i] == k)
  }

  ghost predicate NodesOk(nodes: Nodes) {
    && (forall i {:trigger NodeOk(i, nodes[i])} :: i in nodes ==> NodeOk(i, nodes[i]))
    && ROOTINO in nodes && nodes[ROOTINO].kind == Dir && nodes[ROOTINO].nlink > 0 && |nodes[ROOTINO].entries| >= 2
    && Parent(nodes, ROOTINO) == ROOTINO
  }

  ghost predicate TreeOk(nodes: Nodes, at: map<nat, nat>) {
    && (forall i {:trigger Hangs(nodes, at, i)} :: Hangs(nodes, at, i))
    && (forall d, k, i {:trigger Leads(nodes, at, d, k, i)} :: k >= 0 ==> Leads(nodes, at, d, k, i))
  }

  ghost predicate CountsOk(nodes: Nodes) {
    forall i {:trigger CountOk(nodes, i)} :: CountOk(nodes, i)
  }

  ghost predicate Inv(nodes: Nodes, at: map<nat, nat>) {
    NodesOk(nodes) && TreeOk(nodes, at) && CountsOk(nodes)
  }

  // ---- changing directories ----

  function Inc16(x: int): int { if x == MAXLINK then -32768 else x + 1 }

  function Dec16(x: int): int { if x == -32768 then MAXLINK else x - 1 }

  /** Slot k gets the entry e; k may be one past the last slot. */
  function Put(es: seq<Entry>, k: nat, e: Entry): seq<Entry>
    requires k <= |es|
  {
    if k == |es| then es + [e] else es[k := e]
  }

  function PutIn(nodes: Nodes, d: nat, k: nat, e: Entry): Nodes
    requires d in nodes && k <= |nodes[d].entries|
  {
    nodes[d := nodes[d].(entries := Put(nodes[d].entries, k, e))]
  }

  predicate FreeSlot(es: seq<Entry>, k: nat) {
    k == |es| || (k < |es| && es[k].inum == 0)
  }

  ghost predicate Absent(es: seq<Entry>, name: Name) {
    forall k {:trigger es[k]} :: 0 <= k < |es| && es[k].inum != 0 ==> es[k].name != name
  }

  lemma PutUniq(es: seq<Entry>, k: nat, e: Entry)
    requires Uniq(es) && FreeSlot(es, k) && Absent(es, e.name) && |e.name| == DIRSIZ && Canon(e.name) == e.name
    ensures Uniq(Put(es, k, e))
  {
    var es' := Put(es, k, e);
    forall i, j | 0 <= i < j < |es'|
      ensures Apart(es'[i], es'[j])
    {
      if i != k && j != k {
        assert Apart(es[i], es[j]);
      } else if i == k {
        assert es'[j] == es[j];
      } else {
        assert es'[i] == es[i];
      }
    }
    forall j | 0 <= j < |es'|
      ensures es'[j].inum == 0 || (|es'[j].name| == DIRSIZ && Canon(es'[j].name) == es'[j].name)
    {
      if j != k { assert es'[j].name == es[j].name; }
    }
  }

  lemma PutShape(d: nat, es: seq<Entry>, k: nat, e: Entry)
    requires Shape(d, es) && d != 0 && FreeSlot(es, k) && Absent(es, e.name) && |e.name| == DIRSIZ
    requires Canon(e.name) == e.name
    ensures k >= 2 && Shape(d, Put(es, k, e)) && e.name != DOT
  {
    assert es[0] == Entry(d, DOT);
    PutUniq(es, k, e);
  }

  lemma ClearShape(d: nat, es: seq<Entry>, k: nat)
    requires Shape(d, es) && 2 <= k < |es|
    ensures Shape(d, es[k := Entry(0, Zeros(DIRSIZ))])
  {
    var es' := es[k := Entry(0, Zeros(DIRSIZ))];
    forall i, j | 0 <= i < j < |es'|
      ensures Apart(es'[i], es'[j])
    {
      if i != k && j != k { assert Apart(es[i], es[j]); }
    }
    forall j | 0 <= j < |es'|
      ensures es'[j].inum == 0 || (|es'[j].name| == DIRSIZ && Canon(es'[j].name) == es'[j].name)
    {
      if j != k { assert es'[j].name == es[j].name; }
    }
  }

  // ---- counting ----

  lemma SameLinks(nodes: Nodes, nodes': Nodes, i: nat)
    requires forall d, k :: k >= 0 ==> (Names(nodes', d, k, i) <==> Names(nodes, d, k, i))
    ensures LinksTo(nodes', i) == LinksTo(nodes, i)
  {
    forall x | x in LinksTo(nodes', i)
      ensures x in LinksTo(nodes, i)
    {
      assert Names(nodes', x.0, x.1, i);
    }
    forall x | x in LinksTo(nodes, i)
      ensures x in LinksTo(nodes', i)
    {
      assert Names(nodes, x.0, x.1, i);
    }
  }

  lemma LinkIff(nodes: Nodes, i: nat, x: (nat, nat))
    ensures x in LinksTo(nodes, i) <==> Names(nodes, x.0, x.1, i)
  {
  }

  /** One slot more names i. */
  lemma OneMore(nodes: Nodes, nodes': Nodes, i: nat, d: nat, k: nat)
    requires forall g, j {:trigger Names(nodes', g, j, i)} ::
               j >= 0 ==> (Names(nodes', g, j, i) <==> Names(nodes, g, j, i) || (g == d && j == k))
    requires !Names(nodes, d, k, i)
    ensures |LinksTo(nodes', i)| == |LinksTo(nodes, i)| + 1
  {
    var a, b := LinksTo(nodes, i), LinksTo(nodes', i);
    forall x: (nat, nat)
      ensures x in b <==> x in a || x == (d, k)
    {
      LinkIff(nodes, i, x);
      LinkIff(nodes', i, x);
    }
    LinkIff(nodes, i, (d, k));
    AddOne(a, b, (d, k));
  }

  lemma AddOne(a: set<(nat, nat)>, b: set<(nat, nat)>, y: (nat, nat))
    requires y !in a && forall x: (nat, nat) :: x in b <==> x in a || x == y
    ensures |b| == |a| + 1
  {
    assert b == a + {y};
  }

  /** A slot that names i is one of its links, so there is at least one. */
  lemma HasLink(nodes: Nodes, d: nat, k: nat, i: nat)
    requires Names(nodes, d, k, i)
    ensures (d, k) in LinksTo(nodes, i) && |LinksTo(nodes, i)| >= 1
  {
    assert {(d, k)} <= LinksTo(nodes, i);
    SubsetSize({(d, k)}, LinksTo(nodes, i));
  }

  lemma OnlyLink(nodes: Nodes, d: nat, k: nat, i: nat)
    requires Names(nodes, d, k, i) && forall g, j :: Names(nodes, g, j, i) ==> g == d && j == k
    ensures |LinksTo(nodes, i)| == 1
  {
    forall x | x in LinksTo(nodes, i)
      ensures x == (d, k)
    {
      assert Names(nodes, x.0, x.1, i);
    }
    HasLink(nodes, d, k, i);
    assert LinksTo(nodes, i) == {(d, k)};
  }

  // ---- create, for a file or a device ----

  ghost predicate Room(nodes: Nodes, d: nat, k: nat, name: Name) {
    && d in nodes && nodes[d].kind == Dir && FreeSlot(nodes[d].entries, k) && Absent(nodes[d].entries, name)
    && |name| == DIRSIZ && Canon(name) == name
  }

  function FileAdded(nodes: Nodes, d: nat, k: nat, i: nat, name: Name, kind: Kind): Nodes
    requires d in nodes && k <= |nodes[d].entries| && i !in nodes
  {
    PutIn(nodes[i := Node(kind, 1, [])], d, k, Entry(i, name))
  }

  lemma FileNames(nodes: Nodes, d: nat, k: nat, i: nat, name: Name, kind: Kind, g: nat, j: nat, x: nat)
    requires Room(nodes, d, k, name) && i !in nodes && kind != Dir && name != DOT && x != 0
    ensures Names(FileAdded(nodes, d, k, i, name, kind), g, j, x) <==>
              Names(nodes, g, j, x) || (Linked(nodes, d) && g == d && j == k && x == i)
  {
  }

  lemma FileNodes(nodes: Nodes, d: nat, k: nat, i: nat, name: Name, kind: Kind)
    requires NodesOk(nodes) && Linked(nodes, d) && Room(nodes, d, k, name) && i !in nodes && i != 0 && kind != Dir
    ensures NodesOk(FileAdded(nodes, d, k, i, name, kind)) && k >= 2 && name != DOT
  {
    var nodes' := FileAdded(nodes, d, k, i, name, kind);
    assert NodeOk(d, nodes[d]);
    PutShape(d, nodes[d].entries, k, Entry(i, name));
    forall x | x in nodes'
      ensures NodeOk(x, nodes'[x])
    {
      if x != i && x != d { assert NodeOk(x, nodes[x]); }
    }
  }

  lemma FileTree(nodes: Nodes, at: map<nat, nat>, d: nat, k: nat, i: nat, name: Name, kind: Kind)
    requires NodesOk(nodes) && TreeOk(nodes, at) && Linked(nodes, d) && Room(nodes, d, k, name) && i !in nodes && i != 0
    requires kind != Dir && k >= 2 && name != DOT
    ensures TreeOk(FileAdded(nodes, d, k, i, name, kind), at)
  {
    var nodes' := FileAdded(nodes, d, k, i, name, kind);
    assert NodeOk(d, nodes[d]);
    forall x
      ensures Hangs(nodes', at, x)
    {
      assert Hangs(nodes, at, x);
      if Linked(nodes, x) && x != ROOTINO {
        assert NodeOk(x, nodes[x]);
        FileNames(nodes, d, k, i, name, kind, Parent(nodes, x), at[x], x);
      }
    }
    forall g, j, x | j >= 0
      ensures Leads(nodes', at, g, j, x)
    {
      assert Leads(nodes, at, g, j, x);
      if x != 0 { FileNames(nodes, d, k, i, name, kind, g, j, x); }
      if x in nodes { assert NodeOk(x, nodes[x]); }
    }
  }

  /** No slot names an inode that is not there. */
  lemma NoneNamed(nodes: Nodes, at: map<nat, nat>, i: nat)
    requires TreeOk(nodes, at) && i !in nodes && i != 0
    ensures LinksTo(nodes, i) == {} && forall g, j :: j >= 0 ==> !Names(nodes, g, j, i)
  {
    forall g, j | j >= 0
      ensures !Names(nodes, g, j, i)
    {
      assert Leads(nodes, at, g, j, i);
    }
  }

  lemma FileCounts(nodes: Nodes, at: map<nat, nat>, d: nat, k: nat, i: nat, name: Name, kind: Kind)
    requires Inv(nodes, at) && Linked(nodes, d) && Room(nodes, d, k, name) && i !in nodes && i != 0 && kind != Dir
    requires name != DOT
    ensures CountsOk(FileAdded(nodes, d, k, i, name, kind))
  {
    var nodes' := FileAdded(nodes, d, k, i, name, kind);
    NoneNamed(nodes, at, i);
    forall x
      ensures CountOk(nodes', x)
    {
      assert CountOk(nodes, x);
      if x in nodes' {
        assert x in nodes ==> NodeOk(x, nodes[x]);
        forall g, j | j >= 0
          ensures Names(nodes', g, j, x) <==> Names(nodes, g, j, x) || (g == d && j == k && x == i)
        {
          FileNames(nodes, d, k, i, name, kind, g, j, x);
        }
        if x == i { OneMore(nodes, nodes', i, d, k); } else { SameLinks(nodes, nodes', x); }
      }
    }
  }

  lemma CreateFileKeeps(nodes: Nodes, at: map<nat, nat>, d: nat, k: nat, i: nat, name: Name, kind: Kind)
    requires Inv(nodes, at) && Linked(nodes, d) && Room(nodes, d, k, name) && i !in nodes && i != 0 && kind != Dir
    ensures Inv(FileAdded(nodes, d, k, i, name, kind), at)
  {
    FileNodes(nodes, d, k, i, name, kind);
    FileTree(nodes, at, d, k, i, name, kind);
    FileCounts(nodes, at, d, k, i, name, kind);
  }

  // ---- create, for a directory ----

  function NewDir(i: nat, d: nat): Node {
    Node(Dir, 1, [Entry(i, DOT), Entry(d, DOTDOT)])
  }

  function DirAdded(nodes: Nodes, d: nat, k: nat, i: nat, name: Name): Nodes
    requires d in nodes && k <= |nodes[d].entries| && i !in nodes
  {
    var n := nodes[d];
    nodes[i := NewDir(i, d)][d := Node(n.kind, Inc16(n.nlink), Put(n.entries, k, Entry(i, name)))]
  }

  lemma DotNames()
    ensures |DOT| == DIRSIZ && |DOTDOT| == DIRSIZ && DOT != DOTDOT && Canon(DOT) == DOT && Canon(DOTDOT) == DOTDOT
  {
    assert DOT[1] == 0 && DOTDOT[1] == 0x2e;
    assert DOT[1..] == Zeros(13) && Canon(DOT[1..]) == Zeros(13);
    assert DOTDOT[1..] == [0x2e] + Zeros(12) && DOTDOT[1..][1..] == Zeros(12) && Canon(DOTDOT[1..][1..]) == Zeros(12);
    assert Canon(DOTDOT[1..]) == [0x2e] + Zeros(12);
  }

  lemma NewDirOk(i: nat, d: nat)
    requires i != 0 && d != 0
    ensures NodeOk(i, NewDir(i, d))
  {
    DotNames();
    var es := NewDir(i, d).entries;
    assert Apart(es[0], es[1]);
  }

  lemma DirNames(nodes: Nodes, d: nat, k: nat, i: nat, name: Name, g: nat, j: nat, x: nat)
    requires Room(nodes, d, k, name) && Linked(nodes, d) && nodes[d].nlink < MAXLINK && i !in nodes && name != DOT
    requires x != 0
    ensures Names(DirAdded(nodes, d, k, i, name), g, j, x) <==>
              Names(nodes, g, j, x) || (g == d && j == k && x == i) || (g == i && j == 1 && x == d)
  {
    DotNames();
    var nodes' := DirAdded(nodes, d, k, i, name);
    assert Linked(nodes', g) <==> Linked(nodes, g) || g == i;
  }

  lemma DirNodes(nodes: Nodes, d: nat, k: nat, i: nat, name: Name)
    requires NodesOk(nodes) && Linked(nodes, d) && nodes[d].nlink < MAXLINK && Room(nodes, d, k, name) && i !in nodes
    requires i != 0
    ensures NodesOk(DirAdded(nodes, d, k, i, name)) && k >= 2 && name != DOT
  {
    var nodes' := DirAdded(nodes, d, k, i, name);
    assert NodeOk(d, nodes[d]);
    PutShape(d, nodes[d].entries, k, Entry(i, name));
    NewDirOk(i, d);
    forall x | x in nodes'
      ensures NodeOk(x, nodes'[x])
    {
      if x != i && x != d { assert NodeOk(x, nodes[x]); }
    }
  }

  lemma DirTree(nodes: Nodes, at: map<nat, nat>, d: nat, k: nat, i: nat, name: Name)
    requires NodesOk(nodes) && TreeOk(nodes, at) && Linked(nodes, d) && nodes[d].nlink < MAXLINK
    requires Room(nodes, d, k, name)
    requires i !in nodes && i != 0 && k >= 2 && name != DOT
    ensures TreeOk(DirAdded(nodes, d, k, i, name), at[i := k])
  {
    var nodes', at' := DirAdded(nodes, d, k, i, name), at[i := k];
    assert NodeOk(d, nodes[d]);
    forall x
      ensures Hangs(nodes', at', x)
    {
      assert Hangs(nodes, at, x);
      if x == i {
        DirNames(nodes, d, k, i, name, d, k, i);
      } else if Linked(nodes, x) && x != ROOTINO {
        assert NodeOk(x, nodes[x]);
        DirNames(nodes, d, k, i, name, Parent(nodes, x), at[x], x);
      }
    }
    forall g, j, x | j >= 0
      ensures Leads(nodes', at', g, j, x)
    {
      assert Leads(nodes, at, g, j, x);
      if x != 0 { DirNames(nodes, d, k, i, name, g, j, x); }
      if x in nodes { assert NodeOk(x, nodes[x]); }
    }
  }

  lemma DirCounts(nodes: Nodes, at: map<nat, nat>, d: nat, k: nat, i: nat, name: Name)
    requires Inv(nodes, at) && Linked(nodes, d) && nodes[d].nlink < MAXLINK && Room(nodes, d, k, name) && i !in nodes
    requires i != 0 && name != DOT
    ensures CountsOk(DirAdded(nodes, d, k, i, name))
  {
    var nodes' := DirAdded(nodes, d, k, i, name);
    NoneNamed(nodes, at, i);
    forall x
      ensures CountOk(nodes', x)
    {
      assert CountOk(nodes, x);
      if x in nodes' {
        assert x in nodes ==> NodeOk(x, nodes[x]);
        forall g, j | j >= 0
          ensures Names(nodes', g, j, x) <==>
                    Names(nodes, g, j, x) || (g == d && j == k && x == i) || (g == i && j == 1 && x == d)
        {
          DirNames(nodes, d, k, i, name, g, j, x);
        }
        if x == i { OneMore(nodes, nodes', i, d, k); } else if x == d { OneMore(nodes, nodes', d, i, 1); }
            else { SameLinks(nodes, nodes', x); }
      }
    }
  }

  lemma CreateDirKeeps(nodes: Nodes, at: map<nat, nat>, d: nat, k: nat, i: nat, name: Name)
    requires Inv(nodes, at) && Linked(nodes, d) && nodes[d].nlink < MAXLINK && Room(nodes, d, k, name) && i !in nodes
    requires i != 0
    ensures Inv(DirAdded(nodes, d, k, i, name), at[i := k])
  {
    DirNodes(nodes, d, k, i, name);
    DirTree(nodes, at, d, k, i, name);
    DirCounts(nodes, at, d, k, i, name);
  }

  // ---- link ----

  function LinkAdded(nodes: Nodes, d: nat, k: nat, i: nat, name: Name): Nodes
    requires d in nodes && k <= |nodes[d].entries| && i in nodes && i != d
  {
    PutIn(nodes[i := nodes[i].(nlink := Inc16(nodes[i].nlink))], d, k, Entry(i, name))
  }

  lemma LinkNames(nodes: Nodes, d: nat, k: nat, i: nat, name: Name, g: nat, j: nat, x: nat)
    requires Room(nodes, d, k, name) && i in nodes && nodes[i].kind != Dir && name != DOT && x != 0
    ensures Names(LinkAdded(nodes, d, k, i, name), g, j, x) <==>
              Names(nodes, g, j, x) || (Linked(nodes, d) && g == d && j == k && x == i)
  {
    var nodes' := LinkAdded(nodes, d, k, i, name);
    assert Linked(nodes', g) <==> Linked(nodes, g);
  }

  lemma LinkNodes(nodes: Nodes, d: nat, k: nat, i: nat, name: Name)
    requires NodesOk(nodes) && Linked(nodes, d) && Room(nodes, d, k, name) && i in nodes && nodes[i].kind != Dir
    ensures NodesOk(LinkAdded(nodes, d, k, i, name)) && k >= 2 && name != DOT && i != 0
  {
    var nodes' := LinkAdded(nodes, d, k, i, name);
    assert NodeOk(d, nodes[d]) && NodeOk(i, nodes[i]);
    PutShape(d, nodes[d].entries, k, Entry(i, name));
    forall x | x in nodes'
      ensures NodeOk(x, nodes'[x])
    {
      assert NodeOk(x, nodes[x]);
    }
  }

  lemma LinkTree(nodes: Nodes, at: map<nat, nat>, d: nat, k: nat, i: nat, name: Name)
    requires NodesOk(nodes) && TreeOk(nodes, at) && Linked(nodes, d) && Room(nodes, d, k, name)
    requires i in nodes && i != 0 && nodes[i].kind != Dir && k >= 2 && name != DOT
    ensures TreeOk(LinkAdded(nodes, d, k, i, name), at)
  {
    var nodes' := LinkAdded(nodes, d, k, i, name);
    assert NodeOk(d, nodes[d]);
    forall x
      ensures Hangs(nodes', at, x)
    {
      assert Hangs(nodes, at, x);
      if Linked(nodes, x) && x != ROOTINO {
        assert NodeOk(x, nodes[x]);
        LinkNames(nodes, d, k, i, name, Parent(nodes, x), at[x], x);
      }
    }
    forall g, j, x | j >= 0
      ensures Leads(nodes', at, g, j, x)
    {
      assert Leads(nodes, at, g, j, x);
      if x != 0 { LinkNames(nodes, d, k, i, name, g, j, x); }
      if x in nodes { assert NodeOk(x, nodes[x]); }
    }
  }

  lemma LinkCounts(nodes: Nodes, at: map<nat, nat>, d: nat, k: nat, i: nat, name: Name)
    requires Inv(nodes, at) && Linked(nodes, d) && Room(nodes, d, k, name) && i in nodes && nodes[i].kind != Dir
    requires nodes[i].nlink < MAXLINK && i != 0 && name != DOT
    ensures CountsOk(LinkAdded(nodes, d, k, i, name))
  {
    var nodes' := LinkAdded(nodes, d, k, i, name);
    forall x
      ensures CountOk(nodes', x)
    {
      assert CountOk(nodes, x);
      if x in nodes' {
        assert NodeOk(x, nodes[x]);
        forall g, j | j >= 0
          ensures Names(nodes', g, j, x) <==> Names(nodes, g, j, x) || (g == d && j == k && x == i)
        {
          LinkNames(nodes, d, k, i, name, g, j, x);
        }
        if x == i { OneMore(nodes, nodes', i, d, k); } else { SameLinks(nodes, nodes', x); }
      }
    }
  }

  lemma LinkKeeps(nodes: Nodes, at: map<nat, nat>, d: nat, k: nat, i: nat, name: Name)
    requires Inv(nodes, at) && Linked(nodes, d) && Room(nodes, d, k, name) && i in nodes && nodes[i].kind != Dir
    requires nodes[i].nlink < MAXLINK
    ensures Inv(LinkAdded(nodes, d, k, i, name), at)
  {
    LinkNodes(nodes, d, k, i, name);
    LinkTree(nodes, at, d, k, i, name);
    LinkCounts(nodes, at, d, k, i, name);
  }

  // ---- unlink ----

  function Cleared(n: Node, k: nat): Node
    requires k < |n.entries|
  {
    n.(entries := n.entries[k := Entry(0, Zeros(DIRSIZ))])
  }

  function FileRemoved(nodes: Nodes, d: nat, k: nat, i: nat): Nodes
    requires d in nodes && k < |nodes[d].entries| && i in nodes && i != d
  {
    nodes[d := Cleared(nodes[d], k)][i := nodes[i].(nlink := nodes[i].nlink - 1)]
  }

  lemma RemovedNames(nodes: Nodes, d: nat, k: nat, i: nat, g: nat, j: nat, x: nat)
    requires d in nodes && k < |nodes[d].entries| && i in nodes && i != d && nodes[i].kind != Dir && x != 0
    ensures Names(FileRemoved(nodes, d, k, i), g, j, x) <==> Names(nodes, g, j, x) && !(g == d && j == k)
  {
    var nodes' := FileRemoved(nodes, d, k, i);
    assert Linked(nodes', g) <==> Linked(nodes, g);
  }

  lemma RemovedNodes(nodes: Nodes, d: nat, k: nat, i: nat)
    requires NodesOk(nodes) && Linked(nodes, d) && 2 <= k < |nodes[d].entries| && i in nodes && nodes[i].kind != Dir
    ensures NodesOk(FileRemoved(nodes, d, k, i))
  {
    var nodes' := FileRemoved(nodes, d, k, i);
    assert NodeOk(d, nodes[d]);
    ClearShape(d, nodes[d].entries, k);
    forall x | x in nodes'
      ensures NodeOk(x, nodes'[x])
    {
      assert NodeOk(x, nodes[x]);
    }
  }

  lemma RemovedTree(nodes: Nodes, at: map<nat, nat>, d: nat, k: nat, i: nat)
    requires NodesOk(nodes) && TreeOk(nodes, at) && k >= 2 && Names(nodes, d, k, i) && i in nodes && i != 0
    requires nodes[i].kind != Dir
    ensures TreeOk(FileRemoved(nodes, d, k, i), at)
  {
    var nodes' := FileRemoved(nodes, d, k, i);
    assert NodeOk(d, nodes[d]);
    forall x
      ensures Hangs(nodes', at, x)
    {
      assert Hangs(nodes, at, x);
      if Linked(nodes, x) && x != ROOTINO {
        assert NodeOk(x, nodes[x]);
        RemovedNames(nodes, d, k, i, Parent(nodes, x), at[x], x);
      }
    }
    forall g, j, x | j >= 0
      ensures Leads(nodes', at, g, j, x)
    {
      assert Leads(nodes, at, g, j, x);
      if x != 0 { RemovedNames(nodes, d, k, i, g, j, x); }
      if x in nodes { assert NodeOk(x, nodes[x]); }
    }
  }

  lemma RemovedCounts(nodes: Nodes, at: map<nat, nat>, d: nat, k: nat, i: nat)
    requires Inv(nodes, at) && Names(nodes, d, k, i) && i in nodes && i != 0 && nodes[i].kind != Dir
    ensures CountsOk(FileRemoved(nodes, d, k, i))
  {
    var nodes' := FileRemoved(nodes, d, k, i);
    forall x
      ensures CountOk(nodes', x)
    {
      assert CountOk(nodes, x);
      if x in nodes' {
        assert NodeOk(x, nodes[x]);
        forall g, j | j >= 0
          ensures Names(nodes, g, j, x) <==> Names(nodes', g, j, x) || (g == d && j == k && x == i)
        {
          RemovedNames(nodes, d, k, i, g, j, x);
        }
        RemovedNames(nodes, d, k, i, d, k, x);
        if x == i { OneMore(nodes', nodes, i, d, k); } else { SameLinks(nodes, nodes', x); }
      }
    }
  }

  lemma UnlinkFileKeeps(nodes: Nodes, at: map<nat, nat>, d: nat, k: nat, i: nat)
    requires Inv(nodes, at) && k >= 2 && Names(nodes, d, k, i) && i in nodes && i != 0 && nodes[i].kind != Dir
    ensures Inv(FileRemoved(nodes, d, k, i), at)
  {
    RemovedNodes(nodes, d, k, i);
    RemovedTree(nodes, at, d, k, i);
    RemovedCounts(nodes, at, d, k, i);
  }

  /** A directory to be unlinked has nothing but its two dots. */
  ghost predicate DirEmpty(n: Node) {
    forall k {:trigger n.entries[k]} :: 2 <= k < |n.entries| ==> n.entries[k].inum == 0
  }

  /** No ".." leads to an empty directory that is not the root. */
  lemma NoneBelow(nodes: Nodes, at: map<nat, nat>, i: nat, g: nat, j: nat)
    requires NodesOk(nodes) && TreeOk(nodes, at) && i in nodes && nodes[i].kind == Dir && DirEmpty(nodes[i])
    requires i != ROOTINO
    ensures Names(nodes, g, j, i) ==> j >= 2
  {
    assert Hangs(nodes, at, g);
    assert g in nodes ==> NodeOk(g, nodes[g]);
  }

  /** The last link of an empty directory is the entry in its parent: nlink is 1. */
  lemma EmptyDirOneLink(nodes: Nodes, at: map<nat, nat>, d: nat, k: nat, i: nat)
    requires Inv(nodes, at) && k >= 2 && Names(nodes, d, k, i) && i in nodes && i != 0 && nodes[i].kind == Dir
    requires DirEmpty(nodes[i])
    ensures nodes[i].nlink == 1 && i != ROOTINO && |nodes[i].entries| >= 2 && Parent(nodes, i) == d && d != i
  {
    assert NodeOk(i, nodes[i]) && CountOk(nodes, i) && Leads(nodes, at, d, k, i);
    forall g, j | Names(nodes, g, j, i)
      ensures g == d && j == k
    {
      assert Leads(nodes, at, g, j, i);
      NoneBelow(nodes, at, i, g, j);
    }
    OnlyLink(nodes, d, k, i);
  }

  function DirRemoved(nodes: Nodes, d: nat, k: nat, i: nat): Nodes
    requires d in nodes && k < |nodes[d].entries| && i in nodes && i != d
  {
    var n := nodes[d];
    nodes[d := Cleared(n, k).(nlink := n.nlink - 1)][i := nodes[i].(nlink := nodes[i].nlink - 1)]
  }

  lemma DirRemovedNames(nodes: Nodes, d: nat, k: nat, i: nat, g: nat, j: nat, x: nat)
    requires NodesOk(nodes) && 2 <= k && Names(nodes, d, k, i) && i in nodes && i != d && nodes[i].kind == Dir
    requires nodes[i].nlink == 1 && DirEmpty(nodes[i])
    requires x != 0 && nodes[d].nlink > 1 && |nodes[i].entries| >= 2 && Parent(nodes, i) == d
    ensures Names(DirRemoved(nodes, d, k, i), g, j, x) <==>
              Names(nodes, g, j, x) && !(g == d && j == k) && !(g == i && j == 1)
    ensures Names(nodes, i, j, x) ==> j == 1 && x == d
  {
    var nodes' := DirRemoved(nodes, d, k, i);
    assert NodeOk(i, nodes[i]);
    assert Linked(nodes', g) <==> Linked(nodes, g) && g != i;
  }

  /** The parent keeps a link: its own entry further up, or the root's "..". */
  lemma ParentStays(nodes: Nodes, at: map<nat, nat>, d: nat, k: nat, i: nat)
    requires Inv(nodes, at) && Linked(nodes, d) && Names(nodes, i, 1, d) && i != d && |nodes[i].entries| >= 2
    requires Parent(nodes, i) == d
    ensures nodes[d].nlink > 1
  {
    DotNames();
    assert NodeOk(d, nodes[d]) && Hangs(nodes, at, d) && CountOk(nodes, d);
    var up := if d == ROOTINO then (d, 1) else (Parent(nodes, d), at[d]);
    HasLink(nodes, up.0, up.1, d);
    HasLink(nodes, i, 1, d);
    SubsetSize({up, (i, 1)}, LinksTo(nodes, d));
    assert |{up, (i, 1)}| == 2;
  }

  lemma DirRemovedNodes(nodes: Nodes, d: nat, k: nat, i: nat)
    requires NodesOk(nodes) && Linked(nodes, d) && nodes[d].nlink > 1 && 2 <= k < |nodes[d].entries| && i in nodes
    requires nodes[i].kind == Dir && DirEmpty(nodes[i]) && i != d && i != ROOTINO
    ensures NodesOk(DirRemoved(nodes, d, k, i))
  {
    var nodes' := DirRemoved(nodes, d, k, i);
    assert NodeOk(d, nodes[d]);
    ClearShape(d, nodes[d].entries, k);
    forall x | x in nodes'
      ensures NodeOk(x, nodes'[x])
    {
      assert NodeOk(x, nodes[x]);
    }
  }

  /** What unlink knows about the empty directory i, named by slot k of d. */
  ghost predicate Removable(nodes: Nodes, d: nat, k: nat, i: nat) {
    && 2 <= k && Names(nodes, d, k, i) && i in nodes && i != 0 && i != d && i != ROOTINO
    && nodes[i].kind == Dir && nodes[i].nlink == 1 && DirEmpty(nodes[i])
    && nodes[d].nlink > 1 && |nodes[i].entries| >= 2 && Parent(nodes, i) == d
  }

  lemma DirRemovedTree(nodes: Nodes, at: map<nat, nat>, d: nat, k: nat, i: nat)
    requires NodesOk(nodes) && TreeOk(nodes, at) && Removable(nodes, d, k, i)
    ensures TreeOk(DirRemoved(nodes, d, k, i), at)
  {
    var nodes' := DirRemoved(nodes, d, k, i);
    assert NodeOk(d, nodes[d]) && Leads(nodes, at, d, k, i);
    forall x
      ensures Hangs(nodes', at, x)
    {
      assert Hangs(nodes, at, x);
      if Linked(nodes, x) && x != ROOTINO && x != i {
        assert NodeOk(x, nodes[x]);
        DirRemovedNames(nodes, d, k, i, Parent(nodes, x), at[x], x);
      }
    }
    forall g, j, x | j >= 0
      ensures Leads(nodes', at, g, j, x)
    {
      assert Leads(nodes, at, g, j, x) && Leads(nodes, at, d, k, i);
      if x != 0 { DirRemovedNames(nodes, d, k, i, g, j, x); }
      if x in nodes { assert NodeOk(x, nodes[x]); }
    }
  }

  lemma DirRemovedCounts(nodes: Nodes, at: map<nat, nat>, d: nat, k: nat, i: nat)
    requires Inv(nodes, at) && Removable(nodes, d, k, i)
    ensures CountsOk(DirRemoved(nodes, d, k, i))
  {
    var nodes' := DirRemoved(nodes, d, k, i);
    DotNames();
    assert NodeOk(i, nodes[i]) && NodeOk(d, nodes[d]);
    assert Names(nodes, i, 1, d);
    forall x
      ensures CountOk(nodes', x)
    {
      assert CountOk(nodes, x);
      if x in nodes' {
        assert NodeOk(x, nodes[x]);
        forall g, j | j >= 0
          ensures Names(nodes, g, j, x) <==>
                    Names(nodes', g, j, x) || (g == d && j == k && x == i) || (g == i && j == 1 && x == d)
        {
          DirRemovedNames(nodes, d, k, i, g, j, x);
        }
        DirRemovedNames(nodes, d, k, i, d, k, x);
        DirRemovedNames(nodes, d, k, i, i, 1, x);
        if x == i { OneMore(nodes', nodes, i, d, k); } else if x == d { OneMore(nodes', nodes, d, i, 1); }
            else { SameLinks(nodes, nodes', x); }
      }
    }
  }

  lemma UnlinkDirKeeps(nodes: Nodes, at: map<nat, nat>, d: nat, k: nat, i: nat)
    requires Inv(nodes, at) && k >= 2 && Names(nodes, d, k, i) && i in nodes && i != 0 && nodes[i].kind == Dir
    requires DirEmpty(nodes[i])
    ensures i != d && Inv(DirRemoved(nodes, d, k, i), at)
    ensures nodes[i].nlink == 1
  {
    EmptyDirOneLink(nodes, at, d, k, i);
    DotNames();
    assert NodeOk(i, nodes[i]) && NodeOk(d, nodes[d]) && Names(nodes, i, 1, d);
    ParentStays(nodes, at, d, k, i);
    DirRemovedNodes(nodes, d, k, i);
    DirRemovedTree(nodes, at, d, k, i);
    DirRemovedCounts(nodes, at, d, k, i);
  }

  // ---- iput ----

  /** Freeing an inode that nothing names. */
  lemma DropKeeps(nodes: Nodes, at: map<nat, nat>, i: nat)
    requires Inv(nodes, at) && i in nodes && nodes[i].nlink == 0
    ensures Inv(nodes - {i}, at)
  {
    var nodes' := nodes - {i};
    assert CountOk(nodes, i);
    forall x | x in nodes'
      ensures NodeOk(x, nodes'[x])
    {
      assert NodeOk(x, nodes[x]);
    }
    forall g, j, x
      ensures Names(nodes', g, j, x) <==> Names(nodes, g, j, x)
    {
    }
    DropTree(nodes, at, i);
    forall x
      ensures CountOk(nodes', x)
    {
      assert CountOk(nodes, x);
      SameLinks(nodes, nodes', x);
    }
  }

  lemma Unnamed(nodes: Nodes, i: nat, g: nat, j: nat)
    requires |LinksTo(nodes, i)| == 0
    ensures !Names(nodes, g, j, i)
  {
    assert LinksTo(nodes, i) == {};
    assert Names(nodes, g, j, i) ==> (g, j) in LinksTo(nodes, i);
  }

  lemma DropTree(nodes: Nodes, at: map<nat, nat>, i: nat)
    requires NodesOk(nodes) && TreeOk(nodes, at) && i in nodes && nodes[i].nlink == 0 && |LinksTo(nodes, i)| == 0
    ensures TreeOk(nodes - {i}, at)
  {
    var nodes' := nodes - {i};
    forall x
      ensures Hangs(nodes', at, x)
    {
      assert Hangs(nodes, at, x);
      if Linked(nodes, x) && x != ROOTINO {
        assert Names(nodes, Parent(nodes, x), at[x], x);
        assert Names(nodes', Parent(nodes, x), at[x], x);
      }
    }
    forall g, j, x | j >= 0
      ensures Leads(nodes', at, g, j, x)
    {
      assert Leads(nodes, at, g, j, x);
      Unnamed(nodes, i, g, j);
      assert Names(nodes', g, j, x) ==> Names(nodes, g, j, x);
    }
  }

  // ---- where the counts go wrong ----

  /** create adds an entry to a directory that has itself been unlinked: nothing linked names
      the new inode, whose nlink is 1. */
  lemma CreateKeepsIff(nodes: Nodes, at: map<nat, nat>, d: nat, k: nat, i: nat, name: Name, kind: Kind)
    requires Inv(nodes, at) && Room(nodes, d, k, name) && i !in nodes && i != 0 && kind != Dir
    ensures CountsOk(FileAdded(nodes, d, k, i, name, kind)) <==> nodes[d].nlink > 0
  {
    assert NodeOk(d, nodes[d]);
    PutShape(d, nodes[d].entries, k, Entry(i, name));
    if nodes[d].nlink > 0 {
      CreateFileKeeps(nodes, at, d, k, i, name, kind);
    } else {
      var nodes' := FileAdded(nodes, d, k, i, name, kind);
      NoneNamed(nodes, at, i);
      forall g, j | j >= 0
        ensures Names(nodes', g, j, i) <==> Names(nodes, g, j, i)
      {
        FileNames(nodes, d, k, i, name, kind, g, j, i);
      }
      SameLinks(nodes, nodes', i);
      assert !CountOk(nodes', i);
    }
  }

  /** mkdir under an unlinked directory makes that directory look linked again, though
      nothing leads to it. */
  lemma MkdirRevives(nodes: Nodes, at: map<nat, nat>, d: nat, k: nat, i: nat, name: Name, at': map<nat, nat>)
    requires Inv(nodes, at) && Room(nodes, d, k, name) && i !in nodes && i != 0 && nodes[d].nlink <= 0
    ensures !Hangs(DirAdded(nodes, d, k, i, name), at', d)
  {
    var nodes' := DirAdded(nodes, d, k, i, name);
    assert NodeOk(d, nodes[d]) && CountOk(nodes, d);
    PutShape(d, nodes[d].entries, k, Entry(i, name));
    var up := Parent(nodes, d);
    forall j | j >= 2
      ensures !Names(nodes', up, j, d)
    {
      Unnamed(nodes, d, up, j);
    }
  }

  /** mkdir needs a linked parent too, and one whose count stays in 16 bits. */
  lemma MkdirKeepsIff(nodes: Nodes, at: map<nat, nat>, d: nat, k: nat, i: nat, name: Name)
    requires Inv(nodes, at) && Room(nodes, d, k, name) && i !in nodes && i != 0 && nodes[d].nlink <= MAXLINK
    ensures (exists at' :: Inv(DirAdded(nodes, d, k, i, name), at')) <==> 0 < nodes[d].nlink < 32767
  {
    var nodes' := DirAdded(nodes, d, k, i, name);
    if 0 < nodes[d].nlink < MAXLINK {
      CreateDirKeeps(nodes, at, d, k, i, name);
      assert Inv(nodes', at[i := k]);
    } else {
      forall at'
        ensures !Inv(nodes', at')
      {
        if nodes[d].nlink <= 0 {
          MkdirRevives(nodes, at, d, k, i, name, at');
        } else {
          assert !CountOk(nodes', d);
        }
      }
    }
  }

  /** sys_link: a linked parent, and a count that can still grow. */
  lemma LinkKeepsIff(nodes: Nodes, at: map<nat, nat>, d: nat, k: nat, i: nat, name: Name)
    requires Inv(nodes, at) && Room(nodes, d, k, name) && i in nodes && nodes[i].kind != Dir
    requires nodes[i].nlink <= MAXLINK
    ensures CountsOk(LinkAdded(nodes, d, k, i, name)) <==> nodes[d].nlink > 0 && nodes[i].nlink < 32767
  {
    assert NodeOk(d, nodes[d]) && NodeOk(i, nodes[i]) && CountOk(nodes, i);
    PutShape(d, nodes[d].entries, k, Entry(i, name));
    var nodes' := LinkAdded(nodes, d, k, i, name);
    if nodes[d].nlink > 0 && nodes[i].nlink < MAXLINK {
      LinkKeeps(nodes, at, d, k, i, name);
    } else if nodes[i].nlink < MAXLINK {
      forall g, j | j >= 0
        ensures Names(nodes', g, j, i) <==> Names(nodes, g, j, i)
      {
        LinkNames(nodes, d, k, i, name, g, j, i);
      }
      SameLinks(nodes, nodes', i);
      assert !CountOk(nodes', i);
    } else {
      assert !CountOk(nodes', i);
    }
  }
}
