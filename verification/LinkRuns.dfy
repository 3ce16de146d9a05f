/** Two runs of system calls on a fresh file system that leave link counts and entries in a
    state one might not expect: somebody's working directory is removed. */
module LinkRuns {
  import opened Prelude
  import opened Links
  import opened LinkCalls

  /** A name, and enough inodes. */
  const A: Name := [0x61] + Zeros(13)
  const NINODES: nat := 200

  lemma PlainName()
    ensures |A| == DIRSIZ && Canon(A) == A && A != DOT && A != DOTDOT
  {
    assert A[0] == 0x61 && A[1..] == Zeros(13) && Canon(A[1..]) == Zeros(13);
    assert DOT[0] == 0x2e && DOTDOT[0] == 0x2e;
  }

  /** A directory in which nothing was made yet. */
  ghost predicate Bare(nodes: Nodes, d: nat) {
    d in nodes && nodes[d].kind == Dir && DirEmpty(nodes[d])
  }

  lemma BareRoom(nodes: Nodes, at: map<nat, nat>, d: nat)
    requires Inv(nodes, at) && Bare(nodes, d)
    ensures Absent(nodes[d].entries, A)
  {
    PlainName();
    assert NodeOk(d, nodes[d]);
  }

  /** mkdir: the first entry of the directory d. */
  method Mkdir(t: FileTree, d: nat) returns (i: nat, ghost k: nat)
    requires t.Valid() && Bare(t.nodes, d) && 0 < t.nodes[d].nlink < MAXLINK
    requires exists j :: 1 <= j < NINODES && j !in t.nodes
    modifies t
    ensures t.Valid() && Created(old(t.nodes), t.nodes, d, k, i, A, Dir)
  {
    PlainName();
    BareRoom(t.nodes, t.at, d);
    NoSlot(t.nodes, d, A);
    var r;
    r, k := t.Create(Some(d), A, Dir, NINODES, true, true, true);
    i := r.inum;
  }

  /** The directory i can be removed from d. */
  ghost predicate Removable(nodes: Nodes, d: nat, k: nat, i: nat) {
    && Linked(nodes, d) && k >= 2 && Holds(nodes[d].entries, k, A) && nodes[d].entries[k].inum == i && i != d
    && Bare(nodes, i)
  }

  lemma NotInTheWay(nodes: Nodes, at: map<nat, nat>, d: nat, k: nat, i: nat)
    requires Inv(nodes, at) && Removable(nodes, d, k, i)
    ensures !Refused(nodes, d, A) && nodes[i].nlink == 1 && forall j: nat :: Holds(nodes[d].entries, j, A) ==> j == k
  {
    PlainName();
    assert NodeOk(d, nodes[d]);
    NotRefused(nodes, at, d, k, A);
    EmptyDirOneLink(nodes, at, d, k, i);
    forall j: nat | Holds(nodes[d].entries, j, A)
      ensures j == k
    {
      assert j < k ==> Apart(nodes[d].entries[j], nodes[d].entries[k]);
      assert k < j ==> Apart(nodes[d].entries[k], nodes[d].entries[j]);
    }
  }

  /** unlink of that directory. */
  method Rmdir(t: FileTree, d: nat, i: nat, last: bool, ghost k: nat)
    requires t.Valid() && Removable(t.nodes, d, k, i)
    modifies t
    ensures t.Valid()
    ensures t.nodes == if last then DirRemoved(old(t.nodes), d, k, i) - {i} else DirRemoved(old(t.nodes), d, k, i)
  {
    PlainName();
    NotInTheWay(t.nodes, t.at, d, k, i);
    ghost var j;
    var ok;
    ok, j := t.Unlink(Some(d), A, last);
  }

  /** Somebody's working directory is removed: mkdir, chdir, rmdir. */
  method RemovedCwd() returns (t: FileTree, cwd: nat)
    ensures fresh(t) && t.Valid() && Bare(t.nodes, cwd) && t.nodes[cwd].nlink == 0 && t.nodes.Keys == {ROOTINO, cwd}
  {
    t := new FileTree();
    ghost var k;
    cwd, k := FirstDir(t);
    Rmdir(t, ROOTINO, cwd, false, k);
  }

  method FirstDir(t: FileTree) returns (i: nat, ghost k: nat)
    requires t.Valid() && t.nodes == map[ROOTINO := NewDir(ROOTINO, ROOTINO)]
    modifies t
    ensures t.Valid() && t.nodes.Keys == {ROOTINO, i} && i != ROOTINO && Removable(t.nodes, ROOTINO, k, i)
    ensures t.nodes[i] == NewDir(i, ROOTINO)
  {
    assert 2 !in t.nodes;
    i, k := Mkdir(t, ROOTINO);
  }

  /** A file created there has nlink 1, and no linked directory names it. */
  method CreateInRemovedCwd() returns (t: FileTree)
    ensures !CountsOk(t.nodes)
  {
    var cwd;
    t, cwd := RemovedCwd();
    PlainName();
    BareRoom(t.nodes, t.at, cwd);
    NoSlot(t.nodes, cwd, A);
    ghost var nodes, at := t.nodes, t.at;
    FreeInode(nodes, ROOTINO, cwd);
    var r;
    ghost var k;
    r, k := t.Create(Some(cwd), A, File, NINODES, true, true, true);
    CreateKeepsIff(nodes, at, cwd, k, r.inum, A, File);
  }

  lemma FreeInode(nodes: Nodes, a: nat, b: nat)
    requires nodes.Keys == {a, b}
    ensures exists j :: 1 <= j < NINODES && j !in nodes
  {
    assert 1 !in nodes || 2 !in nodes || 3 !in nodes;
  }

  /** The directory above a removed working directory is removed as well, and its inode is
      freed: mkdir, mkdir, chdir, rmdir, rmdir.  The ".." of the working directory leads to
      an inode that is not there. */
  method OrphanCwd() returns (t: FileTree, cwd: nat)
    ensures t.Valid() && cwd in t.nodes && t.nodes[cwd].kind == Dir && Dangling(t.nodes, cwd, DOTDOT)
  {
    t := new FileTree();
    ghost var k, j;
    var d;
    d, k := FirstDir(t);
    FreeInode(t.nodes, ROOTINO, d);
    cwd, j := Mkdir(t, d);
    Rmdir(t, d, cwd, false, j);
    Rmdir(t, ROOTINO, d, true, k);
    assert Holds(t.nodes[cwd].entries, 1, DOTDOT);
  }
}
