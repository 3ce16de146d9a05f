/** The calls that make and break links (kernel/sysfile.c, kernel/fs.c), on the inodes of one
    file system. Each call runs as one transaction. */
module LinkCalls {
  import opened Prelude
  import opened Links

  /** Slot k is in use and has this name. */
  predicate Holds(es: seq<Entry>, k: nat, name: Name) {
    k < |es| && es[k].inum != 0 && es[k].name == name
  }

  /** The entry with this name leads to inode i. */
  ghost predicate EntryFor(es: seq<Entry>, name: Name, i: nat) {
    exists k: nat :: Holds(es, k, name) && es[k].inum == i
  }

  predicate NoFreeSlot(es: seq<Entry>) {
    forall k :: 0 <= k < |es| ==> es[k].inum != 0
  }

  ghost predicate CanonNames(es: seq<Entry>) {
    forall k {:trigger es[k].name} ::
      0 <= k < |es| ==> es[k].inum == 0 || (|es[k].name| == DIRSIZ && Canon(es[k].name) == es[k].name)
  }

  /** A name other than the two dots sits in a slot of its own. */
  lemma PlainSlot(nodes: Nodes, at: map<nat, nat>, d: nat, k: nat, name: Name)
    requires Inv(nodes, at) && d in nodes && nodes[d].kind == Dir && Holds(nodes[d].entries, k, name) && name != DOT
    requires name != DOTDOT
    ensures k >= 2 && Names(nodes, d, k, nodes[d].entries[k].inum) && nodes[d].entries[k].inum in nodes
    ensures nodes[nodes[d].entries[k].inum].nlink >= 1
  {
    var i := nodes[d].entries[k].inum;
    assert NodeOk(d, nodes[d]) && Leads(nodes, at, d, k, i) && CountOk(nodes, i);
    assert k >= 2;
    HasLink(nodes, d, k, i);
  }

  /** How create can have changed the inodes. */
  ghost predicate Created(nodes: Nodes, nodes': Nodes, d: nat, k: nat, i: nat, name: Name, kind: Kind) {
    && Room(nodes, d, k, name) && i !in nodes && i != 0
    && nodes' == if kind == Dir then DirAdded(nodes, d, k, i, name) else FileAdded(nodes, d, k, i, name, kind)
  }

  /** An entry with this name leads to an inode that has been freed: locking it panics. */
  ghost predicate Dangling(nodes: Nodes, d: nat, name: Name)
    requires d in nodes
  {
    exists k: nat :: Holds(nodes[d].entries, k, name) && nodes[d].entries[k].inum !in nodes
  }

  /** The one such entry is the ".." of an unlinked directory whose parent is gone. */
  lemma DanglingIff(nodes: Nodes, at: map<nat, nat>, d: nat, name: Name)
    requires Inv(nodes, at) && d in nodes && nodes[d].kind == Dir
    ensures |nodes[d].entries| >= 2
    ensures Dangling(nodes, d, name) <==> name == DOTDOT && nodes[d].nlink <= 0 && Parent(nodes, d) !in nodes
  {
    var es := nodes[d].entries;
    assert NodeOk(d, nodes[d]);
    forall k: nat | Holds(es, k, name) && es[k].inum !in nodes
      ensures k == 1 && nodes[d].nlink <= 0
    {
      assert Leads(nodes, at, d, k, es[k].inum);
      if k > 0 { assert Apart(es[0], es[k]); }
    }
    if name == DOTDOT && Parent(nodes, d) !in nodes { assert Holds(es, 1, name); }
  }

  /** The name leads to something that is not a directory. */
  ghost predicate LeadsToFile(nodes: Nodes, d: nat, name: Name)
    requires d in nodes
  {
    exists k: nat :: FileAt(nodes, nodes[d].entries, k, name)
  }

  ghost predicate FileAt(nodes: Nodes, es: seq<Entry>, k: nat, name: Name) {
    Holds(es, k, name) && es[k].inum in nodes && nodes[es[k].inum].kind != Dir
  }

  /** A name is in one slot at most. */
  lemma OneSlot(nodes: Nodes, at: map<nat, nat>, d: nat, k: nat, name: Name)
    requires Inv(nodes, at) && d in nodes && nodes[d].kind == Dir && Holds(nodes[d].entries, k, name)
    ensures Dangling(nodes, d, name) <==> nodes[d].entries[k].inum !in nodes
    ensures LeadsToFile(nodes, d, name) <==> FileAt(nodes, nodes[d].entries, k, name)
    ensures !Absent(nodes[d].entries, name)
  {
    var es := nodes[d].entries;
    assert NodeOk(d, nodes[d]);
    forall j: nat | Holds(es, j, name)
      ensures j == k
    {
      assert j < k ==> Apart(es[j], es[k]);
      assert k < j ==> Apart(es[k], es[j]);
    }
    assert es[k].inum != 0;
  }

  lemma NoSlot(nodes: Nodes, d: nat, name: Name)
    requires d in nodes && Absent(nodes[d].entries, name)
    ensures !Dangling(nodes, d, name) && !LeadsToFile(nodes, d, name)
  {
  }

  /** What create comes back with: a new inode, the file that has the name, nothing, or the
      panic of locking an inode that has been freed. */
  datatype Outcome = Made(inum: nat) | Had(inum: nat) | Failed | Panics

  /** Slot k holds the name and leads to a directory that is not empty. */
  ghost predicate BusyAt(nodes: Nodes, es: seq<Entry>, k: nat, name: Name) {
    Holds(es, k, name) && es[k].inum in nodes && nodes[es[k].inum].kind == Dir && !DirEmpty(nodes[es[k].inum])
  }

  /** Why unlink refuses. */
  ghost predicate Refused(nodes: Nodes, d: nat, name: Name)
    requires d in nodes
  {
    name == DOT || name == DOTDOT || Absent(nodes[d].entries, name) || exists k: nat ::
        BusyAt(nodes, nodes[d].entries, k, name)
  }

  lemma NotRefused(nodes: Nodes, at: map<nat, nat>, d: nat, k: nat, name: Name)
    requires Inv(nodes, at) && d in nodes && nodes[d].kind == Dir && Holds(nodes[d].entries, k, name) && name != DOT
    requires name != DOTDOT
    requires !BusyAt(nodes, nodes[d].entries, k, name)
    ensures !Refused(nodes, d, name)
  {
    var es := nodes[d].entries;
    assert NodeOk(d, nodes[d]);
    forall j: nat
      ensures !BusyAt(nodes, es, j, name)
    {
      assert j < k && j < |es| ==> Apart(es[j], es[k]);
      assert k < j && j < |es| ==> Apart(es[k], es[j]);
    }
  }

  function Without(nodes: Nodes, d: nat, k: nat, i: nat): Nodes
    requires d in nodes && k < |nodes[d].entries| && i in nodes && i != d
  {
    if nodes[i].kind == Dir then DirRemoved(nodes, d, k, i) else FileRemoved(nodes, d, k, i)
  }

  /** The entry is gone, the count is down, and so is the inode when that was its last link
      and its last reference. */
  ghost predicate Removal(nodes: Nodes, nodes': Nodes, d: nat, k: nat, last: bool) {
    && d in nodes && k < |nodes[d].entries| && nodes[d].entries[k].inum in nodes && nodes[d].entries[k].inum != d
    && var i := nodes[d].entries[k].inum;
       nodes' == if last && nodes[i].nlink == 1 then Without(nodes, d, k, i) - {i} else Without(nodes, d, k, i)
  }

  /** Why create can fail on a new name: no inode, or no room for an entry. */
  ghost predicate NoneLeft(nodes: Nodes, d: nat, kind: Kind, ninodes: nat, roomInside: bool, room: bool) {
    || (forall i :: 1 <= i < ninodes ==> i in nodes)
    || (kind == Dir && !roomInside)
    || (!room && d in nodes && NoFreeSlot(nodes[d].entries))
  }

  class FileTree {
    var nodes: Nodes
    ghost var at: map<nat, nat>

    ghost predicate Valid()
      reads this
    {
      Inv(nodes, at)
    }

    /** A file system that holds a root directory and nothing else. */
    constructor ()
      ensures Valid() && nodes == map[ROOTINO := NewDir(ROOTINO, ROOTINO)]
    {
      nodes := map[ROOTINO := NewDir(ROOTINO, ROOTINO)];
      at := map[];
      new;
      DotNames();
      NewDirOk(ROOTINO, ROOTINO);
      OnlyLink(nodes, ROOTINO, 1, ROOTINO);
    }

    method Dirlookup(d: nat, name: Name) returns (r: Option<nat>)
      requires d in nodes && nodes[d].kind == Dir && CanonNames(nodes[d].entries) && |name| == DIRSIZ
      ensures r.Some? ==> Holds(nodes[d].entries, r.value, Canon(name))
      ensures r.None? ==> Absent(nodes[d].entries, Canon(name))
    {
      var es := nodes[d].entries;
      var off := 0;
      while off < |es|
        invariant 0 <= off <= |es| && Absent(es[..off], Canon(name))
      {
        if es[off].inum != 0 {
          assert |es[off].name| == DIRSIZ && Canon(es[off].name) == es[off].name;
          SameNameIff(name, es[off].name);
          if SameName(name, es[off].name) { return Some(off); }
        }
        off := off + 1;
      }
      assert es[..off] == es;
      r := None;
    }

    /** `room`: there is a block for one more entry. Nothing changes on failure. */
    method Dirlink(d: nat, name: Name, inum: nat, room: bool) returns (ok: bool, ghost k: nat)
      requires d in nodes && nodes[d].kind == Dir && CanonNames(nodes[d].entries) && |name| == DIRSIZ
      modifies this`nodes
      ensures !ok ==>
                nodes == old(nodes)
                && (!Absent(nodes[d].entries, Canon(name)) || (!room && NoFreeSlot(nodes[d].entries)))
      ensures ok ==>
                Absent(old(nodes)[d].entries, Canon(name)) && FreeSlot(old(nodes)[d].entries, k)
                && nodes == PutIn(old(nodes), d, k, Entry(inum, Canon(name)))
    {
      var r := Dirlookup(d, name);
      if r.Some? { return false, 0; }
      var es := nodes[d].entries;
      var off := 0;
      while off < |es|
        invariant 0 <= off <= |es| && forall j :: 0 <= j < off ==> es[j].inum != 0
      {
        if es[off].inum == 0 { break; }
        off := off + 1;
      }
      if off == |es| && !room { return false, 0; }
      nodes := PutIn(nodes, d, off, Entry(inum, Canon(name)));
      return true, off;
    }

    method Isdirempty(d: nat) returns (e: bool)
      requires d in nodes
      ensures e <==> DirEmpty(nodes[d])
    {
      var es := nodes[d].entries;
      var off := 2;
      while off < |es|
        invariant 2 <= off && forall k {:trigger es[k]} :: 2 <= k < off && k < |es| ==> es[k].inum == 0
      {
        if es[off].inum != 0 { return false; }
        off := off + 1;
      }
      e := true;
    }

    /** The first free inode, marked as taken. */
    method Ialloc(kind: Kind, ninodes: nat) returns (r: Option<nat>)
      modifies this`nodes
      ensures r.None? ==> nodes == old(nodes) && forall i :: 1 <= i < ninodes ==> i in nodes
      ensures r.Some? ==>
                1 <= r.value < ninodes && r.value !in old(nodes) && nodes == old(nodes)[r.value := Node(kind, 0, [])]
    {
      var inum := 1;
      while inum < ninodes
        invariant 1 <= inum && nodes == old(nodes) && forall i :: 1 <= i < inum ==> i in nodes
      {
        if inum !in nodes {
          nodes := nodes[inum := Node(kind, 0, [])];
          return Some(inum);
        }
        inum := inum + 1;
      }
      r := None;
    }

    /** iput: an inode without links goes when its last reference does. */
    method Iput(i: nat, last: bool)
      requires Valid() && i in nodes
      modifies this`nodes
      ensures Valid() && nodes == if last && old(nodes)[i].nlink == 0 then old(nodes) - {i} else old(nodes)
    {
      if last && nodes[i].nlink == 0 {
        DropKeeps(nodes, at, i);
        nodes := nodes - {i};
      }
    }

    /** The two entries of a new directory. */
    method MakeDots(i: nat, d: nat, room1: bool, room2: bool) returns (ok: bool)
      requires i in nodes && nodes[i] == Node(Dir, 1, []) && i != 0
      modifies this`nodes
      ensures i in nodes && nodes == old(nodes)[i := nodes[i]]
      ensures ok ==> nodes[i] == NewDir(i, d)
      ensures !ok ==> !room1 || !room2
    {
      DotNames();
      ghost var k: nat;
      ok, k := Dirlink(i, DOT, i, room1);
      if !ok { return; }
      assert nodes[i].entries == [Entry(i, DOT)] && Absent(nodes[i].entries, DOTDOT);
      ok, k := Dirlink(i, DOTDOT, d, room2);
    }

    /** create, once the name is known to be new. Failing, it leaves everything as it was. */
    method MakeNew(d: nat, name: Name, kind: Kind, ninodes: nat, room1: bool, room2: bool, room3: bool)
      returns (r: Option<nat>, ghost k: nat)
      requires d in nodes && nodes[d].kind == Dir && CanonNames(nodes[d].entries) && |name| == DIRSIZ
      requires Absent(nodes[d].entries, Canon(name))
      modifies this`nodes
      ensures r.None? ==> nodes == old(nodes) && NoneLeft(nodes, d, kind, ninodes, room1 && room2, room3)
      ensures r.Some? ==> Created(old(nodes), nodes, d, k, r.value, Canon(name), kind)
    {
      ghost var before := nodes;
      k := 0;
      var a := Ialloc(kind, ninodes);
      if a.None? { return None, k; }
      var i := a.value;
      nodes := nodes[i := nodes[i].(nlink := 1)];
      var ok := true;
      if kind == Dir { ok := MakeDots(i, d, room1, room2); }
      assert nodes == before[i := nodes[i]];
      if ok { ok, k := Dirlink(d, name, i, room3); }
      if !ok {
        nodes := nodes - {i};
        assert nodes == before;
        return None, k;
      }
      CanonTwice(name);
      if kind == Dir { nodes := nodes[d := nodes[d].(nlink := Inc16(nodes[d].nlink))]; }
      r := Some(i);
    }

    /** dp is what nameiparent found; k is the slot of the new entry, if one was made. */
    method Create(dp: Option<nat>, name: Name, kind: Kind, ninodes: nat, room1: bool, room2: bool, room3: bool)
      returns (r: Outcome, ghost k: nat)
      requires Valid() && |name| == DIRSIZ && (dp.Some? ==> dp.value in nodes && nodes[dp.value].kind == Dir)
      modifies this
      ensures !r.Made? ==> nodes == old(nodes) && Valid()
      ensures r.Panics? <==> dp.Some? && Dangling(old(nodes), dp.value, Canon(name))
      ensures r.Had? <==> dp.Some? && kind == File && LeadsToFile(old(nodes), dp.value, Canon(name))
      ensures r.Had? ==> EntryFor(nodes[dp.value].entries, Canon(name), r.inum)
      ensures r.Had? ==> r.inum in nodes && nodes[r.inum].kind != Dir
      ensures r.Made? ==> dp.Some? && Absent(old(nodes)[dp.value].entries, Canon(name))
      ensures r.Failed? && dp.Some? && Absent(nodes[dp.value].entries, Canon(name)) ==>
                NoneLeft(nodes, dp.value, kind, ninodes, room1 && room2, room3)
      ensures r.Made? ==> dp.Some? && Created(old(nodes), nodes, dp.value, k, r.inum, Canon(name), kind)
      ensures r.Made? && 0 < old(nodes)[dp.value].nlink && (kind == Dir ==> old(nodes)[dp.value].nlink < MAXLINK) ==>
                Valid()
    {
      k := 0;
      if dp.None? { return Failed, k; }
      var d := dp.value;
      assert NodeOk(d, nodes[d]);
      var e := Dirlookup(d, name);
      if e.Some? {
        var ip := nodes[d].entries[e.value].inum;
        OneSlot(nodes, at, d, e.value, Canon(name));
        if ip !in nodes { return Panics, k; }
        assert EntryFor(nodes[d].entries, Canon(name), ip);
        return if kind == File && nodes[ip].kind != Dir then Had(ip) else Failed, k;
      }
      NoSlot(nodes, d, Canon(name));
      var i;
      i, k := MakeNew(d, name, kind, ninodes, room1, room2, room3);
      if i.None? { return Failed, k; }
      ghost var was := old(nodes);
      if kind != Dir && 0 < was[d].nlink {
        CreateFileKeeps(was, at, d, k, i.value, Canon(name), kind);
      } else if kind == Dir && 0 < was[d].nlink < MAXLINK {
        CreateDirKeeps(was, at, d, k, i.value, Canon(name));
        at := at[i.value := k];
      }
      r := Made(i.value);
    }

    /** sys_link: the count goes up first, and down again if no entry can be made. */
    method Link(ip: nat, dp: Option<nat>, name: Name, room: bool) returns (ok: bool, ghost k: nat)
      requires Valid() && ip in nodes && nodes[ip].nlink <= MAXLINK && |name| == DIRSIZ
      requires dp.Some? ==> dp.value in nodes && nodes[dp.value].kind == Dir
      modifies this`nodes
      ensures !ok ==> nodes == old(nodes)
      ensures !ok && dp.Some? && nodes[ip].kind != Dir ==>
                !Absent(nodes[dp.value].entries, Canon(name)) || (!room && NoFreeSlot(nodes[dp.value].entries))
      ensures ok ==>
                dp.Some? && old(nodes)[ip].kind != Dir && Room(old(nodes), dp.value, k, Canon(name))
                && nodes == LinkAdded(old(nodes), dp.value, k, ip, Canon(name))
      ensures Valid() <==> (ok ==> old(nodes)[dp.value].nlink > 0 && old(nodes)[ip].nlink < MAXLINK)
    {
      ghost var was := nodes;
      assert CountOk(was, ip) && was[ip].nlink >= 0;
      k := 0;
      if nodes[ip].kind == Dir { return false, k; }
      nodes := nodes[ip := nodes[ip].(nlink := Inc16(nodes[ip].nlink))];
      ok := false;
      if dp.Some? {
        assert NodeOk(dp.value, was[dp.value]);
        ok, k := Dirlink(dp.value, name, ip, room);
      }
      if !ok {
        nodes := nodes[ip := nodes[ip].(nlink := Dec16(nodes[ip].nlink))];
        assert nodes[ip] == was[ip] && nodes == was;
      } else {
        CanonTwice(name);
        LinkKeepsIff(was, at, dp.value, k, ip, Canon(name));
        if was[dp.value].nlink > 0 && was[ip].nlink < MAXLINK { LinkKeeps(was, at, dp.value, k, ip, Canon(name)); }
      }
    }

    /** sys_unlink: nlink is at least 1 where the kernel checks for that, and a directory that
        goes has exactly one link. */
    method Unlink(dp: Option<nat>, name: Name, last: bool) returns (ok: bool, ghost k: nat)
      requires Valid() && |name| == DIRSIZ && (dp.Some? ==> dp.value in nodes && nodes[dp.value].kind == Dir)
      modifies this`nodes
      ensures Valid()
      ensures !ok ==> nodes == old(nodes) && (dp.Some? ==> Refused(nodes, dp.value, Canon(name)))
      ensures ok ==> dp.Some? && old(Removes(dp.value, k, Canon(name))) && !Refused(old(nodes), dp.value, Canon(name))
      ensures ok ==> Removal(old(nodes), nodes, dp.value, k, last)
    {
      k := 0;
      if dp.None? { return false, k; }
      var d := dp.value;
      DotNames();
      SameNameIff(name, DOT);
      SameNameIff(name, DOTDOT);
      if SameName(name, DOT) || SameName(name, DOTDOT) { return false, k; }
      assert NodeOk(d, nodes[d]);
      var e := Dirlookup(d, name);
      if e.None? { return false, k; }
      k := e.value;
      var i := nodes[d].entries[e.value].inum;
      PlainSlot(nodes, at, d, k, Canon(name));
      assert nodes[i].nlink >= 1;
      if nodes[i].kind == Dir {
        var empty := Isdirempty(i);
        assert empty || BusyAt(nodes, nodes[d].entries, k, Canon(name));
        if !empty { return false, k; }
      }
      NotRefused(nodes, at, d, k, Canon(name));
      RemoveEntry(d, e.value, i);
      Iput(i, last);
      ok := true;
    }

    ghost predicate Removes(d: nat, k: nat, name: Name)
      reads this
    {
      && Linked(nodes, d) && k >= 2 && Holds(nodes[d].entries, k, name) && nodes[d].entries[k].inum in nodes
      && (nodes[nodes[d].entries[k].inum].kind == Dir ==> DirEmpty(nodes[nodes[d].entries[k].inum]))
    }

    method RemoveEntry(d: nat, k: nat, i: nat)
      requires Valid() && k >= 2 && Names(nodes, d, k, i) && i in nodes && i != 0
      requires (nodes[i].kind == Dir ==> DirEmpty(nodes[i]))
      modifies this`nodes
      ensures Valid() && i != d && nodes == Without(old(nodes), d, k, i)
    {
      if nodes[i].kind == Dir { UnlinkDirKeeps(nodes, at, d, k, i); } else { UnlinkFileKeeps(nodes, at, d, k, i); }
      ghost var was := nodes;
      var dir := nodes[i].kind == Dir;
      nodes := nodes[d := Cleared(nodes[d], k)];
      if dir { nodes := nodes[d := nodes[d].(nlink := nodes[d].nlink - 1)]; }
      nodes := nodes[i := nodes[i].(nlink := nodes[i].nlink - 1)];
      assert nodes == Without(was, d, k, i);
    }
  }
}
