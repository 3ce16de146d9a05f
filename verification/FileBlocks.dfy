/** Inodes, their block maps and the blocks of the disk (kernel/fs.h, kernel/fs.c): which
    slot of which inode holds a block, and what a file's bytes are. */
module FileBlocks {
  const BSIZE: nat := 1024
  const NDIRECT: nat := 12
  const NINDIRECT: nat := 256
  const MAXFILE: nat := NDIRECT + NINDIRECT
  const BPB: nat := 8192
  const IPB: nat := 16

  /** kind is 0 for a free inode. */
  datatype Inode = Inode(kind: nat, nlink: nat, size: nat, addrs: seq<nat>)

  /** A block of file bytes, or an indirect block of block numbers. */
  datatype Block = Data(bytes: seq<nat>) | Index(words: seq<nat>)

  function ZeroBlock(): Block { Data(seq(BSIZE, _ => 0)) }

  /** A zeroed block read as block numbers. */
  function ZeroIndex(): Block { Index(seq(NINDIRECT, _ => 0)) }

  type Disk = map<nat, Block>

  predicate IsData(blocks: Disk, b: nat) {
    b in blocks && blocks[b].Data? && |blocks[b].bytes| == BSIZE
  }

  predicate IsIndex(blocks: Disk, b: nat) {
    b in blocks && blocks[b].Index? && |blocks[b].words| == NINDIRECT
  }

  /** The places that can hold a block number. */
  datatype Slot = Direct(n: nat, i: nat) | IndPtr(n: nat) | Ind(n: nat, j: nat)

  function Word(blocks: Disk, b: nat, j: nat): nat {
    if IsIndex(blocks, b) && j < NINDIRECT then blocks[b].words[j] else 0
  }

  predicate InodeOk(ip: Inode) {
    |ip.addrs| == NDIRECT + 1
  }

  ghost predicate Table(ino: seq<Inode>) {
    forall n :: 0 <= n < |ino| ==> InodeOk(ino[n])
  }

  /** The block number in a slot; 0 means none. */
  function At(ino: seq<Inode>, blocks: Disk, s: Slot): nat
    requires Table(ino)
  {
    if s.n >= |ino| then 0 else
    match s
    case Direct(n, i) => if i < NDIRECT then ino[n].addrs[i] else 0
    case IndPtr(n) => ino[n].addrs[NDIRECT]
    case Ind(n, j) => if ino[n].addrs[NDIRECT] == 0 then 0 else Word(blocks, ino[n].addrs[NDIRECT], j)
  }

  /** Where the number of file block bn is kept. */
  function SlotOf(n: nat, bn: nat): Slot {
    if bn < NDIRECT then Direct(n, bn) else Ind(n, bn - NDIRECT)
  }

  function FileBlock(ino: seq<Inode>, blocks: Disk, n: nat, bn: nat): nat
    requires Table(ino)
  {
    At(ino, blocks, SlotOf(n, bn))
  }

  /** Byte o of block bn of file n; a block that is not there reads as zeros. */
  function FileByte(ino: seq<Inode>, blocks: Disk, n: nat, bn: nat, o: nat): nat
    requires Table(ino)
  {
    var b := FileBlock(ino, blocks, n, bn);
    if b != 0 && IsData(blocks, b) && o < BSIZE then blocks[b].bytes[o] else 0
  }

  // ---- ownership ----

  datatype Layout = Layout(size: nat, start: nat) // start: first data block, after the metadata

  predicate BlockOk(lay: Layout, ino: seq<Inode>, blocks: Disk, owner: map<nat, Slot>, b: nat)
    requires Table(ino) && b in owner
  {
    && lay.start <= b < lay.size && At(ino, blocks, owner[b]) == b
    && (if owner[b].IndPtr? then IsIndex(blocks, b) else IsData(blocks, b))
  }

  predicate SlotOk(ino: seq<Inode>, blocks: Disk, owner: map<nat, Slot>, s: Slot)
    requires Table(ino)
  {
    var b := At(ino, blocks, s);
    b != 0 ==> b in owner && owner[b] == s
  }

  /** Every block that a slot holds belongs to that slot alone, except that the slots in
      `loose` still name a block that has just been freed. */
  ghost predicate Owners(lay: Layout, ino: seq<Inode>, blocks: Disk, owner: map<nat, Slot>, loose: set<Slot>) {
    && Table(ino)
    && (forall b {:trigger BlockOk(lay, ino, blocks, owner, b)} :: b in owner ==> BlockOk(lay, ino, blocks, owner, b))
    && (forall s {:trigger SlotOk(ino, blocks, owner, s)} :: s !in loose ==> SlotOk(ino, blocks, owner, s))
  }

  /** A bit is set for the metadata, for owned blocks and for a block being placed. */
  ghost predicate Bits(lay: Layout, bitmap: seq<bool>, owner: map<nat, Slot>, placing: set<nat>) {
    && |bitmap| == lay.size && 0 < lay.start <= lay.size
    && (forall b :: 0 <= b < lay.size ==> (bitmap[b] <==> b < lay.start || b in owner || b in placing))
    && (forall b :: b in placing ==> lay.start <= b < lay.size && b !in owner)
    && (forall b :: b in owner ==> lay.start <= b < lay.size)
  }

  /** The bit of a data block is set exactly when one slot, and only one, holds it. */
  lemma BitIffOneSlot(lay: Layout, ino: seq<Inode>, blocks: Disk, owner: map<nat, Slot>, bitmap: seq<bool>, b: nat)
    requires Owners(lay, ino, blocks, owner, {}) && Bits(lay, bitmap, owner, {}) && lay.start <= b < lay.size
    ensures bitmap[b] <==> exists s :: At(ino, blocks, s) == b
    ensures forall s, t :: At(ino, blocks, s) == b && At(ino, blocks, t) == b ==> s == t
  {
    if b in owner {
      assert BlockOk(lay, ino, blocks, owner, b);
      assert At(ino, blocks, owner[b]) == b;
    }
    forall s | At(ino, blocks, s) == b
      ensures b in owner && owner[b] == s
    {
      assert SlotOk(ino, blocks, owner, s);
    }
  }

  // ---- changes to inodes and blocks ----

  function SetAddr(ino: seq<Inode>, n: nat, i: nat, b: nat): (ino': seq<Inode>)
    requires Table(ino) && n < |ino| && i <= NDIRECT
    ensures Table(ino') && |ino'| == |ino|
  {
    ino[n := ino[n].(addrs := ino[n].addrs[i := b])]
  }

  function SetWord(blocks: Disk, p: nat, j: nat, b: nat): Disk
    requires IsIndex(blocks, p) && j < NINDIRECT
  {
    blocks[p := Index(blocks[p].words[j := b])]
  }

  lemma IndexOf(lay: Layout, ino: seq<Inode>, blocks: Disk, owner: map<nat, Slot>, n: nat)
    requires Owners(lay, ino, blocks, owner, {}) && n < |ino| && ino[n].addrs[NDIRECT] != 0
    ensures ino[n].addrs[NDIRECT] in owner && owner[ino[n].addrs[NDIRECT]] == IndPtr(n)
    ensures IsIndex(blocks, ino[n].addrs[NDIRECT])
  {
    assert SlotOk(ino, blocks, owner, IndPtr(n));
    assert BlockOk(lay, ino, blocks, owner, ino[n].addrs[NDIRECT]);
  }

  /** Only the slot s reads differently. */
  ghost predicate OneSlot(ino: seq<Inode>, blocks: Disk, ino': seq<Inode>, blocks': Disk, s: Slot, b: nat)
    requires Table(ino) && Table(ino')
  {
    forall t {:trigger At(ino', blocks', t)} :: At(ino', blocks', t) == if t == s then b else At(ino, blocks, t)
  }

  lemma PlaceDirect(ino: seq<Inode>, blocks: Disk, n: nat, i: nat, b: nat)
    requires Table(ino) && n < |ino| && i < NDIRECT
    ensures OneSlot(ino, blocks, SetAddr(ino, n, i, b), blocks, Direct(n, i), b)
  {
  }

  lemma PlaceIndex(ino: seq<Inode>, blocks: Disk, n: nat, b: nat)
    requires Table(ino) && n < |ino| && ino[n].addrs[NDIRECT] == 0 && b != 0
    requires forall m :: 0 <= m < |ino| ==> ino[m].addrs[NDIRECT] != b
    ensures OneSlot(ino, blocks, SetAddr(ino, n, NDIRECT, b), blocks[b := ZeroIndex()], IndPtr(n), b)
  {
  }

  lemma PlaceWord(ino: seq<Inode>, blocks: Disk, n: nat, j: nat, b: nat)
    requires Table(ino) && n < |ino| && j < NINDIRECT && IsIndex(blocks, ino[n].addrs[NDIRECT])
    requires ino[n].addrs[NDIRECT] != 0
    requires forall m :: 0 <= m < |ino| && m != n ==> ino[m].addrs[NDIRECT] != ino[n].addrs[NDIRECT]
    ensures OneSlot(ino, blocks, ino, SetWord(blocks, ino[n].addrs[NDIRECT], j, b), Ind(n, j), b)
  {
  }

  /** Taking a free block into an empty slot. */
  lemma Placed(lay: Layout, ino: seq<Inode>, blocks: Disk, owner: map<nat, Slot>, ino': seq<Inode>, blocks': Disk,
               s: Slot, b: nat)
    requires Owners(lay, ino, blocks, owner, {}) && Table(ino') && OneSlot(ino, blocks, ino', blocks', s, b)
    requires b !in owner && 0 < lay.start <= b < lay.size && At(ino, blocks, s) == 0
    requires if s.IndPtr? then IsIndex(blocks', b) else IsData(blocks', b)
    requires forall c ::
               c in owner ==>
               c in blocks && c in blocks' && (blocks'[c] == blocks[c] || (IsIndex(blocks, c) && IsIndex(blocks', c)))
    ensures Owners(lay, ino', blocks', owner[b := s], {})
  {
    var owner' := owner[b := s];
    forall c | c in owner'
      ensures BlockOk(lay, ino', blocks', owner', c)
    {
      if c != b { assert BlockOk(lay, ino, blocks, owner, c); }
    }
    forall t
      ensures SlotOk(ino', blocks', owner', t)
    {
      assert SlotOk(ino, blocks, owner, t);
    }
  }

  lemma PlacedBits(lay: Layout, bitmap: seq<bool>, owner: map<nat, Slot>, b: nat, s: Slot)
    requires Bits(lay, bitmap, owner, {b})
    ensures Bits(lay, bitmap, owner[b := s], {})
  {
  }

  /** No other inode has the same indirect block. */
  lemma OwnIndex(lay: Layout, ino: seq<Inode>, blocks: Disk, owner: map<nat, Slot>, n: nat)
    requires Owners(lay, ino, blocks, owner, {}) && n < |ino| && ino[n].addrs[NDIRECT] != 0
    ensures forall m :: 0 <= m < |ino| && m != n ==> ino[m].addrs[NDIRECT] != ino[n].addrs[NDIRECT]
  {
    assert SlotOk(ino, blocks, owner, IndPtr(n));
    forall m | 0 <= m < |ino| && m != n
      ensures ino[m].addrs[NDIRECT] != ino[n].addrs[NDIRECT]
    {
      assert SlotOk(ino, blocks, owner, IndPtr(m));
    }
  }

  lemma NotAnIndex(lay: Layout, ino: seq<Inode>, blocks: Disk, owner: map<nat, Slot>, b: nat)
    requires Owners(lay, ino, blocks, owner, {}) && b != 0 && b !in owner
    ensures forall m :: 0 <= m < |ino| ==> ino[m].addrs[NDIRECT] != b
  {
    forall m | 0 <= m < |ino|
      ensures ino[m].addrs[NDIRECT] != b
    {
      assert SlotOk(ino, blocks, owner, IndPtr(m));
    }
  }

  lemma OwnedPresent(lay: Layout, ino: seq<Inode>, blocks: Disk, owner: map<nat, Slot>)
    requires Owners(lay, ino, blocks, owner, {})
    ensures forall c :: c in owner ==> c in blocks
  {
    forall c | c in owner
      ensures c in blocks
    {
      assert BlockOk(lay, ino, blocks, owner, c);
    }
  }

  /** A free block can be overwritten. */
  lemma FreeWrite(lay: Layout, ino: seq<Inode>, blocks: Disk, owner: map<nat, Slot>, b: nat, block: Block)
    requires Owners(lay, ino, blocks, owner, {}) && b != 0 && b !in owner
    ensures Owners(lay, ino, blocks[b := block], owner, {})
    ensures forall t {:trigger At(ino, blocks[b := block], t)} :: At(ino, blocks[b := block], t) == At(ino, blocks, t)
  {
    NotAnIndex(lay, ino, blocks, owner, b);
    var blocks' := blocks[b := block];
    forall t
      ensures At(ino, blocks', t) == At(ino, blocks, t)
    {
    }
    forall c | c in owner
      ensures BlockOk(lay, ino, blocks', owner, c)
    {
      assert BlockOk(lay, ino, blocks, owner, c);
    }
    forall t
      ensures SlotOk(ino, blocks', owner, t)
    {
      assert SlotOk(ino, blocks, owner, t);
    }
  }

  // ---- what bmap does ----

  /** File bytes owned before are kept where they are. */
  ghost predicate DataKept(blocks: Disk, owner: map<nat, Slot>, blocks': Disk, owner': map<nat, Slot>) {
    forall c {:trigger owner'[c]} {:trigger c in owner'} :: c in owner && !owner[c].IndPtr? ==>
      c in owner' && owner'[c] == owner[c] && c in blocks && c in blocks' && blocks'[c] == blocks[c]
  }

  /** Only addresses of inode n changed. */
  ghost predicate SameMeta(ino: seq<Inode>, ino': seq<Inode>, n: nat) {
    && |ino'| == |ino|
    && (forall m :: 0 <= m < |ino| && m != n ==> ino'[m] == ino[m])
    && (n < |ino| ==> ino'[n] == ino[n].(addrs := ino'[n].addrs))
  }

  ghost predicate SlotsKept(ino: seq<Inode>, blocks: Disk, ino': seq<Inode>, blocks': Disk, s: Slot)
    requires Table(ino) && Table(ino')
  {
    forall t: Slot {:trigger At(ino', blocks', t)} ::
      !t.IndPtr? && t != s ==> At(ino', blocks', t) == At(ino, blocks, t)
  }

  ghost predicate Mapped(ino: seq<Inode>, blocks: Disk, owner: map<nat, Slot>, ino': seq<Inode>, blocks': Disk,
                         owner': map<nat, Slot>, n: nat, bn: nat, b: nat)
    requires Table(ino) && Table(ino')
  {
    && SameMeta(ino, ino', n) && DataKept(blocks, owner, blocks', owner')
    && SlotsKept(ino, blocks, ino', blocks', SlotOf(n, bn))
    && FileBlock(ino', blocks', n, bn) == b
    && (FileBlock(ino, blocks, n, bn) != 0 ==> b == FileBlock(ino, blocks, n, bn) && blocks' == blocks)
    && (FileBlock(ino, blocks, n, bn) == 0 && b != 0 ==> b in blocks' && blocks'[b] == ZeroBlock())
  }

  /** Nothing a file can see changed; n may have got an empty indirect block. */
  ghost predicate Unseen(ino: seq<Inode>, blocks: Disk, owner: map<nat, Slot>, ino': seq<Inode>, blocks': Disk,
                         owner': map<nat, Slot>, n: nat)
    requires Table(ino) && Table(ino')
  {
    && SameMeta(ino, ino', n) && DataKept(blocks, owner, blocks', owner')
    && (forall t: Slot {:trigger At(ino', blocks', t)} :: !t.IndPtr? ==> At(ino', blocks', t) == At(ino, blocks, t))
  }

  lemma UnseenSame(ino: seq<Inode>, blocks: Disk, owner: map<nat, Slot>, n: nat)
    requires Table(ino) && (forall c :: c in owner ==> c in blocks)
    ensures Unseen(ino, blocks, owner, ino, blocks, owner, n)
  {
  }

  lemma UnseenFree(lay: Layout, ino: seq<Inode>, blocks: Disk, owner: map<nat, Slot>, n: nat, b: nat, block: Block)
    requires Owners(lay, ino, blocks, owner, {}) && b != 0 && b !in owner
    ensures Unseen(ino, blocks, owner, ino, blocks[b := block], owner, n)
  {
    FreeWrite(lay, ino, blocks, owner, b, block);
    OwnedPresent(lay, ino, blocks, owner);
  }

  lemma UnseenIndex(lay: Layout, ino: seq<Inode>, blocks: Disk, owner: map<nat, Slot>, n: nat, b: nat)
    requires Owners(lay, ino, blocks, owner, {}) && n < |ino| && ino[n].addrs[NDIRECT] == 0 && b != 0 && b !in owner
    ensures Unseen(ino, blocks, owner, SetAddr(ino, n, NDIRECT, b), blocks[b := ZeroIndex()], owner[b := IndPtr(n)], n)
  {
    NotAnIndex(lay, ino, blocks, owner, b);
    PlaceIndex(ino, blocks, n, b);
    OwnedPresent(lay, ino, blocks, owner);
  }

  lemma MappedSame(ino: seq<Inode>, blocks: Disk, owner: map<nat, Slot>, ino': seq<Inode>, blocks': Disk,
                   owner': map<nat, Slot>, n: nat, bn: nat)
    requires Table(ino) && Table(ino') && Unseen(ino, blocks, owner, ino', blocks', owner', n)
    requires FileBlock(ino, blocks, n, bn) != 0 ==> blocks' == blocks
    ensures Mapped(ino, blocks, owner, ino', blocks', owner', n, bn, FileBlock(ino, blocks, n, bn))
  {
  }

  lemma MappedNew(ino: seq<Inode>, blocks: Disk, owner: map<nat, Slot>, ino1: seq<Inode>, blocks1: Disk,
                  owner1: map<nat, Slot>, ino2: seq<Inode>, blocks2: Disk, n: nat, bn: nat, b: nat)
    requires Table(ino) && Table(ino1) && Table(ino2) && Unseen(ino, blocks, owner, ino1, blocks1, owner1, n)
    requires OneSlot(ino1, blocks1, ino2, blocks2, SlotOf(n, bn), b) && SameMeta(ino1, ino2, n) && b !in owner1
    requires b != 0
    requires FileBlock(ino, blocks, n, bn) == 0 && b in blocks2 && blocks2[b] == ZeroBlock()
    requires forall c :: c in owner1 && !owner1[c].IndPtr? ==> c in blocks1 && c in blocks2 && blocks2[c] == blocks1[c]
    ensures Mapped(ino, blocks, owner, ino2, blocks2, owner1[b := SlotOf(n, bn)], n, bn, b)
  {
    forall c | c in owner && !owner[c].IndPtr?
      ensures c in owner1 && owner1[c] == owner[c] && c != b && c in blocks && blocks2[c] == blocks[c]
    {
      assert c in owner1;
    }
  }

  /** A fresh block b, zeroed and entered at j, is what bmap returns. */
  lemma NewWord(lay: Layout, i0: seq<Inode>, b0: Disk, o0: map<nat, Slot>, ino: seq<Inode>, blocks: Disk,
                owner: map<nat, Slot>, n: nat, j: nat, b: nat)
    requires Owners(lay, ino, blocks, owner, {}) && Table(i0) && Unseen(i0, b0, o0, ino, blocks, owner, n) && b != 0
    requires b !in owner
    requires n < |ino| && j < NINDIRECT && ino[n].addrs[NDIRECT] != 0 && IsIndex(blocks, ino[n].addrs[NDIRECT])
    requires FileBlock(i0, b0, n, NDIRECT + j) == 0
    ensures var blocks1 := blocks[b := ZeroBlock()];
            IsIndex(blocks1, ino[n].addrs[NDIRECT]) && blocks1[ino[n].addrs[NDIRECT]].words[j] == 0
            && Mapped(i0, b0, o0, ino, SetWord(blocks1, ino[n].addrs[NDIRECT], j, b), owner[b := Ind(n, j)], n,
                 NDIRECT + j, b)
  {
    var p := ino[n].addrs[NDIRECT];
    var blocks1 := blocks[b := ZeroBlock()];
    IndexOf(lay, ino, blocks, owner, n);
    FreeWrite(lay, ino, blocks, owner, b, ZeroBlock());
    OwnIndex(lay, ino, blocks, owner, n);
    OwnedPresent(lay, ino, blocks, owner);
    PlaceWord(ino, blocks1, n, j, b);
    assert At(ino, blocks, Ind(n, j)) == FileBlock(i0, b0, n, NDIRECT + j);
    UnseenMore(i0, b0, o0, ino, blocks, owner, blocks1, n);
    MappedNew(i0, b0, o0, ino, blocks1, owner, ino, SetWord(blocks1, p, j, b), n, NDIRECT + j, b);
  }

  lemma UnseenMore(i0: seq<Inode>, b0: Disk, o0: map<nat, Slot>, ino: seq<Inode>, blocks: Disk, owner: map<nat, Slot>,
                   blocks1: Disk, n: nat)
    requires Table(i0) && Table(ino) && Unseen(i0, b0, o0, ino, blocks, owner, n)
    requires forall t {:trigger At(ino, blocks1, t)} :: At(ino, blocks1, t) == At(ino, blocks, t)
    requires forall c :: c in owner ==> c in blocks && c in blocks1 && blocks1[c] == blocks[c]
    ensures Unseen(i0, b0, o0, ino, blocks1, owner, n)
  {
  }
}
