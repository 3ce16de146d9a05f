/** Block allocation, block maps and file contents (kernel/fs.c). */
module FileSystem {
  import opened Prelude
  import opened FileBlocks
  import opened FileContents

  /** The blocks that log_write can be given. */
  datatype LogBlock = BitmapBlock(k: nat) | InodeBlock(k: nat) | Home(b: nat)

  /** log_write was called for the bitmap blocks `bits` and for some of the blocks `homes`. */
  ghost predicate Logs(lay: Layout, before: set<LogBlock>, now: set<LogBlock>, bits: set<LogBlock>, homes: set<nat>) {
    && before <= now
    && (forall l :: l in now && l !in before ==> l in bits || (l.Home? && l.b in homes))
    && (forall l :: l in bits ==> l.BitmapBlock? && l.k * BPB < lay.size)
  }

  function Min(a: nat, b: nat): nat {
    if a < b then a else b
  }

  /** What a write has given to log_write: bitmap blocks, data blocks, the number of
      chunks, and how many of them needed a new block; and how many bytes it has put into
      buffers and tried to put there, which differ from the bytes it counts once a copy
      has failed. */
  datatype Tally = Tally(bits: set<LogBlock>, homes: set<nat>, chunks: nat, added: nat, put: nat, reach: nat)

  ghost predicate Spent(lay: Layout, before: set<LogBlock>, now: set<LogBlock>, t: Tally, p0: nat, p: nat) {
    && Logs(lay, before, now, t.bits, t.homes + ({p} - {0}))
    && |t.homes| <= t.chunks
    && |t.bits| <= t.added + (if p0 != p then 1 else 0)
    && (p0 != 0 ==> p == p0)
  }

  ghost function OneChunk(t: Tally, bits: set<LogBlock>, b: nat, isNew: bool): Tally {
    t.(bits := t.bits + bits, homes := t.homes + {b}, chunks := t.chunks + 1,
       added := t.added + (if isNew then 1 else 0))
  }

  lemma SpentMore(lay: Layout, before: set<LogBlock>, mid: set<LogBlock>, now: set<LogBlock>, t: Tally,
                  bits: set<LogBlock>, p0: nat, p1: nat, p2: nat, b: nat, was: nat)
    requires Spent(lay, before, mid, t, p0, p1) && Logs(lay, mid, now, bits, {b, p2} - {0}) && (p1 != 0 ==> p2 == p1)
    requires |bits| <= (if was != b then 1 else 0) + (if p1 != p2 then 1 else 0)
    ensures b == 0 && was == 0 ==> Spent(lay, before, now, t.(bits := t.bits + bits), p0, p2)
    ensures b != 0 ==>
              Spent(lay, before, now + {Home(b)}, OneChunk(t, bits, b, was != b), p0, p2)
  {
    assert |t.bits + bits| <= |t.bits| + |bits|;
  }

  /** Every chunk starts a new block, and the block of the last one starts before the end. */
  predicate ChunkCount(off: nat, tot: nat, t: Tally) {
    if tot == 0 then t.chunks == 0 else 0 < t.chunks && (off / BSIZE + t.chunks - 1) * BSIZE < off + tot
  }

  /** Chunks other than the first find their block in use, and so does the first if its block
      was there. */
  ghost predicate AddedCount(i0: seq<Inode>, b0: Disk, n: nat, off: nat, t: Tally)
    requires Table(i0)
  {
    t.added + (if t.chunks > 0 && FileBlock(i0, b0, n, off / BSIZE) != 0 then 1 else 0) <= t.chunks
  }

  /** A write of data at off to file n has got to byte tot. */
  ghost predicate Writing(lay: Layout, i0: seq<Inode>, b0: Disk, before: set<LogBlock>, ino: seq<Inode>, blocks: Disk,
                          now: set<LogBlock>, n: nat, off: nat, data: seq<nat>, tot: nat, t: Tally)
  {
    && Table(i0) && Table(ino) && n < |ino| && SameMeta(i0, ino, n) && tot <= t.put <= t.reach <= |data|
    && Wrote(i0, b0, ino, blocks, n, off, data[..t.put])
    && Spent(lay, before, now, t, i0[n].addrs[NDIRECT], ino[n].addrs[NDIRECT])
    && ChunkCount(off, t.reach, t) && AddedCount(i0, b0, n, off, t)
  }

  const UINT: nat := 0x1_0000_0000

  /** What a finished write of tot bytes has done. */
  ghost predicate Filed(lay: Layout, i0: seq<Inode>, b0: Disk, before: set<LogBlock>, ino: seq<Inode>, blocks: Disk,
                        now: set<LogBlock>, n: nat, off: nat, data: seq<nat>, tot: nat, t: Tally)
  {
    && Table(i0) && Table(ino) && n < |ino| == |i0| && tot <= t.put <= t.reach <= |data|
    && (forall m :: 0 <= m < |ino| && m != n ==> ino[m] == i0[m])
    && ino[n] == i0[n].(addrs := ino[n].addrs, size := Max(i0[n].size, off + tot))
    && Wrote(i0, b0, ino, blocks, n, off, data[..t.put])
    && Spent(lay, before + {InodeBlock(n / IPB)}, now, t, i0[n].addrs[NDIRECT], ino[n].addrs[NDIRECT])
    && ChunkCount(off, t.reach, t) && AddedCount(i0, b0, n, off, t)
  }

  /** One more chunk of m bytes has been mapped, and t'.put - tot bytes of it stored. */
  lemma WritingMore(lay: Layout, i0: seq<Inode>, b0: Disk, before: set<LogBlock>, ino: seq<Inode>, blocks: Disk,
                    now: set<LogBlock>, n: nat, off: nat, data: seq<nat>, tot: nat, tot': nat, t: Tally, t': Tally)
    requires Table(i0) && Table(ino) && n < |ino| && SameMeta(i0, ino, n)
    requires tot <= tot' <= t'.put <= t'.reach <= |data| && Wrote(i0, b0, ino, blocks, n, off, data[..t'.put])
    requires Spent(lay, before, now, t', i0[n].addrs[NDIRECT], ino[n].addrs[NDIRECT])
    requires ChunkCount(off, tot, t) && ChunkCount(off, t'.reach, t') && AddedCount(i0, b0, n, off, t)
    requires t'.chunks == t.chunks + 1 && t.added <= t'.added <= t.added + 1
    requires FileBlock(i0, b0, n, (off + tot) / BSIZE) != 0 ==> t'.added == t.added
    ensures Writing(lay, i0, b0, before, ino, blocks, now, n, off, data, tot', t')
  {
    if tot == 0 { assert (off + tot) / BSIZE == off / BSIZE; }
  }

  /** Mapping a chunk failed: nothing more is written. */
  lemma WritingStill(lay: Layout, i0: seq<Inode>, b0: Disk, before: set<LogBlock>, ino: seq<Inode>, blocks: Disk,
                     now: set<LogBlock>, n: nat, off: nat, data: seq<nat>, tot: nat, t: Tally, t': Tally)
    requires Table(i0) && Table(ino) && n < |ino| && SameMeta(i0, ino, n) && tot <= |data|
    requires t.put == t.reach == t'.put == t'.reach == tot && Wrote(i0, b0, ino, blocks, n, off, data[..tot])
    requires Spent(lay, before, now, t', i0[n].addrs[NDIRECT], ino[n].addrs[NDIRECT])
    requires ChunkCount(off, tot, t) && AddedCount(i0, b0, n, off, t)
    requires t'.chunks == t.chunks && t'.added == t.added
    ensures Writing(lay, i0, b0, before, ino, blocks, now, n, off, data, tot, t')
  {
  }

  lemma FiledExtends(lay: Layout, i0: seq<Inode>, b0: Disk, before: set<LogBlock>, ino: seq<Inode>, blocks: Disk,
                     now: set<LogBlock>, n: nat, off: nat, data: seq<nat>, tot: nat, t: Tally)
    requires Filed(lay, i0, b0, before, ino, blocks, now, n, off, data, tot, t) && off <= i0[n].size
    ensures Extended(i0, b0, ino, blocks, n, off, data[..t.put], tot)
    ensures FilesWritten(i0, b0, ino, blocks, n, off, data[..t.put], tot)
  {
    ExtendedFiles(i0, b0, ino, blocks, n, off, data[..t.put], tot);
  }

  /** The size and the inode block at the end of writei. */
  lemma WriteDone(lay: Layout, i0: seq<Inode>, b0: Disk, before: set<LogBlock>, ino: seq<Inode>, blocks: Disk,
                  now: set<LogBlock>, n: nat, off: nat, data: seq<nat>, tot: nat, t: Tally)
    requires Writing(lay, i0, b0, before, ino, blocks, now, n, off, data, tot, t)
    ensures Filed(lay, i0, b0, before, ino[n := ino[n].(size := Max(ino[n].size, off + tot))], blocks,
              now + {InodeBlock(n / IPB)}, n, off, data, tot, t)
  {
    SizeWrote(i0, b0, ino, blocks, n, Max(ino[n].size, off + tot), off, data[..t.put]);
  }

  /** How much of a write of len bytes at off goes into the block of byte off + tot. */
  function ChunkLength(off: nat, len: nat, tot: nat): (m: nat)
    requires tot < len
    ensures 0 < m <= BSIZE - (off + tot) % BSIZE && tot + m <= len
  {
    Min(len - tot, BSIZE - (off + tot) % BSIZE)
  }

  /** How much of data filewrite gives to writei at byte i. */
  function Piece(data: seq<nat>, i: nat): nat
    requires i <= |data|
  {
    Min(|data| - i, CHUNK)
  }

  function Minus(a: nat, b: nat): nat {
    if a < b then 0 else a - b
  }

  /** The block of the chunk is counted, whether log_write was called for it or not. */
  lemma SpentLess(lay: Layout, before: set<LogBlock>, mid: set<LogBlock>, now: set<LogBlock>, b: nat, t: Tally,
                  t': Tally, p0: nat, p: nat)
    requires Spent(lay, before, mid + {Home(b)}, t, p0, p) && before <= mid && (now == mid || now == mid + {Home(b)})
    requires t' == t.(put := t'.put, reach := t'.reach)
    ensures Spent(lay, before, now, t', p0, p)
  {
  }

  lemma CountChunk(off: nat, tot: nat, m: nat, t: Tally, t': Tally)
    requires ChunkCount(off, tot, t) && (tot > 0 ==> (off + tot) % BSIZE == 0) && 0 < m <= BSIZE - (off + tot) % BSIZE
    requires t'.chunks == t.chunks + 1
    ensures ChunkCount(off, tot + m, t')
    ensures m == BSIZE - (off + tot) % BSIZE ==> (off + tot + m) % BSIZE == 0
  {
    assert (off + tot + m - 1) / BSIZE == (off + tot) / BSIZE;
  }

  // ---- the size of a transaction ----

  const MAXOPBLOCKS: nat := 10
  const CHUNK: nat := (MAXOPBLOCKS - 1 - 1 - 2) / 2 * BSIZE // the most filewrite gives to one writei

  lemma Bounded(t: Tally, off: nat, tot: nat, first: bool)
    requires ChunkCount(off, tot, t) && tot <= CHUNK && t.added + (if t.chunks > 0 && first then 1 else 0) <= t.chunks
    requires off % BSIZE != 0 ==> first
    ensures t.chunks <= 4 && t.added <= 3
  {
  }

  lemma {:induction false} HomeBlocks(homes: set<nat>) returns (s: set<LogBlock>)
    ensures |s| == |homes| && forall l :: l in s <==> l.Home? && l.b in homes
  {
    if homes == {} {
      s := {};
    } else {
      var b :| b in homes;
      var s' := HomeBlocks(homes - {b});
      s := s' + {Home(b)};
    }
  }

  lemma LogSize(lay: Layout, before: set<LogBlock>, now: set<LogBlock>, t: Tally, p: nat, i: LogBlock)
    requires Logs(lay, before + {i}, now, t.bits, t.homes + ({p} - {0}))
    ensures |now - before| <= |t.bits| + |t.homes| + 2
  {
    var homes := t.homes + ({p} - {0});
    var s := HomeBlocks(homes);
    SubsetSize({p} - {0}, {p});
    UnionSize(t.homes, {p} - {0});
    SubsetSize(now - before, t.bits + s + {i});
    UnionSize(t.bits + s, {i});
    UnionSize(t.bits, s);
  }

  /** One chunk of filewrite on a file without holes: at most MAXOPBLOCKS blocks, and at
      most seven when one bitmap block covers the disk. */
  lemma TransactionSize(lay: Layout, i0: seq<Inode>, b0: Disk, before: set<LogBlock>, ino: seq<Inode>, blocks: Disk,
                        now: set<LogBlock>, n: nat, off: nat, data: seq<nat>, tot: nat, t: Tally)
    requires Filed(lay, i0, b0, before, ino, blocks, now, n, off, data, tot, t) && |data| <= CHUNK
    requires off <= i0[n].size && Dense(i0, b0, n, i0[n].size)
    ensures |now - before| <= 10
    ensures lay.size <= BPB ==> |now - before| <= 7
  {
    if off % BSIZE != 0 {
      assert off / BSIZE * BSIZE < i0[n].size;
      assert FileBlock(i0, b0, n, off / BSIZE) != 0;
    }
    Bounded(t, off, t.reach, FileBlock(i0, b0, n, off / BSIZE) != 0);
    LogSize(lay, before, now, t, ino[n].addrs[NDIRECT], InodeBlock(n / IPB));
    if lay.size <= BPB {
      SubsetSize(t.bits, {BitmapBlock(0)});
    }
  }

  /** The first `put` bytes of data have been written, and w of them counted. */
  ghost predicate Progress(i0: seq<Inode>, b0: Disk, ino: seq<Inode>, blocks: Disk, n: nat, off: nat, data: seq<nat>,
                           put: nat, w: nat)
  {
    && w <= put <= |data|
    && ((put == 0 && ino == i0 && blocks == b0) || Extended(i0, b0, ino, blocks, n, off, data[..put], w))
  }

  lemma PieceSlices(data: seq<nat>, i: nat, n1: nat, put: nat)
    requires i + n1 <= |data| && put <= n1
    ensures data[..i + put] == data[..i] + data[i..i + n1][..put]
  {
  }

  lemma ExtendedMore(i0: seq<Inode>, b0: Disk, i1: seq<Inode>, b1: Disk, i2: seq<Inode>, b2: Disk, n: nat, off: nat,
                     data: seq<nat>, i: nat, put: nat, r: nat, n1: nat)
    requires i + n1 <= |data| && r <= put <= n1 && Extended(i1, b1, i2, b2, n, off + i, data[i..i + n1][..put], r)
    requires Progress(i0, b0, i1, b1, n, off, data, i, i)
    ensures Extended(i0, b0, i2, b2, n, off, data[..i + put], i + r)
  {
    PieceSlices(data, i, n1, put);
    if i == 0 && i1 == i0 && b1 == b0 { ExtendedNone(i0, b0, n, off, data[..i]); }
    ExtendedTwice(i0, b0, i1, b1, i2, b2, n, off, off + i, data[..i], data[i..i + n1][..put], data[..i + put], r,
        i + r);
  }

  /** The inode of file n has been written back to disk, unless nothing was tried. */
  ghost predicate WrittenBack(i0: seq<Inode>, d0: seq<Inode>, ino: seq<Inode>, disk: seq<Inode>, n: nat) {
    && n < |ino| == |i0| == |d0| == |disk|
    && (disk == d0[n := ino[n]] || (disk == d0 && ino == i0))
  }

  lemma WrittenBackAgain(i0: seq<Inode>, d0: seq<Inode>, i1: seq<Inode>, d1: seq<Inode>, i2: seq<Inode>,
                         d2: seq<Inode>, n: nat)
    requires WrittenBack(i0, d0, i1, d1, n) && WrittenBack(i1, d1, i2, d2, n)
    ensures WrittenBack(i0, d0, i2, d2, n)
  {
    if d2 == d1[n := i2[n]] { assert d2 == d0[n := i2[n]]; }
  }

  /** A copy that fails in the piece at byte i fails at byte `good` of the whole. */
  lemma PieceStops(off: nat, data: seq<nat>, good: nat, i: nat, r: nat, put: nat)
    requires i < |data| && r < Piece(data, i) && r <= Minus(good, i) == put
    requires Minus(good, i) < r + ChunkLength(off + i, Piece(data, i), r)
    ensures good < |data| && i + put == Max(i + r, good) < i + r + BSIZE
  {
  }

  lemma ProgressFiles(i0: seq<Inode>, b0: Disk, ino: seq<Inode>, blocks: Disk, n: nat, off: nat, data: seq<nat>,
                      put: nat, w: nat)
    requires Table(i0) && n < |i0| && Progress(i0, b0, ino, blocks, n, off, data, put, w)
    ensures off <= i0[n].size ==> FilesWritten(i0, b0, ino, blocks, n, off, data[..put], w)
    ensures off > i0[n].size ==> w == put == 0 && ino == i0 && blocks == b0
  {
    if off <= i0[n].size {
      if put == 0 && ino == i0 && blocks == b0 {
        assert data[..put] == [];
        NothingWritten(ino, blocks, n, off);
      } else {
        ExtendedFiles(i0, b0, ino, blocks, n, off, data[..put], w);
      }
    }
  }

  // ---- reading ----

  /** Blocks may have been added to file n, and no byte of any file has changed. */
  ghost predicate Unread(i0: seq<Inode>, b0: Disk, ino: seq<Inode>, blocks: Disk, n: nat) {
    Table(i0) && Table(ino) && n < |ino| && SameMeta(i0, ino, n) && Wrote(i0, b0, ino, blocks, n, 0, [])
  }

  /** Every file has its bytes, and no file has got a hole. */
  ghost predicate SameFiles(i0: seq<Inode>, b0: Disk, ino: seq<Inode>, blocks: Disk) {
    && Table(i0) && Table(ino) && |ino| == |i0|
    && (forall m {:trigger Contents(ino, blocks, m)} ::
         0 <= m < |ino| ==> Contents(ino, blocks, m) == Contents(i0, b0, m))
    && (forall m {:trigger Dense(ino, blocks, m, ino[m].size)} ::
         0 <= m < |ino| && Dense(i0, b0, m, i0[m].size) ==> Dense(ino, blocks, m, ino[m].size))
  }

  lemma UnreadFiles(i0: seq<Inode>, b0: Disk, ino: seq<Inode>, blocks: Disk, n: nat)
    requires Unread(i0, b0, ino, blocks, n)
    ensures SameFiles(i0, b0, ino, blocks)
  {
    ExtendedFiles(i0, b0, ino, blocks, n, 0, [], 0);
    assert Overwritten(Contents(i0, b0, n), 0, [])[..i0[n].size] == Contents(i0, b0, n);
  }

  /** The cnt bytes of c at off, as far as there are any. */
  function Wanted(c: seq<nat>, off: nat, cnt: nat): seq<nat> {
    if off > |c| || off + cnt >= UINT then [] else c[off..if off + cnt > |c| then |c| else off + cnt]
  }

  /** The blocks of the cnt bytes at off are all there. */
  ghost predicate Backed(ino: seq<Inode>, blocks: Disk, n: nat, off: nat, cnt: nat)
    requires Table(ino)
  {
    forall bn {:trigger FileBlock(ino, blocks, n, bn)} ::
      0 < cnt && off / BSIZE <= bn && bn * BSIZE < off + cnt ==> FileBlock(ino, blocks, n, bn) != 0
  }

  /** In a file without holes they always are. */
  lemma DenseBacked(ino: seq<Inode>, blocks: Disk, n: nat, off: nat, cnt: nat)
    requires Table(ino) && n < |ino| && Dense(ino, blocks, n, ino[n].size)
    ensures Backed(ino, blocks, n, off, |Wanted(Contents(ino, blocks, n), off, cnt)|)
  {
    var want := |Wanted(Contents(ino, blocks, n), off, cnt)|;
    forall bn | 0 < want && off / BSIZE <= bn && bn * BSIZE < off + want
      ensures FileBlock(ino, blocks, n, bn) != 0
    {
      assert bn * BSIZE < ino[n].size;
    }
  }

  /** The block of byte off + tot of a slice whose blocks are all there. */
  lemma InBacked(ino: seq<Inode>, blocks: Disk, n: nat, off: nat, want: nat, tot: nat)
    requires Table(ino) && tot < want
    ensures Backed(ino, blocks, n, off, want) ==> FileBlock(ino, blocks, n, (off + tot) / BSIZE) != 0
    ensures (off + tot) / BSIZE * BSIZE < off + want
  {
    assert off / BSIZE <= (off + tot) / BSIZE && (off + tot) / BSIZE * BSIZE <= off + tot;
  }

  /** res is what c holds at off. */
  ghost predicate IsSlice(c: seq<nat>, off: nat, res: seq<nat>) {
    off + |res| <= |c| && res == c[off..off + |res|]
  }

  lemma LongerSlice(c: seq<nat>, off: nat, res: seq<nat>, more: seq<nat>)
    requires IsSlice(c, off, res) && IsSlice(c, off + |res|, more)
    ensures IsSlice(c, off, res + more)
  {
  }

  /** What is in the block of the m bytes at a, when no byte of any file has changed. */
  lemma BlockBytes(i0: seq<Inode>, b0: Disk, ino: seq<Inode>, blocks: Disk, n: nat, a: nat, m: nat)
    requires Unread(i0, b0, ino, blocks, n) && a % BSIZE + m <= BSIZE && a + m <= i0[n].size
    requires FileBlock(ino, blocks, n, a / BSIZE) != 0 && IsData(blocks, FileBlock(ino, blocks, n, a / BSIZE))
    ensures var bytes := blocks[FileBlock(ino, blocks, n, a / BSIZE)].bytes;
            a % BSIZE + m <= |bytes| && bytes[a % BSIZE..a % BSIZE + m] == Contents(i0, b0, n)[a..a + m]
  {
    var bytes, c := blocks[FileBlock(ino, blocks, n, a / BSIZE)].bytes, Contents(i0, b0, n);
    var part, slice := bytes[a % BSIZE..a % BSIZE + m], c[a..a + m];
    forall i | 0 <= i < m
      ensures part[i] == slice[i]
    {
      BlockByte(i0, b0, ino, blocks, n, a, i);
      assert part[i] == bytes[a % BSIZE + i] && slice[i] == c[a + i];
    }
    assert part == slice;
  }

  lemma BlockByte(i0: seq<Inode>, b0: Disk, ino: seq<Inode>, blocks: Disk, n: nat, a: nat, i: nat)
    requires Unread(i0, b0, ino, blocks, n) && a % BSIZE + i < BSIZE && a + i < i0[n].size
    requires FileBlock(ino, blocks, n, a / BSIZE) != 0 && IsData(blocks, FileBlock(ino, blocks, n, a / BSIZE))
    ensures blocks[FileBlock(ino, blocks, n, a / BSIZE)].bytes[a % BSIZE + i] == Contents(i0, b0, n)[a + i]
  {
    InSameBlock(a, i);
    WroteByte(i0, b0, ino, blocks, n, 0, [], n, a + i);
    assert ByteAt(ino, blocks, n, a + i) == FileByte(ino, blocks, n, a / BSIZE, a % BSIZE + i);
  }

  lemma InSameBlock(a: nat, i: nat)
    requires a % BSIZE + i < BSIZE
    ensures (a + i) / BSIZE == a / BSIZE && (a + i) % BSIZE == a % BSIZE + i
  {
  }

  // ---- giving blocks back ----

  /** Ownership without the given slots. */
  ghost function Dropped(owner: map<nat, Slot>, slots: set<Slot>): map<nat, Slot> {
    map b | b in owner && owner[b] !in slots :: owner[b]
  }

  /** Emptying a slot that holds file bytes. */
  lemma DropSlot(lay: Layout, ino: seq<Inode>, blocks: Disk, owner: map<nat, Slot>, bitmap: seq<bool>, ino': seq<Inode>,
                 s: Slot)
    requires Owners(lay, ino, blocks, owner, {}) && Bits(lay, bitmap, owner, {}) && Table(ino') && s.Direct?
    requires s.n < |ino| && s.i < NDIRECT
    requires ino' == SetAddr(ino, s.n, s.i, 0)
    ensures var b := At(ino, blocks, s);
            if b == 0 then Dropped(owner, {s}) == owner
            else b < |bitmap| && bitmap[b] && Bits(lay, bitmap[b := false], Dropped(owner, {s}), {})
    ensures Owners(lay, ino', blocks, Dropped(owner, {s}), {})
  {
    PlaceDirect(ino, blocks, s.n, s.i, 0);
    var owner' := Dropped(owner, {s});
    assert SlotOk(ino, blocks, owner, s);
    forall c | c in owner
      ensures c == At(ino, blocks, owner[c]) && BlockOk(lay, ino, blocks, owner, c) && c != 0
    {
      assert BlockOk(lay, ino, blocks, owner, c);
    }
    forall c | c in owner'
      ensures BlockOk(lay, ino', blocks, owner', c)
    {
    }
    forall t
      ensures SlotOk(ino', blocks, owner', t)
    {
      assert SlotOk(ino, blocks, owner, t);
    }
  }

  /** Nothing was added, and only slots of n were dropped. */
  ghost predicate Shrunk(owner: map<nat, Slot>, owner': map<nat, Slot>, n: nat) {
    && (forall b :: b in owner' ==> b in owner && owner'[b] == owner[b])
    && (forall b :: b in owner && owner[b].n != n ==> b in owner')
  }

  ghost function Released(owner: map<nat, Slot>, n: nat): map<nat, Slot> {
    map b | b in owner && owner[b].n != n :: owner[b]
  }

  function IndSlots(n: nat, k: nat): set<Slot> {
    set j | 0 <= j < k :: Ind(n, j)
  }

  function Emptied(ino: seq<Inode>, n: nat): seq<Inode>
    requires n < |ino|
  {
    ino[n := ino[n].(size := 0, addrs := seq(NDIRECT + 1, _ => 0))]
  }

  lemma IndSlotsStep(n: nat, j: nat)
    ensures IndSlots(n, j + 1) == IndSlots(n, j) + {Ind(n, j)}
  {
    assert Ind(n, j) in IndSlots(n, j + 1);
    forall s | s in IndSlots(n, j)
      ensures s in IndSlots(n, j + 1)
    {
    }
  }

  lemma DropWord(lay: Layout, ino: seq<Inode>, blocks: Disk, owner: map<nat, Slot>, bitmap: seq<bool>, n: nat, j: nat)
    requires Owners(lay, ino, blocks, owner, IndSlots(n, j)) && Bits(lay, bitmap, owner, {}) && n < |ino|
    requires j < NINDIRECT && ino[n].addrs[NDIRECT] != 0
    ensures var b := At(ino, blocks, Ind(n, j));
            if b == 0 then Dropped(owner, {Ind(n, j)}) == owner
            else b < |bitmap| && bitmap[b] && Bits(lay, bitmap[b := false], Dropped(owner, {Ind(n, j)}), {})
    ensures Owners(lay, ino, blocks, Dropped(owner, {Ind(n, j)}), IndSlots(n, j + 1))
  {
    var s := Ind(n, j);
    var owner' := Dropped(owner, {s});
    assert s !in IndSlots(n, j) && SlotOk(ino, blocks, owner, s);
    IndSlotsStep(n, j);
    forall c | c in owner
      ensures c == At(ino, blocks, owner[c]) && BlockOk(lay, ino, blocks, owner, c) && c != 0
    {
      assert BlockOk(lay, ino, blocks, owner, c);
    }
    forall c | c in owner'
      ensures BlockOk(lay, ino, blocks, owner', c)
    {
    }
    forall t | t !in IndSlots(n, j + 1)
      ensures SlotOk(ino, blocks, owner', t)
    {
      assert SlotOk(ino, blocks, owner, t);
    }
  }

  /** With every entry loose, the indirect block itself can go. */
  lemma DropIndex(lay: Layout, ino: seq<Inode>, blocks: Disk, owner: map<nat, Slot>, bitmap: seq<bool>, n: nat)
    requires Owners(lay, ino, blocks, owner, IndSlots(n, NINDIRECT)) && Bits(lay, bitmap, owner, {}) && n < |ino|
    requires ino[n].addrs[NDIRECT] != 0
    requires forall b :: b in owner ==> owner[b] !in IndSlots(n, NINDIRECT)
    ensures var p := ino[n].addrs[NDIRECT];
            p < |bitmap| && bitmap[p] && Bits(lay, bitmap[p := false], Dropped(owner, {IndPtr(n)}), {})
    ensures Owners(lay, SetAddr(ino, n, NDIRECT, 0), blocks, Dropped(owner, {IndPtr(n)}), {})
  {
    var p, s := ino[n].addrs[NDIRECT], IndPtr(n);
    var ino', owner' := SetAddr(ino, n, NDIRECT, 0), Dropped(owner, {s});
    assert s !in IndSlots(n, NINDIRECT) && SlotOk(ino, blocks, owner, s);
    forall c | c in owner
      ensures c == At(ino, blocks, owner[c]) && BlockOk(lay, ino, blocks, owner, c) && c != 0
      ensures !(owner[c].Ind? && owner[c].n == n)
    {
      assert BlockOk(lay, ino, blocks, owner, c);
    }
    forall t
      ensures At(ino', blocks, t) == if t == s || (t.Ind? && t.n == n) then 0 else At(ino, blocks, t)
    {
    }
    forall c | c in owner'
      ensures BlockOk(lay, ino', blocks, owner', c)
    {
    }
    forall t
      ensures SlotOk(ino', blocks, owner', t)
    {
      if t !in IndSlots(n, NINDIRECT) { assert SlotOk(ino, blocks, owner, t); }
    }
  }

  lemma AllReleased(lay: Layout, i0: seq<Inode>, o0: map<nat, Slot>, ino: seq<Inode>, blocks: Disk,
                    owner: map<nat, Slot>, n: nat)
    requires Owners(lay, ino, blocks, owner, {}) && 0 < lay.start && Shrunk(o0, owner, n) && n < |ino|
    requires forall j :: 0 <= j <= NDIRECT ==> ino[n].addrs[j] == 0
    ensures owner == Released(o0, n)
  {
    forall b | b in owner
      ensures owner[b].n != n
    {
      assert BlockOk(lay, ino, blocks, owner, b);
    }
  }

  lemma EmptiedIs(i0: seq<Inode>, ino: seq<Inode>, n: nat)
    requires Table(ino) && n < |i0| == |ino| && (forall j :: 0 <= j <= NDIRECT ==> ino[n].addrs[j] == 0)
    requires ino[n].size == 0
    requires (forall m :: 0 <= m < |i0| && m != n ==> ino[m] == i0[m])
    requires ino[n] == i0[n].(addrs := ino[n].addrs, size := 0)
    ensures ino == Emptied(i0, n)
  {
    assert ino[n].addrs == seq(NDIRECT + 1, _ => 0);
  }

  lemma KindKeeps(lay: Layout, ino: seq<Inode>, blocks: Disk, owner: map<nat, Slot>, n: nat, kind: nat)
    requires Owners(lay, ino, blocks, owner, {}) && n < |ino|
    ensures Owners(lay, ino[n := ino[n].(kind := kind)], blocks, owner, {})
  {
    var ino' := ino[n := ino[n].(kind := kind)];
    forall s
      ensures At(ino', blocks, s) == At(ino, blocks, s)
    {
    }
    forall b | b in owner
      ensures BlockOk(lay, ino', blocks, owner, b)
    {
      assert BlockOk(lay, ino, blocks, owner, b);
    }
    forall s
      ensures SlotOk(ino', blocks, owner, s)
    {
      assert SlotOk(ino, blocks, owner, s);
    }
  }

  class FileSys {
    const lay: Layout
    var bitmap: seq<bool>
    var blocks: Disk
    var ino: seq<Inode>
    var disk: seq<Inode>
    var refs: seq<nat>
    var valid: seq<bool>
    ghost var owner: map<nat, Slot>
    ghost var logged: set<LogBlock>

    ghost predicate Sound(placing: set<nat>, loose: set<Slot>)
      reads this
    {
      Owners(lay, ino, blocks, owner, loose) && Bits(lay, bitmap, owner, placing)
    }

    ghost predicate Valid()
      reads this
    {
      Sound({}, {})
    }

    /** A file system found on disk, with nothing in memory yet. */
    constructor (lay: Layout, bitmap: seq<bool>, blocks: Disk, ino: seq<Inode>, ghost owner: map<nat, Slot>)
      requires Owners(lay, ino, blocks, owner, {}) && Bits(lay, bitmap, owner, {})
      ensures Valid() && this.lay == lay && this.bitmap == bitmap && this.blocks == blocks && this.ino == ino
      ensures disk == ino
      ensures |refs| == |ino| && |valid| == |ino| && logged == {}
    {
      this.lay, this.bitmap, this.blocks := lay, bitmap, blocks;
      this.ino, this.disk, this.owner := ino, ino, owner;
      refs, valid, logged := seq(|ino|, _ => 0), seq(|ino|, _ => false), {};
    }

    // ---- balloc and bfree ----

    /** The inner loop of balloc: the first clear bit of one bitmap block. */
    method FindClear(b: nat) returns (bi: nat)
      requires |bitmap| == lay.size && b < lay.size
      ensures bi <= BPB && (forall c :: b <= c < b + bi && c < lay.size ==> bitmap[c])
      ensures bi < BPB && b + bi < lay.size ==> !bitmap[b + bi]
      ensures b + bi <= lay.size
    {
      bi := 0;
      while bi < BPB && b + bi < lay.size && bitmap[b + bi]
        invariant bi <= BPB && b + bi <= lay.size
        invariant forall c :: b <= c < b + bi && c < lay.size ==> bitmap[c]
      {
        bi := bi + 1;
      }
    }

    /** The first free block, zeroed and marked in use; 0 when every bit is set. */
    method Balloc() returns (r: nat)
      requires Valid()
      modifies this`bitmap, this`blocks, this`logged
      ensures r == 0 ==> bitmap == old(bitmap) && blocks == old(blocks) && logged == old(logged) && Valid()
      ensures r == 0 ==> Full()
      ensures r != 0 ==> lay.start <= r < lay.size && !old(bitmap)[r] && (forall c :: 0 <= c < r ==> old(bitmap)[c])
      ensures r != 0 ==>
                r !in owner && Sound({r}, {}) && bitmap == old(bitmap)[r := true]
                && blocks == old(blocks)[r := ZeroBlock()]
      ensures r != 0 ==> logged == old(logged) + {BitmapBlock(r / BPB), Home(r)}
    {
      var b := 0;
      while b < lay.size
        invariant bitmap == old(bitmap) && blocks == old(blocks) && logged == old(logged)
        invariant forall c :: 0 <= c < b && c < lay.size ==> bitmap[c]
        decreases lay.size - b
      {
        var bi := FindClear(b);
        if bi < BPB && b + bi < lay.size {
          r := b + bi;
          FreeWrite(lay, ino, blocks, owner, r, ZeroBlock());
          bitmap := bitmap[r := true];
          blocks := blocks[r := ZeroBlock()];
          logged := logged + {BitmapBlock(r / BPB), Home(r)};
          return;
        }
        b := b + BPB;
      }
      r := 0;
    }

    // ---- bmap ----

    /** A block from balloc goes into an empty direct slot. */
    method PutDirect(n: nat, i: nat, b: nat)
      requires Sound({b}, {}) && n < |ino| && i < NDIRECT && ino[n].addrs[i] == 0 && IsData(blocks, b)
      modifies this`ino, this`owner
      ensures Valid() && ino == SetAddr(old(ino), n, i, b) && owner == old(owner)[b := Direct(n, i)]
    {
      PlaceDirect(ino, blocks, n, i, b);
      OwnedPresent(lay, ino, blocks, owner);
      Placed(lay, ino, blocks, owner, SetAddr(ino, n, i, b), blocks, Direct(n, i), b);
      PlacedBits(lay, bitmap, owner, b, Direct(n, i));
      ino := SetAddr(ino, n, i, b);
      owner := owner[b := Direct(n, i)];
    }

    /** A zeroed block from balloc becomes the indirect block of n. */
    method PutIndex(n: nat, b: nat)
      requires Sound({b}, {}) && n < |ino| && ino[n].addrs[NDIRECT] == 0
      modifies this`ino, this`blocks, this`owner
      ensures Valid() && ino == SetAddr(old(ino), n, NDIRECT, b) && blocks == old(blocks)[b := ZeroIndex()]
      ensures owner == old(owner)[b := IndPtr(n)]
    {
      NotAnIndex(lay, ino, blocks, owner, b);
      PlaceIndex(ino, blocks, n, b);
      OwnedPresent(lay, ino, blocks, owner);
      Placed(lay, ino, blocks, owner, SetAddr(ino, n, NDIRECT, b), blocks[b := ZeroIndex()], IndPtr(n), b);
      PlacedBits(lay, bitmap, owner, b, IndPtr(n));
      ino := SetAddr(ino, n, NDIRECT, b);
      blocks := blocks[b := ZeroIndex()];
      owner := owner[b := IndPtr(n)];
    }

    /** A block from balloc goes into an empty entry of the indirect block of n. */
    method PutWord(n: nat, j: nat, b: nat)
      requires Sound({b}, {}) && n < |ino| && j < NINDIRECT && ino[n].addrs[NDIRECT] != 0 && IsData(blocks, b)
      requires IsIndex(blocks, ino[n].addrs[NDIRECT]) && blocks[ino[n].addrs[NDIRECT]].words[j] == 0
      modifies this`blocks, this`owner, this`logged
      ensures Valid() && blocks == SetWord(old(blocks), ino[n].addrs[NDIRECT], j, b)
      ensures owner == old(owner)[b := Ind(n, j)]
      ensures logged == old(logged) + {Home(ino[n].addrs[NDIRECT])}
    {
      var p := ino[n].addrs[NDIRECT];
      IndexOf(lay, ino, blocks, owner, n);
      OwnIndex(lay, ino, blocks, owner, n);
      PlaceWord(ino, blocks, n, j, b);
      OwnedPresent(lay, ino, blocks, owner);
      Placed(lay, ino, blocks, owner, ino, SetWord(blocks, p, j, b), Ind(n, j), b);
      PlacedBits(lay, bitmap, owner, b, Ind(n, j));
      blocks := SetWord(blocks, p, j, b);
      owner := owner[b := Ind(n, j)];
      logged := logged + {Home(p)};
    }

    /** The direct half of bmap. */
    method BmapDirect(n: nat, bn: nat) returns (b: nat, ghost bits: set<LogBlock>)
      requires Valid() && n < |ino| && bn < NDIRECT
      modifies this`bitmap, this`blocks, this`ino, this`owner, this`logged
      ensures Valid() && Mapped(old(ino), old(blocks), old(owner), ino, blocks, owner, n, bn, b)
      ensures b == 0 ==> Full()
      ensures Logs(lay, old(logged), logged, bits, {b} - {0})
      ensures |bits| <= (if FileBlock(old(ino), old(blocks), n, bn) != b then 1 else 0)
      ensures ino[n].addrs[NDIRECT] == old(ino[n].addrs[NDIRECT])
      ensures old(ino[n].addrs[bn]) != 0 ==>
                bitmap == old(bitmap) && ino == old(ino) && owner == old(owner) && logged == old(logged)
    {
      b := ino[n].addrs[bn];
      bits := {};
      OwnedPresent(lay, ino, blocks, owner);
      UnseenSame(ino, blocks, owner, n);
      MappedSame(ino, blocks, owner, ino, blocks, owner, n, bn);
      if b == 0 {
        b := Balloc();
        if b == 0 { return; }
        bits := {BitmapBlock(b / BPB)};
        UnseenFree(lay, old(ino), old(blocks), owner, n, b, ZeroBlock());
        PlaceDirect(ino, blocks, n, bn, b);
        MappedNew(old(ino), old(blocks), owner, ino, blocks, owner, SetAddr(ino, n, bn, b), blocks, n, bn, b);
        PutDirect(n, bn, b);
      }
    }

    /** The indirect block of n, allocated if there is none; 0 if that fails. */
    method LoadIndex(n: nat) returns (p: nat, ghost bits: set<LogBlock>)
      requires Valid() && n < |ino|
      modifies this`bitmap, this`blocks, this`ino, this`owner, this`logged
      ensures Valid() && Unseen(old(ino), old(blocks), old(owner), ino, blocks, owner, n) && n < |ino|
      ensures p == ino[n].addrs[NDIRECT]
      ensures p != 0 ==> IsIndex(blocks, p)
      ensures p == 0 ==> Full()
      ensures old(ino[n].addrs[NDIRECT]) != 0 ==>
                ino == old(ino) && blocks == old(blocks) && bits == {} && owner == old(owner) && logged == old(logged)
                && bitmap == old(bitmap)
      ensures Logs(lay, old(logged), logged, bits, {p} - {0})
      ensures |bits| <= (if old(ino[n].addrs[NDIRECT]) != p then 1 else 0)
    {
      p := ino[n].addrs[NDIRECT];
      bits := {};
      OwnedPresent(lay, ino, blocks, owner);
      UnseenSame(ino, blocks, owner, n);
      if p == 0 {
        p := Balloc();
        if p == 0 { return; }
        bits := {BitmapBlock(p / BPB)};
        UnseenIndex(lay, old(ino), old(blocks), owner, n, p);
        assert old(blocks)[p := ZeroIndex()] == blocks[p := ZeroIndex()];
        PutIndex(n, p);
      } else {
        IndexOf(lay, ino, blocks, owner, n);
      }
    }

    /** The entry for j in the indirect block of n, allocated if it is empty. */
    method FillWord(n: nat, j: nat, ghost i0: seq<Inode>, ghost b0: Disk, ghost o0: map<nat, Slot>)
      returns (b: nat, ghost bits: set<LogBlock>)
      requires Valid() && n < |ino| && j < NINDIRECT && ino[n].addrs[NDIRECT] != 0
      requires IsIndex(blocks, ino[n].addrs[NDIRECT])
      requires Table(i0) && Unseen(i0, b0, o0, ino, blocks, owner, n)
      requires FileBlock(i0, b0, n, NDIRECT + j) != 0 ==> blocks == b0
      modifies this`bitmap, this`blocks, this`owner, this`logged
      ensures Valid() && Mapped(i0, b0, o0, ino, blocks, owner, n, NDIRECT + j, b)
      ensures b == 0 ==> Full()
      ensures Logs(lay, old(logged), logged, bits, {b, ino[n].addrs[NDIRECT]} - {0})
      ensures |bits| <= (if FileBlock(i0, b0, n, NDIRECT + j) != b then 1 else 0)
      ensures old(blocks[ino[n].addrs[NDIRECT]].words[j]) != 0 ==>
                bitmap == old(bitmap) && owner == old(owner) && logged == old(logged)
    {
      ghost var bn := NDIRECT + j;
      var p := ino[n].addrs[NDIRECT];
      b := blocks[p].words[j];
      bits := {};
      assert b == At(ino, blocks, Ind(n, j)) == FileBlock(i0, b0, n, bn);
      if b != 0 {
        MappedSame(i0, b0, o0, ino, blocks, owner, n, bn);
        return;
      }
      OwnIndex(lay, ino, blocks, owner, n);
      b := Balloc();
      if b == 0 {
        MappedSame(i0, b0, o0, ino, blocks, owner, n, bn);
        return;
      }
      bits := {BitmapBlock(b / BPB)};
      NewWord(lay, i0, b0, o0, ino, old(blocks), owner, n, j, b);
      PutWord(n, j, b);
    }

    /** The block of file block bn, allocated if need be; 0 only when the disk is full. */
    method Bmap(n: nat, bn: nat) returns (b: nat, ghost bits: set<LogBlock>)
      requires Valid() && n < |ino| && bn < MAXFILE
      modifies this`bitmap, this`blocks, this`ino, this`owner, this`logged
      ensures Valid() && n < |ino| && Mapped(old(ino), old(blocks), old(owner), ino, blocks, owner, n, bn, b)
      ensures b == 0 ==> Full()
      ensures Logs(lay, old(logged), logged, bits, {b, ino[n].addrs[NDIRECT]} - {0})
      ensures old(ino[n].addrs[NDIRECT]) != 0 ==> ino[n].addrs[NDIRECT] == old(ino[n].addrs[NDIRECT])
      ensures |bits| <= (if FileBlock(old(ino), old(blocks), n, bn) != b then 1 else 0)
                      + (if old(ino[n].addrs[NDIRECT]) != ino[n].addrs[NDIRECT] then 1 else 0)
      ensures FileBlock(old(ino), old(blocks), n, bn) != 0 ==>
                && bitmap == old(bitmap) && blocks == old(blocks) && ino == old(ino) && owner == old(owner)
                && logged == old(logged)
    {
      if bn < NDIRECT {
        b, bits := BmapDirect(n, bn);
        return;
      }
      var p, bits1 := LoadIndex(n);
      if p == 0 {
        MappedSame(old(ino), old(blocks), old(owner), ino, blocks, owner, n, bn);
        return 0, bits1;
      }
      ghost var bits2;
      b, bits2 := FillWord(n, bn - NDIRECT, old(ino), old(blocks), old(owner));
      bits := bits1 + bits2;
    }

    // ---- writei ----

    /** bmap for the chunk at off + k of a write. */
    method MapChunk(n: nat, off: nat, data: seq<nat>, k: nat, ghost i0: seq<Inode>, ghost b0: Disk,
                    ghost before: set<LogBlock>, ghost t: Tally)
      returns (b: nat, ghost t': Tally)
      requires Valid() && Table(i0) && n < |ino| && k < |data| && off + |data| <= MAXFILE * BSIZE
      requires Wrote(i0, b0, ino, blocks, n, off, data[..k]) && SameMeta(i0, ino, n)
      requires Spent(lay, before, logged, t, i0[n].addrs[NDIRECT], ino[n].addrs[NDIRECT])
      modifies this`bitmap, this`blocks, this`ino, this`owner, this`logged
      ensures Valid() && n < |ino| && SameMeta(i0, ino, n) && Wrote(i0, b0, ino, blocks, n, off, data[..k])
      ensures b == FileBlock(ino, blocks, n, (off + k) / BSIZE)
      ensures Spent(lay, before, if b == 0 then logged else logged + {Home(b)}, t', i0[n].addrs[NDIRECT],
                ino[n].addrs[NDIRECT])
      ensures t'.put == t.put && t'.reach == t.reach && before <= logged
      ensures b == 0 ==> Full() && t'.chunks == t.chunks && t'.added == t.added
      ensures b != 0 ==> t'.chunks == t.chunks + 1 && t.added <= t'.added <= t.added + 1
      ensures b != 0 && FileBlock(i0, b0, n, (off + k) / BSIZE) != 0 ==> t'.added == t.added
    {
      var bn := (off + k) / BSIZE;
      ghost var was := FileBlock(ino, blocks, n, bn);
      ghost var bits;
      b, bits := Bmap(n, bn);
      WroteMapped(lay, i0, b0, old(ino), old(blocks), old(owner), ino, blocks, owner, n, off, data[..k], bn, b);
      SpentMore(lay, before, old(logged), logged, t, bits, i0[n].addrs[NDIRECT], old(ino[n].addrs[NDIRECT]),
          ino[n].addrs[NDIRECT], b, was);
      t' := if b == 0 then t.(bits := t.bits + bits) else OneChunk(t, bits, b, was != b);
    }

    /** The copy of one chunk, or of as much of it as there is. */
    method StoreChunk(n: nat, off: nat, data: seq<nat>, k: nat, m: nat, b: nat, ghost i0: seq<Inode>, ghost b0: Disk)
      requires Valid() && Table(i0) && k + m <= |data| && Wrote(i0, b0, ino, blocks, n, off, data[..k])
      requires (off + k) % BSIZE + m <= BSIZE
      requires b == FileBlock(ino, blocks, n, (off + k) / BSIZE) != 0
      modifies this`blocks
      ensures Valid() && Wrote(i0, b0, ino, blocks, n, off, data[..k + m])
    {
      OwnedData(lay, ino, blocks, owner, n, (off + k) / BSIZE);
      WroteChunk(lay, i0, b0, ino, blocks, owner, n, off, data, k, m);
      WriteKeeps(lay, ino, blocks, owner, b, (off + k) % BSIZE, data[k..k + m]);
      blocks := WriteData(blocks, b, (off + k) % BSIZE, data[k..k + m]);
    }

    /** Blocks 0.. up to the size are all there. */
    ghost predicate NoHoles(n: nat)
      requires Table(ino)
      reads this
    {
      n < |ino| && Dense(ino, blocks, n, ino[n].size)
    }

    /** The copy of a chunk of up to m bytes, of which only those before `good` can be read,
        and its log_write if all of them can. */
    method CopyChunk(n: nat, off: nat, data: seq<nat>, good: nat, tot: nat, m: nat, b: nat, ghost i0: seq<Inode>,
                     ghost b0: Disk)
      returns (ok: bool)
      requires Valid() && Table(i0) && tot + m <= |data| && tot <= good
      requires Wrote(i0, b0, ino, blocks, n, off, data[..tot])
      requires (off + tot) % BSIZE + m <= BSIZE && b == FileBlock(ino, blocks, n, (off + tot) / BSIZE) != 0
      modifies this`blocks, this`logged
      ensures Valid() && (ok <==> tot + m <= good)
      ensures Wrote(i0, b0, ino, blocks, n, off, data[..if ok then tot + m else good])
      ensures logged == if ok then old(logged) + {Home(b)} else old(logged)
    {
      ok := tot + m <= good;
      StoreChunk(n, off, data, tot, if ok then m else good - tot, b, i0, b0);
      if ok { logged := logged + {Home(b)}; }
    }

    /** One turn of the loop of writei; m is 0 when there is no block to be had, or when the
        copy of the chunk fails. */
    method WriteChunk(n: nat, off: nat, data: seq<nat>, good: nat, tot: nat, ghost i0: seq<Inode>, ghost b0: Disk,
                      ghost before: set<LogBlock>, ghost t: Tally)
      returns (m: nat, ghost t': Tally)
      requires Valid() && tot < |data| && off + |data| <= MAXFILE * BSIZE && (tot > 0 ==> (off + tot) % BSIZE == 0)
      requires Writing(lay, i0, b0, before, ino, blocks, logged, n, off, data, tot, t) && t.reach == tot <= good
      modifies this`bitmap, this`blocks, this`ino, this`owner, this`logged
      ensures Valid() && Writing(lay, i0, b0, before, ino, blocks, logged, n, off, data, tot + m, t')
      ensures m == 0 ==> Stopped(off, |data|, good, tot, t'.put)
      ensures 0 < m ==> t'.reach == tot + m <= good
      ensures 0 < m && tot + m < |data| ==> (off + tot + m) % BSIZE == 0
    {
      var b;
      b, t' := MapChunk(n, off, data, tot, i0, b0, before, t);
      if b == 0 {
        WritingStill(lay, i0, b0, before, ino, blocks, logged, n, off, data, tot, t, t');
        return 0, t';
      }
      m, t' := FillChunk(n, off, data, good, tot, b, i0, b0, before, t, t');
    }

    /** The rest of the turn, once the chunk has its block. */
    method FillChunk(n: nat, off: nat, data: seq<nat>, good: nat, tot: nat, b: nat, ghost i0: seq<Inode>,
                     ghost b0: Disk, ghost before: set<LogBlock>, ghost t: Tally, ghost t1: Tally)
      returns (m: nat, ghost t': Tally)
      requires Valid() && Table(i0) && n < |ino| && SameMeta(i0, ino, n) && before <= logged && tot < |data|
      requires Wrote(i0, b0, ino, blocks, n, off, data[..tot]) && (tot > 0 ==> (off + tot) % BSIZE == 0) && tot <= good
      requires b == FileBlock(ino, blocks, n, (off + tot) / BSIZE) != 0
      requires Spent(lay, before, logged + {Home(b)}, t1, i0[n].addrs[NDIRECT], ino[n].addrs[NDIRECT])
      requires ChunkCount(off, tot, t) && AddedCount(i0, b0, n, off, t)
      requires t1.chunks == t.chunks + 1 && t.added <= t1.added <= t.added + 1
      requires FileBlock(i0, b0, n, (off + tot) / BSIZE) != 0 ==> t1.added == t.added
      modifies this`blocks, this`logged
      ensures Valid() && Writing(lay, i0, b0, before, ino, blocks, logged, n, off, data, tot + m, t')
      ensures m == 0 ==> good < tot + ChunkLength(off, |data|, tot) && t'.put == good
      ensures 0 < m ==> t'.reach == tot + m <= good
      ensures 0 < m && tot + m < |data| ==> (off + tot + m) % BSIZE == 0
    {
      m := ChunkLength(off, |data|, tot);
      ghost var mapped := logged;
      var ok := CopyChunk(n, off, data, good, tot, m, b, i0, b0);
      t' := t1.(put := if ok then tot + m else good, reach := tot + m);
      SpentLess(lay, before, mapped, logged, b, t1, t', i0[n].addrs[NDIRECT], ino[n].addrs[NDIRECT]);
      CountChunk(off, tot, m, t, t');
      if !ok { m := 0; }
      WritingMore(lay, i0, b0, before, ino, blocks, logged, n, off, data, tot, tot + m, t, t');
    }

    /** Why a write of len bytes stopped after tot of them: the disk is full, or not all bytes
        of the next chunk can be read.  `put` bytes have got into buffers. */
    ghost predicate Stopped(off: nat, len: nat, good: nat, tot: nat, put: nat)
      reads this
    {
      || (Full() && put == tot)
      || (tot <= good && tot < len && good < tot + ChunkLength(off, len, tot) && put == good)
    }

    ghost predicate Full()
      reads this
    {
      |bitmap| == lay.size && forall c :: 0 <= c < lay.size ==> bitmap[c]
    }

    /** The loop of writei: the number of bytes written, and why there are no more. */
    method WriteChunks(n: nat, off: nat, data: seq<nat>, good: nat) returns (tot: nat, ghost t: Tally)
      requires Valid() && n < |ino| && off + |data| <= MAXFILE * BSIZE
      modifies this`bitmap, this`blocks, this`ino, this`owner, this`logged
      ensures Valid() && Writing(lay, old(ino), old(blocks), old(logged), ino, blocks, logged, n, off, data, tot, t)
      ensures tot < |data| ==> Stopped(off, |data|, good, tot, t.put)
      ensures tot == |data| ==> tot <= good || |data| == 0
    {
      ghost var i0, b0, l0 := ino, blocks, logged;
      tot := 0;
      t := Tally({}, {}, 0, 0, 0, 0);
      StartWriting(n, off, data);
      while tot < |data|
        invariant Valid() && Writing(lay, i0, b0, l0, ino, blocks, logged, n, off, data, tot, t)
        invariant t.reach == tot <= good && (0 < tot < |data| ==> (off + tot) % BSIZE == 0)
        decreases |data| - tot
      {
        var m;
        m, t := WriteChunk(n, off, data, good, tot, i0, b0, l0, t);
        if m == 0 { return; }
        tot := tot + m;
      }
    }

    lemma StartWriting(n: nat, off: nat, data: seq<nat>)
      requires Table(ino) && n < |ino|
      ensures Writing(lay, ino, blocks, logged, ino, blocks, logged, n, off, data, 0, Tally({}, {}, 0, 0, 0, 0))
    {
      WroteNothing(ino, blocks, n, off);
      assert data[..0] == [];
    }

    method Iupdate(n: nat)
      requires n < |ino| && n < |disk|
      modifies this`disk, this`logged
      ensures disk == old(disk)[n := ino[n]] && logged == old(logged) + {InodeBlock(n / IPB)}
    {
      disk := disk[n := ino[n]];
      logged := logged + {InodeBlock(n / IPB)};
    }

    /** writei refuses a start beyond the end and a file that would be too large; otherwise
        it writes a prefix of data, all of it unless the disk is full or the source cannot
        be read beyond its first `good` bytes, and the inode. */
    method Writei(n: nat, off: nat, data: seq<nat>, good: nat) returns (r: int, ghost t: Tally)
      requires Valid() && n < |ino| == |disk| && off < UINT && |data| < UINT
      modifies this`bitmap, this`blocks, this`ino, this`owner, this`logged, this`disk
      ensures Valid() && |ino| == |disk| == old(|ino|)
      ensures r == -1 <==> off > old(ino[n].size) || off + |data| >= UINT || off + |data| > 268 * 1024
      ensures r == -1 ==>
                && bitmap == old(bitmap) && blocks == old(blocks) && ino == old(ino) && logged == old(logged)
                && disk == old(disk)
      ensures -1 <= r <= |data|
      ensures r != -1 ==> Filed(lay, old(ino), old(blocks), old(logged), ino, blocks, logged, n, off, data, r, t)
      ensures r >= 0 ==> r <= t.put <= |data| && disk == old(disk)[n := ino[n]]
      ensures r >= 0 ==> FilesWritten(old(ino), old(blocks), ino, blocks, n, off, data[..t.put], r)
      ensures 0 <= r < |data| ==> Stopped(off, |data|, good, r, t.put)
      ensures r == |data| > 0 ==> |data| <= good
    {
      if off > ino[n].size || off + |data| >= UINT { return -1, Tally({}, {}, 0, 0, 0, 0); }
      if off + |data| > MAXFILE * BSIZE { return -1, Tally({}, {}, 0, 0, 0, 0); }
      var tot;
      tot, t := WriteChunks(n, off, data, good);
      WriteDone(lay, old(ino), old(blocks), old(logged), ino, blocks, logged, n, off, data, tot, t);
      SetSize(n, Max(ino[n].size, off + tot));
      Iupdate(n);
      FiledExtends(lay, old(ino), old(blocks), old(logged), ino, blocks, logged, n, off, data, tot, t);
      r := tot;
    }

    method SetSize(n: nat, size: nat)
      requires Valid() && n < |ino|
      modifies this`ino
      ensures Valid() && ino == old(ino)[n := old(ino)[n].(size := size)]
    {
      SizeKeeps(lay, ino, blocks, owner, n, size);
      ino := ino[n := ino[n].(size := size)];
    }

    // ---- readi ----

    /** bmap and bread in the loop of readi: the m bytes at a, unless there is no block for
        them. */
    method ReadChunk(n: nat, a: nat, m: nat, ghost i0: seq<Inode>, ghost b0: Disk) returns (chunk: Option<seq<nat>>)
      requires Valid() && n < |ino| && a % BSIZE + m <= BSIZE && Unread(i0, b0, ino, blocks, n)
      requires a / BSIZE < MAXFILE && a + m <= i0[n].size
      modifies this`bitmap, this`blocks, this`ino, this`owner, this`logged
      ensures Valid() && Unread(i0, b0, ino, blocks, n)
      ensures FileBlock(old(ino), old(blocks), n, a / BSIZE) != 0 ==>
                chunk.Some? && Unchanged(old(bitmap), old(blocks), old(ino), old(logged))
      ensures chunk.None? ==> Full()
      ensures chunk.Some? ==> chunk.value == Contents(i0, b0, n)[a..a + m]
    {
      var b;
      ghost var bits;
      b, bits := Bmap(n, a / BSIZE);
      WroteMapped(lay, i0, b0, old(ino), old(blocks), old(owner), ino, blocks, owner, n, 0, [], a / BSIZE, b);
      if b == 0 { return None; }
      OwnedData(lay, ino, blocks, owner, n, a / BSIZE);
      BlockBytes(i0, b0, ino, blocks, n, a, m);
      chunk := Some(blocks[b].bytes[a % BSIZE..a % BSIZE + m]);
    }

    ghost predicate Unchanged(bitmap0: seq<bool>, blocks0: Disk, ino0: seq<Inode>, logged0: set<LogBlock>)
      reads this
    {
      bitmap == bitmap0 && blocks == blocks0 && ino == ino0 && logged == logged0
    }

    /** One turn of the loop of readi, with the copy to the reader, who can take `good` bytes:
        the chunk, or nothing if there is no block for it or the copy fails. */
    method ReadTurn(n: nat, off: nat, want: nat, good: nat, tot: nat, ghost i0: seq<Inode>, ghost b0: Disk)
      returns (chunk: Option<seq<nat>>, failed: bool)
      requires Valid() && n < |ino| && tot < want && Unread(i0, b0, ino, blocks, n)
      requires off + want <= i0[n].size <= MAXFILE * BSIZE && tot <= good
      modifies this`bitmap, this`blocks, this`ino, this`owner, this`logged
      ensures Valid() && Unread(i0, b0, ino, blocks, n)
      ensures chunk.Some? ==> |chunk.value| == ChunkLength(off, want, tot) && tot + |chunk.value| <= good
      ensures chunk.Some? ==> IsSlice(Contents(i0, b0, n), off + tot, chunk.value)
      ensures chunk.None? ==> if failed then good < tot + ChunkLength(off, want, tot) else Full()
      ensures FileBlock(old(ino), old(blocks), n, (off + tot) / BSIZE) != 0 ==>
                && Unchanged(old(bitmap), old(blocks), old(ino), old(logged))
                && (chunk.None? ==> failed)
    {
      var m := ChunkLength(off, want, tot);
      chunk := ReadChunk(n, off + tot, m, i0, b0);
      failed := chunk.Some? && good < tot + m;
      if failed { chunk := None; }
    }

    /** The loop of readi. */
    method ReadChunks(n: nat, off: nat, want: nat, good: nat) returns (res: seq<nat>, failed: bool)
      requires Valid() && n < |ino| && off + want <= ino[n].size <= MAXFILE * BSIZE
      requires Unread(ino, blocks, ino, blocks, n)
      modifies this`bitmap, this`blocks, this`ino, this`owner, this`logged
      ensures Valid() && Unread(old(ino), old(blocks), ino, blocks, n)
      ensures |res| <= want && |res| <= good && IsSlice(Contents(old(ino), old(blocks), n), off, res)
      ensures |res| < want && !failed ==> Full()
      ensures failed ==> |res| < want && good < |res| + ChunkLength(off, want, |res|)
      ensures Backed(old(ino), old(blocks), n, off, want) ==>
                && (failed <==> good < want) && (!failed ==> |res| == want)
                && Unchanged(old(bitmap), old(blocks), old(ino), old(logged))
    {
      ghost var i0, b0, c0 := ino, blocks, Contents(ino, blocks, n);
      res, failed := [], false;
      while |res| < want
        invariant Valid() && Unread(i0, b0, ino, blocks, n) && !failed
        invariant |res| <= want && |res| <= good && IsSlice(c0, off, res)
        invariant Backed(i0, b0, n, off, want) ==> Unchanged(old(bitmap), b0, i0, old(logged))
        decreases want - |res|
      {
        InBacked(i0, b0, n, off, want, |res|);
        var chunk;
        chunk, failed := ReadTurn(n, off, want, good, |res|, i0, b0);
        if chunk.None? { return; }
        failed := false;
        LongerSlice(c0, off, res, chunk.value);
        res := res + chunk.value;
      }
    }

    /** The requested slice, clipped to the size.  No file's bytes change; a hole in the slice
        is given a zeroed block, and only if there is none to be had does the slice come
        out short.  Where there is no hole nothing is allocated or logged.  The reader can
        take `good` bytes: readi returns -1 when a chunk does not fit there, which without
        a hole in the slice is exactly when the slice does not. */
    method Readi(n: nat, off: nat, cnt: nat, good: nat) returns (ret: int, res: seq<nat>)
      requires Valid() && n < |ino| && ino[n].size <= MAXFILE * BSIZE && off < UINT && cnt < UINT
      modifies this`bitmap, this`blocks, this`ino, this`owner, this`logged
      ensures Valid() && SameFiles(old(ino), old(blocks), ino, blocks)
      ensures ret == |res| || ret == -1
      ensures res <= Wanted(Contents(old(ino), old(blocks), n), off, cnt)
      ensures ret >= 0 && |res| < |Wanted(Contents(old(ino), old(blocks), n), off, cnt)| ==> Full()
      ensures ret == -1 ==>
                |res| <= good < |Wanted(Contents(old(ino), old(blocks), n), off, cnt)| && good < |res| + BSIZE
      ensures Backed(old(ino), old(blocks), n, off, |Wanted(Contents(old(ino), old(blocks), n), off, cnt)|) ==>
                && Unchanged(old(bitmap), old(blocks), old(ino), old(logged))
                && (ret == -1 <==> good < |Wanted(Contents(old(ino), old(blocks), n), off, cnt)|)
                && (ret >= 0 ==> res == Wanted(Contents(old(ino), old(blocks), n), off, cnt))
    {
      WroteNothing(ino, blocks, n, 0);
      UnreadFiles(ino, blocks, ino, blocks, n);
      if off > ino[n].size || off + cnt >= UINT { return 0, []; }
      var failed;
      res, failed := ReadChunks(n, off, if off + cnt > ino[n].size then ino[n].size - off else cnt, good);
      UnreadFiles(old(ino), old(blocks), ino, blocks, n);
      ret := if failed then -1 else |res|;
    }

    // ---- itrunc and iput ----

    /** The bit is set, so "freeing free block" is not reached. */
    method Bfree(b: nat)
      requires b < |bitmap| && bitmap[b]
      modifies this`bitmap, this`logged
      ensures bitmap == old(bitmap)[b := false] && logged == old(logged) + {BitmapBlock(b / BPB)}
    {
      bitmap := bitmap[b := false];
      logged := logged + {BitmapBlock(b / BPB)};
    }

    /** Direct block i of n, if there is one, goes back. */
    method FreeDirect(n: nat, i: nat)
      requires Valid() && n < |ino| && i < NDIRECT
      modifies this`bitmap, this`ino, this`owner, this`logged
      ensures Valid() && n < |ino| && ino == SetAddr(old(ino), n, i, 0) && owner == Dropped(old(owner), {Direct(n, i)})
    {
      var b := ino[n].addrs[i];
      DropSlot(lay, ino, blocks, owner, bitmap, SetAddr(ino, n, i, 0), Direct(n, i));
      if b != 0 {
        Bfree(b);
        ino := SetAddr(ino, n, i, 0);
      } else {
        assert ino[n].addrs[i := 0] == ino[n].addrs;
        assert ino[n].(addrs := ino[n].addrs) == ino[n];
      }
      owner := Dropped(owner, {Direct(n, i)});
    }

    /** All direct blocks of n go back. */
    method FreeDirects(n: nat)
      requires Valid() && n < |ino|
      modifies this`bitmap, this`ino, this`owner, this`logged
      ensures Valid() && SameMeta(old(ino), ino, n) && n < |ino| && ino[n].addrs[NDIRECT] == old(ino[n].addrs[NDIRECT])
      ensures Shrunk(old(owner), owner, n) && forall j :: 0 <= j < NDIRECT ==> ino[n].addrs[j] == 0
    {
      var i := 0;
      while i < NDIRECT
        invariant i <= NDIRECT && Valid() && SameMeta(old(ino), ino, n) && n < |ino|
        invariant ino[n].addrs[NDIRECT] == old(ino[n].addrs[NDIRECT])
        invariant Shrunk(old(owner), owner, n) && forall j :: 0 <= j < i ==> ino[n].addrs[j] == 0
      {
        FreeDirect(n, i);
        i := i + 1;
      }
    }

    /** Entry j of the indirect block of n goes back; the entry itself stays as it is. */
    method FreeWord(n: nat, j: nat)
      requires Sound({}, IndSlots(n, j)) && n < |ino| && j < NINDIRECT && ino[n].addrs[NDIRECT] != 0
      requires IsIndex(blocks, ino[n].addrs[NDIRECT])
      modifies this`bitmap, this`owner, this`logged
      ensures Sound({}, IndSlots(n, j + 1)) && owner == Dropped(old(owner), {Ind(n, j)})
    {
      var b := blocks[ino[n].addrs[NDIRECT]].words[j];
      DropWord(lay, ino, blocks, owner, bitmap, n, j);
      if b != 0 { Bfree(b); }
      owner := Dropped(owner, {Ind(n, j)});
    }

    /** The indirect block of n and everything it lists go back. */
    method FreeIndirect(n: nat)
      requires Valid() && n < |ino| && ino[n].addrs[NDIRECT] != 0
      modifies this`bitmap, this`ino, this`owner, this`logged
      ensures Valid() && ino == SetAddr(old(ino), n, NDIRECT, 0) && Shrunk(old(owner), owner, n)
    {
      var p := ino[n].addrs[NDIRECT];
      IndexOf(lay, ino, blocks, owner, n);
      var j := 0;
      assert IndSlots(n, 0) == {};
      while j < NINDIRECT
        invariant j <= NINDIRECT && Sound({}, IndSlots(n, j)) && Shrunk(old(owner), owner, n) && ino == old(ino)
        invariant forall b :: b in owner ==> owner[b] !in IndSlots(n, j)
      {
        IndSlotsStep(n, j);
        FreeWord(n, j);
        j := j + 1;
      }
      DropIndex(lay, ino, blocks, owner, bitmap, n);
      Bfree(p);
      ino := SetAddr(ino, n, NDIRECT, 0);
      owner := Dropped(owner, {IndPtr(n)});
    }

    /** itrunc: n has no blocks and size 0; exactly its blocks have become free. */
    method Itrunc(n: nat)
      requires Valid() && n < |ino| && |disk| == |ino|
      modifies this`bitmap, this`ino, this`owner, this`logged, this`disk
      ensures Valid() && ino == Emptied(old(ino), n) && owner == Released(old(owner), n)
      ensures disk == old(disk)[n := ino[n]]
    {
      FreeDirects(n);
      if ino[n].addrs[NDIRECT] != 0 { FreeIndirect(n); }
      AllReleased(lay, old(ino), old(owner), ino, blocks, owner, n);
      SetSize(n, 0);
      EmptiedIs(old(ino), ino, n);
      Iupdate(n);
    }

    /** iput: the last reference to an inode without links frees its blocks and the inode. */
    method Iput(n: nat)
      requires Valid() && n < |ino| == |refs| == |valid| == |disk| && refs[n] >= 1
      modifies this`bitmap, this`ino, this`owner, this`logged, this`disk, this`refs, this`valid
      ensures Valid() && |ino| == |disk| == |refs| == |valid| && refs == old(refs)[n := old(refs)[n] - 1]
      ensures old(refs[n] == 1 && valid[n] && ino[n].nlink == 0) ==>
                owner == Released(old(owner), n)
                    && ino == Emptied(old(ino), n)[n := Emptied(old(ino), n)[n].(kind := 0)]
                && disk == old(disk)[n := ino[n]] && valid == old(valid)[n := false]
      ensures !old(refs[n] == 1 && valid[n] && ino[n].nlink == 0) ==>
                && owner == old(owner) && ino == old(ino) && disk == old(disk) && bitmap == old(bitmap)
                && valid == old(valid)
    {
      if refs[n] == 1 && valid[n] && ino[n].nlink == 0 {
        Itrunc(n);
        SetKind(n, 0);
        Iupdate(n);
        valid := valid[n := false];
      }
      refs := refs[n := refs[n] - 1];
    }

    method SetKind(n: nat, kind: nat)
      requires Valid() && n < |ino|
      modifies this`ino
      ensures Valid() && ino == old(ino)[n := old(ino)[n].(kind := kind)]
    {
      KindKeeps(lay, ino, blocks, owner, n, kind);
      ino := ino[n := ino[n].(kind := kind)];
    }

    // ---- filewrite ----

    /** One begin_op ... end_op of filewrite: r bytes of chunk at off, in one transaction,
        which on a file without holes stays within the reserved blocks. */
    method WriteTransaction(n: nat, off: nat, chunk: seq<nat>, good: nat) returns (r: int, ghost put: nat)
      requires Valid() && n < |ino| == |disk| && off < UINT && |chunk| <= CHUNK
      modifies this`bitmap, this`blocks, this`ino, this`owner, this`logged, this`disk
      ensures Valid() && -1 <= r <= |chunk| && n < |ino| == |disk|
      ensures old(NoHoles(n)) ==> NoHoles(n) && |logged| <= MAXOPBLOCKS && (lay.size <= BPB ==> |logged| <= 7)
      ensures r == -1 ==> ino == old(ino) && blocks == old(blocks) && disk == old(disk) && put == 0
      ensures r >= 0 ==> r <= put <= |chunk| && disk == old(disk)[n := ino[n]]
      ensures r >= 0 ==> Extended(old(ino), old(blocks), ino, blocks, n, off, chunk[..put], r)
      ensures r >= 0 ==> off + |chunk| <= MAXFILE * BSIZE
      ensures r == -1 <==> off > old(ino[n].size) || off + |chunk| > MAXFILE * BSIZE
      ensures 0 <= r < |chunk| ==> Stopped(off, |chunk|, good, r, put)
      ensures r == |chunk| ==> put == r
    {
      logged := {};
      ghost var t;
      r, t := Writei(n, off, chunk, good);
      put := if r == -1 then 0 else t.put;
      if r != -1 {
        FiledExtends(lay, old(ino), old(blocks), {}, ino, blocks, logged, n, off, chunk, r, t);
        if old(NoHoles(n)) {
          TransactionSize(lay, old(ino), old(blocks), {}, ino, blocks, logged, n, off, chunk, r, t);
          assert logged - {} == logged;
        }
      }
    }

    /** Why filewrite has written w of len bytes at off to a file of the given size, and put
        that many into buffers: it refused, the disk is full, or the source cannot be read
        beyond its first `good` bytes. */
    ghost predicate Short(size: nat, off: nat, len: nat, good: nat, w: nat, put: nat)
      reads this
    {
      || off > size || off + len > MAXFILE * BSIZE
      || (Full() && put == w)
      || (good < len && put == Max(w, good) < w + BSIZE)
    }

    /** The piece of filewrite at byte i of data; r bytes of it are written, or r is -1. */
    method WritePiece(n: nat, off: nat, data: seq<nat>, good: nat, i: nat, ghost i0: seq<Inode>, ghost b0: Disk)
      returns (r: int, ghost put: nat)
      requires Valid() && n < |ino| == |disk| && off + i < UINT && i < |data|
      requires Table(i0) && n < |i0| && Progress(i0, b0, ino, blocks, n, off, data, i, i)
      modifies this`bitmap, this`blocks, this`ino, this`owner, this`logged, this`disk
      ensures Valid() && n < |ino| == |disk| && -1 <= r <= Piece(data, i) && (r > 0 ==> r <= put)
      ensures i + put <= |data| && Progress(i0, b0, ino, blocks, n, off, data, i + put, if r > 0 then i + r else i)
      ensures WrittenBack(old(ino), old(disk), ino, disk, n)
      ensures r > 0 ==> off + i + r <= MAXFILE * BSIZE
      ensures r == Piece(data, i) ==> put == r
      ensures r != Piece(data, i) ==> Short(i0[n].size, off, |data|, good, if r > 0 then i + r else i, i + put)
    {
      var n1 := Piece(data, i);
      r, put := WriteTransaction(n, off + i, data[i..i + n1], Minus(good, i));
      if r >= 0 {
        ExtendedMore(i0, b0, old(ino), old(blocks), ino, blocks, n, off, data, i, put, r, n1);
        if r < n1 && !(Full() && put == r) { PieceStops(off, data, good, i, r, put); }
      }
    }

    /** filewrite: each piece is a transaction of at most MAXOPBLOCKS blocks; w bytes have
        been written when it stops, all of them exactly when it reports success, and the
        file is the old one overwritten with them, and with the part of the next chunk
        that could be read if that was the reason to stop. */
    method Filewrite(n: nat, off: nat, data: seq<nat>, good: nat)
      returns (ret: int, end: nat, ghost w: nat, ghost put: nat)
      requires Valid() && n < |ino| == |disk| && off < UINT
      modifies this`bitmap, this`blocks, this`ino, this`owner, this`logged, this`disk
      ensures Valid() && w <= put <= |data| && n < |ino|
      ensures WrittenBack(old(ino), old(disk), ino, disk, n)
      ensures ret == (if w == |data| then |data| else -1) && end == off + w
      ensures off > old(ino[n].size) ==> w == put == 0 && ino == old(ino) && blocks == old(blocks)
      ensures off <= old(ino[n].size) ==> FilesWritten(old(ino), old(blocks), ino, blocks, n, off, data[..put], w)
      ensures w < |data| ==> Short(old(ino[n].size), off, |data|, good, w, put)
    {
      var i;
      i, put := WritePieces(n, off, data, good);
      ProgressFiles(old(ino), old(blocks), ino, blocks, n, off, data, put, i);
      return if i == |data| then |data| else -1, off + i, i, put;
    }

    /** The loop of filewrite: how many bytes it has written when it stops. */
    method WritePieces(n: nat, off: nat, data: seq<nat>, good: nat) returns (i: nat, ghost put: nat)
      requires Valid() && n < |ino| == |disk| && off < UINT
      modifies this`bitmap, this`blocks, this`ino, this`owner, this`logged, this`disk
      ensures Valid() && i <= put <= |data| && WrittenBack(old(ino), old(disk), ino, disk, n)
      ensures Progress(old(ino), old(blocks), ino, blocks, n, off, data, put, i)
      ensures i < |data| ==> Short(old(ino[n].size), off, |data|, good, i, put)
    {
      i := 0;
      while i < |data|
        invariant i <= |data| && Valid() && n < |ino| == |disk| && (i == 0 || off + i <= MAXFILE * BSIZE)
        invariant Progress(old(ino), old(blocks), ino, blocks, n, off, data, i, i)
        invariant WrittenBack(old(ino), old(disk), ino, disk, n)
        decreases |data| - i
      {
        var r;
        ghost var i1, d1 := ino, disk;
        r, put := WritePiece(n, off, data, good, i, old(ino), old(blocks));
        WrittenBackAgain(old(ino), old(disk), i1, d1, ino, disk, n);
        if r != Piece(data, i) {
          return if r > 0 then i + r else i, i + put;
        }
        i := i + r;
      }
      put := i;
    }
  }
}
