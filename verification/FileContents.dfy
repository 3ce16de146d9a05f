/** What writei and readi do to the bytes of files. */
module FileContents {
  import opened Prelude
  import opened FileBlocks

  function WriteData(blocks: Disk, b: nat, off: nat, chunk: seq<nat>): Disk
    requires IsData(blocks, b) && off + |chunk| <= BSIZE
  {
    blocks[b := Data(Splice(blocks[b].bytes, off, chunk))]
  }

  lemma OwnedData(lay: Layout, ino: seq<Inode>, blocks: Disk, owner: map<nat, Slot>, n: nat, bn: nat)
    requires Owners(lay, ino, blocks, owner, {}) && FileBlock(ino, blocks, n, bn) != 0
    ensures var b := FileBlock(ino, blocks, n, bn); b in owner && owner[b] == SlotOf(n, bn) && IsData(blocks, b)
  {
    assert SlotOk(ino, blocks, owner, SlotOf(n, bn));
    assert BlockOk(lay, ino, blocks, owner, FileBlock(ino, blocks, n, bn));
  }

  lemma DataNotIndex(lay: Layout, ino: seq<Inode>, blocks: Disk, owner: map<nat, Slot>, b: nat)
    requires Owners(lay, ino, blocks, owner, {}) && b != 0 && b in owner && !owner[b].IndPtr?
    ensures forall m :: 0 <= m < |ino| ==> ino[m].addrs[NDIRECT] != b
  {
    forall m | 0 <= m < |ino|
      ensures ino[m].addrs[NDIRECT] != b
    {
      assert SlotOk(ino, blocks, owner, IndPtr(m));
    }
  }

  /** Writing file bytes moves no block. */
  lemma WriteKeeps(lay: Layout, ino: seq<Inode>, blocks: Disk, owner: map<nat, Slot>, b: nat, off: nat, chunk: seq<nat>)
    requires Owners(lay, ino, blocks, owner, {}) && b != 0 && b in owner && !owner[b].IndPtr? && IsData(blocks, b)
    requires off + |chunk| <= BSIZE
    ensures Owners(lay, ino, WriteData(blocks, b, off, chunk), owner, {})
    ensures forall t {:trigger At(ino, WriteData(blocks, b, off, chunk), t)} ::
              At(ino, WriteData(blocks, b, off, chunk), t) == At(ino, blocks, t)
  {
    DataNotIndex(lay, ino, blocks, owner, b);
    var blocks' := WriteData(blocks, b, off, chunk);
    forall t
      ensures At(ino, blocks', t) == At(ino, blocks, t)
    {
    }
    forall c | c in owner
      ensures BlockOk(lay, ino, blocks', owner, c)
    {
      assert BlockOk(lay, ino, blocks, owner, c);
    }
    forall t
      ensures SlotOk(ino, blocks', owner, t)
    {
      assert SlotOk(ino, blocks, owner, t);
    }
  }

  lemma WriteBytes(lay: Layout, ino: seq<Inode>, blocks: Disk, owner: map<nat, Slot>, n: nat, bn: nat, off: nat,
                   chunk: seq<nat>, n': nat, bn': nat, o: nat)
    requires Owners(lay, ino, blocks, owner, {}) && off + |chunk| <= BSIZE && o < BSIZE
    requires FileBlock(ino, blocks, n, bn) != 0 && IsData(blocks, FileBlock(ino, blocks, n, bn))
    ensures var blocks' := WriteData(blocks, FileBlock(ino, blocks, n, bn), off, chunk);
            && FileBlock(ino, blocks', n', bn') == FileBlock(ino, blocks, n', bn')
            && FileByte(ino, blocks', n', bn', o)
               == if n' == n && bn' == bn
                   && off <= o < off + |chunk| then chunk[o - off] else FileByte(ino, blocks, n', bn', o)
  {
    OwnedData(lay, ino, blocks, owner, n, bn);
    if FileBlock(ino, blocks, n', bn') != 0 { OwnedData(lay, ino, blocks, owner, n', bn'); }
    WriteKeeps(lay, ino, blocks, owner, FileBlock(ino, blocks, n, bn), off, chunk);
  }

  lemma MappedBytes(lay: Layout, ino: seq<Inode>, blocks: Disk, owner: map<nat, Slot>, ino': seq<Inode>, blocks': Disk,
                    owner': map<nat, Slot>, n: nat, bn: nat, b: nat, n': nat, bn': nat, o: nat)
    requires Owners(lay, ino, blocks, owner, {}) && Table(ino')
    requires Mapped(ino, blocks, owner, ino', blocks', owner', n, bn, b)
    ensures FileBlock(ino, blocks, n', bn') != 0 ==>
              FileBlock(ino', blocks', n', bn') == FileBlock(ino, blocks, n', bn')
    ensures FileByte(ino', blocks', n', bn', o) == FileByte(ino, blocks, n', bn', o)
  {
    var c := FileBlock(ino, blocks, n', bn');
    if c != 0 {
      OwnedData(lay, ino, blocks, owner, n', bn');
      assert c in owner' || c !in owner';
    } else if SlotOf(n', bn') == SlotOf(n, bn) {
      assert n' == n && bn' == bn;
    } else {
      assert At(ino', blocks', SlotOf(n', bn')) == At(ino, blocks, SlotOf(n', bn'));
    }
  }

  // ---- a run of chunks ----

  predicate InRange(off: nat, len: nat, bn: nat, o: nat) {
    off <= bn * BSIZE + o < off + len
  }

  /** `data` has been written to file n at off: the blocks it covers are there, blocks
      that were there are where they were, and all other bytes of all files are as they
      were. */
  ghost predicate Wrote(i0: seq<Inode>, b0: Disk, ino: seq<Inode>, blocks: Disk, n: nat, off: nat, data: seq<nat>)
    requires Table(i0) && Table(ino)
  {
    && (forall n', bn {:trigger FileBlock(ino, blocks, n', bn)} ::
          0 <= n' && 0 <= bn && FileBlock(i0, b0, n', bn) != 0 ==>
              FileBlock(ino, blocks, n', bn) == FileBlock(i0, b0, n', bn))
    && (forall n', bn, o {:trigger FileByte(ino, blocks, n', bn, o)} ::
          0 <= n' && 0 <= bn && 0 <= o < BSIZE && !(n' == n && InRange(off, |data|, bn, o)) ==>
            FileByte(ino, blocks, n', bn, o) == FileByte(i0, b0, n', bn, o))
    && (forall bn, o {:trigger FileByte(ino, blocks, n, bn, o)} ::
         0 <= bn && 0 <= o < BSIZE && InRange(off, |data|, bn, o) ==>
          FileBlock(ino, blocks, n, bn) != 0 && FileByte(ino, blocks, n, bn, o) == data[bn * BSIZE + o - off])
  }

  lemma WroteNothing(ino: seq<Inode>, blocks: Disk, n: nat, off: nat)
    requires Table(ino)
    ensures Wrote(ino, blocks, ino, blocks, n, off, [])
  {
    forall bn, o | 0 <= bn && 0 <= o < BSIZE && InRange(off, 0, bn, o)
      ensures false
    {
    }
  }

  lemma WroteMapped(lay: Layout, i0: seq<Inode>, b0: Disk, i1: seq<Inode>, b1: Disk, o1: map<nat, Slot>, i2: seq<Inode>,
                    b2: Disk, o2: map<nat, Slot>, n: nat, off: nat, data: seq<nat>, bn: nat, b: nat)
    requires Table(i0) && Owners(lay, i1, b1, o1, {}) && Table(i2) && Wrote(i0, b0, i1, b1, n, off, data)
    requires Mapped(i1, b1, o1, i2, b2, o2, n, bn, b)
    ensures Wrote(i0, b0, i2, b2, n, off, data)
  {
    forall n', bn' | 0 <= n' && 0 <= bn' && FileBlock(i0, b0, n', bn') != 0
      ensures FileBlock(i2, b2, n', bn') == FileBlock(i0, b0, n', bn')
    {
      MappedBytes(lay, i1, b1, o1, i2, b2, o2, n, bn, b, n', bn', 0);
    }
    forall n', bn', o | 0 <= n' && 0 <= bn' && 0 <= o < BSIZE && !(n' == n && InRange(off, |data|, bn', o))
      ensures FileByte(i2, b2, n', bn', o) == FileByte(i0, b0, n', bn', o)
    {
      assert FileByte(i1, b1, n', bn', o) == FileByte(i0, b0, n', bn', o);
      MappedBytes(lay, i1, b1, o1, i2, b2, o2, n, bn, b, n', bn', o);
    }
    forall bn', o | 0 <= bn' && 0 <= o < BSIZE && InRange(off, |data|, bn', o)
      ensures FileBlock(i2, b2, n, bn') != 0 && FileByte(i2, b2, n, bn', o) == data[bn' * BSIZE + o - off]
    {
      assert FileByte(i1, b1, n, bn', o) == data[bn' * BSIZE + o - off];
      MappedBytes(lay, i1, b1, o1, i2, b2, o2, n, bn, b, n, bn', o);
    }
  }

  lemma ChunkPlace(f: nat, m: nat, bn: nat, o: nat)
    requires f % BSIZE + m <= BSIZE && o < BSIZE
    ensures InRange(f, m, bn, o) <==> bn == f / BSIZE && f % BSIZE <= o < f % BSIZE + m
    ensures bn == f / BSIZE ==> bn * BSIZE + o - f == o - f % BSIZE
  {
  }

  /** One more chunk, up to m bytes within the block of offset off + k. */
  lemma WroteChunk(lay: Layout, i0: seq<Inode>, b0: Disk, ino: seq<Inode>, blocks: Disk, owner: map<nat, Slot>, n: nat,
                   off: nat, data: seq<nat>, k: nat, m: nat)
    requires Table(i0) && Owners(lay, ino, blocks, owner, {}) && k + m <= |data| && (off + k) % BSIZE + m <= BSIZE
    requires Wrote(i0, b0, ino, blocks, n, off, data[..k])
    requires var b := FileBlock(ino, blocks, n, (off + k) / BSIZE); b != 0 && IsData(blocks, b)
    ensures Wrote(i0, b0, ino,
              WriteData(blocks, FileBlock(ino, blocks, n, (off + k) / BSIZE), (off + k) % BSIZE, data[k..k + m]), n,
              off, data[..k + m])
  {
    var f, d := off + k, data[..k + m];
    var bn := f / BSIZE;
    var b := FileBlock(ino, blocks, n, bn);
    var blocks' := WriteData(blocks, b, f % BSIZE, data[k..k + m]);
    OwnedData(lay, ino, blocks, owner, n, bn);
    WriteKeeps(lay, ino, blocks, owner, b, f % BSIZE, data[k..k + m]);
    forall n', bn', o | 0 <= n' && 0 <= bn' && 0 <= o < BSIZE && !(n' == n && InRange(off, |d|, bn', o))
      ensures FileByte(ino, blocks', n', bn', o) == FileByte(i0, b0, n', bn', o)
    {
      assert FileByte(ino, blocks, n', bn', o) == FileByte(i0, b0, n', bn', o);
      WriteBytes(lay, ino, blocks, owner, n, bn, f % BSIZE, data[k..k + m], n', bn', o);
      ChunkPlace(f, m, bn', o);
    }
    forall bn', o | 0 <= bn' && 0 <= o < BSIZE && InRange(off, |d|, bn', o)
      ensures FileBlock(ino, blocks', n, bn') != 0 && FileByte(ino, blocks', n, bn', o) == d[bn' * BSIZE + o - off]
    {
      if InRange(off, k, bn', o) { assert FileByte(ino, blocks, n, bn', o) == data[..k][bn' * BSIZE + o - off]; }
      ChunkInside(lay, ino, blocks, owner, n, off, data, k, m, bn', o);
    }
    forall n', bn' | 0 <= n' && 0 <= bn' && FileBlock(i0, b0, n', bn') != 0
      ensures FileBlock(ino, blocks', n', bn') == FileBlock(i0, b0, n', bn')
    {
      assert FileBlock(ino, blocks, n', bn') == FileBlock(i0, b0, n', bn');
      assert At(ino, blocks', SlotOf(n', bn')) == At(ino, blocks, SlotOf(n', bn'));
    }
  }

  lemma ChunkInside(lay: Layout, ino: seq<Inode>, blocks: Disk, owner: map<nat, Slot>, n: nat, off: nat, data: seq<nat>,
                    k: nat, m: nat, bn: nat, o: nat)
    requires Owners(lay, ino, blocks, owner, {}) && k + m <= |data| && (off + k) % BSIZE + m <= BSIZE && o < BSIZE
    requires InRange(off, k + m, bn, o)
    requires InRange(off, k, bn, o) ==>
               FileBlock(ino, blocks, n, bn) != 0 && FileByte(ino, blocks, n, bn, o) == data[bn * BSIZE + o - off]
    requires var b := FileBlock(ino, blocks, n, (off + k) / BSIZE); b != 0 && IsData(blocks, b)
    ensures var blocks' := WriteData(blocks, FileBlock(ino, blocks, n, (off + k) / BSIZE), (off + k) % BSIZE,
              data[k..k + m]);
            && FileBlock(ino, blocks', n, bn) != 0
            && FileByte(ino, blocks', n, bn, o) == data[..k + m][bn * BSIZE + o - off]
  {
    ChunkPlace(off + k, m, bn, o);
    WriteBytes(lay, ino, blocks, owner, n, (off + k) / BSIZE, (off + k) % BSIZE, data[k..k + m], n, bn, o);
  }

  /** Every block that the first size bytes of file n reach is allocated. */
  ghost predicate Dense(ino: seq<Inode>, blocks: Disk, n: nat, size: nat)
    requires Table(ino)
  {
    forall bn {:trigger FileBlock(ino, blocks, n, bn)} ::
      0 <= bn && bn * BSIZE < size ==> FileBlock(ino, blocks, n, bn) != 0
  }

  /** A write that starts within the file leaves no hole. */
  lemma DenseAfter(i0: seq<Inode>, b0: Disk, ino: seq<Inode>, blocks: Disk, n: nat, size: nat, off: nat, data: seq<nat>)
    requires Table(i0) && Table(ino) && Wrote(i0, b0, ino, blocks, n, off, data) && Dense(i0, b0, n, size)
    requires off <= size
    ensures Dense(ino, blocks, n, if off + |data| > size then off + |data| else size)
  {
    forall bn | 0 <= bn && bn * BSIZE < (if off + |data| > size then off + |data| else size)
      ensures FileBlock(ino, blocks, n, bn) != 0
    {
      if bn * BSIZE < size {
        assert FileBlock(i0, b0, n, bn) != 0;
      } else {
        assert InRange(off, |data|, bn, 0);
        assert FileByte(ino, blocks, n, bn, 0) == data[bn * BSIZE - off];
      }
    }
  }

  lemma OthersDense(i0: seq<Inode>, b0: Disk, ino: seq<Inode>, blocks: Disk, n: nat, off: nat, data: seq<nat>, m: nat,
                    size: nat)
    requires Table(i0) && Table(ino) && Wrote(i0, b0, ino, blocks, n, off, data) && Dense(i0, b0, m, size)
    ensures Dense(ino, blocks, m, size)
  {
    forall bn | 0 <= bn && bn * BSIZE < size
      ensures FileBlock(ino, blocks, m, bn) != 0
    {
      assert FileBlock(i0, b0, m, bn) != 0;
    }
  }

  /** The size is not part of the block map. */
  lemma SizeKeeps(lay: Layout, ino: seq<Inode>, blocks: Disk, owner: map<nat, Slot>, n: nat, size: nat)
    requires Owners(lay, ino, blocks, owner, {}) && n < |ino|
    ensures Owners(lay, ino[n := ino[n].(size := size)], blocks, owner, {})
    ensures forall s {:trigger At(ino[n := ino[n].(size := size)], blocks, s)} ::
              At(ino[n := ino[n].(size := size)], blocks, s) == At(ino, blocks, s)
  {
    var ino' := ino[n := ino[n].(size := size)];
    forall s
      ensures At(ino', blocks, s) == At(ino, blocks, s)
    {
    }
    forall b | b in owner
      ensures BlockOk(lay, ino', blocks, owner, b)
    {
      assert BlockOk(lay, ino, blocks, owner, b);
    }
    forall s
      ensures SlotOk(ino', blocks, owner, s)
    {
      assert SlotOk(ino, blocks, owner, s);
    }
  }

  lemma SizeWrote(i0: seq<Inode>, b0: Disk, ino: seq<Inode>, blocks: Disk, n: nat, size: nat, off: nat, data: seq<nat>)
    requires Table(i0) && Table(ino) && n < |ino| && Wrote(i0, b0, ino, blocks, n, off, data)
    ensures Table(ino[n := ino[n].(size := size)])
    ensures Wrote(i0, b0, ino[n := ino[n].(size := size)], blocks, n, off, data)
  {
    var ino' := ino[n := ino[n].(size := size)];
    forall n', bn | 0 <= n' && 0 <= bn
      ensures FileBlock(ino', blocks, n', bn) == FileBlock(ino, blocks, n', bn)
    {
    }
    forall n', bn, o | 0 <= n' && 0 <= bn && 0 <= o < BSIZE
      ensures FileByte(ino', blocks, n', bn, o) == FileByte(ino, blocks, n', bn, o)
    {
    }
    forall bn, o | 0 <= bn && 0 <= o < BSIZE && InRange(off, |data|, bn, o)
      ensures FileBlock(ino', blocks, n, bn) != 0 && FileByte(ino', blocks, n, bn, o) == data[bn * BSIZE + o - off]
    {
      assert FileByte(ino, blocks, n, bn, o) == data[bn * BSIZE + o - off];
    }
  }

  // ---- files as byte sequences ----

  function ByteAt(ino: seq<Inode>, blocks: Disk, n: nat, i: nat): nat
    requires Table(ino)
  {
    FileByte(ino, blocks, n, i / BSIZE, i % BSIZE)
  }

  function Contents(ino: seq<Inode>, blocks: Disk, n: nat): seq<nat>
    requires Table(ino) && n < |ino|
  {
    seq(ino[n].size, i requires 0 <= i => ByteAt(ino, blocks, n, i))
  }

  /** c with d written over it at off. */
  function Overwritten(c: seq<nat>, off: nat, d: seq<nat>): seq<nat>
    requires off <= |c|
  {
    c[..off] + d + (if off + |d| < |c| then c[off + |d|..] else [])
  }

  lemma WroteByte(i0: seq<Inode>, b0: Disk, ino: seq<Inode>, blocks: Disk, n: nat, off: nat, data: seq<nat>, m: nat,
                  i: nat)
    requires Table(i0) && Table(ino) && Wrote(i0, b0, ino, blocks, n, off, data)
    ensures ByteAt(ino, blocks, m, i) == if m == n
              && off <= i < off + |data| then data[i - off] else ByteAt(i0, b0, m, i)
  {
    var bn, o := i / BSIZE, i % BSIZE;
    assert bn * BSIZE + o == i;
    if m == n && InRange(off, |data|, bn, o) {
      assert FileByte(ino, blocks, n, bn, o) == data[bn * BSIZE + o - off];
    } else {
      assert FileByte(ino, blocks, m, bn, o) == FileByte(i0, b0, m, bn, o);
    }
  }

  /** Data d has been written to file n at off, within the file, and the first len bytes of
      it counted: the bytes of the file are the old ones overwritten, up to the larger of
      the old size and the end of what was counted; every other file has its bytes, and
      no file has got a hole. */
  ghost predicate FilesWritten(i0: seq<Inode>, b0: Disk, ino: seq<Inode>, blocks: Disk, n: nat, off: nat, d: seq<nat>,
                               len: nat)
  {
    && Table(i0) && Table(ino) && n < |i0| == |ino| && off <= i0[n].size && len <= |d|
    && Contents(ino, blocks, n) == Overwritten(Contents(i0, b0, n), off, d)[..Max(i0[n].size, off + len)]
    && (forall m {:trigger Contents(ino, blocks, m)} ::
         0 <= m < |ino| && m != n ==> Contents(ino, blocks, m) == Contents(i0, b0, m))
    && (forall m {:trigger Dense(ino, blocks, m, ino[m].size)} ::
         0 <= m < |ino| && Dense(i0, b0, m, i0[m].size) ==> Dense(ino, blocks, m, ino[m].size))
  }

  function Max(a: nat, b: nat): nat {
    if a < b then b else a
  }

  /** Bytes d have been written to file n at off, which was within the file, and len of them
      counted. */
  ghost predicate Extended(i0: seq<Inode>, b0: Disk, ino: seq<Inode>, blocks: Disk, n: nat, off: nat, d: seq<nat>,
                           len: nat)
  {
    && Table(i0) && Table(ino) && n < |i0| == |ino| && Wrote(i0, b0, ino, blocks, n, off, d) && off <= i0[n].size
    && len <= |d| && ino[n].size == Max(i0[n].size, off + len)
    && (forall m :: 0 <= m < |ino| && m != n ==> ino[m] == i0[m])
  }

  lemma WroteContents(i0: seq<Inode>, b0: Disk, ino: seq<Inode>, blocks: Disk, n: nat, off: nat, d: seq<nat>, len: nat)
    requires Extended(i0, b0, ino, blocks, n, off, d, len)
    ensures Contents(ino, blocks, n) == Overwritten(Contents(i0, b0, n), off, d)[..Max(i0[n].size, off + len)]
  {
    forall i | 0 <= i < ino[n].size
      ensures Contents(ino, blocks, n)[i] == Overwritten(Contents(i0, b0, n), off, d)[i]
    {
      WroteByte(i0, b0, ino, blocks, n, off, d, n, i);
    }
  }

  lemma OtherContents(i0: seq<Inode>, b0: Disk, ino: seq<Inode>, blocks: Disk, n: nat, off: nat, d: seq<nat>, len: nat,
                      m: nat)
    requires Extended(i0, b0, ino, blocks, n, off, d, len) && m < |ino| && m != n
    ensures Contents(ino, blocks, m) == Contents(i0, b0, m)
  {
    forall i | 0 <= i < i0[m].size
      ensures Contents(ino, blocks, m)[i] == Contents(i0, b0, m)[i]
    {
      WroteByte(i0, b0, ino, blocks, n, off, d, m, i);
    }
  }

  lemma OwnDense(i0: seq<Inode>, b0: Disk, ino: seq<Inode>, blocks: Disk, n: nat, off: nat, d: seq<nat>, len: nat)
    requires Extended(i0, b0, ino, blocks, n, off, d, len) && Dense(i0, b0, n, i0[n].size)
    ensures Dense(ino, blocks, n, ino[n].size)
  {
    DenseAfter(i0, b0, ino, blocks, n, i0[n].size, off, d);
  }

  /** What a write to the block maps means for the files as byte sequences. */
  lemma ExtendedFiles(i0: seq<Inode>, b0: Disk, ino: seq<Inode>, blocks: Disk, n: nat, off: nat, d: seq<nat>, len: nat)
    requires Extended(i0, b0, ino, blocks, n, off, d, len)
    ensures FilesWritten(i0, b0, ino, blocks, n, off, d, len)
  {
    WroteContents(i0, b0, ino, blocks, n, off, d, len);
    forall m | 0 <= m < |ino| && m != n
      ensures Contents(ino, blocks, m) == Contents(i0, b0, m)
    {
      OtherContents(i0, b0, ino, blocks, n, off, d, len, m);
    }
    forall m | 0 <= m < |ino| && Dense(i0, b0, m, i0[m].size)
      ensures Dense(ino, blocks, m, ino[m].size)
    {
      if m == n { OwnDense(i0, b0, ino, blocks, n, off, d, len); }
      else { OthersDense(i0, b0, ino, blocks, n, off, d, m, i0[m].size); }
    }
  }

  lemma NothingWritten(ino: seq<Inode>, blocks: Disk, n: nat, off: nat)
    requires Table(ino) && n < |ino| && off <= ino[n].size
    ensures FilesWritten(ino, blocks, ino, blocks, n, off, [], 0)
  {
    assert Overwritten(Contents(ino, blocks, n), off, [])[..ino[n].size] == Contents(ino, blocks, n);
  }

  /** Two writes one after the other are one write. */
  lemma WroteTwice(i0: seq<Inode>, b0: Disk, i1: seq<Inode>, b1: Disk, i2: seq<Inode>, b2: Disk, n: nat, off: nat,
                   d1: seq<nat>, d2: seq<nat>)
    requires Table(i0) && Table(i1) && Table(i2) && Wrote(i0, b0, i1, b1, n, off, d1)
    requires Wrote(i1, b1, i2, b2, n, off + |d1|, d2)
    ensures Wrote(i0, b0, i2, b2, n, off, d1 + d2)
  {
    var d := d1 + d2;
    forall n', bn | 0 <= n' && 0 <= bn && FileBlock(i0, b0, n', bn) != 0
      ensures FileBlock(i2, b2, n', bn) == FileBlock(i0, b0, n', bn)
    {
      assert FileBlock(i1, b1, n', bn) == FileBlock(i0, b0, n', bn);
    }
    forall n', bn, o | 0 <= n' && 0 <= bn && 0 <= o < BSIZE && !(n' == n && InRange(off, |d|, bn, o))
      ensures FileByte(i2, b2, n', bn, o) == FileByte(i0, b0, n', bn, o)
    {
      assert FileByte(i1, b1, n', bn, o) == FileByte(i0, b0, n', bn, o);
      assert !(n' == n && InRange(off + |d1|, |d2|, bn, o));
    }
    forall bn, o | 0 <= bn && 0 <= o < BSIZE && InRange(off, |d|, bn, o)
      ensures FileBlock(i2, b2, n, bn) != 0 && FileByte(i2, b2, n, bn, o) == d[bn * BSIZE + o - off]
    {
      if InRange(off, |d1|, bn, o) {
        assert FileByte(i1, b1, n, bn, o) == d1[bn * BSIZE + o - off];
        assert FileBlock(i2, b2, n, bn) == FileBlock(i1, b1, n, bn);
        assert !InRange(off + |d1|, |d2|, bn, o);
      } else {
        assert InRange(off + |d1|, |d2|, bn, o);
        assert FileByte(i2, b2, n, bn, o) == d2[bn * BSIZE + o - (off + |d1|)];
      }
    }
  }

  lemma ExtendedTwice(i0: seq<Inode>, b0: Disk, i1: seq<Inode>, b1: Disk, i2: seq<Inode>, b2: Disk, n: nat, off: nat,
                      off1: nat, d1: seq<nat>, d2: seq<nat>, d: seq<nat>, len1: nat, len: nat)
    requires Extended(i0, b0, i1, b1, n, off, d1, |d1|) && Extended(i1, b1, i2, b2, n, off1, d2, len1)
    requires off1 == off + |d1| && d == d1 + d2 && len == |d1| + len1
    ensures Extended(i0, b0, i2, b2, n, off, d, len)
  {
    WroteTwice(i0, b0, i1, b1, i2, b2, n, off, d1, d2);
  }

  lemma ExtendedNone(ino: seq<Inode>, blocks: Disk, n: nat, off: nat, d: seq<nat>)
    requires Table(ino) && n < |ino| && off <= ino[n].size && |d| == 0
    ensures Extended(ino, blocks, ino, blocks, n, off, d, 0)
  {
    WroteNothing(ino, blocks, n, off);
    assert d == [];
  }
}
