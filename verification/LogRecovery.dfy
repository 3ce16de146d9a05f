/** The on-disk log of kernel/log.c and recovery from it.

    A disk is a sequence of blocks and a block is a sequence of words.  The log
    region holds a header block followed by log blocks; every other block is a
    home block.  The only assumption on the device is that writing one block is
    atomic, so the states a crash can leave behind are exactly the disks between
    two block writes. */
module LogRecovery {

  type Block = seq<int>
  type Disk = seq<Block>

  /** Geometry of the disk: number of blocks, words per block, first block and
      length of the log region (sb.logstart, sb.nlog), and LOGSIZE. */
  datatype Geometry = Geometry(nblocks: nat, words: nat, start: nat, size: nat, logsize: nat) {

    /** initlog's check that a header fits in a block, and mkfs's placement of
        the log region inside the disk. */
    predicate Ok() {
      1 <= size && start + size <= nblocks && logsize < words && 1 <= logsize
    }

    predicate InLog(b: int) {
      start <= b < start + size
    }

    predicate Home(b: int) {
      0 <= b < nblocks && !InLog(b)
    }

    /** Block numbers that a header may list: home blocks, few enough for both
        the header array and the log region. */
    predicate ListOk(hdr: seq<int>) {
      |hdr| <= logsize && |hdr| < size && forall j :: 0 <= j < |hdr| ==> Home(hdr[j])
    }

    predicate DiskShape(d: Disk) {
      |d| == nblocks && forall b :: 0 <= b < |d| ==> |d[b]| == words
    }

    /** A disk whose header block decodes to an acceptable list. */
    predicate DiskOk(d: Disk) {
      Ok() && DiskShape(d) && HeaderWellFormed(d[start]) && ListOk(HeaderOf(d[start]))
    }

    predicate HeaderWellFormed(h: Block) {
      |h| >= 1 && 0 <= h[0] < |h|
    }
  }

  /** Decoding of struct logheader: a count, then that many block numbers. */
  function HeaderOf(h: Block): seq<int>
    requires |h| >= 1 && 0 <= h[0] < |h|
  {
    h[1..1 + h[0]]
  }

  /** write_head overwrites the count and the first n entries and leaves the
      remaining words of the header buffer as they were. */
  function WithHeader(h: Block, hdr: seq<int>): Block
    requires |hdr| < |h|
  {
    [|hdr|] + hdr + h[1 + |hdr|..]
  }

  lemma WithHeaderDecodes(h: Block, hdr: seq<int>)
    requires |hdr| < |h|
    ensures |WithHeader(h, hdr)| == |h|
    ensures WithHeader(h, hdr)[0] == |hdr|
    ensures HeaderOf(WithHeader(h, hdr)) == hdr
  {
  }

  /** The disk after install_trans has copied the first k log blocks home. */
  function Installed(g: Geometry, d: Disk, hdr: seq<int>, k: nat): (r: Disk)
    requires g.Ok() && |d| == g.nblocks && g.ListOk(hdr) && k <= |hdr|
    ensures |r| == |d|
    decreases k
  {
    if k == 0 then d
    else
      var r := Installed(g, d, hdr, k - 1);
      r[hdr[k - 1] := r[g.start + k]]
  }

  /** Last index below k at which hdr names block b, or -1. */
  function LastIndex(hdr: seq<int>, k: nat, b: int): (j: int)
    requires k <= |hdr|
    ensures -1 <= j < k
    ensures j >= 0 ==> hdr[j] == b
    ensures forall i :: j < i < k ==> hdr[i] != b
  {
    if k == 0 then -1
    else if hdr[k - 1] == b then k - 1
    else LastIndex(hdr, k - 1, b)
  }

  /** What a partial install leaves in every block. */
  lemma {:induction false} InstalledAt(g: Geometry, d: Disk, hdr: seq<int>, k: nat, b: int)
    requires g.Ok() && |d| == g.nblocks && g.ListOk(hdr) && k <= |hdr| && 0 <= b < |d|
    ensures Installed(g, d, hdr, k)[b] ==
            if LastIndex(hdr, k, b) >= 0 then d[g.start + 1 + LastIndex(hdr, k, b)] else d[b]
    ensures g.InLog(b) ==> Installed(g, d, hdr, k)[b] == d[b]
  {
    if k > 0 {
      InstalledAt(g, d, hdr, k - 1, b);
      InstalledAt(g, d, hdr, k - 1, g.start + k);
    }
  }

  /** The disk recover_from_log leaves: everything installed, header cleared. */
  function Recovered(g: Geometry, d: Disk): Disk
    requires g.DiskOk(d)
  {
    var hdr := HeaderOf(d[g.start]);
    var r := Installed(g, d, hdr, |hdr|);
    r[g.start := WithHeader(d[g.start], [])]
  }

  /** The disk after the first k block writes of recover_from_log. */
  function RecoveryState(g: Geometry, d: Disk, k: nat): Disk
    requires g.DiskOk(d) && k <= |HeaderOf(d[g.start])| + 1
  {
    var hdr := HeaderOf(d[g.start]);
    if k <= |hdr| then Installed(g, d, hdr, k) else Recovered(g, d)
  }

  /** Agreement of two disks on all home blocks. */
  ghost predicate SameHome(g: Geometry, d: Disk, e: Disk)
    requires |d| == g.nblocks && |e| == g.nblocks
  {
    forall b :: g.Home(b) ==> d[b] == e[b]
  }

  lemma InstalledShape(g: Geometry, d: Disk, hdr: seq<int>, k: nat)
    requires g.Ok() && g.DiskShape(d) && g.ListOk(hdr) && k <= |hdr|
    ensures g.DiskShape(Installed(g, d, hdr, k))
    ensures Installed(g, d, hdr, k)[g.start] == d[g.start]
  {
    forall b | 0 <= b < |d|
      ensures |Installed(g, d, hdr, k)[b]| == g.words
    {
      InstalledAt(g, d, hdr, k, b);
    }
    InstalledAt(g, d, hdr, k, g.start);
  }

  /** Installing again after a partial install gives the same disk: the redo log
      is idempotent. */
  lemma InstallAbsorbs(g: Geometry, d: Disk, hdr: seq<int>, k: nat)
    requires g.Ok() && g.DiskShape(d) && g.ListOk(hdr) && k <= |hdr|
    ensures Installed(g, Installed(g, d, hdr, k), hdr, |hdr|) == Installed(g, d, hdr, |hdr|)
  {
    var e := Installed(g, d, hdr, k);
    forall b | 0 <= b < |d|
      ensures Installed(g, e, hdr, |hdr|)[b] == Installed(g, d, hdr, |hdr|)[b]
    {
      InstalledAt(g, d, hdr, |hdr|, b);
      InstalledAt(g, e, hdr, |hdr|, b);
      InstalledAt(g, d, hdr, k, b);
      var j := LastIndex(hdr, |hdr|, b);
      if j >= 0 {
        InstalledAt(g, d, hdr, k, g.start + 1 + j);
      }
    }
  }

  /** A crash after any number of recovery's own writes leaves a disk that is
      well formed and recovers to the same home blocks. */
  lemma RecoveryStateRecovers(g: Geometry, d: Disk, k: nat)
    requires g.DiskOk(d) && k <= |HeaderOf(d[g.start])| + 1
    ensures g.DiskOk(RecoveryState(g, d, k))
    ensures SameHome(g, Recovered(g, RecoveryState(g, d, k)), Recovered(g, d))
  {
    var hdr := HeaderOf(d[g.start]);
    if k <= |hdr| {
      InstalledShape(g, d, hdr, k);
      InstallAbsorbs(g, d, hdr, k);
    } else {
      InstalledShape(g, d, hdr, |hdr|);
      WithHeaderDecodes(d[g.start], []);
    }
  }

  /** One attempt at recovery that starts from d and is cut short, leaving e. */
  ghost predicate Attempt(g: Geometry, d: Disk, e: Disk)
  {
    g.DiskOk(d) && exists k: nat :: k <= |HeaderOf(d[g.start])| + 1 && e == RecoveryState(g, d, k)
  }

  /** Any number of crashes inside recovery: disks[0] is the disk found at boot
      and each later one is what a further interrupted attempt left behind. */
  ghost predicate CrashedAttempts(g: Geometry, disks: seq<Disk>)
  {
    |disks| >= 1 && forall i :: 0 <= i < |disks| - 1 ==> Attempt(g, disks[i], disks[i + 1])
  }

  lemma AttemptKeepsOutcome(g: Geometry, d: Disk, e: Disk)
    requires Attempt(g, d, e)
    ensures g.DiskOk(e) && SameHome(g, Recovered(g, e), Recovered(g, d))
  {
    var k: nat :| k <= |HeaderOf(d[g.start])| + 1 && e == RecoveryState(g, d, k);
    RecoveryStateRecovers(g, d, k);
  }

  lemma {:induction false} AttemptsKeepOutcome(g: Geometry, disks: seq<Disk>)
    requires CrashedAttempts(g, disks) && g.DiskOk(disks[0])
    ensures g.DiskOk(disks[|disks| - 1])
    ensures SameHome(g, Recovered(g, disks[|disks| - 1]), Recovered(g, disks[0]))
    decreases |disks|
  {
    var n := |disks| - 1;
    if n > 0 {
      AttemptsKeepOutcome(g, disks[..n]);
      assert Attempt(g, disks[n - 1], disks[n]);
      AttemptKeepsOutcome(g, disks[n - 1], disks[n]);
    }
  }

  /** The device during boot, when recovery has the machine to itself.
      `history` records the disk after every block write. */
  class BootDisk {
    const g: Geometry
    var blocks: Disk
    ghost var history: seq<Disk>

    constructor (g: Geometry, d: Disk)
      requires g.DiskOk(d)
      ensures this.g == g && blocks == d && history == []
    {
      this.g := g;
      blocks := d;
      history := [];
    }

    /** Write one block. */
    method Bwrite(b: nat, data: Block)
      requires b < |blocks|
      modifies this
      ensures blocks == old(blocks)[b := data]
      ensures history == old(history) + [blocks]
    {
      blocks := blocks[b := data];
      history := history + [blocks];
    }

    /** read_head */
    method ReadHead() returns (hdr: seq<int>)
      requires g.DiskOk(blocks)
      ensures hdr == HeaderOf(blocks[g.start])
    {
      var h := blocks[g.start];
      var n := h[0];
      hdr := [];
      var i := 0;
      while i < n
        invariant 0 <= i <= n
        invariant hdr == h[1..1 + i]
      {
        hdr := hdr + [h[1 + i]];
        i := i + 1;
      }
    }

    /** write_head */
    method WriteHead(hdr: seq<int>)
      requires g.Ok() && |blocks| == g.nblocks && |hdr| < |blocks[g.start]|
      modifies this
      ensures blocks == old(blocks)[g.start := WithHeader(old(blocks)[g.start], hdr)]
      ensures history == old(history) + [blocks]
    {
      ghost var h0 := blocks[g.start];
      var h := blocks[g.start];
      h := h[0 := |hdr|];
      var i := 0;
      while i < |hdr|
        invariant 0 <= i <= |hdr|
        invariant |h| == |h0|
        invariant h == [|hdr|] + hdr[..i] + h0[1 + i..]
      {
        h := h[1 + i := hdr[i]];
        i := i + 1;
      }
      assert hdr[..i] == hdr;
      Bwrite(g.start, h);
    }

    /** install_trans(1) */
    method InstallTrans(hdr: seq<int>)
      requires g.DiskOk(blocks) && g.ListOk(hdr)
      modifies this
      ensures blocks == Installed(g, old(blocks), hdr, |hdr|)
      ensures |history| == |old(history)| + |hdr| && history[..|old(history)|] == old(history)
      ensures forall k :: |old(history)| <= k < |history| ==>
                history[k] == Installed(g, old(blocks), hdr, k - |old(history)| + 1)
    {
      ghost var d := blocks;
      ghost var h0 := history;
      var tail := 0;
      while tail < |hdr|
        invariant 0 <= tail <= |hdr|
        invariant blocks == Installed(g, d, hdr, tail)
        invariant |history| == |h0| + tail && history[..|h0|] == h0
        invariant forall k :: |h0| <= k < |history| ==> history[k] == Installed(g, d, hdr, k - |h0| + 1)
      {
        var data := blocks[g.start + tail + 1];
        Bwrite(hdr[tail], data);
        tail := tail + 1;
      }
    }

    /** recover_from_log: the final disk is Recovered, and the disk after each
        block write on the way is the corresponding RecoveryState, so each of
        them still recovers to the same home blocks. */
    method RecoverFromLog()
      requires g.DiskOk(blocks) && history == []
      modifies this
      ensures blocks == Recovered(g, old(blocks))
      ensures |history| == |HeaderOf(old(blocks)[g.start])| + 1
      ensures forall k :: 0 <= k < |history| ==> history[k] == RecoveryState(g, old(blocks), k + 1)
      ensures HeaderOf(blocks[g.start]) == []
    {
      ghost var d := blocks;
      var hdr := ReadHead();
      InstallTrans(hdr);
      InstalledShape(g, d, hdr, |hdr|);
      WriteHead([]);
    }
  }
}
