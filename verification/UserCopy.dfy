/** Copying between the kernel and user memory (kernel/vm.c). */
module UserCopy {
  import opened Prelude
  import opened PageTable
  import opened AddressSpace
  import opened VirtualMemory

  predicate Readable(mem: Memory, r: nat, v: nat) {
    v < MAXVPN && Lookup(mem, r, v).v && Lookup(mem, r, v).u
  }

  predicate Writable(mem: Memory, r: nat, v: nat) {
    Readable(mem, r, v) && Lookup(mem, r, v).w
  }

  /** The byte that user address va names. */
  function UserByte(mem: Memory, r: nat, v: nat, o: nat): nat {
    var e := Lookup(mem, r, v);
    if e.ppn in mem && mem[e.ppn].Frame? && o < |mem[e.ppn].bytes| then mem[e.ppn].bytes[o] else 0
  }

  function ByteAt(mem: Memory, r: nat, va: nat): nat {
    UserByte(mem, r, va / PGSIZE, va % PGSIZE)
  }

  predicate ReadableAt(mem: Memory, r: nat, va: nat) {
    Readable(mem, r, va / PGSIZE)
  }

  predicate WritableAt(mem: Memory, r: nat, va: nat) {
    Writable(mem, r, va / PGSIZE)
  }

  /** Every page that the addresses va..va+n touch is readable. */
  ghost predicate ReadableSpan(mem: Memory, r: nat, va: nat, n: nat) {
    forall a :: va <= a < va + n ==> ReadableAt(mem, r, a)
  }

  ghost predicate WritableSpan(mem: Memory, r: nat, va: nat, n: nat) {
    forall a :: va <= a < va + n ==> WritableAt(mem, r, a)
  }

  /** data has been written at user address va of r; every other user byte is as it was. */
  ghost predicate Written(m0: Memory, mem: Memory, at: map<Node, nat>, r: nat, va: nat, data: seq<nat>) {
    forall r', v, o :: Root(r') in at && 0 <= o < PGSIZE && 0 <= v && Readable(m0, r', v) ==>
      UserByte(mem, r', v, o)
      == if r' == r && va <= v * PGSIZE + o < va + |data| then data[v * PGSIZE + o - va] else UserByte(m0, r', v, o)
  }

  /** A user page is owned, so it is a frame and no other entry of any space maps it. */
  lemma UserPageOwned(mem: Memory, at: map<Node, nat>, r: nat, v: nat)
    requires Tree(mem, at, None) && Root(r) in at && Readable(mem, r, v)
    ensures LowNode(r, v) in at && UserNode(r, v) in at && Lookup(mem, r, v).ppn == at[UserNode(r, v)]
    ensures IsFrame(mem, at[UserNode(r, v)])
    ensures IsTable(mem, at[LowNode(r, v)]) && Lookup(mem, r, v) == mem[at[LowNode(r, v)]].ptes[Px(0, v)]
  {
    LookupIsFlat(mem, at, r, v);
    PathBelow(r, v);
    assert NodeOk(mem, at, None, LowNode(r, v));
    assert NodeOk(mem, at, None, UserNode(r, v));
  }

  lemma UserNodesApart(r: nat, v: nat, r': nat, v': nat)
    requires v < MAXVPN && v' < MAXVPN && UserNode(r, v) == UserNode(r', v')
    ensures r == r' && v == v'
  {
    UserNodeInjective(r, v, v');
  }

  /** One chunk, in one page, after the bytes before it. */
  lemma ChunkWritten(m0: Memory, mem: Memory, at: map<Node, nat>, own: map<nat, Node>, r: nat, va: nat, data: seq<nat>,
                     k: nat, n: nat)
    requires Tree(mem, at, None) && Inverse(at, own) && Root(r) in at && SameEntries(m0, mem, at)
    requires k + n <= |data| && Written(m0, mem, at, r, va, data[..k]) && n > 0 && (va + k) % PGSIZE + n <= PGSIZE
    requires Readable(mem, r, (va + k) / PGSIZE)
    ensures var v := (va + k) / PGSIZE;
            UserNode(r, v) in at && IsFrame(mem, at[UserNode(r, v)])
            && Written(m0,
                 mem[at[UserNode(r, v)] := Frame(Splice(mem[at[UserNode(r, v)]].bytes, (va + k) % PGSIZE,
                 data[k..k + n]))], at, r, va, data[..k + n])
  {
    var v := (va + k) / PGSIZE;
    UserPageOwned(mem, at, r, v);
    var p := at[UserNode(r, v)];
    var mem' := mem[p := Frame(Splice(mem[p].bytes, (va + k) % PGSIZE, data[k..k + n]))];
    PathBelow(r, v);
    FrameWrite(mem, at, own, UserNode(r, v), mem'[p]);
    forall r', v', o | Root(r') in at && 0 <= o < PGSIZE && 0 <= v' && Readable(m0, r', v')
      ensures UserByte(mem', r', v', o)
           == if r' == r
               && va <= v' * PGSIZE + o < va + k + n then data[..k + n][v' * PGSIZE + o - va]
               else UserByte(m0, r', v', o)
    {
      ChunkByte(m0, mem, at, own, r, va, data, k, n, mem', r', v', o);
    }
  }

  lemma ChunkByte(m0: Memory, mem: Memory, at: map<Node, nat>, own: map<nat, Node>, r: nat, va: nat, data: seq<nat>,
                  k: nat, n: nat, mem': Memory, r': nat, v': nat, o: nat)
    requires Tree(mem, at, None) && Inverse(at, own) && Root(r) in at && SameEntries(m0, mem, at)
    requires SameEntries(mem, mem', at)
    requires k + n <= |data| && Written(m0, mem, at, r, va, data[..k]) && (va + k) % PGSIZE + n <= PGSIZE
    requires var v := (va + k) / PGSIZE;
             Readable(mem, r, v) && UserNode(r, v) in at && IsFrame(mem, at[UserNode(r, v)])
             && mem' == mem[at[UserNode(r, v)] := Frame(Splice(mem[at[UserNode(r, v)]].bytes, (va + k) % PGSIZE,
                  data[k..k + n]))]
    requires Root(r') in at && 0 <= o < PGSIZE && Readable(m0, r', v')
    ensures UserByte(mem', r', v', o)
         == if r' == r
             && va <= v' * PGSIZE + o < va + k + n then data[..k + n][v' * PGSIZE + o - va] else UserByte(m0, r', v', o)
  {
    var v := (va + k) / PGSIZE;
    UserPageOwned(mem, at, r, v);
    UserPageOwned(mem, at, r', v');
    assert UserByte(mem, r', v', o) == if r' == r
        && va <= v' * PGSIZE + o < va + k then data[..k][v' * PGSIZE + o - va] else UserByte(m0, r', v', o);
    if r' != r || v' != v {
      if UserNode(r', v') == UserNode(r, v) { UserNodesApart(r, v, r', v'); }
      OffPage(va, k, n, v', o);
    } else {
      OnPage(va, k, n, o);
    }
  }

  lemma OffPage(va: nat, k: nat, n: nat, v': nat, o: nat)
    requires (va + k) % PGSIZE + n <= PGSIZE && o < PGSIZE
    ensures v' != (va + k) / PGSIZE ==> (v' * PGSIZE + o < va + k || v' * PGSIZE + o >= va + k + n)
  {
  }

  lemma OnPage(va: nat, k: nat, n: nat, o: nat)
    requires (va + k) % PGSIZE + n <= PGSIZE && o < PGSIZE
    ensures var a := (va + k) / PGSIZE * PGSIZE + o;
            (va + k) % PGSIZE <= o < (va + k) % PGSIZE + n <==> va + k <= a < va + k + n
    ensures (va + k) / PGSIZE * PGSIZE + o - (va + k) == o - (va + k) % PGSIZE
  {
  }

  lemma SpanStep(mem: Memory, r: nat, va: nat, k: nat, n: nat)
    requires WritableSpan(mem, r, va, k) && Writable(mem, r, (va + k) / PGSIZE) && (va + k) % PGSIZE + n <= PGSIZE
    ensures WritableSpan(mem, r, va, k + n)
  {
    forall a | va + k <= a < va + k + n
      ensures WritableAt(mem, r, a)
    {
      assert a / PGSIZE == (va + k) / PGSIZE;
    }
  }

  lemma ReadSpanStep(mem: Memory, r: nat, va: nat, k: nat, n: nat)
    requires ReadableSpan(mem, r, va, k) && Readable(mem, r, (va + k) / PGSIZE) && (va + k) % PGSIZE + n <= PGSIZE
    ensures ReadableSpan(mem, r, va, k + n)
  {
    forall a | va + k <= a < va + k + n
      ensures ReadableAt(mem, r, a)
    {
      assert a / PGSIZE == (va + k) / PGSIZE;
    }
  }

  /** walk without alloc, and the entry it finds; a missing table reads as no entry. */
  method FindEntry(vm: Vm, r: nat, v: nat) returns (e: Pte)
    requires vm.Valid() && Root(r) in vm.at && v < MAXVPN
    modifies vm
    ensures vm.Valid() && vm.mem == old(vm.mem) && vm.free == old(vm.free) && vm.at == old(vm.at)
    ensures vm.own == old(vm.own) && vm.held == old(vm.held)
    ensures e == Lookup(vm.mem, r, v)
  {
    LookupIsFlat(vm.mem, vm.at, r, v);
    var t := vm.Walk(r, v, false);
    if t.None? { return EMPTY; }
    assert NodeOk(vm.mem, vm.at, None, LowNode(r, v));
    e := vm.mem[t.value].ptes[Px(0, v)];
  }

  /** The memmove of one chunk into the page of address va + k. */
  method WriteChunk(vm: Vm, r: nat, va: nat, src: seq<nat>, k: nat, n: nat, ppn: nat, ghost m0: Memory)
    requires vm.Valid() && Root(r) in vm.at && SameEntries(m0, vm.mem, vm.at)
    requires k + n <= |src| && n > 0 && (va + k) % PGSIZE + n <= PGSIZE && Written(m0, vm.mem, vm.at, r, va, src[..k])
    requires Readable(vm.mem, r, (va + k) / PGSIZE) && ppn == Lookup(vm.mem, r, (va + k) / PGSIZE).ppn
    modifies vm`mem
    ensures vm.Valid() && SameEntries(m0, vm.mem, vm.at) && Written(m0, vm.mem, vm.at, r, va, src[..k + n])
  {
    ghost var u := UserNode(r, (va + k) / PGSIZE);
    UserPageOwned(vm.mem, vm.at, r, (va + k) / PGSIZE);
    PathBelow(r, (va + k) / PGSIZE);
    ChunkWritten(m0, vm.mem, vm.at, vm.own, r, va, src, k, n);
    var page := Frame(Splice(vm.mem[ppn].bytes, (va + k) % PGSIZE, src[k..k + n]));
    FrameWrite(vm.mem, vm.at, vm.own, u, page);
    vm.mem := vm.mem[ppn := page];
  }

  ghost predicate SentSoFar(m0: Memory, mem: Memory, at: map<Node, nat>, r: nat, va: nat, src: seq<nat>, k: nat) {
    k <= |src| && SameEntries(m0, mem, at) && Written(m0, mem, at, r, va, src[..k]) && WritableSpan(m0, r, va, k)
  }

  method WritablePage(vm: Vm, r: nat, va: nat) returns (ppn: Option<nat>)
    requires vm.Valid() && Root(r) in vm.at
    modifies vm
    ensures vm.Valid() && vm.mem == old(vm.mem) && vm.free == old(vm.free) && vm.at == old(vm.at)
    ensures vm.own == old(vm.own) && vm.held == old(vm.held)
    ensures ppn == if WritableAt(vm.mem, r, va) then Some(Lookup(vm.mem, r, va / PGSIZE).ppn) else None
  {
    var va0 := va / PGSIZE;
    if va0 >= MAXVPN { return None; }
    var e := FindEntry(vm, r, va0);
    if !e.v || !e.u || !e.w { return None; }
    ppn := Some(e.ppn);
  }

  /** One turn of copyout: the number of bytes copied, 0 if the page is not writable. */
  method OutChunk(vm: Vm, r: nat, dstva: nat, src: seq<nat>, i: nat, ghost m0: Memory) returns (n: nat)
    requires vm.Valid() && Root(r) in vm.at && i < |src| && SentSoFar(m0, vm.mem, vm.at, r, dstva, src, i)
    modifies vm
    ensures vm.Valid() && vm.free == old(vm.free) && vm.at == old(vm.at) && vm.own == old(vm.own)
    ensures vm.held == old(vm.held)
    ensures SentSoFar(m0, vm.mem, vm.at, r, dstva, src, i + n)
    ensures n == 0 ==> !WritableAt(m0, r, dstva + i)
  {
    var ppn := WritablePage(vm, r, dstva + i);
    assert WritableAt(vm.mem, r, dstva + i) == WritableAt(m0, r, dstva + i);
    if ppn.None? { return 0; }
    assert Writable(m0, r, (dstva + i) / PGSIZE) && Readable(vm.mem, r, (dstva + i) / PGSIZE);
    n := PGSIZE - (dstva + i) % PGSIZE;
    if n > |src| - i { n := |src| - i; }
    assert n > 0 && (dstva + i) % PGSIZE + n <= PGSIZE;
    WriteChunk(vm, r, dstva, src, i, n, ppn.value, m0);
    SpanStep(m0, r, dstva, i, n);
  }

  /** Stops at the first page that is not a writable user page, with k bytes written. */
  method Copyout(vm: Vm, r: nat, dstva: nat, src: seq<nat>) returns (ok: bool, ghost k: nat)
    requires vm.Valid() && Root(r) in vm.at
    modifies vm
    ensures vm.Valid() && vm.free == old(vm.free) && vm.at == old(vm.at) && vm.own == old(vm.own)
    ensures vm.held == old(vm.held)
    ensures SentSoFar(old(vm.mem), vm.mem, vm.at, r, dstva, src, k)
    ensures ok == (k == |src|) && (!ok ==> !WritableAt(old(vm.mem), r, dstva + k))
  {
    var i := 0;
    while i < |src|
      invariant vm.Valid() && vm.free == old(vm.free) && vm.at == old(vm.at) && vm.own == old(vm.own)
      invariant vm.held == old(vm.held)
      invariant SentSoFar(old(vm.mem), vm.mem, vm.at, r, dstva, src, i)
    {
      var n := OutChunk(vm, r, dstva, src, i, old(vm.mem));
      if n == 0 { return false, i; }
      i := i + n;
    }
    ok, k := true, i;
  }

  // ---- copyin ----

  /** dst holds the bytes at user addresses va, va + 1, ... */
  ghost predicate ReadFrom(mem: Memory, r: nat, va: nat, dst: seq<nat>) {
    forall i :: 0 <= i < |dst| ==> dst[i] == ByteAt(mem, r, va + i)
  }

  lemma InPage(mem: Memory, r: nat, a: nat, p: nat, n: nat, i: nat)
    requires p == Lookup(mem, r, a / PGSIZE).ppn && IsFrame(mem, p) && a % PGSIZE + n <= PGSIZE && i < n
    ensures ByteAt(mem, r, a + i) == mem[p].bytes[a % PGSIZE + i]
  {
    assert (a + i) / PGSIZE == a / PGSIZE && (a + i) % PGSIZE == a % PGSIZE + i;
  }

  lemma ReadMore(mem: Memory, r: nat, va: nat, dst: seq<nat>, n: nat)
    requires ReadFrom(mem, r, va, dst)
    requires var a := va + |dst|; var p := Lookup(mem, r, a / PGSIZE).ppn;
             IsFrame(mem, p) && a % PGSIZE + n <= PGSIZE
    ensures var a := va + |dst|; var p := Lookup(mem, r, a / PGSIZE).ppn;
            ReadFrom(mem, r, va, dst + mem[p].bytes[a % PGSIZE..a % PGSIZE + n])
  {
    var a := va + |dst|;
    var p := Lookup(mem, r, a / PGSIZE).ppn;
    var more := mem[p].bytes[a % PGSIZE..a % PGSIZE + n];
    forall i | 0 <= i < n
      ensures more[i] == ByteAt(mem, r, a + i)
    {
      InPage(mem, r, a, p, n, i);
    }
    ReadJoin(mem, r, va, dst, a, more);
  }

  lemma ReadJoin(mem: Memory, r: nat, va: nat, dst: seq<nat>, a: nat, more: seq<nat>)
    requires ReadFrom(mem, r, va, dst) && a == va + |dst| && ReadFrom(mem, r, a, more)
    ensures ReadFrom(mem, r, va, dst + more)
  {
    forall i | 0 <= i < |dst| + |more|
      ensures (dst + more)[i] == ByteAt(mem, r, va + i)
    {
      if i >= |dst| { assert va + i == a + (i - |dst|) && more[i - |dst|] == ByteAt(mem, r, a + (i - |dst|)); }
    }
  }

  /** walkaddr: the page of a user address, if there is one. */
  method Walkaddr(vm: Vm, r: nat, va: nat) returns (ppn: Option<nat>)
    requires vm.Valid() && Root(r) in vm.at
    modifies vm
    ensures vm.Valid() && vm.mem == old(vm.mem) && vm.free == old(vm.free) && vm.at == old(vm.at)
    ensures vm.own == old(vm.own) && vm.held == old(vm.held)
    ensures ppn == if ReadableAt(vm.mem, r, va) then Some(Lookup(vm.mem, r, va / PGSIZE).ppn) else None
    ensures ppn.Some? ==> IsFrame(vm.mem, ppn.value)
  {
    if va / PGSIZE >= MAXVPN { return None; }
    var e := FindEntry(vm, r, va / PGSIZE);
    if !e.v { return None; }
    if !e.u { return None; }
    UserPageOwned(vm.mem, vm.at, r, va / PGSIZE);
    ppn := Some(e.ppn);
  }

  /** Succeeds exactly when every page it needs is readable, with the bytes that are there. */
  method Copyin(vm: Vm, r: nat, srcva: nat, len: nat) returns (dst: Option<seq<nat>>)
    requires vm.Valid() && Root(r) in vm.at
    modifies vm
    ensures vm.Valid() && vm.mem == old(vm.mem) && vm.free == old(vm.free) && vm.at == old(vm.at)
    ensures vm.own == old(vm.own) && vm.held == old(vm.held)
    ensures dst.Some? <==> ReadableSpan(vm.mem, r, srcva, len)
    ensures dst.Some? ==> |dst.value| == len && ReadFrom(vm.mem, r, srcva, dst.value)
  {
    var got: seq<nat> := [];
    while |got| < len
      invariant vm.Valid() && vm.mem == old(vm.mem) && vm.free == old(vm.free) && vm.at == old(vm.at)
      invariant vm.own == old(vm.own) && vm.held == old(vm.held)
      invariant |got| <= len && ReadFrom(vm.mem, r, srcva, got) && ReadableSpan(vm.mem, r, srcva, |got|)
      decreases len - |got|
    {
      var va := srcva + |got|;
      var ppn := Walkaddr(vm, r, va);
      if ppn.None? { return None; }
      var n := PGSIZE - va % PGSIZE;
      if n > len - |got| { n := len - |got|; }
      ReadMore(vm.mem, r, srcva, got, n);
      ReadSpanStep(vm.mem, r, srcva, |got|, n);
      got := got + vm.mem[ppn.value].bytes[va % PGSIZE..va % PGSIZE + n];
    }
    dst := Some(got);
  }

  /** copyin after a successful copyout reads back what was written. */
  lemma CopyRoundTrip(m0: Memory, mem: Memory, at: map<Node, nat>, r: nat, va: nat, src: seq<nat>, dst: seq<nat>)
    requires Root(r) in at && SentSoFar(m0, mem, at, r, va, src, |src|)
    requires |dst| == |src| && ReadFrom(mem, r, va, dst)
    ensures ReadableSpan(mem, r, va, |src|) && dst == src
  {
    assert src[..|src|] == src;
    forall a | va <= a < va + |src|
      ensures ReadableAt(mem, r, a) && ByteAt(mem, r, a) == src[a - va]
    {
      assert WritableAt(m0, r, a);
      assert a / PGSIZE * PGSIZE + a % PGSIZE == a;
    }
    forall i | 0 <= i < |src|
      ensures dst[i] == src[i]
    {
      assert ByteAt(mem, r, va + i) == src[i];
    }
  }

  // ---- copyinstr ----

  /** The k bytes at va are not NUL and can be read. */
  ghost predicate NoNul(mem: Memory, r: nat, va: nat, k: nat) {
    forall a :: va <= a < va + k ==> ReadableAt(mem, r, a) && ByteAt(mem, r, a) != 0
  }

  /** The inner loop of copyinstr: the bytes before the first NUL among the first n of s. */
  method ScanNul(s: seq<nat>) returns (k: nat)
    ensures k <= |s| && (forall i :: 0 <= i < k ==> s[i] != 0) && (k < |s| ==> s[k] == 0)
  {
    k := 0;
    while k < |s| && s[k] != 0
      invariant k <= |s| && forall i :: 0 <= i < k ==> s[i] != 0
    {
      k := k + 1;
    }
  }

  lemma PageBytes(mem: Memory, r: nat, a: nat, n: nat, b: nat)
    requires var p := Lookup(mem, r, a / PGSIZE).ppn; IsFrame(mem, p) && a % PGSIZE + n <= PGSIZE
    requires a <= b < a + n
    ensures mem[Lookup(mem, r, a / PGSIZE).ppn].bytes[a % PGSIZE..a % PGSIZE + n][b - a] == ByteAt(mem, r, b)
    ensures ReadableAt(mem, r, a) ==> ReadableAt(mem, r, b)
  {
    assert b / PGSIZE == a / PGSIZE && b % PGSIZE == a % PGSIZE + (b - a);
  }

  /** The part s of one page at address va + |got|, up to its first NUL at k. */
  lemma StrMore(mem: Memory, r: nat, va: nat, got: seq<nat>, n: nat, s: seq<nat>, k: nat)
    requires var a := va + |got|; var p := Lookup(mem, r, a / PGSIZE).ppn;
             && ReadableAt(mem, r, a) && IsFrame(mem, p) && a % PGSIZE + n <= PGSIZE
             && s == mem[p].bytes[a % PGSIZE..a % PGSIZE + n]
    requires ReadFrom(mem, r, va, got) && NoNul(mem, r, va, |got|)
    requires k <= |s| && (forall i :: 0 <= i < k ==> s[i] != 0) && (k < |s| ==> s[k] == 0)
    ensures ReadFrom(mem, r, va, got + s[..k]) && NoNul(mem, r, va, |got| + k)
    ensures k < n ==> EndsAt(mem, r, va + |got| + k)
  {
    var a := va + |got|;
    var p := Lookup(mem, r, a / PGSIZE).ppn;
    ReadMore(mem, r, va, got, k);
    assert s[..k] == mem[p].bytes[a % PGSIZE..a % PGSIZE + k];
    forall b | a <= b < a + k
      ensures ReadableAt(mem, r, b) && ByteAt(mem, r, b) != 0
    {
      PageBytes(mem, r, a, n, b);
      assert s[b - a] != 0;
    }
    if k < n { PageBytes(mem, r, a, n, a + k); }
  }

  /** One page of copyinstr: bytes before a NUL, and whether the NUL was there. */
  method StrChunk(vm: Vm, r: nat, va: nat, got: seq<nat>, max: nat) returns (more: Option<seq<nat>>, nul: bool)
    requires vm.Valid() && Root(r) in vm.at && |got| < max && ReadFrom(vm.mem, r, va, got)
    requires NoNul(vm.mem, r, va, |got|)
    modifies vm
    ensures vm.Valid() && vm.mem == old(vm.mem) && vm.free == old(vm.free) && vm.at == old(vm.at)
    ensures vm.own == old(vm.own) && vm.held == old(vm.held)
    ensures more.None? <==> !ReadableAt(vm.mem, r, va + |got|)
    ensures more.Some? ==>
              |got| + |more.value| <= max && ReadFrom(vm.mem, r, va, got + more.value)
              && NoNul(vm.mem, r, va, |got| + |more.value|)
    ensures more.Some? && nul ==> |got| + |more.value| < max && EndsAt(vm.mem, r, va + |got| + |more.value|)
    ensures more.Some? && !nul ==> |more.value| > 0
  {
    var a := va + |got|;
    nul := false;
    var ppn := Walkaddr(vm, r, a);
    if ppn.None? { return None, false; }
    var n := PGSIZE - a % PGSIZE;
    if n > max - |got| { n := max - |got|; }
    var s := vm.mem[ppn.value].bytes[a % PGSIZE..a % PGSIZE + n];
    var k := ScanNul(s);
    StrMore(vm.mem, r, va, got, n, s, k);
    more, nul := Some(s[..k]), k < n;
  }

  ghost predicate EndsAt(mem: Memory, r: nat, a: nat) {
    ReadableAt(mem, r, a) && ByteAt(mem, r, a) == 0
  }

  /** The C string at srcva, if its NUL is among the first max bytes and all of it is
      readable; otherwise failure, and there is no such string. */
  method Copyinstr(vm: Vm, r: nat, srcva: nat, max: nat) returns (dst: Option<seq<nat>>)
    requires vm.Valid() && Root(r) in vm.at
    modifies vm
    ensures vm.Valid() && vm.mem == old(vm.mem) && vm.free == old(vm.free) && vm.at == old(vm.at)
    ensures vm.own == old(vm.own) && vm.held == old(vm.held)
    ensures dst.Some? ==>
              |dst.value| < max && ReadFrom(vm.mem, r, srcva, dst.value) && NoNul(vm.mem, r, srcva, |dst.value|)
    ensures dst.Some? ==> EndsAt(vm.mem, r, srcva + |dst.value|)
    ensures dst.None? ==> forall k :: 0 <= k < max && NoNul(vm.mem, r, srcva, k) ==> !EndsAt(vm.mem, r, srcva + k)
  {
    var got: seq<nat> := [];
    while |got| < max
      invariant vm.Valid() && vm.mem == old(vm.mem) && vm.free == old(vm.free) && vm.at == old(vm.at)
      invariant vm.own == old(vm.own) && vm.held == old(vm.held)
      invariant |got| <= max && ReadFrom(vm.mem, r, srcva, got) && NoNul(vm.mem, r, srcva, |got|)
      decreases max - |got|
    {
      var more, nul := StrChunk(vm, r, srcva, got, max);
      if more.None? {
        NoneAfter(vm.mem, r, srcva, |got|, max);
        return None;
      }
      got := got + more.value;
      if nul { return Some(got); }
    }
    NoneWithin(vm.mem, r, srcva, max);
    dst := None;
  }

  lemma NoneAfter(mem: Memory, r: nat, va: nat, g: nat, max: nat)
    requires NoNul(mem, r, va, g) && !ReadableAt(mem, r, va + g)
    ensures forall k :: 0 <= k < max && NoNul(mem, r, va, k) ==> !EndsAt(mem, r, va + k)
  {
    forall k | 0 <= k < max && NoNul(mem, r, va, k)
      ensures !EndsAt(mem, r, va + k)
    {
    }
  }

  lemma NoneWithin(mem: Memory, r: nat, va: nat, max: nat)
    requires NoNul(mem, r, va, max)
    ensures forall k :: 0 <= k < max && NoNul(mem, r, va, k) ==> !EndsAt(mem, r, va + k)
  {
  }
}
