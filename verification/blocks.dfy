/** Blocks of kern/allocb.c and the chains of them that kern/qio.c works on. */
module Blocks {
  import opened Words

  // ---------- Contents, apart from memory ----------

  type Bytes = seq<byte>

  function Flat(ds: seq<Bytes>): Bytes {
    if ds == [] then [] else ds[0] + Flat(ds[1..])
  }

  lemma {:induction false} FlatJoin(a: seq<Bytes>, b: seq<Bytes>)
    ensures Flat(a + b) == Flat(a) + Flat(b)
    decreases |a|
  {
    if a == [] {
      assert a + b == b;
    } else {
      assert (a + b)[0] == a[0] && (a + b)[1..] == a[1..] + b;
      FlatJoin(a[1..], b);
    }
  }

  // ---------- Layout ----------

  const HDRSPC: nat := 64
  const TLRSPC: nat := 16
  const BLOCKALIGN: nat := 8

  function RoundUp(x: nat): nat {
    (x + BLOCKALIGN - 1) / BLOCKALIGN * BLOCKALIGN
  }

  function RoundDown(x: nat): nat {
    x / BLOCKALIGN * BLOCKALIGN
  }

  /** base, lim and the first rp for memory that follows the Block itself at addr. */
  function Base(addr: nat): nat {
    RoundUp(addr)
  }

  function Lim(addr: nat, size: nat): nat {
    RoundDown(addr + size + TLRSPC + HDRSPC)
  }

  /** Wherever the memory comes from, the panic of _allocb is not reached, there is room for what
      was asked and a trailer behind rp, and room for headers in front of it. */
  lemma AllocRoom(addr: nat, size: nat)
    ensures var rp := Lim(addr, size) - RoundUp(size + TLRSPC);
            && Base(addr) + HDRSPC - 3 * (BLOCKALIGN - 1) <= rp && rp + size + TLRSPC <= Lim(addr, size)
    ensures size + HDRSPC + TLRSPC - 2 * (BLOCKALIGN - 1) <= Lim(addr, size) - Base(addr) <= size + HDRSPC + TLRSPC
  {
  }

  /** A block: the bytes between rp and wp.  rp and lim count from base; wp is where the bytes end. */
  class Block {
    const lim: nat
    var rp: nat
    var data: Bytes
    var next: Block?

    /** _allocb, with memory at addr. */
    constructor (size: nat, addr: nat)
      ensures Ok() && data == [] && next == null
      ensures rp + size + TLRSPC <= lim == Lim(addr, size) - Base(addr)
    {
      AllocRoom(addr, size);
      lim := Lim(addr, size) - Base(addr);
      rp := Lim(addr, size) - RoundUp(size + TLRSPC) - Base(addr);
      data := [];
      next := null;
    }

    /** The bounds that checkb tests. */
    predicate Ok()
      reads this
    {
      rp + |data| <= lim
    }
  }

  /** BALLOC over a chain. */
  function Alloc(bs: seq<Block>): nat {
    if bs == [] then 0 else bs[0].lim + Alloc(bs[1..])
  }

  lemma {:induction false} AllocJoin(a: seq<Block>, b: seq<Block>)
    ensures Alloc(a + b) == Alloc(a) + Alloc(b)
    decreases |a|
  {
    if a == [] {
      assert a + b == b;
    } else {
      assert (a + b)[0] == a[0] && (a + b)[1..] == a[1..] + b;
      AllocJoin(a[1..], b);
    }
  }

  // ---------- Chains ----------

  function First(bs: seq<Block>): Block? {
    if bs == [] then null else bs[0]
  }

  function Set(bs: seq<Block>): set<Block> {
    set b | b in bs
  }

  /** Different blocks bs, linked up to end, that hold the bytes ds. */
  ghost predicate Segment(bs: seq<Block>, ds: seq<Bytes>, end: Block?)
    reads bs
    decreases |bs|
  {
    && |bs| == |ds|
    && (bs != [] ==>
          && bs[0].Ok() && bs[0].data == ds[0] && bs[0] !in bs[1..]
          && bs[0].next == (if |bs| == 1 then end else bs[1])
          && Segment(bs[1..], ds[1..], end))
  }

  /** The chain bs holds the blocks of bytes ds. */
  ghost predicate Chain(bs: seq<Block>, ds: seq<Bytes>)
    reads bs
  {
    Segment(bs, ds, null)
  }

  /** Blocks off any chain, with their bytes. */
  ghost predicate Holds(bs: seq<Block>, ds: seq<Bytes>)
    reads bs
  {
    && |bs| == |ds|
    && forall i :: 0 <= i < |bs| ==> bs[i].Ok() && bs[i].data == ds[i]
  }

  ghost predicate Separate(bs: seq<Block>) {
    forall i, j :: 0 <= i < j < |bs| ==> bs[i] != bs[j]
  }

  lemma {:induction false} ChainCons(b: Block, bs: seq<Block>, d: Bytes, ds: seq<Bytes>)
    requires Chain(bs, ds) && b.next == First(bs) && b !in bs && b.Ok() && b.data == d
    ensures Chain([b] + bs, [d] + ds)
  {
    assert ([b] + bs)[1..] == bs && ([d] + ds)[1..] == ds;
  }

  lemma {:induction false} ChainTail(bs: seq<Block>, ds: seq<Bytes>)
    requires Chain(bs, ds) && bs != []
    ensures Chain(bs[1..], ds[1..]) && bs[0] !in bs[1..] && bs[0].next == First(bs[1..])
    ensures bs[0].Ok() && bs[0].data == ds[0]
  {
  }

  lemma {:induction false} ChainSeparate(bs: seq<Block>, ds: seq<Bytes>)
    requires Chain(bs, ds)
    ensures Separate(bs)
    decreases |bs|
  {
    if bs != [] {
      ChainSeparate(bs[1..], ds[1..]);
      forall i, j | 0 <= i < j < |bs| ensures bs[i] != bs[j] {
        assert bs[j] == bs[1..][j - 1];
        if i > 0 { assert bs[i] == bs[1..][i - 1]; }
      }
    }
  }

  // ---------- splitblock ----------

  /** The shorter part is copied to a new block.  addr is where that block's memory lies. */
  method Splitblock(a: Block, n: nat, addr: nat) returns (head: Block, tail: Block)
    requires a.Ok() && n <= |a.data|
    modifies a`rp, a`data
    ensures head.Ok() && tail.Ok() && head != tail
    ensures var m := |old(a.data)| - n;
            && head.data == old(a.data)[..m] && tail.data == old(a.data)[m..]
            && (if m < n then tail == a && fresh(head) && head.next == null
                else head == a && fresh(tail) && tail.next == null)
    ensures tail != a ==> tail.lim == Lim(addr, n) - Base(addr)
  {
    var m := |a.data| - n;
    if m < n {
      var b := new Block(m, addr);
      b.data := a.data[..m];
      a.rp, a.data := a.rp + m, a.data[m..];
      return b, a;
    } else {
      var b := new Block(n, addr);
      b.data := a.data[m..];
      a.data := a.data[..m];
      return a, b;
    }
  }

  // ---------- pullupblock ----------

  /** The whole second block is copied behind the first and let go. */
  method TakeWhole(bp: Block, nbp: Block, ghost bs: seq<Block>, ghost ds: seq<Bytes>)
    requires |bs| >= 2 && bs[0] == bp && bs[1] == nbp && Chain(bs, ds) && bp.rp + |bp.data| + |ds[1]| <= bp.lim
    modifies bp`data, bp`next, nbp`next
    ensures Chain([bp] + bs[2..], [ds[0] + ds[1]] + ds[2..]) && bp.rp == old(bp.rp)
  {
    ChainTail(bs, ds);
    ChainTail(bs[1..], ds[1..]);
    assert bs[1..][1..] == bs[2..] && ds[1..][1..] == ds[2..];
    assert Chain(bs[2..], ds[2..]) && bp !in bs[2..] && nbp !in bs[2..];
    bp.data := bp.data + nbp.data;
    bp.next := nbp.next;
    nbp.next := null;
    ChainCons(bp, bs[2..], ds[0] + ds[1], ds[2..]);
  }

  /** Only n bytes of the second block are copied behind the first. */
  method TakePart(bp: Block, nbp: Block, n: nat, ghost bs: seq<Block>, ghost ds: seq<Bytes>)
    requires |bs| >= 2 && bs[0] == bp && bs[1] == nbp && Chain(bs, ds) && n <= |ds[1]| && bp.rp + |bp.data| + n <= bp.lim
    modifies bp`data, nbp`data, nbp`rp
    ensures Chain(bs, [ds[0] + ds[1][..n], ds[1][n..]] + ds[2..])
  {
    ChainTail(bs, ds);
    ChainTail(bs[1..], ds[1..]);
    assert bs[1..][1..] == bs[2..] && ds[1..][1..] == ds[2..];
    assert bp !in bs[2..] && nbp !in bs[2..] && bp != nbp;
    bp.data := bp.data + nbp.data[..n];
    nbp.rp, nbp.data := nbp.rp + n, nbp.data[n..];
    assert Chain(bs[2..], ds[2..]);
    ChainCons(nbp, bs[2..], ds[1][n..], ds[2..]);
    assert [nbp] + bs[2..] == bs[1..];
    ChainCons(bp, bs[1..], ds[0] + ds[1][..n], [ds[1][n..]] + ds[2..]);
    assert [bp] + bs[1..] == bs;
    assert [ds[0] + ds[1][..n]] + ([ds[1][n..]] + ds[2..]) == [ds[0] + ds[1][..n], ds[1][n..]] + ds[2..];
  }

  /** One turn of the loop of pullupblock: n bytes are wanted behind the first block. */
  method Turn(bp: Block, nbp: Block, n0: nat, ghost bs0: seq<Block>, ghost ds0: seq<Bytes>)
    returns (n: nat, ghost bs: seq<Block>, ghost ds: seq<Bytes>)
    requires |bs0| >= 2 && bs0[0] == bp && bs0[1] == nbp && Chain(bs0, ds0) && 0 < n0 && bp.rp + |bp.data| + n0 <= bp.lim
    modifies bp`data, bp`next, nbp`next, nbp`rp, nbp`data
    ensures bs != [] && bs[0] == bp && Chain(bs, ds) && Flat(ds) == Flat(ds0)
    ensures n <= n0 && |ds[0]| + n == |ds0[0]| + n0 && bp.rp + |bp.data| + n <= bp.lim
    ensures n > 0 ==> |bs| < |bs0|
    ensures forall b <- bs :: b in bs0
  {
    ChainTail(bs0, ds0);
    ChainTail(bs0[1..], ds0[1..]);
    var i := |nbp.data|;
    if i > n0 {
      TakePart(bp, nbp, n0, bs0, ds0);
      FlatPart(ds0, n0);
      n, bs, ds := 0, bs0, [ds0[0] + ds0[1][..n0], ds0[1][n0..]] + ds0[2..];
    } else {
      TakeWhole(bp, nbp, bs0, ds0);
      FlatWhole(ds0);
      n, bs, ds := n0 - i, [bp] + bs0[2..], [ds0[0] + ds0[1]] + ds0[2..];
    }
  }

  /** The loop of pullupblock; n0 bytes are wanted behind the first block. */
  method Gather(bp: Block, n0: nat, ghost bs0: seq<Block>, ghost ds0: seq<Bytes>)
    returns (r: Block?, ghost bs: seq<Block>, ghost ds: seq<Bytes>)
    requires bs0 != [] && bs0[0] == bp && Chain(bs0, ds0) && 0 < n0 && bp.rp + |bp.data| + n0 <= bp.lim
    modifies Set(bs0)
    ensures r == null <==> |Flat(ds0)| < |ds0[0]| + n0
    ensures r != null ==> Pulled(r, bs, ds, ds0, |ds0[0]| + n0)
    ensures forall b <- bs :: b in bs0
  {
    bs, ds := bs0, ds0;
    var n := n0;
    while bp.next != null
      invariant bs != [] && bs[0] == bp && Chain(bs, ds) && Flat(ds) == Flat(ds0)
      invariant forall b <- bs :: b in bs0
      invariant 0 < n && |ds[0]| + n == |ds0[0]| + n0 && bp.rp + |bp.data| + n <= bp.lim
      decreases |bs|
    {
      var nbp: Block := bp.next;
      assert nbp == bs[1] && nbp in bs0 && bp in bs0;
      n, bs, ds := Turn(bp, nbp, n, bs, ds);
      if n == 0 {
        FlatAtLeast(ds);
        return bp, bs, ds;
      }
    }
    assert |bs| == 1;
    assert ds[1..] == [];
    return null, bs, ds;
  }

  lemma {:induction false} FlatAtLeast(ds: seq<Bytes>)
    requires ds != []
    ensures |Flat(ds)| >= |ds[0]|
  {
  }

  /** A chain with the bytes of ds0 whose first block r has at least n. */
  ghost predicate Pulled(r: Block?, bs: seq<Block>, ds: seq<Bytes>, ds0: seq<Bytes>, n: nat)
    reads bs
  {
    bs != [] && r == bs[0] && Chain(bs, ds) && Flat(ds) == Flat(ds0) && |ds[0]| >= n
  }

  method PutInFront(bp: Block, n: nat, addr: nat, ghost bs: seq<Block>, ghost ds: seq<Bytes>) returns (nbp: Block)
    requires bs != [] && bs[0] == bp && Chain(bs, ds)
    ensures Chain([nbp] + bs, [[]] + ds) && nbp.data == [] && nbp.rp + n <= nbp.lim
    ensures fresh(nbp)
  {
    nbp := new Block(n, addr);
    nbp.next := bp;
    ChainCons(nbp, bs, [], ds);
  }

  /** pullupblock: a first block of at least n bytes, if there are so many; otherwise all is let
      go.  addr is where a new block would lie; bs and ds are the resulting chain. */
  method Pullupblock(bp: Block, n: nat, addr: nat, ghost bs0: seq<Block>, ghost ds0: seq<Bytes>)
    returns (r: Block?, ghost bs: seq<Block>, ghost ds: seq<Bytes>)
    requires bs0 != [] && bs0[0] == bp && Chain(bs0, ds0)
    modifies Set(bs0)
    ensures r == null <==> |Flat(ds0)| < n
    ensures r != null ==> Pulled(r, bs, ds, ds0, n)
    ensures forall b <- bs :: b in bs0 || fresh(b)
  {
    FlatAtLeast(ds0);
    if |bp.data| >= n {
      return bp, bs0, ds0;
    }
    if bp.lim - bp.rp < n {
      var nbp := PutInFront(bp, n, addr, bs0, ds0);
      assert ([[]] + ds0)[1..] == ds0;
      r, bs, ds := Gather(nbp, n, [nbp] + bs0, [[]] + ds0);
    } else {
      r, bs, ds := Gather(bp, n - (|bp.data|), bs0, ds0);
    }
  }

  lemma {:induction false} FlatWhole(ds: seq<Bytes>)
    requires |ds| >= 2
    ensures Flat([ds[0] + ds[1]] + ds[2..]) == Flat(ds)
  {
    var es := [ds[0] + ds[1]] + ds[2..];
    assert es[1..] == ds[2..] && ds[1..][1..] == ds[2..];
  }

  lemma {:induction false} FlatPart(ds: seq<Bytes>, n: nat)
    requires |ds| >= 2 && n <= |ds[1]|
    ensures Flat([ds[0] + ds[1][..n], ds[1][n..]] + ds[2..]) == Flat(ds)
  {
    var es := [ds[0] + ds[1][..n], ds[1][n..]] + ds[2..];
    assert es[1..][1..] == ds[2..] && ds[1..][1..] == ds[2..];
    assert ds[1] == ds[1][..n] + ds[1][n..];
  }
}
