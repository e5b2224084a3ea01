/** The queues of kern/qio.c: what each operation takes from the front and adds at the end. */
module Qio {
  import opened Words
  import opened Blocks

  // ---------- What the operations come to, on the contents of the blocks ----------

  function DropEmpty(ds: seq<Bytes>): (r: seq<Bytes>)
    ensures Flat(r) == Flat(ds) && (r != [] ==> r[0] != [])
  {
    if ds != [] && ds[0] == [] then DropEmpty(ds[1..]) else ds
  }

  /** How many blocks a coalescing read takes. */
  function Grab(ds: seq<Bytes>, len: int): (k: nat)
    requires ds != []
    ensures 0 < k <= |ds|
  {
    if |ds[0]| >= len || |ds| == 1 then 1 else 1 + Grab(ds[1..], len - |ds[0]|)
  }

  /** What a read or consume yields, and what it leaves. */
  datatype Taken = Taken(got: Bytes, rest: seq<Bytes>)

  /** The first k blocks, cut to len bytes; what is cut off stays at the front, unless the queue
      keeps messages. */
  function Cut(ds: seq<Bytes>, k: nat, len: nat, msg: bool): Taken
    requires k <= |ds|
  {
    var got := Flat(ds[..k]);
    if |got| <= len then Taken(got, ds[k..])
    else Taken(got[..len], (if msg then [] else [got[len..]]) + ds[k..])
  }

  /** qread; None when it has to wait. */
  function Read(ds0: seq<Bytes>, len: nat, msg: bool, coalesce: bool): Option<Taken> {
    var ds := if coalesce then DropEmpty(ds0) else ds0;
    if ds == [] then None else Some(Cut(ds, if coalesce then Grab(ds, len) else 1, len, msg))
  }

  /** qbread. */
  function Bread(ds: seq<Bytes>, len: nat, msg: bool): Option<Taken> {
    if ds == [] then None else Some(Cut(ds, 1, len, msg))
  }

  /** qconsume. */
  function Consume(ds0: seq<Bytes>, len: nat, msg: bool): Option<Taken> {
    var ds := DropEmpty(ds0);
    if ds == [] then None else Some(Cut(ds, 1, len, msg))
  }

  /** qdiscard. */
  function Discard(ds: seq<Bytes>, len: nat): seq<Bytes> {
    if ds == [] || len == 0 then ds
    else if |ds[0]| <= len then Discard(ds[1..], len - |ds[0]|)
    else [ds[0][len..]] + ds[1..]
  }

  lemma {:induction false} DiscardIs(ds: seq<Bytes>, len: nat)
    ensures Flat(Discard(ds, len)) == Flat(ds)[Min(len, |Flat(ds)|)..]
    decreases |ds|
  {
    if ds != [] && len > 0 {
      if |ds[0]| <= len {
        DiscardIs(ds[1..], len - |ds[0]|);
      } else {
        assert ([ds[0][len..]] + ds[1..])[1..] == ds[1..];
      }
    }
  }

  lemma {:induction false} CutConserves(ds: seq<Bytes>, k: nat, len: nat)
    requires k <= |ds|
    ensures var t := Cut(ds, k, len, false); t.got + Flat(t.rest) == Flat(ds) && |t.got| <= len
  {
    FlatJoin(ds[..k], ds[k..]);
    assert ds == ds[..k] + ds[k..];
    var got := Flat(ds[..k]);
    if |got| > len {
      assert ([got[len..]] + ds[k..])[1..] == ds[k..];
      assert got == got[..len] + got[len..];
    }
  }

  lemma {:induction false} CutOne(ds: seq<Bytes>, len: nat, msg: bool)
    requires ds != []
    ensures Cut(ds, 1, len, msg) == if |ds[0]| <= len then Taken(ds[0], ds[1..])
                                    else Taken(ds[0][..len], (if msg then [] else [ds[0][len..]]) + ds[1..])
  {
    FlatNext(ds, 0);
    assert Flat(ds[..1]) == ds[0];
    assert [] + ds[1..] == ds[1..];
  }

  /** In a queue of messages one read yields a prefix of one message, all of it if there is room, and
      the rest of that message is gone. */
  lemma {:induction false} MessageCut(ds: seq<Bytes>, len: nat)
    requires ds != []
    ensures var t := Cut(ds, 1, len, true);
            t.got <= ds[0] && (|ds[0]| <= len ==> t.got == ds[0]) && t.rest == ds[1..]
            && Read(ds, len, true, false) == Bread(ds, len, true) == Some(t)
  {
    CutOne(ds, len, true);
  }

  // ---------- What a read takes ----------

  lemma {:induction false} GrabEnough(ds: seq<Bytes>, len: nat)
    requires ds != []
    ensures var k := Grab(ds, len); k == |ds| || |Flat(ds[..k])| >= len
    ensures var k := Grab(ds, len); k > 1 ==> |Flat(ds[..k - 1])| < len
    decreases |ds|
  {
    FlatNext(ds, 0);
    if |ds[0]| < len && |ds| > 1 {
      var k := Grab(ds, len);
      GrabEnough(ds[1..], len - |ds[0]|);
      assert ds[..k][1..] == ds[1..][..k - 1];
      if k > 2 { assert ds[..k - 1][1..] == ds[1..][..k - 2]; }
    }
  }

  /** A read of a queue that does not coalesce: the front of the first block, and of that block nothing
      stays if the queue keeps messages. */
  ghost predicate FirstOnly(ds: seq<Bytes>, len: nat, msg: bool, got: Bytes, rest: seq<Bytes>) {
    && ds != [] && got == ds[0][..Min(len, |ds[0]|)]
    && rest == if msg || |ds[0]| <= len then ds[1..] else [ds[0][len..]] + ds[1..]
  }

  /** How many blocks a read of one that does takes: past those that are empty, the least number with len bytes,
      or all. */
  ghost predicate Takes(ds: seq<Bytes>, len: nat, k: nat) {
    && 0 < k <= |ds| && Flat(ds[..k]) != [] && (k == |ds| || |Flat(ds[..k])| >= len)
    && (Flat(ds[..k - 1]) == [] || |Flat(ds[..k - 1])| < len)
  }

  /** It gives as many bytes as there are, up to len. The others stay; but of messages the rest of the last block is
      lost. */
  ghost predicate AsMuch(ds: seq<Bytes>, len: nat, msg: bool, got: Bytes, rest: seq<Bytes>) {
    && Flat(ds) != [] && got == Flat(ds)[..Min(len, |Flat(ds)|)]
    && if msg then exists k: nat :: Takes(ds, len, k) && rest == ds[k..] else Flat(rest) == Flat(ds)[|got|..]
  }

  lemma {:induction false} FlatDropEmpty(ds: seq<Bytes>) returns (n: nat)
    ensures n <= |ds| && DropEmpty(ds) == ds[n..] && Flat(ds[..n]) == []
    decreases |ds|
  {
    n := 0;
    if ds != [] && ds[0] == [] {
      n := FlatDropEmpty(ds[1..]);
      n := n + 1;
      assert ds[..n][1..] == ds[1..][..n - 1];
    }
  }

  lemma {:induction false} FrontBytes(ds: seq<Bytes>, k: nat, len: nat)
    requires k <= |ds| && (k == |ds| || |Flat(ds[..k])| >= len)
    ensures Flat(ds[..k])[..Min(len, |Flat(ds[..k])|)] == Flat(ds)[..Min(len, |Flat(ds)|)]
  {
    assert ds == ds[..k] + ds[k..];
    FlatJoin(ds[..k], ds[k..]);
  }

  lemma {:induction false} PastEmpty(ds: seq<Bytes>, len: nat, n: nat, g: nat)
    requires n < |ds| && Flat(ds[..n]) == [] && ds[n] != [] && g == Grab(ds[n..], len)
    ensures Takes(ds, len, n + g) && Flat(ds[n..][..g]) == Flat(ds[..n + g]) && ds[n..][g..] == ds[n + g..]
  {
    var es := ds[n..];
    GrabEnough(es, len);
    FlatPast(ds, n, g);
    FlatPast(ds, n, g - 1);
    FlatStarts(es, g);
    assert g == 1 ==> Flat(es[..g - 1]) == [];
  }

  lemma {:induction false} CoalescedTakes(ds: seq<Bytes>, len: nat) returns (k: nat)
    requires DropEmpty(ds) != []
    ensures Takes(ds, len, k) && DropEmpty(ds)[Grab(DropEmpty(ds), len)..] == ds[k..]
    ensures Flat(DropEmpty(ds)[..Grab(DropEmpty(ds), len)]) == Flat(ds[..k])
  {
    var n := FlatDropEmpty(ds);
    var g := Grab(ds[n..], len);
    PastEmpty(ds, len, n, g);
    k := n + g;
  }

  /** The blocks skipped hold nothing. */
  lemma {:induction false} FlatPast(ds: seq<Bytes>, n: nat, g: nat)
    requires n + g <= |ds| && Flat(ds[..n]) == []
    ensures Flat(ds[n..][..g]) == Flat(ds[..n + g]) && ds[n..][g..] == ds[n + g..]
  {
    assert ds[..n + g] == ds[..n] + ds[n..][..g];
    FlatJoin(ds[..n], ds[n..][..g]);
  }

  lemma {:induction false} FlatStarts(es: seq<Bytes>, g: nat)
    requires es != [] && es[0] != [] && 0 < g <= |es|
    ensures Flat(es[..g]) != [] && Flat(es) != [] && Flat(es[..0]) == []
  {
    assert es[..g][0] == es[0];
  }

  lemma {:induction false} CoalescedIs(ds: seq<Bytes>, len: nat, msg: bool)
    ensures DropEmpty(ds) == [] <==> Flat(ds) == []
    ensures match Read(ds, len, msg, true)
            case None => true
            case Some(t) => AsMuch(ds, len, msg, t.got, t.rest)
  {
    var es := DropEmpty(ds);
    if es != [] {
      var k := CoalescedTakes(ds, len);
      FlatStarts(es, 1);
      FrontBytes(ds, k, len);
      var g := Grab(es, len);
      assert Flat(es[..g])[..|Flat(es[..g])|] == Flat(es[..g]);
      assert [] + es[g..] == es[g..];
      if !msg { CutConserves(es, g, len); }
    }
  }

  /** What is read, said without the functions that the operations are tied to. */
  lemma {:induction false} ReadIs(ds: seq<Bytes>, len: nat, msg: bool, coalesce: bool)
    ensures Read(ds, len, msg, coalesce) == None <==> if coalesce then Flat(ds) == [] else ds == []
    ensures match Read(ds, len, msg, coalesce)
            case None => true
            case Some(t) => if coalesce then AsMuch(ds, len, msg, t.got, t.rest) else FirstOnly(ds, len, msg, t.got, t.rest)
  {
    if coalesce {
      CoalescedIs(ds, len, msg);
    } else if ds != [] {
      CutOne(ds, len, msg);
      assert ds[0][..|ds[0]|] == ds[0];
      assert [] + ds[1..] == ds[1..];
    }
  }

  /** What is consumed is of the first block with something in it. */
  ghost predicate FirstWithSome(ds: seq<Bytes>, len: nat, msg: bool, got: Bytes, rest: seq<Bytes>) {
    exists n: nat :: n < |ds| && Flat(ds[..n]) == [] && ds[n] != [] && FirstOnly(ds[n..], len, msg, got, rest)
  }

  lemma {:induction false} ConsumeIs(ds: seq<Bytes>, len: nat, msg: bool)
    ensures Consume(ds, len, msg) == None <==> Flat(ds) == []
    ensures match Consume(ds, len, msg)
            case None => true
            case Some(t) => FirstWithSome(ds, len, msg, t.got, t.rest)
  {
    CoalescedIs(ds, len, msg);
    var n := FlatDropEmpty(ds);
    if n < |ds| { ReadIs(ds[n..], len, msg, false); }
  }

  /** The last of these blocks, the first of them perhaps cut. */
  ghost predicate LastOfThese(ds: seq<Bytes>, rest: seq<Bytes>) {
    |rest| <= |ds| && (rest == [] || rest[1..] == ds[|ds| - |rest| + 1..])
  }

  /** The first n bytes are gone, and the blocks that these do not reach are as they were. */
  ghost predicate Discarded(ds: seq<Bytes>, rest: seq<Bytes>, n: nat) {
    n <= |Flat(ds)| && Flat(rest) == Flat(ds)[n..] && LastOfThese(ds, rest)
  }

  lemma {:induction false} DiscardedIs(ds: seq<Bytes>, len: nat)
    ensures Discarded(ds, Discard(ds, len), Min(len, |Flat(ds)|))
  {
    DiscardIs(ds, len);
    DiscardBlocks(ds, len);
  }

  lemma {:induction false} DiscardBlocks(ds: seq<Bytes>, len: nat)
    ensures LastOfThese(ds, Discard(ds, len))
    decreases |ds|
  {
    if ds != [] && len > 0 && |ds[0]| <= len { DiscardBlocks(ds[1..], len - |ds[0]|); }
  }

  lemma {:induction false} FlatNext(ds: seq<Bytes>, k: nat)
    requires k < |ds|
    ensures Flat(ds[..k + 1]) == Flat(ds[..k]) + ds[k] && ds[k..][1..] == ds[k + 1..] && ds[k..][0] == ds[k]
  {
    assert ds[..k + 1] == ds[..k] + [ds[k]];
    FlatJoin(ds[..k], [ds[k]]);
    assert Flat([ds[k]]) == ds[k] + Flat([]);
  }

  // ---------- Every sequence of operations ----------

  datatype Op = Add(list: seq<Bytes>) | DoRead(len: nat) | DoBread(len: nat) | DoConsume(len: nat) | DoDiscard(len: nat)

  /** What one operation takes out, and what it leaves; reading an empty queue waits, taking nothing. */
  function Do(ds: seq<Bytes>, op: Op, msg: bool, coalesce: bool): Taken {
    match op
    case Add(list) => Taken([], ds + list)
    case DoRead(len) => OrNothing(Read(ds, len, msg, coalesce))
    case DoBread(len) => var r := Bread(ds, len, msg); if r.Some? then r.value else Taken([], ds)
    case DoConsume(len) => OrNothing(Consume(ds, len, msg))
    case DoDiscard(len) => Taken(Flat(ds)[..Min(len, |Flat(ds)|)], Discard(ds, len))
  }

  /** A read that waits has let the empty blocks go. */
  function OrNothing(r: Option<Taken>): Taken {
    if r.Some? then r.value else Taken([], [])
  }

  function Out(ds: seq<Bytes>, ops: seq<Op>, coalesce: bool): Bytes
    decreases |ops|
  {
    if ops == [] then []
    else var t := Do(ds, ops[0], false, coalesce); t.got + Out(t.rest, ops[1..], coalesce)
  }

  function Left(ds: seq<Bytes>, ops: seq<Op>, coalesce: bool): seq<Bytes>
    decreases |ops|
  {
    if ops == [] then ds else Left(Do(ds, ops[0], false, coalesce).rest, ops[1..], coalesce)
  }

  function Accepted(ops: seq<Op>): Bytes
    decreases |ops|
  {
    if ops == [] then [] else (if ops[0].Add? then Flat(ops[0].list) else []) + Accepted(ops[1..])
  }

  lemma {:induction false} DoConserves(ds: seq<Bytes>, op: Op, coalesce: bool)
    ensures var t := Do(ds, op, false, coalesce);
            t.got + Flat(t.rest) == Flat(ds) + (if op.Add? then Flat(op.list) else [])
  {
    match op
    case Add(list) => FlatJoin(ds, list);
    case DoRead(len) =>
      var es := if coalesce then DropEmpty(ds) else ds;
      if es != [] { CutConserves(es, if coalesce then Grab(es, len) else 1, len); }
    case DoBread(len) => if ds != [] { CutConserves(ds, 1, len); }
    case DoConsume(len) => if DropEmpty(ds) != [] { CutConserves(DropEmpty(ds), 1, len); }
    case DoDiscard(len) => DiscardIs(ds, len);
  }

  /** A queue that does not keep messages is a stream: whatever the operations, the bytes taken, then
      those still queued, are the bytes accepted. */
  lemma {:induction false} Stream(ds: seq<Bytes>, ops: seq<Op>, coalesce: bool)
    ensures Out(ds, ops, coalesce) + Flat(Left(ds, ops, coalesce)) == Flat(ds) + Accepted(ops)
    decreases |ops|
  {
    if ops != [] {
      var t := Do(ds, ops[0], false, coalesce);
      DoConserves(ds, ops[0], coalesce);
      Stream(t.rest, ops[1..], coalesce);
      Regroup(t.got, Out(t.rest, ops[1..], coalesce), Flat(Left(t.rest, ops[1..], coalesce)), Flat(t.rest), Accepted(ops[1..]),
              Flat(ds), if ops[0].Add? then Flat(ops[0].list) else []);
    }
  }

  lemma Regroup(got: Bytes, out: Bytes, left: Bytes, rest: Bytes, acc: Bytes, before: Bytes, added: Bytes)
    requires out + left == rest + acc && got + rest == before + added
    ensures (got + out) + left == before + (added + acc)
  {
    assert (got + out) + left == got + (out + left);
    assert got + (rest + acc) == (got + rest) + acc;
  }

  /** want more bytes off ds is what len bytes off ds0 comes to. */
  ghost predicate ToDiscard(ds: seq<Bytes>, want: nat, ds0: seq<Bytes>, len: nat) {
    want <= len && Discard(ds, want) == Discard(ds0, len) && |Flat(ds)| - want == |Flat(ds0)| - len
  }

  lemma {:induction false} DiscardNext(ds: seq<Bytes>, want: nat, ds0: seq<Bytes>, len: nat)
    requires ToDiscard(ds, want, ds0, len) && ds != [] && want > 0
    ensures |ds[0]| <= want ==> ToDiscard(ds[1..], want - |ds[0]|, ds0, len)
    ensures |ds[0]| > want ==> ToDiscard([ds[0][want..]] + ds[1..], 0, ds0, len)
  {
    assert ([ds[0][Min(want, |ds[0]|)..]] + ds[1..])[1..] == ds[1..];
  }

  lemma {:induction false} DiscardedAll(ds: seq<Bytes>, want: nat, ds0: seq<Bytes>, len: nat)
    requires ToDiscard(ds, want, ds0, len) && (want == 0 || ds == [])
    ensures ds == Discard(ds0, len) && len - want == Min(len, |Flat(ds0)|)
  {
  }

  /** k blocks of n bytes are taken; more tells whether a coalescing read goes on. */
  ghost predicate ToGrab(ds: seq<Bytes>, len: nat, k: nat, n: nat, more: bool) {
    && ds != [] && k <= |ds| && n == |Flat(ds[..k])|
    && if more then k < |ds| && Grab(ds, len) == k + Grab(ds[k..], len - n) else Grab(ds, len) == k
  }

  lemma {:induction false} GrabNext(ds: seq<Bytes>, len: nat, k: nat, n: nat)
    requires ToGrab(ds, len, k, n, true)
    ensures var m := n + |ds[k]|; ToGrab(ds, len, k + 1, m, !(m >= len || k + 1 == |ds|))
  {
    FlatNext(ds, k);
    assert ds[k..][0] == ds[k] && ds[k..][1..] == ds[k + 1..];
    assert len - n - |ds[k]| == len - (n + |ds[k]|);
  }

  // ---------- The queue in memory ----------

  function Front(bs: seq<Block>): set<Block> {
    if bs == [] then {} else {bs[0]}
  }

  function Back(bs: seq<Block>): set<Block> {
    if bs == [] then {} else {bs[|bs| - 1]}
  }

  predicate Suffix(bs: seq<Block>, all: seq<Block>) {
    |bs| <= |all| && bs == all[|all| - |bs|..]
  }

  /** By how much the positions are further apart than the memory of the queued blocks. */
  function Off(rp: int, wp: int, bs: seq<Block>): int {
    wp - rp - Alloc(bs)
  }

  lemma {:induction false} OffFront(rp: int, wp: int, b: Block, bs: seq<Block>)
    ensures Off(rp - b.lim, wp, [b] + bs) == Off(rp, wp, bs)
  {
    assert ([b] + bs)[1..] == bs;
  }

  lemma {:induction false} OffBack(rp: int, wp: int, bs: seq<Block>, cs: seq<Block>)
    ensures Off(rp, wp + Alloc(cs), bs + cs) == Off(rp, wp, bs)
  {
    AllocJoin(bs, cs);
  }

  class Queue {
    const msg: bool
    const coalesce: bool
    var starve: bool
    var flow: bool
    var dlen: int
    var rp: int
    var wp: int
    var limit: nat
    var bfirst: Block?
    var blast: Block?
    ghost var bs: seq<Block>
    ghost var ds: seq<Bytes>

    /** dlen is the number of bytes queued, and blast the true last block. */
    ghost predicate Valid()
      reads this, bs
    {
      && Chain(bs, ds) && dlen == |Flat(ds)|
      && bfirst == First(bs) && (bs != [] ==> blast == bs[|bs| - 1])
    }

    /** The positions are apart by the memory queued, but for this. */
    ghost function Gap(): int
      reads `rp, `wp, `bs
    {
      Off(rp, wp, bs)
    }

    predicate Above()
      reads this
    {
      Signed(Wrap(wp - rp)) > limit
    }

    /** qopen. */
    constructor (limit0: nat, msg0: bool, coalesce0: bool)
      ensures Valid() && Gap() == 0 && ds == [] && limit == limit0 && msg == msg0 && coalesce == coalesce0
    {
      msg, coalesce, limit := msg0, coalesce0, limit0;
      starve, flow, dlen, rp, wp := true, false, 0, 0, 0;
      bfirst, blast, bs, ds := null, null, [], [];
      new;
      assert Flat(ds) == [] && Alloc(bs) == 0;
    }

    /** qremove. */
    method Qremove() returns (b: Block?)
      requires Valid()
      modifies this`bfirst, this`dlen, this`rp, this`bs, this`ds, Front(bs)
      ensures Valid()
      ensures old(bs) == [] ==> b == null && bs == [] && ds == [] && rp == old(rp)
      ensures old(bs) != [] ==> Removed(b, old(bs), old(ds)) && rp == old(rp) + b.lim
      ensures Gap() == old(Gap())
    {
      if bfirst == null { return null; }
      ChainTail(bs, ds);
      var c: Block := bfirst;
      bfirst := c.next;
      c.next := null;
      dlen := dlen - |c.data|;
      rp := rp + c.lim;
      ghost var bs0, ds0 := bs, ds;
      bs, ds := bs[1..], ds[1..];
      TakeFront(c, bs0, ds0);
      return c;
    }

    lemma {:induction false} TakeFront(b: Block, bs0: seq<Block>, ds0: seq<Bytes>)
      requires bs0 != [] && b == bs0[0] && |ds0| == |bs0| && bs == bs0[1..] && ds == ds0[1..] && Chain(bs, ds)
      requires bfirst == First(bs) && blast == bs0[|bs0| - 1] && dlen == |Flat(ds0)| - |ds0[0]|
      ensures Valid()
    {
    }

    /** b was the first block of bs0 and is no longer on the queue. */
    ghost predicate Removed(b: Block?, bs0: seq<Block>, ds0: seq<Bytes>)
      reads this, b
    {
      && bs0 != [] && ds0 != [] && b == bs0[0] && b.next == null && b.Ok() && b.data == ds0[0]
      && bs == bs0[1..] && ds == ds0[1..] && b !in bs
    }

    /** qputback. */
    method Qputback(b: Block)
      requires Valid() && b !in bs && b.Ok()
      modifies this`bfirst, this`blast, this`dlen, this`rp, this`bs, this`ds, b`next
      ensures Valid() && bs == [b] + old(bs) && ds == [b.data] + old(ds) && rp == old(rp) - b.lim
      ensures Gap() == old(Gap())
    {
      ghost var bs0, ds0 := bs, ds;
      b.next := bfirst;
      if bfirst == null { blast := b; }
      bfirst := b;
      dlen := dlen + |b.data|;
      rp := rp - b.lim;
      bs, ds := [b] + bs, [b.data] + ds;
      PutFront(b, bs0, ds0);
      OffFront(rp + b.lim, wp, b, bs0);
    }

    lemma {:induction false} PutFront(b: Block, bs0: seq<Block>, ds0: seq<Bytes>)
      requires Chain(bs0, ds0) && b !in bs0 && b.Ok() && b.next == First(bs0)
      requires bs == [b] + bs0 && ds == [b.data] + ds0 && bfirst == b && dlen == |Flat(ds0)| + |b.data|
      requires blast == if bs0 == [] then b else bs0[|bs0| - 1]
      ensures Valid()
    {
      ChainCons(b, bs0, b.data, ds0);
      assert ds[1..] == ds0;
    }

    /** The chain at b goes behind the last block. */
    method Hook(b: Block, ghost cs: seq<Block>, ghost es: seq<Bytes>) returns (ghost all: seq<Block>, ghost des: seq<Bytes>)
      requires Valid() && cs != [] && b == cs[0] && Chain(cs, es) && forall c <- cs :: c !in bs
      modifies this`bfirst, Back(bs)
      ensures all == bs + cs && des == ds + es && Chain(all, des) && Chain(cs, es) && bfirst == First(all)
      ensures all != [] && all[|all| - 1] == cs[|cs| - 1] && |Flat(des)| == dlen + |Flat(es)|
    {
      if bfirst != null {
        LinkLast(blast, b, bs, ds, cs, es);
      } else {
        bfirst := b;
      }
      all, des := bs + cs, ds + es;
      JoinChains(bs, ds, cs, es);
      FlatJoin(ds, es);
    }

    /** qaddlist; cs and es are the chain at b. */
    method Qaddlist(b: Block, ghost cs: seq<Block>, ghost es: seq<Bytes>) returns (len: nat)
      requires Valid() && cs != [] && b == cs[0] && Chain(cs, es) && forall c <- cs :: c !in bs
      modifies this`bfirst, this`blast, this`dlen, this`wp, this`bs, this`ds, Back(bs)
      ensures Valid() && bs == old(bs) + cs && ds == old(ds) + es && len == |Flat(es)|
      ensures wp == old(wp) + Alloc(cs)
      ensures Gap() == old(Gap())
    {
      OffBack(rp, wp, bs, cs);
      ghost var all, des := Hook(b, cs, es);
      var last, w;
      len, w, last := AddUp(b, wp, cs, es);
      Extend(last, w, len, all, des);
    }

    /** The fields catch up with the chain. */
    method Extend(last: Block, w: int, len: nat, ghost bs': seq<Block>, ghost ds': seq<Bytes>)
      requires Chain(bs', ds') && bs' != [] && bfirst == First(bs') && last == bs'[|bs'| - 1] && dlen + len == |Flat(ds')|
      modifies this`blast, this`dlen, this`wp, this`bs, this`ds
      ensures Valid() && bs == bs' && ds == ds' && wp == w
    {
      wp, dlen, blast, bs, ds := w, dlen + len, last, bs', ds';
    }

    /** The part of iunlock_consumer before the lock is given up; a writer is woken if flow was set. */
    method Consumed()
      requires Valid()
      modifies this`flow
      ensures Valid() && flow == (old(flow) && Above())
    {
      if Signed(Wrap(wp - rp)) <= limit { flow := false; }
    }

    /** The blocks with nothing in them that a coalescing read meets first. */
    method SkipEmpty()
      requires Valid()
      modifies this`bfirst, this`dlen, this`rp, this`bs, this`ds, Set(bs)
      ensures Valid() && ds == DropEmpty(old(ds)) && Suffix(bs, old(bs))
      ensures Gap() == old(Gap())
    {
      ghost var bs0, k := bs, 0;
      while bfirst != null && |bfirst.data| == 0
        invariant Valid() && DropEmpty(ds) == DropEmpty(old(ds))
        invariant k <= |bs0| && bs == bs0[k..] && Gap() == old(Gap())
        decreases |bs|
      {
        assert bs[0] == bs0[k];
        var b := Qremove();
        k := k + 1;
      }
    }

    /** The coalescing branch of qread: the first block and as many more as fit in part. */
    method Collect(len: nat) returns (taken: seq<Block>, n: nat)
      requires Valid() && bs != []
      modifies this`bfirst, this`dlen, this`rp, this`bs, this`ds, Set(bs)
      ensures Valid() && TakenOff(taken, old(bs), old(ds), Grab(old(ds), len)) && n == |Flat(old(ds)[..Grab(old(ds), len)])|
      ensures Gap() == old(Gap())
    {
      taken, n := [], 0;
      ghost var bs0, ds0 := bs, ds;
      var more := true;
      while more
        invariant Valid() && TakenOff(taken, bs0, ds0, |taken|)
        invariant ToGrab(ds0, len, |taken|, n, more) && Gap() == old(Gap())
        decreases |bs|, more
      {
        var m := |bfirst.data|;
        GrabNext(ds0, len, |taken|, n);
        var b := TakeOne(taken, bs0, ds0);
        taken := taken + [b];
        n := n + m;
        if n >= len || bfirst == null { more := false; }
      }
    }

    /** One more block for taken. */
    method TakeOne(ghost taken: seq<Block>, ghost bs0: seq<Block>, ghost ds0: seq<Bytes>) returns (b: Block)
      requires Valid() && bs != [] && TakenOff(taken, bs0, ds0, |taken|)
      modifies this`bfirst, this`dlen, this`rp, this`bs, this`ds, Front(bs)
      ensures Valid() && TakenOff(taken + [b], bs0, ds0, |taken| + 1)
      ensures bs == old(bs)[1..] && ds == old(ds)[1..]
      ensures Gap() == old(Gap())
    {
      var c := Qremove();
      b := c;
    }

    /** taken are the first k blocks of bs0, with their bytes; the rest is queued. */
    ghost predicate TakenOff(taken: seq<Block>, bs0: seq<Block>, ds0: seq<Bytes>, k: nat)
      reads this, taken
    {
      && |taken| == k <= |bs0| == |ds0| && taken == bs0[..k] && bs == bs0[k..] && ds == ds0[k..]
      && Holds(taken, ds0[..k]) && forall b <- taken :: b !in bs
    }

    /** A block off the queue is split and its tail put back. */
    method SplitBack(b: Block, extra: nat, addr: nat) returns (head: Block, tail: Block)
      requires Valid() && b !in bs && b.Ok() && extra <= |b.data|
      modifies this`bfirst, this`blast, this`dlen, this`rp, this`bs, this`ds, b
      ensures var m := |old(b.data)| - extra;
              Valid() && bs == [tail] + old(bs) && ds == [old(b.data)[m..]] + old(ds) && rp == old(rp) - tail.lim
              && head.Ok() && head.data == old(b.data)[..m] && head !in bs
      ensures (head == b && fresh(tail) && tail.lim == Lim(addr, extra) - Base(addr)) || (tail == b && fresh(head))
      ensures Gap() == old(Gap())
    {
      ghost var bs0 := bs;
      head, tail := Splitblock(b, extra, addr);
      assert tail !in bs0 && head !in bs0;
      Qputback(tail);
    }

    /** What is too much of the last block taken goes back to the front of the queue. */
    method PutRest(taken0: seq<Block>, extra: nat, addr: nat, ghost es0: seq<Bytes>)
      returns (taken: seq<Block>, ghost es: seq<Bytes>)
      requires Valid() && taken0 != [] && Holds(taken0, es0) && Separate(taken0) && (forall b <- taken0 :: b !in bs)
      requires extra <= |es0[|es0| - 1]| && extra <= |Flat(es0)|
      modifies this`bfirst, this`blast, this`dlen, this`rp, this`bs, this`ds, taken0
      ensures Valid() && ds == [Flat(es0)[|Flat(es0)| - extra..]] + old(ds)
      ensures Holds(taken, es) && Flat(es) == Flat(es0)[..|Flat(es0)| - extra]
      ensures Gap() == old(Gap())
    {
      var i := |taken0| - 1;
      var last := taken0[i];
      FlatLast(es0, extra);
      assert forall j :: 0 <= j < i ==> taken0[j] != last && taken0[j].Ok() && taken0[j].data == es0[j];
      var head, tail := SplitBack(last, extra, addr);
      taken := taken0[..i] + [head];
      es := es0[..i] + [head.data];
    }

    /** qread; None when nothing is queued and the process has to wait. */
    method Qread(len: nat, addr: nat) returns (got: Option<Bytes>)
      requires Valid()
      modifies this`bfirst, this`blast, this`dlen, this`rp, this`flow, this`bs, this`ds, Set(bs)
      ensures Valid()
      ensures match Read(old(ds), len, msg, coalesce)
              case None => got == None && ds == []
              case Some(t) => got == Some(t.got) && ds == t.rest
      ensures got == None <==> if coalesce then Flat(old(ds)) == [] else old(ds) == []
      ensures got.Some? ==> if coalesce then AsMuch(old(ds), len, msg, got.value, ds) else FirstOnly(old(ds), len, msg, got.value, ds)
      ensures Gap() == old(Gap())
    {
      ReadIs(ds, len, msg, coalesce);
      if coalesce { SkipEmpty(); }
      if bfirst == null { return None; }
      var r := ReadSome(len, addr);
      return Some(r);
    }

    /** The rest of qread, with something queued. */
    method ReadSome(len: nat, addr: nat) returns (got: Bytes)
      requires Valid() && bs != []
      modifies this`bfirst, this`blast, this`dlen, this`rp, this`flow, this`bs, this`ds, Set(bs)
      ensures Valid()
      ensures Taken(got, ds) == Cut(old(ds), Count(old(ds), len), len, msg)
      ensures Gap() == old(Gap())
    {
      ghost var ds0 := ds;
      var taken0, n := Gather(len);
      var taken; ghost var es;
      taken, es := Trim(taken0, n, len, addr, ds0);
      Consumed();
      got := Readblist(taken, 0, len, es);
    }

    /** How many blocks a read takes. */
    function Count(ds0: seq<Bytes>, len: nat): (k: nat)
      requires ds0 != []
      ensures 0 < k <= |ds0|
    {
      if coalesce then Grab(ds0, len) else 1
    }

    /** Too much taken from a queue that does not keep messages; ds0 is what was queued. */
    method Trim(taken0: seq<Block>, n: nat, len: nat, addr: nat, ghost ds0: seq<Bytes>)
      returns (taken: seq<Block>, ghost es: seq<Bytes>)
      requires Valid() && taken0 != [] && |taken0| <= |ds0| && ds == ds0[|taken0|..] && Holds(taken0, ds0[..|taken0|])
      requires Separate(taken0) && forall b <- taken0 :: b !in bs
      requires n == |Flat(ds0[..|taken0|])| && (n > len ==> n - len <= |ds0[|taken0| - 1]|)
      modifies this`bfirst, this`blast, this`dlen, this`rp, this`bs, this`ds, taken0
      ensures Valid() && Holds(taken, es)
      ensures Taken(Slice(Flat(es), 0, len), ds) == Cut(ds0, |taken0|, len, msg)
      ensures Gap() == old(Gap())
    {
      ghost var got := Flat(ds0[..|taken0|]);
      taken, es := taken0, ds0[..|taken0|];
      if n > len && !msg {
        taken, es := PutRest(taken0, n - len, addr, es);
        assert Flat(es) == got[..len];
      }
      assert Slice(Flat(es), 0, len) == Flat(es)[..Min(len, |Flat(es)|)];
      assert [] + ds0[|taken0|..] == ds0[|taken0|..];
    }

    method Gather(len: nat) returns (taken: seq<Block>, n: nat)
      requires Valid() && bs != []
      modifies this`bfirst, this`dlen, this`rp, this`bs, this`ds, Set(bs)
      ensures Valid() && TakenOff(taken, old(bs), old(ds), Count(old(ds), len)) && Separate(taken)
      ensures n == |Flat(old(ds)[..|taken|])| && (n > len ==> n - len <= |old(ds)[|taken| - 1]|)
      ensures Gap() == old(Gap())
    {
      GrabLast(ds, len);
      ChainSeparate(bs, ds);
      if coalesce {
        taken, n := Collect(len);
      } else {
        FlatNext(ds, 0);
        var b := TakeOne([], bs, ds);
        taken, n := [b], |b.data|;
      }
    }

    /** qbread, with something queued. */
    method BreadSome(len: nat, addr: nat) returns (b: Block)
      requires Valid() && bs != []
      modifies this`bfirst, this`blast, this`dlen, this`rp, this`flow, this`bs, this`ds, Front(bs)
      ensures Valid() && b.Ok() && b !in bs && Taken(b.data, ds) == Cut(old(ds), 1, len, msg)
      ensures Gap() == old(Gap())
    {
      CutOne(ds, len, msg);
      var c := Qremove();
      b := c;
      if |b.data| > len {
        if !msg {
          var tail;
          b, tail := SplitBack(b, |b.data| - len, addr);
        } else {
          CutShort(b, len);
        }
      }
      Consumed();
    }

    /** wp of a block off the queue is moved back. */
    method CutShort(b: Block, len: nat)
      requires Valid() && b !in bs && b.Ok() && len <= |b.data|
      modifies b`data
      ensures Valid() && b.Ok() && b.data == old(b.data)[..len]
    {
      b.data := b.data[..len];
    }

    /** qbread; null when nothing is queued and the process has to wait. */
    method Qbread(len: nat, addr: nat) returns (b: Block?)
      requires Valid()
      modifies this`bfirst, this`blast, this`dlen, this`rp, this`flow, this`bs, this`ds, Front(bs)
      ensures Valid()
      ensures match Bread(old(ds), len, msg)
              case None => b == null && ds == []
              case Some(t) => b != null && b.Ok() && b.data == t.got && ds == t.rest
      ensures if b == null then old(ds) == [] else FirstOnly(old(ds), len, msg, b.data, ds)
      ensures Gap() == old(Gap())
    {
      ReadIs(ds, len, msg, false);
      if bfirst == null { return null; }
      b := BreadSome(len, addr);
    }

    /** rp of the first block moves over n bytes. */
    method Advance(n: nat)
      requires Valid() && bs != [] && n <= |ds[0]|
      modifies this`dlen, this`ds, Front(bs)
      ensures Valid() && ds == [old(ds)[0][n..]] + old(ds)[1..]
      ensures Gap() == old(Gap())
    {
      ghost var ds0 := ds;
      ChainTail(bs, ds);
      var b: Block := bfirst;
      b.rp, b.data := b.rp + n, b.data[n..];
      dlen := dlen - n;
      ds := [ds0[0][n..]] + ds0[1..];
      assert Chain(bs[1..], ds0[1..]);
      ChainCons(b, bs[1..], b.data, ds0[1..]);
      assert [b] + bs[1..] == bs && ds[1..] == ds0[1..];
    }

    /** qconsume; None when nothing is queued. */
    method Qconsume(len: nat) returns (got: Option<Bytes>)
      requires Valid()
      modifies this`bfirst, this`dlen, this`rp, this`flow, this`bs, this`ds, Set(bs)
      ensures Valid()
      ensures match Consume(old(ds), len, msg)
              case None => got == None && ds == []
              case Some(t) => got == Some(t.got) && ds == t.rest
      ensures got == None <==> Flat(old(ds)) == []
      ensures got.Some? ==> FirstWithSome(old(ds), len, msg, got.value, ds)
      ensures Gap() == old(Gap())
    {
      ConsumeIs(ds, len, msg);
      SkipEmpty();
      if bfirst == null {
        Consumed();
        return None;
      }
      var r := ConsumeSome(len);
      Consumed();
      return Some(r);
    }

    method ConsumeSome(len0: nat) returns (got: Bytes)
      requires Valid() && bs != [] && ds[0] != []
      modifies this`bfirst, this`dlen, this`rp, this`bs, this`ds, Front(bs)
      ensures Valid() && Taken(got, ds) == Cut(old(ds), 1, len0, msg)
      ensures Gap() == old(Gap())
    {
      CutOne(ds, len0, msg);
      var n, len := |bfirst.data|, len0;
      if n < len { len := n; }
      got := bfirst.data[..len];
      Advance(len);
      if msg || len == n { DropFirst(); }
    }

    method DropFirst()
      requires Valid() && bs != []
      modifies this`bfirst, this`dlen, this`rp, this`bs, this`ds, Front(bs)
      ensures Valid() && bs == old(bs)[1..] && ds == old(ds)[1..]
      ensures Gap() == old(Gap())
    {
      var b := Qremove();
    }

    /** qdiscard. */
    method Qdiscard(len: nat) returns (sofar: nat)
      requires Valid()
      modifies this`bfirst, this`dlen, this`rp, this`flow, this`bs, this`ds, Set(bs)
      ensures Valid() && ds == Discard(old(ds), len) && sofar == Min(len, |Flat(old(ds))|)
      ensures Discarded(old(ds), ds, sofar)
      ensures forall b <- bs :: b in old(bs)
      ensures Gap() == old(Gap())
    {
      DiscardedIs(ds, len);
      sofar := DiscardLoop(len);
      Consumed();
    }

    method DiscardLoop(len: nat) returns (sofar: nat)
      requires Valid()
      modifies this`bfirst, this`dlen, this`rp, this`bs, this`ds, Set(bs)
      ensures Valid() && ds == Discard(old(ds), len) && sofar == Min(len, |Flat(old(ds))|)
      ensures forall b <- bs :: b in old(bs)
      ensures Gap() == old(Gap())
    {
      sofar := 0;
      ghost var bs0, ds0, want := bs, ds, len;
      while sofar < len && bfirst != null
        invariant Valid() && forall b <- bs :: b in bs0
        invariant sofar + want == len && ToDiscard(ds, want, ds0, len) && Gap() == old(Gap())
        decreases |bs|, want
      {
        assert bs[0] in bs0;
        var n := DiscardOne(len - sofar, want, ds0, len);
        want := want - n;
        sofar := sofar + n;
      }
      DiscardedAll(ds, want, ds0, len);
    }

    /** One turn of qdiscard. */
    method DiscardOne(most: nat, ghost want: nat, ghost ds0: seq<Bytes>, ghost len: nat) returns (n: nat)
      requires Valid() && bs != [] && most == want > 0 && ToDiscard(ds, want, ds0, len)
      modifies this`bfirst, this`dlen, this`rp, this`bs, this`ds, Front(bs)
      ensures Valid() && n <= want && ToDiscard(ds, want - n, ds0, len)
      ensures bs == old(bs)[1..] || (bs == old(bs) && n == want)
      ensures Gap() == old(Gap())
    {
      n := |bfirst.data|;
      DiscardNext(ds, want, ds0, len);
      if n <= most {
        DropFirst();
      } else {
        n := most;
        Advance(n);
      }
    }

    /** qflush. */
    method Qflush()
      requires Valid()
      modifies this`bfirst, this`dlen, this`rp, this`flow, this`bs, this`ds
      ensures Valid() && ds == [] && rp == wp && Gap() == 0
    {
      bfirst, rp, dlen, bs, ds := null, wp, 0, [], [];
      Consumed();
    }

    /** pullupqueue, which does not look at the positions.  Without enough bytes all blocks are let
        go, while dlen still counts them. */
    method Pullupqueue(n: nat, addr: nat) returns (b: Block?)
      requires Valid() && bs != []
      modifies this`bfirst, this`blast, this`bs, this`ds, Set(bs)
      ensures b == bfirst && (b == null <==> |Flat(old(ds))| < n)
      ensures b != null ==> Valid() && bs != [] && |ds[0]| >= n && Flat(ds) == Flat(old(ds))
      ensures b != null ==> forall c <- bs :: c in old(bs) || fresh(c)
    {
      FlatAtLeast(ds);
      var f: Block := bfirst;
      if |f.data| >= n { return f; }
      ghost var bs', ds';
      b, bs', ds' := Pullupblock(f, n, addr, bs, ds);
      bfirst := b;
      if b == null {
        blast := null;
      } else {
        Relast(b, bs', ds');
      }
    }

    /** blast is looked for again. */
    method Relast(b: Block, ghost bs': seq<Block>, ghost ds': seq<Bytes>)
      requires bs' != [] && b == bs'[0] == bfirst && Chain(bs', ds') && dlen == |Flat(ds')|
      modifies this`blast, this`bs, this`ds
      ensures Valid() && bs == bs' && ds == ds'
    {
      blast := LastOf(b, bs', ds');
      bs, ds := bs', ds';
    }
  }

  method LastOf(first: Block, ghost bs: seq<Block>, ghost ds: seq<Bytes>) returns (b: Block)
    requires bs != [] && first == bs[0] && Chain(bs, ds)
    ensures b == bs[|bs| - 1]
  {
    b := first;
    ghost var ks, fs := bs, ds;
    while b.next != null
      invariant ks != [] && b == ks[0] && Chain(ks, fs) && ks[|ks| - 1] == bs[|bs| - 1]
      decreases |ks|
    {
      b := b.next;
      ks, fs := ks[1..], fs[1..];
    }
  }

  /** readblist: n bytes from offset o of a list of blocks. */
  method Readblist(list: seq<Block>, o0: nat, n0: nat, ghost es: seq<Bytes>) returns (got: Bytes)
    requires Holds(list, es)
    ensures got == Slice(Flat(es), o0, n0)
  {
    var o: nat, n: nat, i: nat := o0, n0, 0;
    got := [];
    ReadStart(es, o, n);
    while n > 0 && i < |list|
      invariant i <= |list| && ToRead(es, i, got, o, n, Slice(Flat(es), o0, n0))
      decreases |list| - i
    {
      var m := |list[i].data|;
      ReadNext(es, i, got, o, n, Slice(Flat(es), o0, n0));
      if o >= m {
        o := o - m;
      } else {
        m := m - o;
        if n < m { m := n; }
        got := got + list[i].data[o..o + m];
        n, o := n - m, 0;
      }
      i := i + 1;
    }
    ReadAll(es, i, got, o, n, Slice(Flat(es), o0, n0));
  }

  ghost predicate ToRead(es: seq<Bytes>, i: nat, got: Bytes, o: nat, n: nat, all: Bytes) {
    i <= |es| && got + Slice(Flat(es[i..]), o, n) == all
  }

  lemma {:induction false} ReadStart(es: seq<Bytes>, o: nat, n: nat)
    ensures ToRead(es, 0, [], o, n, Slice(Flat(es), o, n))
  {
    assert es[0..] == es;
  }

  lemma {:induction false} ReadNext(es: seq<Bytes>, i: nat, got: Bytes, o: nat, n: nat, all: Bytes)
    requires ToRead(es, i, got, o, n, all) && i < |es|
    ensures o >= |es[i]| ==> ToRead(es, i + 1, got, o - |es[i]|, n, all)
    ensures o < |es[i]| ==> var m := Min(|es[i]| - o, n); ToRead(es, i + 1, got + es[i][o..o + m], 0, n - m, all)
  {
    FlatFrom(es, i);
    if o >= |es[i]| {
      SliceNext(es[i], Flat(es[i + 1..]), o, n);
    } else {
      ReadPart(es[i], Flat(es[i + 1..]), got, o, n, Min(|es[i]| - o, n), all);
    }
  }

  lemma {:induction false} FlatFrom(es: seq<Bytes>, i: nat)
    requires i < |es|
    ensures Flat(es[i..]) == es[i] + Flat(es[i + 1..])
  {
    assert es[i..][1..] == es[i + 1..];
  }

  lemma ReadPart(d: Bytes, rest: Bytes, got: Bytes, o: nat, n: nat, m: nat, all: Bytes)
    requires o < |d| && m == Min(|d| - o, n) && got + Slice(d + rest, o, n) == all
    ensures (got + d[o..o + m]) + Slice(rest, 0, n - m) == all
  {
    SliceNext(d, rest, o, n);
    Reassociate(got, d[o..o + m], Slice(rest, 0, n - m), all);
  }

  lemma Reassociate(a: Bytes, b: Bytes, c: Bytes, all: Bytes)
    requires a + (b + c) == all
    ensures (a + b) + c == all
  {
    assert (a + b) + c == a + (b + c);
  }

  lemma {:induction false} ReadAll(es: seq<Bytes>, i: nat, got: Bytes, o: nat, n: nat, all: Bytes)
    requires ToRead(es, i, got, o, n, all) && (n == 0 || i == |es|)
    ensures got == all
  {
    if i == |es| { assert es[i..] == []; }
  }

  function Slice(d: Bytes, o: nat, n: nat): Bytes {
    if o >= |d| then [] else d[o..Min(o + n, |d|)]
  }

  lemma {:induction false} SliceNext(d: Bytes, e: Bytes, o: nat, n: nat)
    ensures o >= |d| ==> Slice(d + e, o, n) == Slice(e, o - |d|, n)
    ensures o < |d| ==> var m := Min(|d| - o, n); Slice(d + e, o, n) == d[o..o + m] + Slice(e, 0, n - m)
  {
  }

  lemma {:induction false} FlatSnoc(es: seq<Bytes>, d: Bytes)
    ensures Flat(es + [d]) == Flat(es) + d
  {
    FlatJoin(es, [d]);
    assert Flat([d]) == d + Flat([]);
  }

  lemma {:induction false} FlatLast(es: seq<Bytes>, extra: nat)
    requires es != [] && extra <= |es[|es| - 1]|
    ensures var i, last := |es| - 1, es[|es| - 1]; var m := |last| - extra; var d := Flat(es);
            extra <= |d| && last[m..] == d[|d| - extra..] && Flat(es[..i] + [last[..m]]) == d[..|d| - extra]
  {
    var i, last := |es| - 1, es[|es| - 1];
    var m := |last| - extra;
    FlatSnoc(es[..i], last);
    assert es[..i] + [last] == es;
    FlatSnoc(es[..i], last[..m]);
    CutTail(Flat(es[..i]), last, m);
  }

  lemma {:induction false} CutTail(a: Bytes, b: Bytes, m: nat)
    requires m <= |b|
    ensures (a + b)[|a| + m..] == b[m..] && (a + b)[..|a| + m] == a + b[..m]
  {
  }

  /** What a coalescing read takes too much is of the last block. */
  lemma {:induction false} GrabLast(ds: seq<Bytes>, len: nat)
    requires ds != []
    ensures var k := Grab(ds, len); |Flat(ds[..k])| > len ==> |Flat(ds[..k])| - len <= |ds[k - 1]|
    ensures |Flat(ds[..1])| == |ds[0]|
    decreases |ds|
  {
    FlatNext(ds, 0);
    if |ds[0]| < len && |ds| > 1 {
      var k := Grab(ds, len);
      GrabLast(ds[1..], len - |ds[0]|);
      assert ds[..k][1..] == ds[1..][..k - 1];
    }
  }

  /** The last block of a chain is linked to another chain. */
  method LinkLast(last: Block, b: Block, ghost bs: seq<Block>, ghost ds: seq<Bytes>, ghost cs: seq<Block>, ghost es: seq<Bytes>)
    requires Chain(bs, ds) && Chain(cs, es) && bs != [] && last == bs[|bs| - 1] && cs != [] && b == cs[0]
    requires forall c <- cs :: c !in bs
    modifies last`next
    ensures Segment(bs, ds, b) && Chain(cs, es)
  {
    LastOff(bs, ds, null);
    assert last in bs && last !in cs;
    last.next := b;
    LastOn(bs, ds, b);
  }

  lemma {:induction false} LastOff(bs: seq<Block>, ds: seq<Bytes>, end: Block?)
    requires Segment(bs, ds, end) && bs != []
    ensures var n := |bs| - 1; Segment(bs[..n], ds[..n], bs[n]) && bs[n] !in bs[..n] && bs[n].Ok() && bs[n].data == ds[n] && bs[n].next == end
    decreases |bs|
  {
    var n := |bs| - 1;
    if n > 0 {
      LastOff(bs[1..], ds[1..], end);
      assert bs[..n][1..] == bs[1..][..n - 1] && ds[..n][1..] == ds[1..][..n - 1];
      assert bs[n] in bs[1..];
    }
  }

  lemma {:induction false} LastOn(bs: seq<Block>, ds: seq<Bytes>, end: Block?)
    requires |bs| == |ds| > 0
    requires var n := |bs| - 1; Segment(bs[..n], ds[..n], bs[n]) && bs[n] !in bs[..n] && bs[n].Ok() && bs[n].data == ds[n] && bs[n].next == end
    ensures Segment(bs, ds, end)
    decreases |bs|
  {
    var n := |bs| - 1;
    if n > 0 {
      assert bs[..n][1..] == bs[1..][..n - 1] && ds[..n][1..] == ds[1..][..n - 1];
      assert bs[n] != bs[0] && bs[0] !in bs[..n][1..];
      assert forall x <- bs[1..] :: x in bs[1..][..n - 1] || x == bs[n];
      LastOn(bs[1..], ds[1..], end);
    }
  }

  lemma {:induction false} JoinChains(bs: seq<Block>, ds: seq<Bytes>, cs: seq<Block>, es: seq<Bytes>)
    requires Segment(bs, ds, First(cs)) && Chain(cs, es) && forall c <- cs :: c !in bs
    ensures Chain(bs + cs, ds + es)
    decreases |bs|
  {
    if bs == [] {
      assert bs + cs == cs && ds + es == es;
    } else {
      JoinChains(bs[1..], ds[1..], cs, es);
      assert (bs + cs)[1..] == bs[1..] + cs && (ds + es)[1..] == ds[1..] + es;
    }
  }

  /** The loop of qaddlist: the bytes of a chain, wp moved on, and its last block. */
  method AddUp(b0: Block, wp0: int, ghost cs: seq<Block>, ghost es: seq<Bytes>) returns (len: nat, wp: int, b: Block)
    requires cs != [] && b0 == cs[0] && Chain(cs, es)
    ensures len == |Flat(es)| && wp == wp0 + Alloc(cs) && b == cs[|cs| - 1]
  {
    b := b0;
    len := |b.data|;
    wp := wp0 + b.lim;
    ghost var ks, fs := cs, es;
    while b.next != null
      invariant ks != [] && b == ks[0] && Chain(ks, fs) && ks[|ks| - 1] == cs[|cs| - 1]
      invariant |Flat(es)| == len + |Flat(fs[1..])| && wp0 + Alloc(cs) == wp + Alloc(ks[1..])
      decreases |ks|
    {
      b := b.next;
      ks, fs := ks[1..], fs[1..];
      len, wp := len + |b.data|, wp + b.lim;
    }
    assert fs[1..] == [] && ks[1..] == [];
  }

  // ---------- Positions ----------

  /** The program keeps the positions in words that wrap; it only looks at their difference, which
      is the same. */
  lemma WordsWillDo(p: int, q: int)
    ensures Wrap(Wrap(p) - Wrap(q)) == Wrap(p - q)
  {
    assert (p % TWO32 - q % TWO32) % TWO32 == (p - q) % TWO32;
  }
}
