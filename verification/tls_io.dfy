/**
 The two sides of the record layer in kern/devtls.c: records written in turn, and records read from
 blocks as they come, with interrupts.
 */
module TlsIo {
  import opened Words
  import opened Blocks
  import opened Qio
  import opened Tls

  /** The part of a OneWay that says how the next record is made. */
  datatype Way = Way(sec: Option<Secret>, n: nat, next: Option<Secret>)

  ghost predicate WayOk(w: Way) {
    (w.sec.Some? ==> SecretOk(w.sec.value)) && (w.next.Some? ==> SecretOk(w.next.value))
  }

  // ---------- Writing ----------

  /** A record as it goes on the channel. */
  function Record(c: Crypto, version: nat, w: Way, ty: byte, data: Bytes): Bytes
    requires w.sec.Some? ==> w.sec.value.block <= 256
  {
    var body := if w.sec.Some? then Seal(c, w.sec.value, version, w.n, ty, data) else data;
    Header(ty, version, |body|) + body
  }

  /** After a record: the count moves on if it was sealed, and a change of cipher takes effect. */
  function After(w: Way, ty: byte): Way {
    if ty == CHANGECIPHER && w.next.Some? then Way(w.next, 0, None)
    else if w.sec.Some? then w.(n := w.n + 1) else w
  }

  /** The data of the records that one write is cut into. */
  function Fragments(data: Bytes): (fs: seq<Bytes>)
    ensures fs != [] && Flat(fs) == data
    ensures forall f <- fs :: |f| <= MAXREC && (data != [] ==> f != [])
    ensures forall i :: 0 <= i < |fs| - 1 ==> |fs[i]| == MAXREC
    decreases |data|
  {
    if |data| <= MAXREC then
      assert Flat([data]) == data + Flat([]);
      [data]
    else
      var rest := Fragments(data[MAXREC..]);
      assert ([data[..MAXREC]] + rest)[1..] == rest && data == data[..MAXREC] + data[MAXREC..];
      [data[..MAXREC]] + rest
  }

  /** What a write puts on the channel, and where it leaves its side. */
  datatype Written = Written(wire: Bytes, way: Way, ok: bool)

  /** Fragments written in turn; a change of cipher without a new cipher fails, though it has been
      counted. */
  function WriteAll(c: Crypto, version: nat, w: Way, ty: byte, fs: seq<Bytes>): (r: Written)
    requires WayOk(w)
    ensures WayOk(r.way)
    decreases |fs|
  {
    if fs == [] then Written([], w, true)
    else if ty == CHANGECIPHER && w.next == None then Written([], After(w, ty), false)
    else Before(Record(c, version, w, ty, fs[0]), WriteAll(c, version, After(w, ty), ty, fs[1..]))
  }

  function Before(wire: Bytes, r: Written): Written {
    r.(wire := wire + r.wire)
  }

  lemma BeforeBoth(a: Bytes, b: Bytes, r: Written)
    ensures Before(a, Before(b, r)) == Before(a + b, r)
  {
    assert a + (b + r.wire) == (a + b) + r.wire;
  }

  lemma FirstFragment(data: Bytes)
    ensures |data| > MAXREC ==> Fragments(data)[0] == data[..MAXREC] && Fragments(data)[1..] == Fragments(data[MAXREC..])
    ensures |data| <= MAXREC ==> Fragments(data)[0] == data && Fragments(data)[1..] == []
  {
    if |data| > MAXREC {
      assert Fragments(data) == [data[..MAXREC]] + Fragments(data[MAXREC..]);
    }
  }

  /** One turn of the loop of tlsrecwrite, with wire already written. */
  lemma TurnWrites(c: Crypto, version: nat, w: Way, ty: byte, fs: seq<Bytes>, wire: Bytes, all: Written)
    requires WayOk(w) && fs != [] && Before(wire, WriteAll(c, version, w, ty, fs)) == all
    ensures if ty == CHANGECIPHER && w.next == None then all == Written(wire, After(w, ty), false)
            else Before(wire + Record(c, version, w, ty, fs[0]), WriteAll(c, version, After(w, ty), ty, fs[1..])) == all
  {
    assert wire + [] == wire;
    BeforeBoth(wire, Record(c, version, w, ty, fs[0]), WriteAll(c, version, After(w, ty), ty, fs[1..]));
  }

  class OneWay {
    var n: nat
    var sec: Option<Secret>
    var next: Option<Secret>

    function State(): Way
      reads this
    {
      Way(sec, n, next)
    }

    constructor ()
      ensures State() == Way(None, 0, None) && WayOk(State())
    {
      n, sec, next := 0, None, None;
    }

    /** The section of tlsrecwrite that seclock protects: one record, and then the change of cipher.
        Without a cipher to change to the record is dropped, though it has been counted. */
    method Seal1(c: Crypto, version: nat, ty: byte, data: Bytes) returns (r: Option<Bytes>)
      requires WayOk(State()) && |data| <= MAXREC
      modifies this
      ensures WayOk(State())
      ensures r == (if ty == CHANGECIPHER && old(next) == None then None else Some(Record(c, version, old(State()), ty, data)))
      ensures State() == After(old(State()), ty)
    {
      var body := data;
      if sec.Some? {
        body := Seal(c, sec.value, version, n, ty, data);
        n := n + 1;
      }
      if ty == CHANGECIPHER {
        if next == None { return None; }
        sec, next, n := next, None, 0;
      }
      return Some(Header(ty, version, |body|) + body);
    }

    /** tlsrecwrite; not ok when a change of cipher finds none. */
    method Tlsrecwrite(c: Crypto, version: nat, ty: byte, data: Bytes) returns (wire: Bytes, ok: bool)
      requires WayOk(State())
      modifies this
      ensures Written(wire, State(), ok) == WriteAll(c, version, old(State()), ty, Fragments(data))
    {
      wire := [];
      var bb := data;
      var more := true;
      ghost var all, fs := WriteAll(c, version, State(), ty, Fragments(data)), Fragments(data);
      while more
        invariant WayOk(State()) && Before(wire, WriteAll(c, version, State(), ty, fs)) == all
        invariant fs == if more then Fragments(bb) else []
        decreases |bb|, more
      {
        FirstFragment(bb);
        TurnWrites(c, version, State(), ty, fs, wire, all);
        var data1 := bb;
        if |bb| > MAXREC {
          data1, bb := bb[..MAXREC], bb[MAXREC..];
        } else {
          more := false;
        }
        var r := Seal1(c, version, ty, data1);
        if r == None { return wire, false; }
        wire, fs := wire + r.value, fs[1..];
      }
      assert wire + [] == wire;
      ok := true;
    }
  }

  // ---------- Reading ----------

  /** What the channel gives to a read: a block, or an interrupt. */
  datatype Arrival = Got(data: Bytes) | Eintr

  /** The bytes that arrive. */
  function Arrived(xs: seq<Arrival>): Bytes {
    if xs == [] then [] else (if xs[0].Got? then xs[0].data else []) + Arrived(xs[1..])
  }

  lemma {:induction false} ArrivedSnoc(xs: seq<Arrival>, x: Arrival)
    ensures Arrived(xs + [x]) == Arrived(xs) + (if x.Got? then x.data else [])
    decreases |xs|
  {
    if xs == [] {
      assert xs + [x] == [x];
    } else {
      assert (xs + [x])[1..] == xs[1..] + [x];
      ArrivedSnoc(xs[1..], x);
    }
  }

  /** What the bytes at hand come to. */
  datatype Parsed = NeedMore | Bad | Rec(ty: byte, data: Bytes, rest: Bytes)

  function Parse(c: Crypto, version: nat, w: Way, all: Bytes): Parsed
    requires Ideal(c)
  {
    if |all| < HDR then NeedMore
    else
      var ty, ver, len := all[0], Get16(all[1..]), Get16(all[3..]);
      if ver != version || len > MAXCIPHER || len == 0 then Bad
      else if |all| < HDR + len then NeedMore
      else
        var body := all[HDR..HDR + len];
        var d := if w.sec.Some? then Open(c, w.sec.value, version, w.n, ty, ver, body) else Some(body);
        if d.Some? then Rec(ty, d.value, all[HDR + len..]) else Bad
  }

  /** The bytes are a record of the right version and of a length that is allowed, under the reader's cipher, and more. */
  ghost predicate RecordIs(c: Crypto, version: nat, w: Way, all: Bytes, ty: byte, d: Bytes, rest: Bytes, body: Bytes) {
    && all == Header(ty, version, |body|) + body + rest && 0 < |body| <= MAXCIPHER
    && if w.sec.Some? then Carries(c, w.sec.value, version, w.n, ty, version, body, d) else d == body
  }

  /** That much is there of a record that may be right. */
  predicate Unfinished(version: nat, all: Bytes) {
    |all| < HDR || (Get16(all[1..]) == version && 0 < Get16(all[3..]) <= MAXCIPHER && |all| < HDR + Get16(all[3..]))
  }

  lemma HeaderIs(version: nat, all: Bytes)
    requires |all| >= HDR && version < 0x1_0000
    ensures Get16(all[1..]) == version ==> all[..HDR] == Header(all[0], version, Get16(all[3..]))
    ensures forall ty: byte, len: nat :: len < 0x1_0000 && all[..HDR] == Header(ty, version, len) ==> ty == all[0] && Get16(all[1..]) == version && Get16(all[3..]) == len
  {
    forall ty: byte, len: nat | len < 0x1_0000 && all[..HDR] == Header(ty, version, len)
      ensures ty == all[0] && Get16(all[1..]) == version && Get16(all[3..]) == len
    {
      var h := Header(ty, version, len);
      assert all[0] == h[0] && all[1] == h[1] && all[2] == h[2] && all[3] == h[3] && all[4] == h[4];
      GetPut16(version);
      GetPut16(len);
      assert h[1..3] == Be16(version) && h[3..5] == Be16(len);
    }
  }

  /** What is accepted is just what is right. */
  lemma ParseIff(c: Crypto, version: nat, w: Way, all: Bytes)
    requires Ideal(c) && WayOk(w) && version < 0x1_0000
    ensures forall ty: byte, d, rest :: Parse(c, version, w, all) == Rec(ty, d, rest) <==> exists body :: RecordIs(c, version, w, all, ty, d, rest, body)
    ensures Parse(c, version, w, all) == NeedMore <==> Unfinished(version, all)
  {
    forall ty: byte, d, rest
      ensures Parse(c, version, w, all) == Rec(ty, d, rest) <==> exists body :: RecordIs(c, version, w, all, ty, d, rest, body)
    {
      if Parse(c, version, w, all) == Rec(ty, d, rest) { ParsedIsRecord(c, version, w, all, ty, d, rest); }
      if body :| RecordIs(c, version, w, all, ty, d, rest, body) { RecordIsParsed(c, version, w, all, ty, d, rest, body); }
    }
  }

  lemma ParsedIsRecord(c: Crypto, version: nat, w: Way, all: Bytes, ty: byte, d: Bytes, rest: Bytes)
    requires Ideal(c) && WayOk(w) && version < 0x1_0000 && Parse(c, version, w, all) == Rec(ty, d, rest)
    ensures exists body :: RecordIs(c, version, w, all, ty, d, rest, body)
  {
    var len := Get16(all[3..]);
    var body := all[HDR..HDR + len];
    HeaderIs(version, all);
    assert all == all[..HDR] + body + all[HDR + len..];
    if w.sec.Some? { OpenIff(c, w.sec.value, version, w.n, ty, version, body, d); }
    assert RecordIs(c, version, w, all, ty, d, rest, body);
  }

  lemma RecordIsParsed(c: Crypto, version: nat, w: Way, all: Bytes, ty: byte, d: Bytes, rest: Bytes, body: Bytes)
    requires Ideal(c) && WayOk(w) && version < 0x1_0000 && RecordIs(c, version, w, all, ty, d, rest, body)
    ensures Parse(c, version, w, all) == Rec(ty, d, rest)
  {
    var h := Header(ty, version, |body|);
    assert all[..HDR] == h && all[HDR..HDR + |body|] == body && all[HDR + |body|..] == rest;
    HeaderIs(version, all);
    if w.sec.Some? { OpenIff(c, w.sec.value, version, w.n, ty, version, body, d); }
  }

  /** Different blocks with their bytes. */
  ghost predicate List(bs: seq<Block>, ds: seq<Bytes>)
    reads bs
    decreases |bs|
  {
    && |bs| == |ds|
    && (bs != [] ==> bs[0].Ok() && bs[0].data == ds[0] && bs[0] !in bs[1..] && List(bs[1..], ds[1..]))
  }

  lemma {:induction false} ListSnoc(bs: seq<Block>, ds: seq<Bytes>, b: Block)
    requires List(bs, ds) && b.Ok() && b !in bs
    ensures List(bs + [b], ds + [b.data])
    decreases |bs|
  {
    if bs == [] {
      assert bs + [b] == [b] && ds + [b.data] == [b.data];
    } else {
      ListSnoc(bs[1..], ds[1..], b);
      assert (bs + [b])[1..] == bs[1..] + [b] && (ds + [b.data])[1..] == ds[1..] + [b.data];
    }
  }

  /** The list unprocessed of a TlsRec. */
  class Input {
    var blocks: seq<Block>
    ghost var ds: seq<Bytes>

    ghost predicate Valid()
      reads this, blocks
    {
      List(blocks, ds)
    }

    constructor ()
      ensures Valid() && Flat(ds) == [] && blocks == []
    {
      blocks, ds := [], [];
    }

    /** ensure: blocks are read until there are n bytes. */
    method Ensure(n: nat, input0: seq<Arrival>) returns (ok: bool, eintr: bool, input: seq<Arrival>)
      requires Valid()
      modifies this
      ensures Valid() && (forall b <- blocks :: b in old(blocks) || fresh(b)) && !(ok && eintr)
      ensures Drawn(input0, input, Flat(old(ds)), Flat(ds))
      ensures ok ==> |Flat(ds)| >= n
      ensures !ok && !eintr ==> input == [] || Got([]) in input0
      ensures input != input0 ==> |Flat(old(ds))| < n
    {
      input, ok, eintr := input0, true, false;
      var sofar := Count(blocks, ds);
      ghost var bs0, all0 := blocks, Flat(ds);
      assert input0[..0] == [];
      while sofar < n
        invariant Valid() && sofar == |Flat(ds)| && (forall b <- blocks :: b in bs0 || fresh(b))
        invariant Drawn(input0, input, all0, Flat(ds)) && (input != input0 ==> |all0| < n)
        decreases |input|
      {
        if input == [] { return false, false, input; }
        var x := input[0];
        NextArrival(input0, input, all0, Flat(ds));
        input := input[1..];
        if x.Eintr? { return false, true, input; }
        TakeIn(x.data);
        sofar := sofar + |x.data|;
        if |x.data| == 0 { return false, false, input; }
      }
    }

    /** A block that was read goes to the end of the list. */
    method TakeIn(data: Bytes)
      requires Valid()
      modifies this
      ensures Valid() && Flat(ds) == Flat(old(ds)) + data && (forall b <- blocks :: b in old(blocks) || fresh(b))
    {
      var b := new Block(|data|, 0);
      b.data := data;
      ListSnoc(blocks, ds, b);
      FlatSnoc(ds, data);
      blocks, ds := blocks + [b], ds + [data];
    }

    /** consume: n bytes off the front. */
    method Consume(n0: nat) returns (p: Bytes)
      requires Valid() && n0 <= |Flat(ds)|
      modifies this, Set(blocks)
      ensures Valid() && (forall b <- blocks :: b in old(blocks))
      ensures p == Flat(old(ds))[..n0] && Flat(ds) == Flat(old(ds))[n0..]
    {
      p := [];
      var n: nat := n0;
      ghost var bs0, all := blocks, Flat(ds);
      var more := true;
      while more && blocks != [] && n > 0
        invariant Valid() && (forall b <- blocks :: b in bs0)
        invariant n <= |Flat(ds)| && p + Flat(ds) == all && |p| + n == n0 && (!more ==> n == 0)
        decreases |blocks|, more
      {
        assert blocks[0] in blocks;
        ghost var before, rest := p, Flat(ds);
        var q, gone := ConsumeOne(n);
        p, n := p + q, n - |q|;
        assert before + (q + Flat(ds)) == (before + q) + Flat(ds);
        more := gone;
      }
      assert |p| == n0 by { assert blocks == [] ==> Flat(ds) == []; }
      assert p + Flat(ds) == all;
    }

    /** One turn of consume; gone tells whether the block is used up. */
    method ConsumeOne(n: nat) returns (q: Bytes, gone: bool)
      requires Valid() && blocks != [] && n > 0
      modifies this, Front(blocks)
      ensures Valid() && q + Flat(ds) == Flat(old(ds)) && |q| <= n && (!gone ==> |q| == n)
      ensures blocks == if gone then old(blocks)[1..] else old(blocks)
    {
      var b := blocks[0];
      var i := |b.data|;
      if i > n { i := n; }
      ghost var d := ds[0];
      q := b.data[..i];
      b.rp, b.data := b.rp + i, b.data[i..];
      ds := [d[i..]] + ds[1..];
      assert ds[1..] == old(ds)[1..] && d == d[..i] + d[i..];
      assert List(blocks[1..], ds[1..]);
      gone := |b.data| == 0;
      if gone { blocks, ds := blocks[1..], ds[1..]; }
    }

    /** regurgitate: the bytes go back in front. */
    method Regurgitate(p: Bytes, addr: nat)
      requires Valid()
      modifies this, Set(blocks)
      ensures Valid() && Flat(ds) == p + Flat(old(ds)) && (forall b <- blocks :: b in old(blocks) || fresh(b))
    {
      if p == [] { return; }
      if blocks == [] || blocks[0].rp < |p| {
        var b := new Block(|p|, addr);
        b.data := p;
        blocks, ds := [b] + blocks, [p] + ds;
      } else {
        var b := blocks[0];
        b.rp, b.data := b.rp - |p|, p + b.data;
        ds := [p + ds[0]] + ds[1..];
      }
    }

    /** qgrab: at most n bytes, in one block. */
    method Qgrab(n: nat, addr: nat) returns (b: Block)
      requires Valid() && blocks != []
      modifies this, Set(blocks)
      ensures Valid() && (forall x <- blocks :: x in old(blocks) && x != b)
      ensures var i := Min(n, |Flat(old(ds))|); b.Ok() && b.data == Flat(old(ds))[..i] && Flat(ds) == Flat(old(ds))[i..]
    {
      b := blocks[0];
      if |b.data| == n {
        assert Flat(ds) == ds[0] + Flat(ds[1..]);
        blocks, ds := blocks[1..], ds[1..];
        return;
      }
      var i := Count(blocks, ds);
      if i > n { i := n; }
      b := Copy(i, addr);
    }

    method Copy(i: nat, addr: nat) returns (b: Block)
      requires Valid() && i <= |Flat(ds)|
      modifies this, Set(blocks)
      ensures Valid() && fresh(b) && (forall x <- blocks :: x in old(blocks)) && b.Ok()
      ensures b.data == Flat(old(ds))[..i] && Flat(ds) == Flat(old(ds))[i..]
    {
      var p := Consume(i);
      b := new Block(i, addr);
      b.data := p;
    }
  }

  /** What of input0 is gone has been added to all0. */
  ghost predicate Drawn(input0: seq<Arrival>, input: seq<Arrival>, all0: Bytes, all: Bytes) {
    |input| <= |input0| && input == input0[|input0| - |input|..] && all == all0 + Arrived(input0[..|input0| - |input|])
  }

  lemma NextArrival(input0: seq<Arrival>, input: seq<Arrival>, all0: Bytes, all: Bytes)
    requires input != [] && Drawn(input0, input, all0, all)
    ensures Drawn(input0, input[1..], all0, all + if input[0].Got? then input[0].data else [])
  {
    var k := |input0| - |input|;
    assert input0[..k + 1] == input0[..k] + [input[0]];
    ArrivedSnoc(input0[..k], input[0]);
    var d := if input[0].Got? then input[0].data else [];
    assert all + d == all0 + (Arrived(input0[..k]) + d);
  }

  /** The bytes of a list of blocks. */
  method Count(blocks: seq<Block>, ghost ds: seq<Bytes>) returns (n: nat)
    requires List(blocks, ds)
    ensures n == |Flat(ds)|
  {
    n := 0;
    ghost var es := ds;
    var bs := blocks;
    while bs != []
      invariant List(bs, es) && n + |Flat(es)| == |Flat(ds)|
      decreases |bs|
    {
      n := n + |bs[0].data|;
      bs, es := bs[1..], es[1..];
    }
  }

  datatype Outcome = Interrupted | Record1(ty: byte, data: Bytes) | Dead

  /** The first half of tlsrecread: a header and then as many bytes as it says, or all given back. */
  method ReadBody(inp: Input, version: nat, addr: nat, input0: seq<Arrival>)
    returns (r: Outcome, ver: nat, input: seq<Arrival>, ghost all: Bytes)
    requires inp.Valid()
    modifies inp, Set(inp.blocks)
    ensures inp.Valid() && Drawn(input0, input, Flat(old(inp.ds)), all)
    ensures BodyRead(r, version, all, Flat(inp.ds), input == [] || Got([]) in input0)
    ensures r.Record1? ==> ver == version
  {
    var h;
    r, h, input, all := ReadHeader(inp, version, input0);
    ver := Get16(h[1..]);
    if !r.Record1? { return r, ver, input, all; }
    ghost var all1, rest1, input1, rest2 := all, Flat(inp.ds), input, [];
    r, input, rest2 := ReadRest(inp, h, addr, input);
    DrawnTwice(input0, input1, input, Flat(old(inp.ds)), all1, h, rest1, rest2);
    BodyIs(r, version, h, rest2, Flat(inp.ds), input == [] || Got([]) in input0);
    all := h + rest2;
  }

  /** What became of the bytes all, what is left of them, and whether the channel ended. */
  ghost predicate BodyRead(r: Outcome, version: nat, all: Bytes, left: Bytes, ended: bool) {
    match r
    case Interrupted => left == all
    case Dead => HeaderBad(all, version) || ended
    case Record1(ty, body) => |all| >= HDR && !HeaderBad(all, version) && ty == all[0] && HDR + Get16(all[3..]) <= |all|
                              && body == all[HDR..HDR + Get16(all[3..])] && left == all[HDR + Get16(all[3..])..]
  }

  lemma BodyIs(r: Outcome, version: nat, h: Bytes, rest: Bytes, left: Bytes, ended: bool)
    requires |h| == HDR && !HeaderBad(h, version)
    requires match r
             case Interrupted => left == h + rest
             case Dead => ended
             case Record1(ty, body) => ty == h[0] && Get16(h[3..]) <= |rest| && body == rest[..Get16(h[3..])] && left == rest[Get16(h[3..])..]
    ensures BodyRead(r, version, h + rest, left, ended)
  {
    var all := h + rest;
    assert all[..HDR] == h;
    HeaderBytes(h, all);
    if r.Record1? {
      var len := Get16(h[3..]);
      assert all[HDR..HDR + len] == rest[..len] && all[HDR + len..] == rest[len..];
    }
  }

  method ReadHeader(inp: Input, version: nat, input0: seq<Arrival>)
    returns (r: Outcome, h: Bytes, input: seq<Arrival>, ghost all: Bytes)
    requires inp.Valid()
    modifies inp, Set(inp.blocks)
    ensures inp.Valid() && |h| == HDR && (forall b <- inp.blocks :: b in old(inp.blocks) || fresh(b))
    ensures Drawn(input0, input, Flat(old(inp.ds)), all)
    ensures match r
            case Interrupted => Flat(inp.ds) == all
            case Dead => HeaderBad(all, version) || input == [] || Got([]) in input0
            case Record1(ty, _) => all == h + Flat(inp.ds) && ty == h[0] && !HeaderBad(h, version)
  {
    h := seq(HDR, _ => 0);
    var ok, eintr;
    ok, eintr, input := inp.Ensure(HDR, input0);
    all := Flat(inp.ds);
    if !ok { return if eintr then Interrupted else Dead, h, input, all; }
    h := inp.Consume(HDR);
    HeaderBytes(h, all);
    r := if HeaderBad(h, version) then Dead else Record1(h[0], []);
  }

  method ReadRest(inp: Input, h: Bytes, addr: nat, input0: seq<Arrival>)
    returns (r: Outcome, input: seq<Arrival>, ghost all: Bytes)
    requires inp.Valid() && |h| == HDR && Get16(h[3..]) > 0
    modifies inp, Set(inp.blocks)
    ensures inp.Valid() && Drawn(input0, input, Flat(old(inp.ds)), all)
    ensures var len := Get16(h[3..]);
            match r
            case Interrupted => Flat(inp.ds) == h + all
            case Dead => input == [] || Got([]) in input0
            case Record1(ty, body) => ty == h[0] && len <= |all| && body == all[..len] && Flat(inp.ds) == all[len..]
  {
    var len := Get16(h[3..]);
    var ok, eintr;
    ok, eintr, input := inp.Ensure(len, input0);
    all := Flat(inp.ds);
    if !ok {
      if eintr {
        inp.Regurgitate(h, addr);
        return Interrupted, input, all;
      }
      return Dead, input, all;
    }
    var b := GrabBody(inp, len, addr);
    return Record1(h[0], b), input, all;
  }

  method GrabBody(inp: Input, len: nat, addr: nat) returns (body: Bytes)
    requires inp.Valid() && 0 < len <= |Flat(inp.ds)|
    modifies inp, Set(inp.blocks)
    ensures inp.Valid() && body == Flat(old(inp.ds))[..len] && Flat(inp.ds) == Flat(old(inp.ds))[len..]
  {
    assert inp.blocks != [];
    var b := inp.Qgrab(len, addr);
    body := b.data;
  }

  /** The tests of tlsrecread on a header. */
  predicate HeaderBad(all: Bytes, version: nat) {
    |all| >= HDR && (Get16(all[1..]) != version || Get16(all[3..]) > MAXCIPHER || Get16(all[3..]) == 0)
  }

  lemma HeaderBytes(header: Bytes, all: Bytes)
    requires |header| == HDR && |all| >= HDR && header == all[..HDR]
    ensures header[0] == all[0] && Get16(header[1..]) == Get16(all[1..]) && Get16(header[3..]) == Get16(all[3..])
  {
    assert forall i :: 0 <= i < HDR ==> header[i] == all[i];
  }

  lemma DrawnTwice(input0: seq<Arrival>, input1: seq<Arrival>, input2: seq<Arrival>,
                   all0: Bytes, all1: Bytes, header: Bytes, rest1: Bytes, rest2: Bytes)
    requires Drawn(input0, input1, all0, all1) && header + rest1 == all1 && Drawn(input1, input2, rest1, rest2)
    ensures Drawn(input0, input2, all0, header + rest2)
  {
    var a, b := input0[..|input0| - |input1|], input1[..|input1| - |input2|];
    assert a + b == input0[..|input0| - |input2|];
    ArrivedJoin(a, b);
    assert header + (rest1 + Arrived(b)) == (header + rest1) + Arrived(b);
    assert (all0 + Arrived(a)) + Arrived(b) == all0 + (Arrived(a) + Arrived(b));
  }

  lemma {:induction false} ArrivedJoin(a: seq<Arrival>, b: seq<Arrival>)
    ensures Arrived(a + b) == Arrived(a) + Arrived(b)
    decreases |a|
  {
    if a == [] {
      assert a + b == b;
    } else {
      assert (a + b)[0] == a[0] && (a + b)[1..] == a[1..] + b;
      ArrivedJoin(a[1..], b);
    }
  }

  /** The body is read and opened under the next count. */
  method ReadRecord(inp: Input, way: OneWay, c: Crypto, version: nat, addr: nat, input0: seq<Arrival>)
    returns (r: Outcome, input: seq<Arrival>, ghost all: Bytes)
    requires inp.Valid() && Ideal(c) && WayOk(way.State()) && version < 0x1_0000
    modifies inp, Set(inp.blocks), way
    ensures inp.Valid() && Drawn(input0, input, Flat(old(inp.ds)), all)
    ensures r.Interrupted? ==> Flat(inp.ds) == all && way.State() == old(way.State())
    ensures r.Record1? ==> way.State() == Counted(old(way.State()))
    ensures CameTo(c, version, old(way.State()), all, r, Flat(inp.ds), input == [] || Got([]) in input0)
  {
    var ver;
    r, ver, input, all := ReadBody(inp, version, addr, input0);
    if r.Record1? && way.sec.Some? {
      assert r.data != [];
      var d := Open(c, way.sec.value, version, way.n, r.ty, ver, r.data);
      way.n := way.n + 1;
      r := if d.Some? then Record1(r.ty, d.value) else Dead;
    }
  }

  /** tlsrecread up to what it does with each kind of record.  all is what was at hand and what came;
      an interrupted read keeps every byte of it, and the next read finds the same record. */
  method Tlsrecread(inp: Input, way: OneWay, c: Crypto, version: nat, addr: nat, input0: seq<Arrival>)
    returns (r: Outcome, input: seq<Arrival>, ghost all: Bytes)
    requires inp.Valid() && Ideal(c) && WayOk(way.State()) && version < 0x1_0000
    modifies inp, Set(inp.blocks), way
    ensures inp.Valid() && Drawn(input0, input, Flat(old(inp.ds)), all)
    ensures r.Interrupted? ==> Flat(inp.ds) == all && way.State() == old(way.State())
    ensures r.Record1? ==> way.State() == Counted(old(way.State()))
    ensures CameTo(c, version, old(way.State()), all, r, Flat(inp.ds), input == [] || Got([]) in input0)
    ensures Judged(c, version, old(way.State()), all, r, Flat(inp.ds), input == [] || Got([]) in input0)
  {
    ghost var w := way.State();
    r, input, all := ReadRecord(inp, way, c, version, addr, input0);
    CameJudged(c, version, w, all, r, Flat(inp.ds), input == [] || Got([]) in input0);
  }

  /** What reading a record comes to, by Parse; hungup tells that the input has ended. */
  ghost predicate CameTo(c: Crypto, version: nat, w: Way, all: Bytes, r: Outcome, rest: Bytes, hungup: bool)
    requires Ideal(c)
  {
    match r
    case Interrupted => true
    case Record1(ty, d) => Parse(c, version, w, all) == Rec(ty, d, rest)
    case Dead => Parse(c, version, w, all) == Bad || hungup
  }

  /** And without it: a record is taken off that is right, and one is refused only when there is none that is right and none
      that may still become so. */
  ghost predicate Judged(c: Crypto, version: nat, w: Way, all: Bytes, r: Outcome, rest: Bytes, hungup: bool) {
    match r
    case Interrupted => true
    case Record1(ty, d) => exists body :: RecordIs(c, version, w, all, ty, d, rest, body)
    case Dead => hungup || (!Unfinished(version, all) && forall ty: byte, d, more, body :: !RecordIs(c, version, w, all, ty, d, more, body))
  }

  lemma CameJudged(c: Crypto, version: nat, w: Way, all: Bytes, r: Outcome, rest: Bytes, hungup: bool)
    requires Ideal(c) && WayOk(w) && version < 0x1_0000 && CameTo(c, version, w, all, r, rest, hungup)
    ensures Judged(c, version, w, all, r, rest, hungup)
  {
    if r.Record1? {
      ParsedIsRecord(c, version, w, all, r.ty, r.data, rest);
    } else if r.Dead? && !hungup {
      NoneRefused(c, version, w, all);
    }
  }

  lemma NoneRefused(c: Crypto, version: nat, w: Way, all: Bytes)
    requires Ideal(c) && WayOk(w) && version < 0x1_0000 && Parse(c, version, w, all) == Bad
    ensures !Unfinished(version, all) && forall ty: byte, d, more, body :: !RecordIs(c, version, w, all, ty, d, more, body)
  {
    forall ty: byte, d, more, body | RecordIs(c, version, w, all, ty, d, more, body)
      ensures false
    {
      RecordIsParsed(c, version, w, all, ty, d, more, body);
    }
  }

  /** One more record counted. */
  function Counted(w: Way): Way {
    if w.sec.Some? then w.(n := w.n + 1) else w
  }

  /** The case of tlsrecread for a change of cipher. */
  method ReadChange(way: OneWay, data: Bytes) returns (ok: bool)
    requires WayOk(way.State())
    modifies way
    ensures ok <==> data == [1] && old(way.next).Some?
    ensures WayOk(way.State()) && way.State() == if ok then Way(old(way.next), 0, None) else old(way.State())
  {
    if |data| != 1 || data[0] != 1 { return false; }
    if way.next == None { return false; }
    way.sec, way.next, way.n := way.next, None, 0;
    return true;
  }
}
