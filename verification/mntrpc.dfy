/** doread and mntrpcread of kern/devmnt.c: 9P messages cut out of a queue of blocks. */
module Mntrpc {
  import opened Words
  import opened Blocks
  import opened Qio

  const RREAD := 117
  const PREFIX := 7       // length, type and tag
  const RREADHDR := 11    // the same and the count

  function Le32(b: Bytes): u32
    requires |b| >= 4
  {
    var b0: int, b1: int, b2: int, b3: int := b[0], b[1], b[2], b[3];
    b0 + 0x100 * b1 + 0x1_0000 * b2 + 0x100_0000 * b3
  }

  /** The length that a message says it has, as the int that it is put into. */
  function Length(stream: Bytes): int
    requires |stream| >= PREFIX
  {
    Signed(Le32(stream))
  }

  function HeaderLength(stream: Bytes): int
    requires |stream| >= PREFIX
  {
    if stream[4] == RREAD then RREADHDR else Length(stream)
  }

  predicate LengthOk(stream: Bytes, msize: nat)
    requires |stream| >= PREFIX
  {
    PREFIX <= Length(stream) <= msize
  }

  /** convM2S: of an Rread it wants the count to fill the message; other says which other messages
      it takes. */
  predicate Parses(head: Bytes, len: nat, other: Bytes -> bool)
    requires |head| >= PREFIX
  {
    if head[4] == RREAD then |head| >= RREADHDR && len >= RREADHDR && Le32(head[7..]) == len - RREADHDR
    else other(head)
  }

  datatype Outcome =
    | Message(head: Bytes, data: Bytes)  // header pulled up, and the bytes of the blocks hung off it
    | NoMore                             // the channel gave nothing
    | BadLength                          // queue flushed
    | BadMessage                         // dropped
    | NilHeader                          // pullupqueue found too little, and its nil is used

  /** What is left of input0 is input, and what was taken from it has gone into the queue. */
  ghost predicate Fed(ds: seq<Bytes>, ds0: seq<Bytes>, input0: seq<Bytes>, input: seq<Bytes>) {
    |input| <= |input0| && input == input0[|input0| - |input|..] && ds == ds0 + input0[..|input0| - |input|]
  }

  lemma FedOne(ds: seq<Bytes>, ds0: seq<Bytes>, input0: seq<Bytes>, input: seq<Bytes>)
    requires Fed(ds, ds0, input0, input) && input != []
    ensures Fed(ds + [input[0]], ds0, input0, input[1..])
  {
    var k := |input0| - |input|;
    assert input0[..k + 1] == input0[..k] + [input[0]];
    assert (ds0 + input0[..k]) + [input[0]] == ds0 + input0[..k + 1];
  }

  /** A block from the channel goes on the queue. */
  method ReadBlock(q: Queue, data: Bytes) returns (n: nat)
    requires q.Valid()
    modifies q, Back(q.bs)
    ensures q.Valid() && q.ds == old(q.ds) + [data] && n == |data|
    ensures |q.bs| == |old(q.bs)| + 1 && q.bs[..|q.bs| - 1] == old(q.bs) && fresh(q.bs[|q.bs| - 1])
  {
    var b := new Block(|data|, 0);
    b.data := data;
    assert Chain([b], [data]);
    assert Flat([data]) == data + Flat([]);
    n := q.Qaddlist(b, [b], [data]);
  }

  /** doread: blocks from the channel until len bytes are queued; a block without bytes ends it. */
  method Doread(q: Queue, len: int, input0: seq<Bytes>) returns (ok: bool, input: seq<Bytes>)
    requires q.Valid()
    modifies q, Set(q.bs)
    ensures q.Valid() && Fed(q.ds, old(q.ds), input0, input) && (ok <==> |Flat(q.ds)| >= len)
    ensures forall b <- q.bs :: b in old(q.bs) || fresh(b)
    ensures !ok ==> input == [] || [] in input0
  {
    input := input0;
    ghost var ds0, bs0 := q.ds, q.bs;
    assert ds0 + [] == ds0;
    while q.dlen < len
      invariant q.Valid() && Fed(q.ds, ds0, input0, input) && forall b <- q.bs :: b in bs0 || fresh(b)
      decreases |input|
    {
      if input == [] { return false, input; }
      assert q.bs != [] ==> q.bs[|q.bs| - 1] in q.bs;
      FedOne(q.ds, ds0, input0, input);
      FlatSnoc(q.ds, input[0]);
      var d := input[0];
      input := input[1..];
      var n := ReadBlock(q, d);
      if n == 0 {
        return false, input;
      }
    }
    ok := true;
  }

  // ---------- Hanging the data off the reply ----------

  /** The bytes of got, then len bytes of the queue, are those of the message behind its header. */
  ghost predicate ToHang(got: seq<Bytes>, ds: seq<Bytes>, len: int, message: Bytes, rest: Bytes) {
    0 <= len <= |Flat(ds)| && Flat(got) + Flat(ds)[..len] == message && Flat(ds)[len..] == rest
  }

  lemma {:induction false} HangWhole(got: seq<Bytes>, ds: seq<Bytes>, len: int, message: Bytes, rest: Bytes)
    requires ToHang(got, ds, len, message, rest) && ds != [] && |ds[0]| <= len
    ensures ToHang(got + [ds[0]], ds[1..], len - |ds[0]|, message, rest)
  {
    FlatSnoc(got, ds[0]);
    assert Flat(ds)[..len] == ds[0] + Flat(ds[1..])[..len - |ds[0]|];
    Reassociate(Flat(got), ds[0], Flat(ds[1..])[..len - |ds[0]|], message);
  }

  lemma {:induction false} HangPart(got: seq<Bytes>, ds: seq<Bytes>, len: int, message: Bytes, rest: Bytes)
    requires ToHang(got, ds, len, message, rest) && ds != [] && |ds[0]| > len
    ensures Flat(got + [ds[0][..len]]) == message && Flat([ds[0][len..]] + ds[1..]) == rest
  {
    FlatSnoc(got, ds[0][..len]);
    assert ([ds[0][len..]] + ds[1..])[1..] == ds[1..];
  }

  /** One turn of the loop: a block, or as much of it as belongs to the message. */
  method HangBlock(q: Queue, len: nat, ghost got: seq<Bytes>, ghost message: Bytes, ghost rest: Bytes)
    returns (d: Bytes, left: nat, split: bool)
    requires q.Valid() && q.bs != [] && ToHang(got, q.ds, len, message, rest)
    modifies q, Front(q.bs)
    ensures q.Valid() && (forall b <- q.bs :: b in old(q.bs) || fresh(b)) && |q.bs| <= |old(q.bs)|
    ensures split ==> Flat(got + [d]) == message && Flat(q.ds) == rest
    ensures !split ==> |q.bs| < |old(q.bs)| && ToHang(got + [d], q.ds, left, message, rest)
  {
    var c := q.Qremove();
    var b: Block := c;
    var i := |b.data|;
    if i <= len {
      HangWhole(got, old(q.ds), len, message, rest);
      return b.data, len - i, false;
    } else {
      HangPart(got, old(q.ds), len, message, rest);
      d, left := b.data[..len], 0;
      var nb := new Block(i - len, 0);
      nb.data := b.data[len..];
      q.Qputback(nb);
      return d, left, true;
    }
  }

  /** The loop, with the header already skipped in the first block. */
  method Hang(q: Queue, len0: nat, ghost message: Bytes, ghost rest: Bytes) returns (got: seq<Bytes>)
    requires q.Valid() && q.bs != [] && ToHang([], q.ds, len0, message, rest)
    modifies q, Set(q.bs)
    ensures q.Valid() && Flat(got) == message && Flat(q.ds) == rest && forall b <- q.bs :: b in old(q.bs) || fresh(b)
  {
    got := [];
    var len := len0;
    ghost var bs0 := q.bs;
    var more := true;
    while more
      invariant q.Valid() && (forall b <- q.bs :: b in bs0 || fresh(b))
      invariant more ==> q.bs != [] && ToHang(got, q.ds, len, message, rest)
      invariant !more ==> Flat(got) == message && Flat(q.ds) == rest
      decreases |q.bs|, more
    {
      assert q.bs[0] in q.bs;
      var d, left, split := HangBlock(q, len, got, message, rest);
      got, len := got + [d], left;
      if split || len == 0 { more := false; }
    }
  }

  // ---------- mntrpcread ----------

  /** A whole message at the front of the queue: its header is pulled up and skipped, and its data
      hung off the reply. */
  method TakeMessage(q: Queue, hlen: nat, len: nat) returns (head: Bytes, data: Bytes)
    requires q.Valid() && q.bs != [] && hlen <= |q.ds[0]| && hlen <= len <= |Flat(q.ds)|
    modifies q, Set(q.bs)
    ensures q.Valid() && (forall b <- q.bs :: b in old(q.bs) || fresh(b))
    ensures head == Flat(old(q.ds))[..hlen] && data == Flat(old(q.ds))[hlen..len] && Flat(q.ds) == Flat(old(q.ds))[len..]
  {
    ghost var all := Flat(q.ds);
    head := q.bfirst.data[..hlen];
    q.Advance(hlen);
    AfterHeader(q.ds, all, hlen, len);
    var got := Hang(q, len - hlen, all[hlen..len], all[len..]);
    data := Join(got);
  }

  lemma {:induction false} AfterHeader(ds: seq<Bytes>, all: Bytes, hlen: nat, len: nat)
    requires ds != [] && hlen <= len <= |all| && Flat(ds) == all[hlen..]
    ensures ToHang([], ds, len - hlen, all[hlen..len], all[len..])
  {
  }

  /** The bytes of a list of blocks. */
  function Join(ds: seq<Bytes>): Bytes {
    Flat(ds)
  }

  /** Length and type depend on the first bytes alone. */
  lemma SamePrefix(a: Bytes, b: Bytes)
    requires |a| >= PREFIX && |b| >= PREFIX && a[..PREFIX] == b[..PREFIX]
    ensures Length(a) == Length(b) && HeaderLength(a) == HeaderLength(b) && a[4] == b[4]
  {
    assert forall i :: 0 <= i < PREFIX ==> a[..PREFIX][i] == a[i] && b[..PREFIX][i] == b[i];
  }

  /** now is what was queued and what has been taken of input0. */
  ghost predicate Gathered(now: Bytes, was: Bytes, input0: seq<Bytes>, input: seq<Bytes>) {
    && |input| <= |input0| && input == input0[|input0| - |input|..]
    && now == was + Flat(input0[..|input0| - |input|])
  }

  /** The rest of a message that has begun. */
  method ReadOn(q: Queue, len: int, input1: seq<Bytes>, ghost ds0: seq<Bytes>, ghost input0: seq<Bytes>) returns (ok: bool, input: seq<Bytes>)
    requires q.Valid() && |Flat(q.ds)| >= PREFIX && Gathered(Flat(q.ds), Flat(ds0), input0, input1)
    modifies q, Set(q.bs)
    ensures q.Valid() && (forall b <- q.bs :: b in old(q.bs) || fresh(b)) && Gathered(Flat(q.ds), Flat(ds0), input0, input)
    ensures var now, was := Flat(q.ds), Flat(old(q.ds));
            |now| >= PREFIX && Length(now) == Length(was) && now[4] == was[4] && (ok <==> |now| >= len)
    ensures !ok ==> input == [] || [] in input0
  {
    ghost var first, ds1 := Flat(q.ds), q.ds;
    ok, input := Doread(q, len, input1);
    FedTwice(ds0, first, ds1, q.ds, input0, input1, input);
    SamePrefix(first, Flat(q.ds));
  }

  /** The first bytes are in one block, and the rest of the message is queued. */
  method Prefix(q: Queue, msize: nat, input0: seq<Bytes>) returns (r: Option<Outcome>, len: int, type0: byte, input: seq<Bytes>)
    requires q.Valid()
    modifies q, Set(q.bs)
    ensures q.Valid() && (forall b <- q.bs :: b in old(q.bs) || fresh(b)) && |input| <= |input0| && input == input0[|input0| - |input|..]
    ensures var all := Flat(old(q.ds)) + Flat(input0[..|input0| - |input|]);
            match r
            case None => Flat(q.ds) == all && |all| >= PREFIX && LengthOk(all, msize) && len == Length(all) <= |all| && type0 == all[4]
            case Some(BadLength) => q.ds == [] && |all| >= PREFIX && !LengthOk(all, msize)
            case Some(o) => o == NoMore && Flat(q.ds) == all && (|all| < PREFIX || (LengthOk(all, msize) && |all| < Length(all)))
                            && (input == [] || [] in input0)
  {
    ghost var ds0 := q.ds;
    var ok;
    ok, len, type0, input := Start(q, input0);
    if !ok { return Some(NoMore), len, type0, input; }
    if len < PREFIX || len > msize {
      q.Qflush();
      return Some(BadLength), len, type0, input;
    }
    ok, input := ReadOn(q, len, input, ds0, input0);
    if ok { r := None; } else { r := Some(NoMore); }
  }

  /** Length and type of the next message, if so much of it comes. */
  method Start(q: Queue, input0: seq<Bytes>) returns (ok: bool, len: int, type0: byte, input: seq<Bytes>)
    requires q.Valid()
    modifies q, Set(q.bs)
    ensures q.Valid() && (forall b <- q.bs :: b in old(q.bs) || fresh(b)) && Gathered(Flat(q.ds), Flat(old(q.ds)), input0, input)
    ensures if ok then |Flat(q.ds)| >= PREFIX && len == Length(Flat(q.ds)) && type0 == Flat(q.ds)[4]
            else |Flat(q.ds)| < PREFIX && (input == [] || [] in input0)
  {
    len, type0 := 0, 0;
    ghost var ds0 := q.ds;
    ok, input := Doread(q, PREFIX, input0);
    FlatJoin(ds0, input0[..|input0| - |input|]);
    if ok {
      ghost var first := Flat(q.ds);
      var nb := PullPrefix(q);
      SamePrefix(nb, first);
      len, type0 := Signed(Le32(nb)), nb[4];
    }
  }

  /** pullupqueue of the first bytes; the bytes of the first block. */
  method PullPrefix(q: Queue) returns (nb: Bytes)
    requires q.Valid() && |Flat(q.ds)| >= PREFIX
    modifies q`bfirst, q`blast, q`bs, q`ds, Set(q.bs)
    ensures q.Valid() && q.bs != [] && Flat(q.ds) == Flat(old(q.ds)) && (forall b <- q.bs :: b in old(q.bs) || fresh(b))
    ensures |nb| >= PREFIX && nb[..PREFIX] == Flat(q.ds)[..PREFIX]
  {
    var b := q.Pullupqueue(PREFIX, 0);
    nb := q.bfirst.data;
    assert Flat(q.ds) == nb + Flat(q.ds[1..]);
  }

  lemma {:induction false} FedTwice(ds0: seq<Bytes>, first: Bytes, ds1: seq<Bytes>, ds2: seq<Bytes>,
                                    input0: seq<Bytes>, input1: seq<Bytes>, input2: seq<Bytes>)
    requires |input1| <= |input0| && input1 == input0[|input0| - |input1|..] && Flat(ds1) == first
    requires first == Flat(ds0) + Flat(input0[..|input0| - |input1|]) && |first| >= PREFIX && Fed(ds2, ds1, input1, input2)
    ensures |input2| <= |input0| && input2 == input0[|input0| - |input2|..]
    ensures Flat(ds2) == Flat(ds0) + Flat(input0[..|input0| - |input2|])
    ensures |Flat(ds2)| >= PREFIX && first[..PREFIX] == Flat(ds2)[..PREFIX]
  {
    var a, b := input0[..|input0| - |input1|], input1[..|input1| - |input2|];
    FlatJoin(ds1, b);
    FlatJoin(a, b);
    assert a + b == input0[..|input0| - |input2|];
    assert first + Flat(b) == Flat(ds0) + (Flat(a) + Flat(b));
  }

  /** mntrpcread: exactly one message comes off the front of what is queued and read, however that
      is cut into blocks.  all is what was queued and what was read from the channel. */
  method Mntrpcread(q: Queue, msize: nat, input0: seq<Bytes>, other: Bytes -> bool)
    returns (r: Outcome, input: seq<Bytes>)
    requires q.Valid()
    modifies q, Set(q.bs)
    ensures |input| <= |input0| && input == input0[|input0| - |input|..]
    ensures r != NilHeader ==> q.Valid() && forall b <- q.bs :: b in old(q.bs) || fresh(b)
    ensures Answers(r, Flat(old(q.ds)) + Flat(input0[..|input0| - |input|]), Flat(q.ds), msize, other)
    ensures r == NoMore ==> input == [] || [] in input0
  {
    var o, len, type0;
    o, len, type0, input := Prefix(q, msize, input0);
    if o.Some? { return o.value, input; }
    r := Deliver(q, len, type0, msize, other);
  }

  /** The second half of mntrpcread, with a whole message queued. */
  method Deliver(q: Queue, len: nat, type0: byte, msize: nat, other: Bytes -> bool) returns (r: Outcome)
    requires q.Valid() && Ready(Flat(q.ds), msize) && len == Length(Flat(q.ds)) && type0 == Flat(q.ds)[4]
    modifies q, Set(q.bs)
    ensures r != NilHeader ==> q.Valid() && forall b <- q.bs :: b in old(q.bs) || fresh(b)
    ensures !r.NoMore? && Answers(r, Flat(old(q.ds)), Flat(q.ds), msize, other)
  {
    ghost var all := Flat(q.ds);
    assert q.bs != [];
    var hlen := if type0 == RREAD then RREADHDR else len;
    var nb := q.Pullupqueue(hlen, 0);
    if nb == null { return NilHeader; }
    HeadIs(q.ds, hlen);
    if !Parses(nb.data[..hlen], len, other) {
      Drop(q, len);
      return BadMessage;
    }
    var head, data := TakeMessage(q, hlen, len);
    assert head + data == all[..len];
    return Message(head, data);
  }

  method Drop(q: Queue, len: nat)
    requires q.Valid() && len <= |Flat(q.ds)|
    modifies q, Set(q.bs)
    ensures q.Valid() && Flat(q.ds) == Flat(old(q.ds))[len..] && forall b <- q.bs :: b in old(q.bs) || fresh(b)
  {
    DiscardIs(q.ds, len);
    var n := q.Qdiscard(len);
  }

  lemma {:induction false} HeadIs(ds: seq<Bytes>, n: nat)
    requires ds != [] && |ds[0]| >= n
    ensures |Flat(ds)| >= n && ds[0][..n] == Flat(ds)[..n]
  {
  }

  /** What came of the bytes all, and the bytes left. */
  ghost predicate Answers(r: Outcome, all: Bytes, left: Bytes, msize: nat, other: Bytes -> bool) {
    match r
    case NoMore => left == all && (|all| < PREFIX || (LengthOk(all, msize) && |all| < Length(all)))
    case BadLength => left == [] && |all| >= PREFIX && !LengthOk(all, msize)
    case NilHeader => Ready(all, msize) && all[4] == RREAD && |all| < RREADHDR
    case BadMessage => Ready(all, msize) && HeaderLength(all) <= |all|
                       && !Parses(all[..HeaderLength(all)], Length(all), other) && left == all[Length(all)..]
    case Message(head, data) =>
      Ready(all, msize) && |head| == HeaderLength(all) && PREFIX <= |head| <= Length(all)
      && Parses(head, Length(all), other) && head + data == all[..Length(all)] && left == all[Length(all)..]
  }

  ghost predicate Ready(all: Bytes, msize: nat) {
    |all| >= PREFIX && LengthOk(all, msize) && Length(all) <= |all|
  }

  /** pullupqueue comes back with nothing, and mntrpcread goes on to use it, exactly when an Rread
      claims a length too short for its own header and nothing more is queued. */
  lemma NilHeaderIff(r: Outcome, all: Bytes, left: Bytes, msize: nat, other: Bytes -> bool)
    requires Answers(r, all, left, msize, other)
    ensures r.NilHeader? <==> Ready(all, msize) && all[4] == RREAD && |all| < RREADHDR
  {
  }

  /** An Rread that ends before its count. */
  function ShortRread(tail: Bytes): Bytes
    requires 2 <= |tail| < RREADHDR - 5
  {
    [(|tail| + 5) as byte, 0, 0, 0, RREAD as byte] + tail
  }

  /** Nothing but a short Rread queued, mntrpcread uses the nil. */
  lemma ShortRreadIsNil(tail: Bytes, r: Outcome, left: Bytes, msize: nat, other: Bytes -> bool)
    requires 2 <= |tail| < RREADHDR - 5 && msize >= RREADHDR && Answers(r, ShortRread(tail), left, msize, other)
    ensures r.NilHeader?
  {
    var m := ShortRread(tail);
    assert m[0] == (|tail| + 5) as byte && m[1] == 0 && m[2] == 0 && m[3] == 0 && m[4] == RREAD as byte;
    assert Length(m) == |m|;
  }

  // ---------- Messages in turn ----------

  ghost predicate WellFormed(m: Bytes, msize: nat, other: Bytes -> bool) {
    && |m| >= PREFIX && LengthOk(m, msize) && Length(m) == |m| && HeaderLength(m) <= |m|
    && Parses(m[..HeaderLength(m)], |m|, other)
  }

  lemma HeadOf(all: Bytes, m: Bytes, n: nat)
    requires n <= |all| && n <= |m| && (all <= m || m <= all)
    ensures all[..n] == m[..n]
  {
  }

  /** What mntrpcread does when the bytes that come begin with a well-formed message. */
  lemma WellFormedIsTaken(r: Outcome, all: Bytes, left: Bytes, more: Bytes, m: Bytes, rest: Bytes, msize: nat, other: Bytes -> bool)
    requires WellFormed(m, msize, other) && Answers(r, all, left, msize, other) && all + more == m + rest
    requires r == NoMore ==> more == []
    ensures r.Message? && r.head + r.data == m && left + more == rest
  {
    assert all <= m + rest && m <= m + rest;
    assert all <= m || m <= all;
    if |all| >= PREFIX {
      HeadOf(all, m, PREFIX);
      SamePrefix(all, m);
    }
    if Ready(all, msize) {
      HeadOf(all, m, |m|);
      HeadOf(all, m, HeaderLength(m));
      if r.Message? { assert r.head == (r.head + r.data)[..|r.head|]; }
      assert left == all[|m|..] ==> left + more == (all + more)[|m|..];
    }
  }

  /** The next message of those still to come. */
  method OneMessage(q: Queue, msize: nat, input0: seq<Bytes>, other: Bytes -> bool, ghost msgs: seq<Bytes>, ghost i: nat)
    returns (m: Bytes, input: seq<Bytes>)
    requires q.Valid() && [] !in input0 && i < |msgs| && Flat(q.ds) + Flat(input0) == Flat(msgs[i..]) && WellFormed(msgs[i], msize, other)
    modifies q, Set(q.bs)
    ensures q.Valid() && (forall b <- q.bs :: b in old(q.bs) || fresh(b)) && [] !in input
    ensures m == msgs[i] && Flat(q.ds) + Flat(input) == Flat(msgs[i + 1..])
  {
    ghost var was := Flat(q.ds);
    FlatFrom(msgs, i);
    var r;
    r, input := Mntrpcread(q, msize, input0, other);
    ghost var taken := input0[..|input0| - |input|];
    FlatJoin(taken, input);
    assert input0 == taken + input;
    Reassociate(was, Flat(taken), Flat(input), Flat(msgs[i..]));
    WellFormedIsTaken(r, was + Flat(taken), Flat(q.ds), Flat(input), msgs[i], Flat(msgs[i + 1..]), msize, other);
    m := r.head + r.data;
  }

  /** The messages of a stream come out one by one, each whole and nothing else, however the stream
      is cut into (non-empty) blocks. */
  method ReadMessages(q: Queue, msize: nat, input0: seq<Bytes>, other: Bytes -> bool, count: nat, ghost msgs: seq<Bytes>)
    returns (got: seq<Bytes>)
    requires q.Valid() && [] !in input0 && count == |msgs| && Flat(q.ds) + Flat(input0) == Flat(msgs)
    requires forall m <- msgs :: WellFormed(m, msize, other)
    modifies q, Set(q.bs)
    ensures got == msgs
  {
    got := [];
    var input := input0;
    ghost var bs0 := q.bs;
    for i := 0 to count
      invariant q.Valid() && (forall b <- q.bs :: b in bs0 || fresh(b)) && [] !in input
      invariant got == msgs[..i] && Flat(q.ds) + Flat(input) == Flat(msgs[i..])
    {
      var m;
      m, input := OneMessage(q, msize, input, other, msgs, i);
      got := got + [m];
    }
  }
}
