/**
 The endpoint of the reliable session layer in aan.c: the numbered messages, the queue of
 messages not yet acknowledged, and what the reader does with a header.
 */
module Aan {
  import opened Words

  const BUFSIZE := 8 * 1024
  const SYNCMSG: u32 := 0xFFFF_FFFF

  type Chunk = seq<byte>

  /** A queued message: the number in its header and its data. */
  datatype Buf = Buf(msg: u32, data: Chunk)

  /** A header with its data, as written to the connection. */
  datatype Pkt = Pkt(nb: nat, msg: u32, acked: u32, data: Chunk)

  /** The shared fields of a client, and the reader's own lastacked. */
  datatype Peer = Peer(inmsg: u32, outmsg: u32, lastacked: u32, unacked: seq<Buf>)

  const FRESH: Peer := Peer(0, 0, 0, [])

  /** What the reader decides from a header and its data. */
  datatype Verdict = Ignore | Close | Accept(acked: u32, data: Chunk)

  function Number(p: Peer, data: Chunk): Peer {
    p.(outmsg := Wrap(p.outmsg + 1), unacked := p.unacked + [Buf(p.outmsg, data)])
  }

  function DataPkt(p: Peer, b: Buf): Pkt {
    Pkt(|b.data|, b.msg, p.inmsg, b.data)
  }

  function Resend(p: Peer): (r: seq<Pkt>)
    ensures |r| == |p.unacked|
  {
    seq(|p.unacked|, i requires 0 <= i < |p.unacked| => DataPkt(p, p.unacked[i]))
  }

  function SyncPkt(p: Peer): Pkt {
    Pkt(0, SYNCMSG, p.inmsg, [])
  }

  function Examine(p: Peer, k: Pkt): Verdict {
    if k.nb == 0 then
      if k.msg == SYNCMSG then Ignore else Close
    else if k.nb > BUFSIZE then Close
    else if k.msg != p.inmsg then Ignore
    else Accept(k.acked, k.data)
  }

  /** How many queued messages an acknowledgement releases. */
  function Released(p: Peer, a: u32): (n: nat)
    ensures n <= |p.unacked|
  {
    if Signed(Wrap(a - p.lastacked)) > 0 then Min(Wrap(a - p.lastacked), |p.unacked|) else 0
  }

  function Release(p: Peer, n: nat): Peer
    requires n <= |p.unacked|
  {
    p.(lastacked := Wrap(p.lastacked + n), unacked := p.unacked[n..])
  }

  /** The unacked queue holds exactly the numbers from lastacked up to outmsg. */
  ghost predicate QueueOk(p: Peer) {
    && (forall i :: 0 <= i < |p.unacked| ==> p.unacked[i].msg == Wrap(p.lastacked + i))
    && p.outmsg == Wrap(p.lastacked + |p.unacked|)
  }

  lemma WrapTurns(x: int, k: int)
    ensures Wrap(x + TWO32 * k) == Wrap(x)
  {
  }

  lemma WrapStep(a: int, b: int)
    ensures Wrap(Wrap(a) + b) == Wrap(a + b)
    ensures Wrap(a - Wrap(b)) == Wrap(a - b)
  {
    WrapTurns(Wrap(a) + b, a / TWO32);
    WrapTurns(a - b, b / TWO32);
  }

  /** Whatever number an acknowledgement carries, releasing keeps the queue consecutive. */
  lemma ReleaseKeepsQueue(p: Peer, a: u32)
    requires QueueOk(p)
    ensures QueueOk(Release(p, Released(p, a)))
  {
    ReleaseSome(p, Released(p, a));
  }

  lemma ReleaseSome(p: Peer, n: nat)
    requires QueueOk(p) && n <= |p.unacked|
    ensures QueueOk(Release(p, n))
  {
    var q := Release(p, n);
    forall i | 0 <= i < |q.unacked|
      ensures q.unacked[i].msg == Wrap(q.lastacked + i)
    {
      WrapStep(p.lastacked + n, i);
      assert q.unacked[i] == p.unacked[n + i];
    }
    WrapStep(p.lastacked + n, |q.unacked|);
  }

  lemma ReachedIff(first: u32, k: nat, a: u32)
    requires 0 < k <= Wrap(a - first)
    ensures Wrap(first + k) == a <==> k == Wrap(a - first)
  {
  }

  /** One turn of the releasing loop: the program's assertion holds of the head, and the counter
      meets the acknowledgement exactly after Wrap(a - lastacked) turns. */
  lemma ReleaseOne(p: Peer, k: nat, a: u32)
    requires QueueOk(p) && k < |p.unacked|
    ensures p.unacked[k].msg == Release(p, k).lastacked
    ensures p.unacked[k..][0] == p.unacked[k]
    ensures Release(p, k + 1) == Release(p, k).(lastacked := Wrap(Release(p, k).lastacked + 1), unacked := p.unacked[k..][1..])
    ensures k < Wrap(a - p.lastacked) ==>
              (Release(p, k + 1).lastacked == a <==> k + 1 == Wrap(a - p.lastacked))
  {
    WrapStep(p.lastacked + k, 1);
    assert p.unacked[k..][1..] == p.unacked[k + 1..];
    if k < Wrap(a - p.lastacked) { ReachedIff(p.lastacked, k + 1, a); }
  }

  /** An acknowledgement that is ahead takes away just the messages before it, all of them if it is ahead of
      these too; any other takes away none. */
  lemma AckedGone(p: Peer, a: u32)
    requires QueueOk(p)
    ensures var q := Release(p, Released(p, a)); var d := Signed(Wrap(a - p.lastacked));
            if 0 < d <= |p.unacked| then q.lastacked == a && q.unacked == p.unacked[d..]
            else if d > 0 then q.unacked == [] && q.lastacked == p.outmsg
            else q == p
  {
    var d := Signed(Wrap(a - p.lastacked));
    if 0 < d <= |p.unacked| {
      WrapStep(a - p.lastacked, p.lastacked);
      assert Wrap(p.lastacked + d) == a;
    } else if d <= 0 {
      ReleaseNone(p);
    }
  }

  lemma ReleaseNone(p: Peer)
    ensures Release(p, 0) == p
  {
    assert p.unacked[0..] == p.unacked;
  }

  lemma NumberKeepsQueue(p: Peer, data: Chunk)
    requires QueueOk(p)
    ensures QueueOk(Number(p, data))
  {
    WrapStep(p.lastacked + |p.unacked|, 1);
  }

  /** The client record of aan.c; a linked list with a tail pointer is the field unacked. */
  class Client {
    var inmsg: u32
    var outmsg: u32
    var lastacked: u32
    var unacked: seq<Buf>

    function State(): Peer
      reads this
    {
      Peer(inmsg, outmsg, lastacked, unacked)
    }

    constructor ()
      ensures State() == FRESH && QueueOk(State())
    {
      inmsg, outmsg, lastacked, unacked := 0, 0, 0, [];
    }

    /** The locked section of aanwriter up to the write. */
    method Enqueue(data: Chunk) returns (k: Pkt)
      requires QueueOk(State())
      modifies this
      ensures State() == Number(old(State()), data) && QueueOk(State())
      ensures k == DataPkt(old(State()), Buf(old(outmsg), data))
    {
      NumberKeepsQueue(State(), data);
      var m := outmsg;
      outmsg := Wrap(outmsg + 1);
      k := Pkt(|data|, m, inmsg, data);
      unacked := unacked + [Buf(m, data)];
    }

    /** The loop of aanreader that frees acknowledged messages, with its assertion. */
    method FreeAcked(a: u32)
      requires QueueOk(State())
      modifies this`lastacked, this`unacked
      ensures State() == Release(old(State()), Released(old(State()), a))
      ensures QueueOk(State())
      ensures var d := Signed(Wrap(a - old(lastacked)));
              if 0 < d <= |old(unacked)| then lastacked == a && unacked == old(unacked)[d..]
              else if d > 0 then unacked == [] && lastacked == outmsg
              else lastacked == old(lastacked) && unacked == old(unacked)
    {
      ghost var p := State();
      ghost var n: nat := Wrap(a - lastacked);
      ReleaseNone(p);
      if Signed(Wrap(a - lastacked)) > 0 {
        ghost var k := 0;
        while unacked != []
          invariant k < n && k <= |p.unacked| && State() == Release(p, k)
          decreases |unacked|
        {
          ReleaseOne(p, k, a);
          assert unacked[0].msg == lastacked;   // the program's own assertion
          unacked := unacked[1..];
          lastacked := Wrap(lastacked + 1);
          k := k + 1;
          if lastacked == a {
            break;
          }
        }
        assert State() == Release(p, k) && k == Min(n, |p.unacked|);
      }
      ReleaseKeepsQueue(p, a);
      AckedGone(p, a);
    }

    /** One message taken from the connection, up to the release of acknowledged messages. */
    method Take(k: Pkt) returns (v: Verdict)
      modifies this`inmsg
      ensures v == Examine(old(State()), k)
      ensures State() == if v.Accept? then old(State()).(inmsg := Wrap(old(inmsg) + 1)) else old(State())
      ensures v.Close? <==> (k.nb == 0 && k.msg != SYNCMSG) || k.nb > BUFSIZE
      ensures v.Accept? <==> 0 < k.nb <= BUFSIZE && k.msg == old(inmsg)
      ensures v.Accept? ==> v.acked == k.acked && v.data == k.data
    {
      if k.nb == 0 {
        if k.msg == SYNCMSG {
          return Ignore;
        }
        return Close;
      } else if k.nb > BUFSIZE {
        return Close;
      }
      if k.msg != inmsg {
        return Ignore;
      }
      inmsg := Wrap(inmsg + 1);
      return Accept(k.acked, k.data);
    }

    /** The resending loop of reconnect; ok is false when a write failed after a prefix. */
    method SendQueue(failAt: nat) returns (wire: seq<Pkt>, ok: bool)
      ensures wire == Resend(State())[..Min(failAt, |unacked|)]
      ensures ok <==> failAt >= |unacked|
    {
      wire, ok := [], true;
      for i := 0 to |unacked|
        invariant ok && i <= failAt
        invariant wire == Resend(State())[..i]
      {
        if i == failAt {
          ok := false;
          return;
        }
        wire := wire + [Pkt(|unacked[i].data|, unacked[i].msg, inmsg, unacked[i].data)];
      }
    }
  }
}
