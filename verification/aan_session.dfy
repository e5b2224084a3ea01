/**
 Two clients of aan.c joined by a succession of connections.  A connection may break at any
 time and then loses any suffix of what is in flight; a client that notices dials again and
 resends its queue, possibly failing part way and dialling once more.
 */
module AanSession {
  import opened Words
  import opened Aan

  /** At most this many messages wait for an acknowledgement, so 32-bit numbers do not repeat. */
  const MAXUNACKED := TWO32 - 1

  /** A packet in flight with the true (unwrapped) numbers behind its two header fields. */
  datatype Flight = Data(pkt: Pkt, num: nat, ack: nat) | Sync(pkt: Pkt, ack: nat)

  /** What one client has put on one connection and the other has not yet read.  The history
      fields record the queue at the time of the resend and the next number to be read. */
  datatype Lane = Lane(base: nat, top: nat, next: nat, flights: seq<Flight>)

  type Lanes = map<nat, Lane>

  datatype Link = Attached(conn: nat) | Redialing(conn: nat)

  /** Where aanreader is. */
  datatype Reader = Reading | Releasing(ack: nat, acked: u32, data: Chunk) | Delivering(data: Chunk)
                  | ClosedEof | ClosedPipe

  /** One client with the history of what went through it. */
  datatype End = End(peer: Peer, link: Link, reader: Reader, pipeOpen: bool,
                     written: seq<Chunk>, accepted: seq<Chunk>, delivered: seq<Chunk>, freed: nat)

  /** The session seen from one side: out carries what me sends, inn what you sends. */
  datatype Session = Session(me: End, you: End, out: Lanes, inn: Lanes, dead: set<nat>)

  function Swap(s: Session): Session {
    Session(s.you, s.me, s.inn, s.out, s.dead)
  }

  const START := End(FRESH, Redialing(0), Reading, true, [], [], [], 0)

  ghost predicate Init(s: Session) {
    s == Session(START, START, map[], map[], {})
  }

  // ---------- What is written ----------

  /** How many data (non-empty) chunks precede the first end of file. */
  function DataCount(w: seq<Chunk>): (n: nat)
    ensures n <= |w|
    ensures forall i :: 0 <= i < n ==> w[i] != []
    ensures n < |w| ==> w[n] == []
  {
    if w == [] || w[0] == [] then 0 else 1 + DataCount(w[1..])
  }

  /** Once the pipe has ended, every further read of it ends too. */
  ghost predicate EofLast(w: seq<Chunk>) {
    forall i :: DataCount(w) <= i < |w| ==> w[i] == []
  }

  // ---------- The steps of one side ----------

  function Push(l: Lanes, c: nat, f: Flight): Lanes {
    if c in l then l[c := l[c].(flights := l[c].flights + [f])] else l
  }

  /** aanwriter: number and queue a chunk read from the pipe, then write it. */
  ghost predicate Write(s: Session, t: Session, data: Chunk, sent: bool) {
    && s.me.link.Attached? && s.me.pipeOpen
    && |data| <= BUFSIZE && |s.me.peer.unacked| < MAXUNACKED && EofLast(s.me.written + [data])
    && var c := s.me.link.conn;
    && var f := Data(DataPkt(s.me.peer, Buf(s.me.peer.outmsg, data)), |s.me.written|, |s.me.accepted|);
    && t == s.(me := s.me.(peer := Number(s.me.peer, data), written := s.me.written + [data],
                           pipeOpen := !(sent && data == [])),
               out := if sent && c !in s.dead then Push(s.out, c, f) else s.out,
               dead := if sent then s.dead else s.dead + {c})
  }

  ghost predicate PipeGone(s: Session, t: Session) {
    t == s.(me := s.me.(pipeOpen := false))
  }

  /** aansyncer. */
  ghost predicate SendSync(s: Session, t: Session) {
    && s.me.link.Attached?
    && var c := s.me.link.conn;
    && t == if c in s.dead then s
            else s.(out := Push(s.out, c, Sync(SyncPkt(s.me.peer), |s.me.accepted|)))
  }

  /** aanreader takes the next packet of its connection. */
  ghost predicate Receive(s: Session, t: Session) {
    && s.me.link.Attached? && s.me.reader == Reading
    && var c := s.me.link.conn;
    && c in s.inn && s.inn[c].flights != []
    && var f := s.inn[c].flights[0];
    && var lane := s.inn[c].(flights := s.inn[c].flights[1..],
                             next := if f.Data? then s.inn[c].next + 1 else s.inn[c].next);
    && var me := match Examine(s.me.peer, f.pkt)
                 case Ignore => s.me
                 case Close => s.me.(reader := ClosedEof)
                 case Accept(a, d) => s.me.(peer := s.me.peer.(inmsg := Wrap(s.me.peer.inmsg + 1)),
                                            accepted := s.me.accepted + [d],
                                            reader := Releasing(f.ack, a, d));
    && t == s.(me := me, inn := s.inn[c := lane])
  }

  /** aanreader releases acknowledged messages. */
  ghost predicate Free(s: Session, t: Session) {
    && s.me.reader.Releasing?
    && var n := Released(s.me.peer, s.me.reader.acked);
    && t == s.(me := s.me.(peer := Release(s.me.peer, n), freed := s.me.freed + n,
                           reader := Delivering(s.me.reader.data)))
  }

  /** aanreader passes the data on, unless the writer has closed the pipe. */
  ghost predicate Deliver(s: Session, t: Session) {
    && s.me.reader.Delivering?
    && t == s.(me := if s.me.pipeOpen
                     then s.me.(delivered := s.me.delivered + [s.me.reader.data], reader := Reading)
                     else s.me.(reader := ClosedPipe))
  }

  /** The resent queue with its true numbers. */
  function Resent(e: End): (r: seq<Flight>)
    ensures |r| == |e.peer.unacked|
  {
    seq(|e.peer.unacked|, i requires 0 <= i < |e.peer.unacked| =>
      Data(DataPkt(e.peer, e.peer.unacked[i]), e.freed + i, |e.accepted|))
  }

  /** reconnect: a later connection, and the queue resent up to k messages.  When not all were
      written the new connection is broken and the client dials again. */
  ghost predicate Redial(s: Session, t: Session, conn: nat, k: nat) {
    && s.me.link.conn < conn && s.me.reader == Reading
    && (s.me.link.Attached? ==> s.me.link.conn in s.dead)
    && k <= |s.me.peer.unacked|
    && var all := k == |s.me.peer.unacked|;
    && t == s.(me := s.me.(link := if all then Attached(conn) else Redialing(conn)),
               out := s.out[conn := Lane(s.me.freed, |s.me.written|, s.me.freed, Resent(s.me)[..k])],
               dead := if all then s.dead else s.dead + {conn})
  }

  ghost predicate Cut(s: Session, t: Session, conn: nat) {
    t == s.(dead := s.dead + {conn})
  }

  /** A broken connection loses everything in flight from packet k on. */
  ghost predicate Lose(s: Session, t: Session, conn: nat, k: nat) {
    && conn in s.dead && conn in s.out && k <= |s.out[conn].flights|
    && t == s.(out := s.out[conn := s.out[conn].(flights := s.out[conn].flights[..k])])
  }

  ghost predicate MyStep(s: Session, t: Session) {
    || (exists data, sent :: Write(s, t, data, sent))
    || PipeGone(s, t)
    || SendSync(s, t)
    || Receive(s, t)
    || Free(s, t)
    || Deliver(s, t)
    || (exists conn, k :: Redial(s, t, conn, k))
    || (exists conn :: Cut(s, t, conn))
    || (exists conn, k :: Lose(s, t, conn, k))
  }

  ghost predicate Step(s: Session, t: Session) {
    MyStep(s, t) || MyStep(Swap(s), Swap(t))
  }

  ghost predicate Run(run: seq<Session>) {
    && run != [] && Init(run[0])
    && forall i :: 0 <= i < |run| - 1 ==> Step(run[i], run[i + 1])
  }

  // ---------- The invariant ----------

  /** Sender bookkeeping: counters are the wrapped history lengths, the queue is the unfreed rest. */
  ghost predicate SenderOk(e: End) {
    && EofLast(e.written)
    && (forall i :: 0 <= i < |e.written| ==> |e.written[i]| <= BUFSIZE)
    && e.freed + |e.peer.unacked| == |e.written|
    && |e.peer.unacked| <= MAXUNACKED
    && e.peer.lastacked == Wrap(e.freed)
    && e.peer.outmsg == Wrap(|e.written|)
    && (forall i :: 0 <= i < |e.peer.unacked| ==>
         e.peer.unacked[i] == Buf(Wrap(e.freed + i), e.written[e.freed + i]))
  }

  /** Receiver bookkeeping against what the other side wrote. */
  ghost predicate ReceiverOk(rcv: End, snd: End) {
    && rcv.peer.inmsg == Wrap(|rcv.accepted|)
    && |rcv.accepted| <= DataCount(snd.written)
    && rcv.accepted == snd.written[..|rcv.accepted|]
    && match rcv.reader
       case Reading => rcv.delivered == rcv.accepted
       case Releasing(_, _, d) => rcv.accepted == rcv.delivered + [d]
       case Delivering(d) => rcv.accepted == rcv.delivered + [d]
       case ClosedEof => rcv.delivered == rcv.accepted && |rcv.accepted| == DataCount(snd.written) < |snd.written|
       case ClosedPipe => exists d :: rcv.accepted == rcv.delivered + [d]
  }

  /** A flight carries the chunk of its number. */
  ghost predicate FlightOk(f: Flight, written: seq<Chunk>) {
    && f.pkt.acked == Wrap(f.ack)
    && match f
       case Data(k, num, _) => num < |written| && k.msg == Wrap(num) && k.data == written[num] && k.nb == |k.data|
       case Sync(k, _) => k.nb == 0 && k.msg == SYNCMSG
  }

  function CountData(fs: seq<Flight>): nat {
    if fs == [] then 0 else (if fs[0].Data? then 1 else 0) + CountData(fs[1..])
  }

  /** Data flights are numbered consecutively from n. */
  ghost predicate Consecutive(fs: seq<Flight>, n: nat)
    decreases |fs|
  {
    fs == [] ||
    (match fs[0]
     case Data(_, num, _) => num == n && Consecutive(fs[1..], n + 1)
     case Sync(_, _) => Consecutive(fs[1..], n))
  }

  function After(l: Lane): nat {
    l.next + CountData(l.flights)
  }

  /** What makes a lane readable without a gap or a mistaken number. */
  ghost predicate LaneOk(c: nat, l: Lane, snd: End, rcv: End) {
    && (forall f <- l.flights :: FlightOk(f, snd.written))
    && Consecutive(l.flights, l.next)
    && l.base <= l.next && l.top - l.base <= MAXUNACKED && l.top <= |snd.written| && After(l) <= |snd.written|
    && (rcv.link.conn <= c ==>
          && Min(l.next, DataCount(snd.written)) <= |rcv.accepted|
          && (|rcv.accepted| <= l.top || |rcv.accepted| <= l.next))
    && (rcv.link.conn < c ==> l.next == l.base && |rcv.accepted| <= l.top)
  }

  ghost predicate LanesOk(snd: End, rcv: End, lanes: Lanes) {
    && (forall c <- lanes :: c <= snd.link.conn && LaneOk(c, lanes[c], snd, rcv))
    && (forall c <- lanes, d <- lanes :: c < d ==> After(lanes[c]) <= lanes[d].top)
  }

  /** While a connection has not broken, everything written is in flight on it or read from it. */
  ghost predicate Lossless(snd: End, lanes: Lanes, dead: set<nat>) {
    snd.link.Attached? ==>
      && snd.link.conn in lanes
      && (snd.link.conn !in dead ==> After(lanes[snd.link.conn]) == |snd.written|)
  }

  ghost predicate DataInv(snd: End, rcv: End, lanes: Lanes, dead: set<nat>) {
    && SenderOk(snd) && ReceiverOk(rcv, snd)
    && snd.freed <= |rcv.accepted|
    && LanesOk(snd, rcv, lanes)
    && Lossless(snd, lanes, dead)
  }

  ghost predicate AcksSorted(fs: seq<Flight>) {
    forall i, j :: 0 <= i < j < |fs| ==> fs[i].ack <= fs[j].ack
  }

  ghost predicate AcksWithin(fs: seq<Flight>, lo: nat, hi: nat) {
    forall f <- fs :: lo <= f.ack <= hi
  }

  ghost predicate AcksOrdered(fs: seq<Flight>, gs: seq<Flight>) {
    forall f <- fs, g <- gs :: f.ack <= g.ack
  }

  /** The last acknowledgement that snd has seen. */
  function Floor(snd: End): nat {
    if snd.reader.Releasing? then snd.reader.ack else snd.freed
  }

  ghost predicate LaneAcks(c: nat, fs: seq<Flight>, snd: End, rcv: End) {
    c <= rcv.link.conn && AcksSorted(fs)
    && AcksWithin(fs, if snd.link.conn <= c then Floor(snd) else 0, |rcv.accepted|)
  }

  /** Acknowledgements on their way to snd: never decreasing, never beyond what rcv accepted. */
  ghost predicate AckInv(snd: End, rcv: End, lanes: Lanes) {
    && (forall c <- lanes :: LaneAcks(c, lanes[c].flights, snd, rcv))
    && (forall c <- lanes, d <- lanes :: snd.link.conn <= c < d ==> AcksOrdered(lanes[c].flights, lanes[d].flights))
    && snd.freed <= Floor(snd) <= |rcv.accepted|
    && (snd.reader.Releasing? ==> snd.reader.acked == Wrap(snd.reader.ack))
  }

  ghost predicate Inv(s: Session) {
    && DataInv(s.me, s.you, s.out, s.dead)
    && DataInv(s.you, s.me, s.inn, s.dead)
    && AckInv(s.me, s.you, s.inn)
    && AckInv(s.you, s.me, s.out)
  }

  // ---------- Lists of flights ----------

  lemma ConsecutiveJoin(fs: seq<Flight>, gs: seq<Flight>, n: nat)
    ensures Consecutive(fs + gs, n) <==> Consecutive(fs, n) && Consecutive(gs, n + CountData(fs))
    ensures CountData(fs + gs) == CountData(fs) + CountData(gs)
    decreases |fs|
  {
    if fs == [] {
      assert fs + gs == gs;
    } else {
      assert (fs + gs)[1..] == fs[1..] + gs;
      ConsecutiveJoin(fs[1..], gs, n + (if fs[0].Data? then 1 else 0));
    }
  }

  lemma ConsecutivePrefix(fs: seq<Flight>, k: nat, n: nat)
    requires k <= |fs| && Consecutive(fs, n)
    ensures Consecutive(fs[..k], n) && CountData(fs[..k]) <= CountData(fs)
  {
    assert fs == fs[..k] + fs[k..];
    ConsecutiveJoin(fs[..k], fs[k..], n);
  }

  lemma ResentFlight(e: End, k: nat)
    requires SenderOk(e) && e.peer.inmsg == Wrap(|e.accepted|) && k < |e.peer.unacked|
    ensures var f := Resent(e)[k]; f.Data? && f.num == e.freed + k && FlightOk(f, e.written) && f.ack == |e.accepted|
  {
    assert e.peer.unacked[k] == Buf(Wrap(e.freed + k), e.written[e.freed + k]);
  }

  lemma {:induction false} ResentConsecutive(e: End, k: nat)
    requires SenderOk(e) && e.peer.inmsg == Wrap(|e.accepted|) && k <= |e.peer.unacked|
    ensures Consecutive(Resent(e)[..k], e.freed) && CountData(Resent(e)[..k]) == k
    decreases k
  {
    if k > 0 {
      var all := Resent(e);
      var f := all[k - 1];
      ResentConsecutive(e, k - 1);
      ResentFlight(e, k - 1);
      assert all[..k] == all[..k - 1] + [f];
      ConsecutiveJoin(all[..k - 1], [f], e.freed);
      assert [f][1..] == [] && CountData([f]) == 1;
    }
  }

  lemma ResentOk(e: End, k: nat)
    requires SenderOk(e) && e.peer.inmsg == Wrap(|e.accepted|) && k <= |e.peer.unacked|
    ensures Consecutive(Resent(e)[..k], e.freed) && CountData(Resent(e)[..k]) == k
    ensures forall f <- Resent(e)[..k] :: FlightOk(f, e.written) && f.ack == |e.accepted|
  {
    ResentConsecutive(e, k);
    forall f <- Resent(e)[..k] ensures FlightOk(f, e.written) && f.ack == |e.accepted| {
      var i :| 0 <= i < k && Resent(e)[..k][i] == f;
      ResentFlight(e, i);
    }
  }

  lemma {:induction false} DataCountGrows(w: seq<Chunk>, d: Chunk)
    requires EofLast(w + [d])
    ensures DataCount(w + [d]) == if d != [] then |w| + 1 else DataCount(w)
    ensures d != [] ==> DataCount(w) == |w|
  {
    var v := w + [d];
    if w == [] {
    } else if w[0] == [] {
      assert v[|w|] == d;
    } else {
      assert v[1..] == w[1..] + [d];
      forall i | DataCount(v[1..]) <= i < |v[1..]| ensures v[1..][i] == [] {
        assert v[1..][i] == v[i + 1];
      }
      DataCountGrows(w[1..], d);
    }
  }

  // ---------- Every step keeps the invariant ----------

  lemma SenderWrite(e: End, data: Chunk, pipe: bool)
    requires SenderOk(e) && |data| <= BUFSIZE && |e.peer.unacked| < MAXUNACKED && EofLast(e.written + [data])
    ensures SenderOk(e.(peer := Number(e.peer, data), written := e.written + [data], pipeOpen := pipe))
  {
    WrapStep(|e.written|, 1);
  }

  lemma LaneOkWrite(c: nat, l: Lane, snd: End, snd': End, rcv: End, data: Chunk)
    requires LaneOk(c, l, snd, rcv) && snd'.written == snd.written + [data]
    requires EofLast(snd'.written) && |rcv.accepted| <= DataCount(snd.written)
    ensures LaneOk(c, l, snd', rcv)
  {
    DataCountGrows(snd.written, data);
    forall f <- l.flights ensures FlightOk(f, snd'.written) {
      assert FlightOk(f, snd.written);
    }
  }

  lemma LaneOkPush(c: nat, l: Lane, snd: End, rcv: End, f: Flight)
    requires LaneOk(c, l, snd, rcv) && FlightOk(f, snd.written)
    requires f.Data? ==> f.num == After(l) && After(l) < |snd.written|
    ensures LaneOk(c, l.(flights := l.flights + [f]), snd, rcv)
    ensures After(l.(flights := l.flights + [f])) == After(l) + (if f.Data? then 1 else 0)
  {
    ConsecutiveJoin(l.flights, [f], l.next);
    assert CountData([f]) == if f.Data? then 1 else 0;
    assert Consecutive([f][1..], After(l) + 1);
  }

  lemma ReceiverOkWrite(rcv: End, snd: End, snd': End, data: Chunk)
    requires ReceiverOk(rcv, snd) && snd'.written == snd.written + [data] && EofLast(snd'.written)
    ensures ReceiverOk(rcv, snd')
  {
    DataCountGrows(snd.written, data);
  }

  lemma LanesWrite(snd: End, snd': End, rcv: End, lanes: Lanes, data: Chunk)
    requires LanesOk(snd, rcv, lanes) && ReceiverOk(rcv, snd)
    requires snd'.written == snd.written + [data] && EofLast(snd'.written) && snd'.link == snd.link
    ensures LanesOk(snd', rcv, lanes)
  {
    forall c <- lanes ensures LaneOk(c, lanes[c], snd', rcv) {
      LaneOkWrite(c, lanes[c], snd, snd', rcv, data);
    }
  }

  lemma LanesPush(snd: End, rcv: End, lanes: Lanes, f: Flight)
    requires LanesOk(snd, rcv, lanes) && FlightOk(f, snd.written) && snd.link.conn in lanes
    requires f.Data? ==> f.num == After(lanes[snd.link.conn]) < |snd.written|
    ensures LanesOk(snd, rcv, Push(lanes, snd.link.conn, f))
    ensures After(Push(lanes, snd.link.conn, f)[snd.link.conn])
         == After(lanes[snd.link.conn]) + (if f.Data? then 1 else 0)
  {
    LaneOkPush(snd.link.conn, lanes[snd.link.conn], snd, rcv, f);
  }

  lemma WriteKeepsData(s: Session, t: Session, data: Chunk, sent: bool)
    requires DataInv(s.me, s.you, s.out, s.dead) && Write(s, t, data, sent)
    requires s.me.peer.inmsg == Wrap(|s.me.accepted|)
    ensures DataInv(t.me, t.you, t.out, t.dead)
  {
    var c := s.me.link.conn;
    SenderWrite(s.me, data, t.me.pipeOpen);
    ReceiverOkWrite(s.you, s.me, t.me, data);
    LanesWrite(s.me, t.me, s.you, s.out, data);
    if sent && c !in s.dead {
      var f := Data(DataPkt(s.me.peer, Buf(s.me.peer.outmsg, data)), |s.me.written|, |s.me.accepted|);
      assert FlightOk(f, t.me.written);
      LanesPush(t.me, t.you, s.out, f);
    }
  }

  /** What a receiver's side of the invariant depends on. */
  ghost predicate SameReceiver(r: End, r': End) {
    r.link == r'.link && r.accepted == r'.accepted && r.delivered == r'.delivered
    && r.reader == r'.reader && r.peer.inmsg == r'.peer.inmsg
  }

  /** What a sender's side of the invariant depends on. */
  ghost predicate SameSender(e: End, e': End) {
    e.link == e'.link && e.written == e'.written && e.freed == e'.freed
    && e'.peer == e.peer.(inmsg := e'.peer.inmsg)
  }

  lemma DataFrame(snd: End, snd': End, rcv: End, rcv': End, lanes: Lanes, dead: set<nat>, dead': set<nat>)
    requires DataInv(snd, rcv, lanes, dead)
    requires SameSender(snd, snd') && SameReceiver(rcv, rcv') && dead <= dead'
    ensures DataInv(snd', rcv', lanes, dead')
  {
    forall c <- lanes ensures LaneOk(c, lanes[c], snd', rcv') {
      assert LaneOk(c, lanes[c], snd, rcv);
    }
  }

  lemma AckFrame(snd: End, snd': End, rcv: End, rcv': End, lanes: Lanes)
    requires AckInv(snd, rcv, lanes)
    requires snd.link == snd'.link && snd.freed <= snd'.freed <= Floor(snd)
    requires snd'.reader == snd.reader || !snd'.reader.Releasing?
    requires rcv.link == rcv'.link && |rcv.accepted| <= |rcv'.accepted|
    ensures AckInv(snd', rcv', lanes)
  {
    forall c <- lanes ensures LaneAcks(c, lanes[c].flights, snd', rcv') {
      assert LaneAcks(c, lanes[c].flights, snd, rcv);
    }
  }

  lemma LaneAcksPush(c: nat, fs: seq<Flight>, snd: End, rcv: End, f: Flight)
    requires LaneAcks(c, fs, snd, rcv) && f.ack == |rcv.accepted| && snd.freed <= Floor(snd) <= |rcv.accepted|
    ensures LaneAcks(c, fs + [f], snd, rcv)
  {
    assert forall g <- fs + [f] :: g in fs || g == f;
  }

  lemma AckOrderPush(fs: seq<Flight>, gs: seq<Flight>, f: Flight)
    requires AcksOrdered(fs, gs) && forall g <- fs :: g.ack <= f.ack
    ensures AcksOrdered(fs, gs + [f])
  {
    assert forall g <- gs + [f] :: g in gs || g == f;
  }

  lemma AckPush(snd: End, rcv: End, lanes: Lanes, f: Flight)
    requires AckInv(snd, rcv, lanes) && f.ack == |rcv.accepted| && rcv.link.conn in lanes
    ensures AckInv(snd, rcv, Push(lanes, rcv.link.conn, f))
  {
    var top := rcv.link.conn;
    var after := Push(lanes, top, f);
    LaneAcksPush(top, lanes[top].flights, snd, rcv, f);
    forall c <- after, d <- after | snd.link.conn <= c < d
      ensures AcksOrdered(after[c].flights, after[d].flights)
    {
      assert LaneAcks(c, lanes[c].flights, snd, rcv);
      assert LaneAcks(d, lanes[d].flights, snd, rcv);
      AckOrderPush(lanes[c].flights, lanes[d].flights, f);
    }
  }

  lemma WriteKeeps(s: Session, t: Session, data: Chunk, sent: bool)
    requires Inv(s) && Write(s, t, data, sent)
    ensures Inv(t)
  {
    WriteKeepsData(s, t, data, sent);
    DataFrame(s.you, t.you, s.me, t.me, s.inn, s.dead, t.dead);
    AckFrame(s.me, t.me, s.you, t.you, s.inn);
    AckFrame(s.you, t.you, s.me, t.me, s.out);
    var f := Data(DataPkt(s.me.peer, Buf(s.me.peer.outmsg, data)), |s.me.written|, |s.me.accepted|);
    AckPush(t.you, t.me, s.out, f);
  }

  lemma SendSyncKeeps(s: Session, t: Session)
    requires Inv(s) && SendSync(s, t)
    ensures Inv(t)
  {
    var f := Sync(SyncPkt(s.me.peer), |s.me.accepted|);
    LanesPush(s.me, s.you, s.out, f);
    AckPush(s.you, s.me, s.out, f);
  }

  lemma PipeGoneKeeps(s: Session, t: Session)
    requires Inv(s) && PipeGone(s, t)
    ensures Inv(t)
  {
    DataFrame(s.me, t.me, s.you, t.you, s.out, s.dead, t.dead);
    DataFrame(s.you, t.you, s.me, t.me, s.inn, s.dead, t.dead);
    AckFrame(s.me, t.me, s.you, t.you, s.inn);
    AckFrame(s.you, t.you, s.me, t.me, s.out);
  }

  lemma CutKeeps(s: Session, t: Session, conn: nat)
    requires Inv(s) && Cut(s, t, conn)
    ensures Inv(t)
  {
    DataFrame(s.me, t.me, s.you, t.you, s.out, s.dead, t.dead);
    DataFrame(s.you, t.you, s.me, t.me, s.inn, s.dead, t.dead);
  }

  /** Keeping only the first k flights of a lane. */
  function Truncate(lanes: Lanes, c: nat, k: nat): Lanes
    requires c in lanes && k <= |lanes[c].flights|
  {
    lanes[c := lanes[c].(flights := lanes[c].flights[..k])]
  }

  lemma LanesTruncate(snd: End, rcv: End, lanes: Lanes, c: nat, k: nat)
    requires LanesOk(snd, rcv, lanes) && c in lanes && k <= |lanes[c].flights|
    ensures LanesOk(snd, rcv, Truncate(lanes, c, k))
  {
    var after := Truncate(lanes, c, k);
    ConsecutivePrefix(lanes[c].flights, k, lanes[c].next);
    forall d <- after ensures LaneOk(d, after[d], snd, rcv) {
      assert LaneOk(d, lanes[d], snd, rcv);
      assert forall f <- after[d].flights :: f in lanes[d].flights;
    }
  }

  lemma AckTruncate(snd: End, rcv: End, lanes: Lanes, c: nat, k: nat)
    requires AckInv(snd, rcv, lanes) && c in lanes && k <= |lanes[c].flights|
    ensures AckInv(snd, rcv, Truncate(lanes, c, k))
  {
    var after := Truncate(lanes, c, k);
    forall d <- after
      ensures LaneAcks(d, after[d].flights, snd, rcv)
      ensures forall f <- after[d].flights :: f in lanes[d].flights
    {
      assert LaneAcks(d, lanes[d].flights, snd, rcv);
    }
    forall d <- after, e <- after | snd.link.conn <= d < e
      ensures AcksOrdered(after[d].flights, after[e].flights)
    {
      assert AcksOrdered(lanes[d].flights, lanes[e].flights);
    }
  }

  lemma LoseKeeps(s: Session, t: Session, conn: nat, k: nat)
    requires Inv(s) && Lose(s, t, conn, k)
    ensures Inv(t)
  {
    LanesTruncate(s.me, s.you, s.out, conn, k);
    AckTruncate(s.you, s.me, s.out, conn, k);
  }

  lemma DeliverKeeps(s: Session, t: Session)
    requires Inv(s) && Deliver(s, t)
    ensures Inv(t)
  {
    DataFrame(s.me, t.me, s.you, t.you, s.out, s.dead, t.dead);
    LanesFrame(s.you, t.you, s.me, t.me, s.inn);
    AckFrame(s.me, t.me, s.you, t.you, s.inn);
    AckFrame(s.you, t.you, s.me, t.me, s.out);
  }

  /** An honest acknowledgement releases no message that the other side has not accepted. */
  lemma ReleasedAtMost(p: Peer, freed: int, ack: int)
    requires p.lastacked == Wrap(freed) && freed <= ack
    ensures freed + Released(p, Wrap(ack)) <= ack
  {
    WrapStep(Wrap(ack), freed);
    WrapStep(ack, -freed);
  }

  lemma SenderFree(e: End, n: nat, reader: Reader)
    requires SenderOk(e) && n <= |e.peer.unacked|
    ensures SenderOk(e.(peer := Release(e.peer, n), freed := e.freed + n, reader := reader))
  {
    WrapStep(e.freed, n);
    var p := Release(e.peer, n);
    assert forall i :: 0 <= i < |p.unacked| ==> p.unacked[i] == e.peer.unacked[n + i];
  }

  /** Lanes depend on their ends only through the link, the written and the accepted chunks. */
  lemma LanesFrame(snd: End, snd': End, rcv: End, rcv': End, lanes: Lanes)
    requires LanesOk(snd, rcv, lanes)
    requires snd.link.conn <= snd'.link.conn && snd.written == snd'.written
    requires rcv.link.conn <= rcv'.link.conn && rcv.accepted == rcv'.accepted
    ensures LanesOk(snd', rcv', lanes)
  {
    forall c <- lanes ensures LaneOk(c, lanes[c], snd', rcv') {
      assert LaneOk(c, lanes[c], snd, rcv);
    }
  }

  lemma FreeKeepsData(s: Session, t: Session)
    requires DataInv(s.me, s.you, s.out, s.dead) && AckInv(s.me, s.you, s.inn) && Free(s, t)
    ensures DataInv(t.me, t.you, t.out, t.dead) && s.me.freed <= t.me.freed <= s.me.reader.ack
  {
    ReleasedAtMost(s.me.peer, s.me.freed, s.me.reader.ack);
    SenderFree(s.me, Released(s.me.peer, s.me.reader.acked), t.me.reader);
    LanesFrame(s.me, t.me, s.you, t.you, s.out);
  }

  lemma FreeKeeps(s: Session, t: Session)
    requires Inv(s) && Free(s, t)
    ensures Inv(t)
  {
    FreeKeepsData(s, t);
    LanesFrame(s.you, t.you, s.me, t.me, s.inn);
    AckFrame(s.me, t.me, s.you, t.you, s.inn);
    AckFrame(s.you, t.you, s.me, t.me, s.out);
  }

  lemma LanesRedial(snd: End, snd': End, rcv: End, lanes: Lanes, conn: nat, k: nat)
    requires LanesOk(snd, rcv, lanes) && SenderOk(snd) && ReceiverOk(rcv, snd)
    requires snd.peer.inmsg == Wrap(|snd.accepted|)
    requires snd.freed <= |rcv.accepted| && k <= |snd.peer.unacked|
    requires snd.link.conn < conn == snd'.link.conn && snd'.written == snd.written
    ensures LanesOk(snd', rcv, lanes[conn := Lane(snd.freed, |snd.written|, snd.freed, Resent(snd)[..k])])
    ensures After(Lane(snd.freed, |snd.written|, snd.freed, Resent(snd)[..k])) == snd.freed + k
  {
    ResentOk(snd, k);
    var l := Lane(snd.freed, |snd.written|, snd.freed, Resent(snd)[..k]);
    assert LaneOk(conn, l, snd', rcv);
    LanesFrame(snd, snd', rcv, rcv, lanes);
  }

  lemma AckRedial(snd: End, rcv: End, rcv': End, lanes: Lanes, conn: nat, l: Lane)
    requires AckInv(snd, rcv, lanes) && rcv.link.conn < conn == rcv'.link.conn && rcv'.accepted == rcv.accepted
    requires forall f <- l.flights :: f.ack == |rcv.accepted|
    ensures AckInv(snd, rcv', lanes[conn := l])
  {
    var after := lanes[conn := l];
    forall c <- after ensures LaneAcks(c, after[c].flights, snd, rcv') {
      if c != conn { assert LaneAcks(c, lanes[c].flights, snd, rcv); }
    }
    forall c <- after, d <- after | snd.link.conn <= c < d
      ensures AcksOrdered(after[c].flights, after[d].flights)
    {
      assert c != conn ==> LaneAcks(c, lanes[c].flights, snd, rcv);
    }
  }

  lemma AckLater(snd: End, snd': End, rcv: End, lanes: Lanes)
    requires AckInv(snd, rcv, lanes)
    requires snd.link.conn <= snd'.link.conn && snd'.freed == snd.freed && snd'.reader == snd.reader
    ensures AckInv(snd', rcv, lanes)
  {
    forall c <- lanes ensures LaneAcks(c, lanes[c].flights, snd', rcv) {
      assert LaneAcks(c, lanes[c].flights, snd, rcv);
    }
  }

  lemma RedialKeeps(s: Session, t: Session, conn: nat, k: nat)
    requires Inv(s) && Redial(s, t, conn, k)
    ensures Inv(t)
  {
    ResentOk(s.me, k);
    LanesRedial(s.me, t.me, s.you, s.out, conn, k);
    LanesFrame(s.you, t.you, s.me, t.me, s.inn);
    AckLater(s.me, t.me, s.you, s.inn);
    AckRedial(s.you, s.me, t.me, s.out, conn, t.out[conn]);
  }

  function Pop(l: Lane): Lane
    requires l.flights != []
  {
    l.(flights := l.flights[1..], next := if l.flights[0].Data? then l.next + 1 else l.next)
  }

  /** The number test accepts a data message exactly when it is the next one. */
  lemma HeadVerdict(l: Lane, snd: End, rcv: End)
    requires LaneOk(rcv.link.conn, l, snd, rcv) && l.flights != []
    requires SenderOk(snd) && ReceiverOk(rcv, snd)
    ensures var f := l.flights[0]; var v := Examine(rcv.peer, f.pkt);
            match v
            case Accept(a, d) => f.Data? && f.num == |rcv.accepted| < DataCount(snd.written)
                                 && d == snd.written[f.num] && a == Wrap(f.ack)
            case Close => f.Data? && DataCount(snd.written) == |rcv.accepted| < |snd.written|
            case Ignore => f.Data? && f.num < DataCount(snd.written) ==> f.num < |rcv.accepted|
  {
    var f := l.flights[0];
    assert FlightOk(f, snd.written);
    if f.Data? {
      assert f.num == l.next;
      if f.num < DataCount(snd.written) {
        assert |rcv.accepted| - f.num <= MAXUNACKED;
        SameWrap(f.num, |rcv.accepted|);
      }
    }
  }

  lemma LaneOkPop(l: Lane, snd: End, rcv: End, rcv': End)
    requires LaneOk(rcv.link.conn, l, snd, rcv) && l.flights != [] && rcv'.link == rcv.link
    requires SenderOk(snd) && ReceiverOk(rcv, snd)
    requires match Examine(rcv.peer, l.flights[0].pkt)
             case Accept(a, d) => rcv'.accepted == rcv.accepted + [d]
             case _ => rcv'.accepted == rcv.accepted
    ensures LaneOk(rcv.link.conn, Pop(l), snd, rcv') && After(Pop(l)) == After(l)
    ensures |rcv'.accepted| <= |rcv.accepted| + 1
    ensures rcv'.accepted != rcv.accepted ==> |rcv'.accepted| <= After(l)
  {
    HeadVerdict(l, snd, rcv);
    assert forall f <- l.flights[1..] :: f in l.flights;
  }

  lemma LaneOkLater(c: nat, l: Lane, snd: End, rcv: End, rcv': End)
    requires LaneOk(c, l, snd, rcv) && rcv'.link == rcv.link && c != rcv.link.conn
    requires |rcv.accepted| <= |rcv'.accepted| <= |rcv.accepted| + 1
    requires rcv.link.conn < c ==> |rcv'.accepted| <= l.top || |rcv'.accepted| == |rcv.accepted|
    ensures LaneOk(c, l, snd, rcv')
  {
  }

  /** Taking the head of the lane being read; others are untouched. */
  lemma LanesReceive(snd: End, rcv: End, rcv': End, lanes: Lanes)
    requires rcv.link.conn in lanes && lanes[rcv.link.conn].flights != []
    requires LanesOk(snd, rcv, lanes) && SenderOk(snd) && ReceiverOk(rcv, snd) && rcv'.link == rcv.link
    requires match Examine(rcv.peer, lanes[rcv.link.conn].flights[0].pkt)
             case Accept(a, d) => rcv'.accepted == rcv.accepted + [d]
             case _ => rcv'.accepted == rcv.accepted
    ensures LanesOk(snd, rcv', lanes[rcv.link.conn := Pop(lanes[rcv.link.conn])])
    ensures After(Pop(lanes[rcv.link.conn])) == After(lanes[rcv.link.conn])
  {
    var c := rcv.link.conn;
    LaneOkPop(lanes[c], snd, rcv, rcv');
    forall d <- lanes | d != c ensures LaneOk(d, lanes[d], snd, rcv') {
      assert c < d ==> After(lanes[c]) <= lanes[d].top;
      LaneOkLater(d, lanes[d], snd, rcv, rcv');
    }
  }

  lemma AckReceive(snd: End, snd': End, rcv: End, lanes: Lanes)
    requires snd.link.conn in lanes && lanes[snd.link.conn].flights != []
    requires AckInv(snd, rcv, lanes) && !snd.reader.Releasing?
    requires snd'.link == snd.link && snd'.freed == snd.freed
    requires var f := lanes[snd.link.conn].flights[0];
             !snd'.reader.Releasing? || (snd'.reader.ack == f.ack && snd'.reader.acked == Wrap(f.ack))
    ensures AckInv(snd', rcv, lanes[snd.link.conn := Pop(lanes[snd.link.conn])])
  {
    var c := snd.link.conn;
    var fs := lanes[c].flights;
    var after := lanes[c := Pop(lanes[c])];
    assert LaneAcks(c, fs, snd, rcv);
    HeadAckLeast(fs);
    AckReceiveLanes(snd, snd', rcv, lanes);
    forall d <- after, e <- after | c <= d < e
      ensures AcksOrdered(after[d].flights, after[e].flights)
    {
      AckOrderTail(lanes[d].flights, lanes[e].flights);
    }
  }

  lemma AckReceiveLanes(snd: End, snd': End, rcv: End, lanes: Lanes)
    requires snd.link.conn in lanes && lanes[snd.link.conn].flights != []
    requires AckInv(snd, rcv, lanes) && snd'.link == snd.link
    requires Floor(snd') <= lanes[snd.link.conn].flights[0].ack
    ensures var after := lanes[snd.link.conn := Pop(lanes[snd.link.conn])];
            forall d <- after :: LaneAcks(d, after[d].flights, snd', rcv)
  {
    var c := snd.link.conn;
    var fs := lanes[c].flights;
    var after := lanes[c := Pop(lanes[c])];
    assert LaneAcks(c, fs, snd, rcv);
    HeadAckLeast(fs);
    forall d <- after ensures LaneAcks(d, after[d].flights, snd', rcv) {
      assert LaneAcks(d, lanes[d].flights, snd, rcv);
      if c < d { AckOrderAt(fs, lanes[d].flights); }
    }
  }

  lemma AckOrderTail(fs: seq<Flight>, gs: seq<Flight>)
    requires AcksOrdered(fs, gs)
    ensures fs != [] ==> AcksOrdered(fs[1..], gs)
  {
    if fs != [] { assert forall f <- fs[1..] :: f in fs; }
  }

  lemma HeadAckLeast(fs: seq<Flight>)
    requires fs != [] && AcksSorted(fs)
    ensures AcksSorted(fs[1..])
    ensures forall f <- fs[1..] :: f in fs && fs[0].ack <= f.ack
  {
  }

  lemma AckOrderAt(fs: seq<Flight>, gs: seq<Flight>)
    requires fs != [] && AcksOrdered(fs, gs)
    ensures forall g <- gs :: fs[0].ack <= g.ack
  {
  }

  lemma ReceiverTakes(rcv: End, snd: End, f: Flight)
    requires ReceiverOk(rcv, snd) && rcv.reader == Reading
    requires f.Data? && f.num == |rcv.accepted| < DataCount(snd.written)
    ensures var d := snd.written[f.num];
            ReceiverOk(rcv.(peer := rcv.peer.(inmsg := Wrap(rcv.peer.inmsg + 1)), accepted := rcv.accepted + [d],
                            reader := Releasing(f.ack, f.pkt.acked, d)), snd)
  {
    WrapStep(|rcv.accepted|, 1);
    assert snd.written[..f.num + 1] == snd.written[..f.num] + [snd.written[f.num]];
  }

  lemma ReceiveKeepsReceiver(s: Session, t: Session, f: Flight)
    requires DataInv(s.you, s.me, s.inn, s.dead) && Receive(s, t) && f == s.inn[s.me.link.conn].flights[0]
    ensures ReceiverOk(t.me, t.you)
  {
    var l := s.inn[s.me.link.conn];
    assert LaneOk(s.me.link.conn, l, s.you, s.me);
    HeadVerdict(l, s.you, s.me);
    match Examine(s.me.peer, f.pkt)
    case Accept(_, _) => ReceiverTakes(s.me, s.you, f);
    case _ =>
  }

  lemma ReceiveKeepsAs(s: Session, t: Session, f: Flight)
    requires DataInv(s.you, s.me, s.inn, s.dead) && Receive(s, t) && f == s.inn[s.me.link.conn].flights[0]
    ensures f.pkt.acked == Wrap(f.ack) && SameSender(s.me, t.me.(reader := s.me.reader))
    ensures t.me.link == s.me.link && |s.me.accepted| <= |t.me.accepted| && t.inn == s.inn[s.me.link.conn := Pop(s.inn[s.me.link.conn])]
    ensures t.me.reader.Releasing? ==> t.me.reader.ack == f.ack && t.me.reader.acked == f.pkt.acked
  {
    assert LaneOk(s.me.link.conn, s.inn[s.me.link.conn], s.you, s.me);
    assert FlightOk(f, s.you.written);
  }

  /** A sender's data side does not depend on what it received. */
  lemma DataSender(snd: End, snd': End, rcv: End, lanes: Lanes, dead: set<nat>)
    requires DataInv(snd, rcv, lanes, dead) && SameSender(snd, snd')
    ensures DataInv(snd', rcv, lanes, dead)
  {
    LanesFrame(snd, snd', rcv, rcv, lanes);
  }

  lemma ReceiveKeeps(s: Session, t: Session)
    requires Inv(s) && Receive(s, t)
    ensures Inv(t)
  {
    var f := s.inn[s.me.link.conn].flights[0];
    ReceiveKeepsReceiver(s, t, f);
    ReceiveKeepsAs(s, t, f);
    LanesReceive(s.you, s.me, t.me, s.inn);
    AckReceive(s.me, t.me, s.you, s.inn);
    DataSender(s.me, t.me, s.you, s.out, s.dead);
    AckFrame(s.you, t.you, s.me, t.me, s.out);
  }

  // ---------- Every run ----------

  lemma MyStepKeeps(s: Session, t: Session)
    requires Inv(s) && MyStep(s, t)
    ensures Inv(t)
  {
    if PipeGone(s, t) {
      PipeGoneKeeps(s, t);
    } else if SendSync(s, t) {
      SendSyncKeeps(s, t);
    } else if Receive(s, t) {
      ReceiveKeeps(s, t);
    } else if Free(s, t) {
      FreeKeeps(s, t);
    } else if Deliver(s, t) {
      DeliverKeeps(s, t);
    } else if data, sent :| Write(s, t, data, sent) {
      WriteKeeps(s, t, data, sent);
    } else if conn, k :| Redial(s, t, conn, k) {
      RedialKeeps(s, t, conn, k);
    } else if conn :| Cut(s, t, conn) {
      CutKeeps(s, t, conn);
    } else {
      var conn, k :| Lose(s, t, conn, k);
      LoseKeeps(s, t, conn, k);
    }
  }

  lemma {:induction false} RunKeeps(run: seq<Session>, i: nat)
    requires Run(run) && i < |run|
    ensures Inv(run[i])
  {
    if i > 0 {
      RunKeeps(run, i - 1);
      assert Step(run[i - 1], run[i]);
      if MyStep(run[i - 1], run[i]) {
        MyStepKeeps(run[i - 1], run[i]);
      } else {
        MyStepKeeps(Swap(run[i - 1]), Swap(run[i]));
      }
    }
  }

  /** In every run the chunks delivered to one pipe are a prefix, in order and without repeats,
      of those read from the other; no chunk is freed before the other side accepted it; and a
      reader that saw the end of file has delivered every data chunk. */
  lemma ExactlyOnceInOrder(run: seq<Session>, i: nat)
    requires Run(run) && i < |run|
    ensures run[i].me.delivered <= run[i].you.written && run[i].you.delivered <= run[i].me.written
    ensures run[i].me.freed <= |run[i].you.accepted| && run[i].you.accepted <= run[i].me.written
    ensures run[i].you.freed <= |run[i].me.accepted| && run[i].me.accepted <= run[i].you.written
    ensures run[i].me.reader == ClosedEof ==>
              run[i].me.delivered == run[i].you.written[..DataCount(run[i].you.written)]
    ensures run[i].you.reader == ClosedEof ==>
              run[i].you.delivered == run[i].me.written[..DataCount(run[i].me.written)]
  {
    RunKeeps(run, i);
  }

  /** In every run each client's unacked queue holds exactly the messages lastacked to outmsg - 1. */
  lemma QueueInEveryRun(run: seq<Session>, i: nat)
    requires Run(run) && i < |run|
    ensures QueueOk(run[i].me.peer) && QueueOk(run[i].you.peer)
    ensures forall k :: 0 <= k < |run[i].me.peer.unacked| ==>
              run[i].me.freed + k < |run[i].me.written| &&
              run[i].me.peer.unacked[k].data == run[i].me.written[run[i].me.freed + k]
  {
    RunKeeps(run, i);
    SenderQueueOk(run[i].me);
    SenderQueueOk(run[i].you);
  }

  lemma SenderQueueOk(e: End)
    requires SenderOk(e)
    ensures QueueOk(e.peer)
  {
    WrapStep(e.freed, |e.peer.unacked|);
    forall i | 0 <= i < |e.peer.unacked| ensures e.peer.unacked[i].msg == Wrap(e.peer.lastacked + i) {
      WrapStep(e.freed, i);
    }
  }

  lemma AheadBy(ack: int, freed: int)
    requires 0 <= ack - freed < TWO32
    ensures Wrap(Wrap(ack) - Wrap(freed)) == ack - freed
  {
    WrapStep(Wrap(ack), freed);
    WrapStep(ack, -freed);
  }

  /** A state in which aanreader is about to release messages, and what it comes to. */
  lemma FreesAcked(s: Session, t: Session)
    requires SenderOk(s.me) && AckInv(s.me, s.you, s.inn) && |s.you.accepted| <= |s.me.written| && Free(s, t)
    ensures var d := s.me.reader.ack - s.me.freed;
            && 0 <= d <= |s.me.peer.unacked|
            && (d < TWO31 ==> t.me.freed == s.me.reader.ack && t.me.peer.unacked == s.me.peer.unacked[d..])
            && (d >= TWO31 ==> t.me.freed == s.me.freed && t.me.peer == s.me.peer)
  {
    SenderQueueOk(s.me);
    AckedGone(s.me.peer, s.me.reader.acked);
    AheadBy(s.me.reader.ack, s.me.freed);
    assert s.me.peer.unacked[0..] == s.me.peer.unacked;
  }

  /** In every run releasing goes exactly as far as the acknowledgement says, as long as that is less than
      2^31 messages ahead; if it is more, nothing is released. */
  lemma FreedIsAcked(run: seq<Session>, i: nat)
    requires Run(run) && i < |run| - 1 && Free(run[i], run[i + 1])
    ensures var e, e' := run[i].me, run[i + 1].me;
            if e.reader.ack - e.freed < TWO31
            then e'.freed == e.reader.ack && e.freed <= e'.freed && e'.peer.unacked == e.peer.unacked[e'.freed - e.freed..]
            else e'.freed == e.freed && e'.peer == e.peer
  {
    RunKeeps(run, i);
    FreesAcked(run[i], run[i + 1]);
  }

  /** The queue that is sent again, with its true numbers, is the one that a client puts on the wire. */
  lemma ResentIsResend(e: End)
    ensures |Resent(e)| == |Resend(e.peer)|
    ensures forall i :: 0 <= i < |e.peer.unacked| ==>
              Resent(e)[i].pkt == Resend(e.peer)[i] && Resend(e.peer)[i] == Pkt(|e.peer.unacked[i].data|, e.peer.unacked[i].msg, e.peer.inmsg, e.peer.unacked[i].data)
  {
  }

  /** Both sides are on the same unbroken connection and nothing is in flight towards rcv. */
  ghost predicate Drained(s: Session) {
    && s.me.link.Attached? && s.you.link == s.me.link
    && s.me.link.conn !in s.dead
    && (s.me.link.conn in s.out ==> s.out[s.me.link.conn].flights == [])
    && s.you.reader == Reading
  }

  /** Whenever a live connection has drained, every data chunk written has been delivered. */
  lemma DrainedMeansDelivered(run: seq<Session>, i: nat)
    requires Run(run) && i < |run| && Drained(run[i])
    ensures run[i].you.delivered == run[i].me.written[..DataCount(run[i].me.written)]
  {
    RunKeeps(run, i);
    var s := run[i];
    assert LaneOk(s.me.link.conn, s.out[s.me.link.conn], s.me, s.you);
  }

  /** MAXUNACKED cannot be larger: a resent message that is 2^32 behind is taken for a new one. */
  lemma WindowIsTight(accepted: nat, k: Pkt)
    requires 0 < k.nb <= BUFSIZE && accepted >= MAXUNACKED + 1 && k.msg == Wrap(accepted - (MAXUNACKED + 1))
    ensures Examine(FRESH.(inmsg := Wrap(accepted)), k) == Accept(k.acked, k.data)
  {
    WrapStep(accepted, -TWO32);
  }

  /** The end of file is an empty message; the reader closes on it exactly when its number is
      not the one that marks a sync message. */
  lemma EofSeenUnlessNumberedAsSync(p: Peer, q: Peer)
    ensures Examine(q, DataPkt(p, Buf(p.outmsg, []))) == Close <==> p.outmsg != SYNCMSG
    ensures Examine(q, DataPkt(p, Buf(p.outmsg, []))) == Ignore <==> p.outmsg == SYNCMSG
  {
  }
}
