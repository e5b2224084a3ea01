/**
 The end of file in the session of aan.c.  It is a message without data, and so is a sync message,
 which carries the number 2^32 - 1 instead of its own: an end of file that happens to get this
 number is passed over.
 */
module AanEof {
  import opened Words
  import opened Aan
  import opened AanSession

  // ---------- What every run keeps ----------

  /** Of the numbers before next, those of an end of file are all the sync number. */
  ghost predicate OnlySyncs(w: seq<Chunk>, next: nat) {
    forall k :: DataCount(w) <= k < next ==> Wrap(k) == SYNCMSG
  }

  /** A reader that has taken any other end of file has closed. */
  ghost predicate Closes(snd: End, rcv: End, lanes: Lanes) {
    rcv.reader.ClosedEof? || forall c <- lanes :: OnlySyncs(snd.written, lanes[c].next)
  }

  ghost predicate EofInv(s: Session) {
    Closes(s.me, s.you, s.out) && Closes(s.you, s.me, s.inn)
  }

  lemma ClosesFrame(snd: End, snd': End, rcv: End, rcv': End, lanes: Lanes, lanes': Lanes)
    requires Closes(snd, rcv, lanes) && DataCount(snd.written) <= DataCount(snd'.written)
    requires rcv.reader.ClosedEof? ==> rcv'.reader.ClosedEof?
    requires forall c <- lanes' :: lanes'[c].next <= DataCount(snd'.written) || (c in lanes && lanes'[c].next == lanes[c].next)
    ensures Closes(snd', rcv', lanes')
  {
    if !rcv.reader.ClosedEof? {
      forall c <- lanes' ensures OnlySyncs(snd'.written, lanes'[c].next) {
        assert lanes'[c].next <= DataCount(snd'.written) || OnlySyncs(snd.written, lanes[c].next);
      }
    }
  }

  lemma WriteCloses(s: Session, t: Session, data: Chunk, sent: bool)
    requires EofInv(s) && Write(s, t, data, sent)
    ensures EofInv(t)
  {
    DataCountGrows(s.me.written, data);
    ClosesFrame(s.me, t.me, s.you, t.you, s.out, t.out);
    ClosesFrame(s.you, t.you, s.me, t.me, s.inn, t.inn);
  }

  lemma RedialCloses(s: Session, t: Session, conn: nat, k: nat)
    requires Inv(s) && EofInv(s) && Redial(s, t, conn, k)
    ensures EofInv(t)
  {
    ClosesFrame(s.me, t.me, s.you, t.you, s.out, t.out);
    ClosesFrame(s.you, t.you, s.me, t.me, s.inn, t.inn);
  }

  /** The next packet of a lane has been read, and the reader has not closed. */
  lemma PopSyncs(l: Lane, snd: End, rcv: End)
    requires LaneOk(rcv.link.conn, l, snd, rcv) && l.flights != [] && SenderOk(snd) && ReceiverOk(rcv, snd)
    requires OnlySyncs(snd.written, l.next) && Examine(rcv.peer, l.flights[0].pkt) != Close
    ensures OnlySyncs(snd.written, Pop(l).next)
  {
    var f := l.flights[0];
    assert FlightOk(f, snd.written);
    assert f.Data? && f.num >= DataCount(snd.written) ==> snd.written[f.num] == [] && Wrap(f.num) == SYNCMSG;
  }

  lemma TakingCloses(snd: End, rcv: End, rcv': End, lanes: Lanes)
    requires rcv.link.conn in lanes && lanes[rcv.link.conn].flights != [] && LanesOk(snd, rcv, lanes)
    requires SenderOk(snd) && ReceiverOk(rcv, snd) && Closes(snd, rcv, lanes) && !rcv.reader.ClosedEof?
    requires Examine(rcv.peer, lanes[rcv.link.conn].flights[0].pkt) == Close ==> rcv'.reader.ClosedEof?
    ensures Closes(snd, rcv', lanes[rcv.link.conn := Pop(lanes[rcv.link.conn])])
  {
    var c, w := rcv.link.conn, snd.written;
    var lanes' := lanes[c := Pop(lanes[c])];
    if !rcv'.reader.ClosedEof? {
      assert OnlySyncs(w, lanes[c].next);
      PopSyncs(lanes[c], snd, rcv);
      forall d <- lanes' ensures OnlySyncs(w, lanes'[d].next) {
        assert d != c ==> OnlySyncs(w, lanes[d].next);
      }
    }
  }

  lemma ReceiveCloses(s: Session, t: Session)
    requires DataInv(s.you, s.me, s.inn, s.dead) && EofInv(s) && Receive(s, t)
    ensures EofInv(t)
  {
    var c := s.me.link.conn;
    assert t.inn == s.inn[c := Pop(s.inn[c])] && t.you == s.you && t.out == s.out;
    assert Closes(t.you, t.me, t.inn) by {
      TakingCloses(s.you, s.me, t.me, s.inn);
    }
    assert Closes(t.me, t.you, t.out) by {
      ClosesFrame(s.me, t.me, s.you, t.you, s.out, t.out);
    }
  }

  lemma OtherCloses(s: Session, t: Session)
    requires EofInv(s)
    requires PipeGone(s, t) || SendSync(s, t) || Free(s, t) || Deliver(s, t) || (exists conn :: Cut(s, t, conn)) || (exists conn, k :: Lose(s, t, conn, k))
    ensures EofInv(t)
  {
    ClosesFrame(s.me, t.me, s.you, t.you, s.out, t.out);
    ClosesFrame(s.you, t.you, s.me, t.me, s.inn, t.inn);
  }

  lemma MyStepCloses(s: Session, t: Session)
    requires Inv(s) && EofInv(s) && MyStep(s, t)
    ensures EofInv(t)
  {
    if Receive(s, t) {
      ReceiveCloses(s, t);
    } else if data, sent :| Write(s, t, data, sent) {
      WriteCloses(s, t, data, sent);
    } else if conn, k :| Redial(s, t, conn, k) {
      RedialCloses(s, t, conn, k);
    } else {
      OtherCloses(s, t);
    }
  }

  lemma StepCloses(s: Session, t: Session)
    requires Inv(s) && EofInv(s) && Step(s, t)
    ensures EofInv(t)
  {
    if MyStep(s, t) {
      MyStepCloses(s, t);
    } else {
      MyStepCloses(Swap(s), Swap(t));
    }
  }

  lemma {:induction false} RunCloses(run: seq<Session>, i: nat)
    requires Run(run) && i < |run|
    ensures EofInv(run[i])
  {
    if i > 0 {
      RunCloses(run, i - 1);
      RunKeeps(run, i - 1);
      assert Step(run[i - 1], run[i]);
      StepCloses(run[i - 1], run[i]);
    }
  }

  /** The other side has written n chunks of data and then the end of file, everything has been
      read from a live connection, and the reader still waits for more. */
  ghost predicate EofLost(s: Session, n: nat) {
    Drained(s) && DataCount(s.me.written) == n < |s.me.written|
  }

  lemma LostOnlyAsSync(s: Session, n: nat)
    requires LanesOk(s.me, s.you, s.out) && Lossless(s.me, s.out, s.dead) && Closes(s.me, s.you, s.out) && EofLost(s, n)
    ensures Wrap(n) == SYNCMSG && |s.me.written| == n + 1
  {
    var w := s.me.written;
    assert OnlySyncs(w, s.out[s.me.link.conn].next);
    assert Wrap(n) == SYNCMSG && (n + 1 < |w| ==> Wrap(n + 1) == SYNCMSG);
  }

  // ---------- A run that gets there ----------

  ghost predicate Path(p: seq<Session>) {
    p != [] && forall i :: 0 <= i < |p| - 1 ==> Step(p[i], p[i + 1])
  }

  lemma PathJoin(p: seq<Session>, q: seq<Session>)
    requires Path(p) && Path(q) && p[|p| - 1] == q[0]
    ensures Path(p + q[1..]) && (p + q[1..])[0] == p[0] && (p + q[1..])[|p + q[1..]| - 1] == q[|q| - 1]
  {
    var r := p + q[1..];
    forall i | 0 <= i < |r| - 1 ensures Step(r[i], r[i + 1]) {
      if i < |p| - 1 {
        assert Step(p[i], p[i + 1]);
      } else {
        assert Step(q[i - (|p| - 1)], q[i - (|p| - 1) + 1]);
      }
    }
  }

  function Swaps(p: seq<Session>): (r: seq<Session>)
    ensures |r| == |p| && forall i :: 0 <= i < |p| ==> r[i] == Swap(p[i])
  {
    seq(|p|, i requires 0 <= i < |p| => Swap(p[i]))
  }

  lemma PathSwap(p: seq<Session>)
    requires Path(p)
    ensures Path(Swaps(p))
  {
    var r := Swaps(p);
    forall i | 0 <= i < |r| - 1 ensures Step(r[i], r[i + 1]) {
      assert Step(p[i], p[i + 1]);
      assert Swap(r[i]) == p[i] && Swap(r[i + 1]) == p[i + 1];
    }
  }

  const ONE: Chunk := [0]

  function Chunks(n: nat): seq<Chunk> {
    seq(n, _ => ONE)
  }

  function Queue(freed: nat, n: nat): (q: seq<Buf>)
    requires freed <= n
    ensures |q| == n - freed
  {
    seq(n - freed, i requires 0 <= i < n - freed => Buf(Wrap(freed + i), ONE))
  }

  /** A client that has written so many chunks of one byte and delivered so many. */
  function Side(wrote: nat, got: nat, freed: nat): End
    requires freed <= wrote
  {
    End(Peer(Wrap(got), Wrap(wrote), Wrap(freed), Queue(freed, wrote)), Attached(1), Reading, true,
        Chunks(wrote), Chunks(got), Chunks(got), freed)
  }

  function Wire(next: nat, fs: seq<Flight>): Lanes {
    map[1 := Lane(0, 0, next, fs)]
  }

  function Talk(a: nat, b: nat, fa: nat, fb: nat): Session
    requires fa <= a && fb <= b
  {
    Session(Side(a, b, fa), Side(b, a, fb), Wire(a, []), Wire(b, []), {})
  }

  /** The next chunk is on its way. */
  function Sent(a: nat, b: nat, fa: nat, fb: nat): Session
    requires fa <= a && fb <= b
  {
    Talk(a, b, fa, fb).(me := Side(a + 1, b, fa), out := Wire(a, [Data(Pkt(1, Wrap(a), Wrap(b), ONE), a, b)]))
  }

  function Taken(a: nat, b: nat, fa: nat, fb: nat): Session
    requires fa <= a && fb <= b
  {
    Talk(a + 1, b, fa, fb).(you := Side(b, a + 1, fb).(reader := Releasing(b, Wrap(b), ONE), delivered := Chunks(a)))
  }

  function Freed(a: nat, b: nat, fa: nat): Session
    requires fa <= a
  {
    Talk(a + 1, b, fa, b).(you := Side(b, a + 1, b).(reader := Delivering(ONE), delivered := Chunks(a)))
  }

  lemma {:induction false} AllData(n: nat)
    ensures DataCount(Chunks(n)) == DataCount(Chunks(n) + [[]]) == n
  {
    if n > 0 {
      assert Chunks(n)[1..] == Chunks(n - 1) && (Chunks(n) + [[]])[1..] == Chunks(n - 1) + [[]];
      AllData(n - 1);
    }
  }

  lemma OneMore(freed: nat, n: nat)
    requires freed <= n
    ensures Chunks(n) + [ONE] == Chunks(n + 1) && Queue(freed, n) + [Buf(Wrap(n), ONE)] == Queue(freed, n + 1)
  {
  }

  lemma Sends(a: nat, b: nat, fa: nat, fb: nat)
    requires fa <= a <= fa + 1 && fb <= b
    ensures Write(Talk(a, b, fa, fb), Sent(a, b, fa, fb), ONE, true)
  {
    OneMore(fa, a);
    AllData(a + 1);
    WrapStep(a, 1);
    var s, t := Talk(a, b, fa, fb), Sent(a, b, fa, fb);
    assert Number(s.me.peer, ONE) == t.me.peer;
    assert [] + t.out[1].flights == t.out[1].flights;
    assert t.out == Push(s.out, 1, t.out[1].flights[0]);
  }

  lemma Takes(a: nat, b: nat, fa: nat, fb: nat)
    requires fa <= a && fb <= b
    ensures Receive(Swap(Sent(a, b, fa, fb)), Swap(Taken(a, b, fa, fb)))
  {
    OneMore(0, a);
    WrapStep(a, 1);
    var s, t := Sent(a, b, fa, fb), Taken(a, b, fa, fb);
    assert s.out[1].flights[1..] == [];
    assert t.out == s.out[1 := Lane(0, 0, a + 1, [])];
  }

  lemma ReleasesAll(inmsg: u32, f: nat, n: nat)
    requires f <= n <= f + 1
    ensures var p := Peer(inmsg, Wrap(n), Wrap(f), Queue(f, n));
            Released(p, Wrap(n)) == n - f && Release(p, n - f) == Peer(inmsg, Wrap(n), Wrap(n), Queue(n, n))
  {
    assert Queue(f, n)[n - f..] == Queue(n, n);
    if n == f + 1 {
      assert Wrap(Wrap(n) - Wrap(f)) == 1;
      WrapStep(f, 1);
    }
  }

  lemma Frees(a: nat, b: nat, fa: nat, fb: nat)
    requires fa <= a && fb <= b <= fb + 1
    ensures Free(Swap(Taken(a, b, fa, fb)), Swap(Freed(a, b, fa)))
  {
    ReleasesAll(Wrap(a + 1), fb, b);
  }

  lemma Delivers(a: nat, b: nat, fa: nat)
    requires fa <= a
    ensures Deliver(Swap(Freed(a, b, fa)), Swap(Talk(a + 1, b, fa, b)))
  {
    OneMore(0, a);
  }

  /** One chunk goes across and releases what was waiting at the other side. */
  lemma Pass(a: nat, b: nat, fa: nat, fb: nat) returns (p: seq<Session>)
    requires fa <= a <= fa + 1 && fb <= b <= fb + 1
    ensures Path(p) && p[0] == Talk(a, b, fa, fb) && p[|p| - 1] == Talk(a + 1, b, fa, b)
  {
    Sends(a, b, fa, fb);
    Takes(a, b, fa, fb);
    Frees(a, b, fa, fb);
    Delivers(a, b, fa);
    p := [Talk(a, b, fa, fb), Sent(a, b, fa, fb), Taken(a, b, fa, fb), Freed(a, b, fa), Talk(a + 1, b, fa, b)];
  }

  /** After n chunks each way. */
  lemma {:induction false} Talks(n: nat) returns (p: seq<Session>)
    ensures Path(p) && p[0] == Talk(0, 0, 0, 0) && p[|p| - 1] == Talk(n, n, n, if n == 0 then 0 else n - 1)
  {
    if n == 0 {
      p := [Talk(0, 0, 0, 0)];
    } else {
      var k := n - 1;
      p := Talks(k);
      var q := Pass(k, k, k, if k == 0 then 0 else k - 1);
      PathJoin(p, q);
      p := p + q[1..];
      q := Pass(k, n, k, k);
      PathSwap(q);
      assert Swaps(q)[0] == Talk(n, k, k, k);
      PathJoin(p, Swaps(q));
      p := p + Swaps(q)[1..];
    }
  }

  /** The connection is made. */
  lemma Begins() returns (p: seq<Session>)
    ensures Path(p) && Init(p[0]) && p[|p| - 1] == Talk(0, 0, 0, 0)
  {
    var s := Session(START, START, map[], map[], {});
    var m := s.(me := START.(link := Attached(1)), out := Wire(0, []));
    var t := Talk(0, 0, 0, 0);
    assert Chunks(0) == [] && Queue(0, 0) == [];
    assert Redial(s, m, 1, 0);
    assert Redial(Swap(m), Swap(t), 1, 0);
    p := [s, m, t];
  }

  /** The end of file is written. */
  function Ended(n: nat, f: nat): Session
    requires f <= n
  {
    var s := Talk(n, n, n, f);
    s.(me := s.me.(peer := Number(s.me.peer, []), written := Chunks(n) + [[]], pipeOpen := false),
       out := Wire(n, [Data(Pkt(0, Wrap(n), Wrap(n), []), n, n)]))
  }

  lemma Ends(n: nat, f: nat)
    requires f <= n
    ensures Write(Talk(n, n, n, f), Ended(n, f), [], true) && DataCount(Chunks(n) + [[]]) == n
  {
    AllData(n);
    var w := Chunks(n) + [[]];
    var fs := Ended(n, f).out[1].flights;
    assert [] + fs == fs;
    assert Ended(n, f).out == Push(Wire(n, []), 1, fs[0]);
  }

  /** It is read, but for a sync message. */
  function PassedOver(n: nat, f: nat): Session
    requires f <= n
  {
    Ended(n, f).(out := Wire(n + 1, []))
  }

  lemma Misses(n: nat, f: nat)
    requires f <= n && Wrap(n) == SYNCMSG
    ensures Receive(Swap(Ended(n, f)), Swap(PassedOver(n, f)))
  {
    var s := Ended(n, f);
    assert s.out[1].flights[1..] == [];
    assert PassedOver(n, f).out == s.out[1 := Lane(0, 0, n + 1, [])];
  }

  lemma LosesEof(n: nat) returns (run: seq<Session>)
    requires Wrap(n) == SYNCMSG
    ensures Run(run) && EofLost(run[|run| - 1], n)
  {
    var f := n - 1;
    run := Begins();
    var p := Talks(n);
    PathJoin(run, p);
    run := run + p[1..];
    Ends(n, f);
    Misses(n, f);
    p := [Talk(n, n, n, f), Ended(n, f), PassedOver(n, f)];
    PathJoin(run, p);
    run := run + p[1..];
  }

  ghost predicate Loses(run: seq<Session>, i: nat, n: nat) {
    Run(run) && i < |run| && EofLost(run[i], n)
  }

  /** An end of file behind n chunks can be lost exactly when its number is that of the sync messages. */
  lemma LostIff(n: nat)
    ensures (exists run, i :: Loses(run, i, n)) <==> n % TWO32 == TWO32 - 1
  {
    if run, i :| Loses(run, i, n) {
      RunKeeps(run, i);
      RunCloses(run, i);
      LostOnlyAsSync(run[i], n);
    }
    if n % TWO32 == TWO32 - 1 {
      var run := LosesEof(n);
      assert Loses(run, |run| - 1, n);
    }
  }
}
