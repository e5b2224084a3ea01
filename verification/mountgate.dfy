/**
 The gate of kern/devmnt.c: at most one caller of mountio reads, and the others sleep until they
 are done or there is no reader.  The machine of DevmntRuns with the places where a caller that waits can be,
 and with the list of unanswered requests that a leaving reader goes through for somebody to wake.
 */
module MountGate {
  import opened Words
  import opened Devmnt
  import opened DevmntRuns

  /** Where a caller is that has transmitted its request. */
  datatype Spot =
    | Looking  // about to take the lock and to look for a reader
    | Seen     // has seen one and is about to sleep
    | Asleep
    | Woken    // about to return from sleep

  /** Somebody is in mntgate, with the lock; left are the requests yet to be looked at. */
  datatype Opening = Opening(who: Pid, left: seq<Uid>)

  datatype Gate = Gate(mux: Mux, spot: map<Pid, Spot>, opener: Option<Opening>)

  function SpotOf(g: Gate, p: Pid): Spot {
    if p in g.spot then g.spot[p] else Looking
  }

  /** The process p sleeps for a request or for a flush of it. */
  ghost predicate Sleeps(g: Gate, p: Pid, u: Uid) {
    SpotOf(g, p) == Asleep && p in g.mux.calls && Holds(g.mux.calls[p], u)
  }

  /** wakeup, on the Rendez of whoever has the request. */
  ghost function Wake(g: Gate, u: Uid): map<Pid, Spot> {
    map p | p in g.spot :: if Sleeps(g, p, u) then Woken else g.spot[p]
  }

  ghost predicate Init(g: Gate) {
    DevmntRuns.Init(g.mux) && g.spot == map[] && g.opener == None
  }

  // ---------- The steps ----------

  /** Steps of a caller away from the gate, with and without the lock. */
  ghost predicate CallerSteps(m: Mux, n: Mux, p: Pid, locked: bool) {
    || (exists u, tag :: StartCall(m, n, p, u, tag))
    || Transmit(m, n, p)
    || (exists u, tag :: StartFlush(m, n, p, u, tag))
    || FinishCall(m, n, p)
    || (!locked && (Enqueue(m, n, p) || Unwind(m, n, p)))
  }

  ghost predicate Away(g: Gate, h: Gate, p: Pid) {
    && (g.opener.Some? ==> g.opener.value.who != p)
    && CallerSteps(g.mux, h.mux, p, g.opener.Some?) && h == g.(mux := h.mux)
  }

  ghost predicate ServerSteps(m: Mux, n: Mux) {
    ServerTakes(m, n) || (exists i :: ServerAnswers(m, n, i)) || (exists i :: ServerAnswersFlush(m, n, i))
  }

  ghost predicate Serves(g: Gate, h: Gate) {
    ServerSteps(g.mux, h.mux) && h == g.(mux := h.mux)
  }

  /** At the gate: there is no reader. */
  ghost predicate TakesOver(g: Gate, h: Gate, p: Pid) {
    g.opener == None && SpotOf(g, p) == Looking && BecomeReader(g.mux, h.mux, p) && h == g.(mux := h.mux)
  }

  /** There is one. */
  ghost predicate LooksOn(g: Gate, h: Gate, p: Pid) {
    && g.opener == None && At(g.mux, p, Waiting) && SpotOf(g, p) == Looking && g.mux.rip.Some?
    && h == g.(spot := g.spot[p := Seen])
  }

  ghost predicate IsDone(m: Mux, p: Pid) {
    p in m.calls && m.calls[p].In? && m.calls[p].chain != [] && Top(m.calls[p]) in m.rpc && m.rpc[Top(m.calls[p])].done
  }

  /** sleep with rpcattn: not when done, and not when the reader has gone by now. */
  ghost predicate LiesDown(g: Gate, h: Gate, p: Pid) {
    && SpotOf(g, p) == Seen
    && h == g.(spot := g.spot[p := if IsDone(g.mux, p) || g.mux.rip == None then Woken else Asleep])
  }

  /** Back from sleep: done, or to the gate again. */
  ghost predicate GetsUp(g: Gate, h: Gate, p: Pid) {
    && SpotOf(g, p) == Woken && h == g.(mux := h.mux, spot := g.spot[p := Looking])
    && if IsDone(g.mux, p) then WokenDone(g.mux, h.mux, p) else h.mux == g.mux
  }

  /** The reader takes a message and wakes the one whose answer it is. */
  ghost predicate Reads(g: Gate, h: Gate, p: Pid) {
    && g.opener == None && ReadReply(g.mux, h.mux, p)
    && var q := g.mux.queue;
    && var i := Lookup(q, g.mux.rpc, g.mux.inn[0].tag);
    && h == g.(mux := h.mux, spot := if i < |q| && q[i] != Top(g.mux.calls[p]) then Wake(g, q[i]) else g.spot)
  }

  /** The reader goes, because it is done or interrupted, and starts with mntgate. */
  ghost predicate Opens(g: Gate, h: Gate, p: Pid) {
    && g.opener == None && At(g.mux, p, Reading)
    && (StopReading(g.mux, h.mux, p) || Interrupt(g.mux, h.mux, p))
    && h == g.(mux := h.mux, opener := Some(Opening(p, h.mux.queue)))
  }

  /** One turn of the loop of mntgate. */
  ghost predicate Scans(g: Gate, h: Gate) {
    && g.opener.Some?
    && var left := g.opener.value.left;
    && if left == [] then h == g.(opener := None)
       else if left[0] in g.mux.rpc && !g.mux.rpc[left[0]].done && exists p :: Sleeps(g, p, left[0])
       then h == g.(spot := Wake(g, left[0]), opener := None)
       else h == g.(opener := Some(g.opener.value.(left := left[1..])))
  }

  /** Somebody else is interrupted: while transmitting, or in sleep. */
  ghost predicate Disturbed(g: Gate, h: Gate, p: Pid) {
    && !At(g.mux, p, Reading) && (At(g.mux, p, Waiting) ==> SpotOf(g, p) != Looking) && Interrupt(g.mux, h.mux, p)
    && h == g.(mux := h.mux, spot := g.spot[p := Looking])
  }

  /** Its request cannot be transmitted, and not because of an interrupt. */
  ghost predicate Fails(g: Gate, h: Gate, p: Pid) {
    At(g.mux, p, Queued) && h == g.(mux := Go(g.mux, p, Unwinding))
  }

  ghost predicate ByCaller(g: Gate, h: Gate, p: Pid, faulty: bool) {
    || Away(g, h, p) || TakesOver(g, h, p) || LooksOn(g, h, p) || LiesDown(g, h, p) || GetsUp(g, h, p)
    || Reads(g, h, p) || Opens(g, h, p) || Disturbed(g, h, p) || (faulty && Fails(g, h, p))
  }

  ghost predicate Step(g: Gate, h: Gate, faulty: bool) {
    Serves(g, h) || Scans(g, h) || exists p :: ByCaller(g, h, p, faulty)
  }

  ghost predicate StepAt(run: seq<Gate>, i: nat, faulty: bool)
    requires i + 1 < |run|
  {
    Step(run[i], run[i + 1], faulty)
  }

  ghost predicate Run(run: seq<Gate>, faulty: bool) {
    run != [] && Init(run[0]) && forall i :: 0 <= i < |run| - 1 ==> StepAt(run, i, faulty)
  }

  // ---------- Who keeps things going ----------

  /** A caller that is on its way to the gate, and will not turn back before it gets there. */
  ghost predicate OnItsWay(g: Gate, p: Pid) {
    && p in g.mux.calls && g.mux.calls[p].In?
    && match g.mux.calls[p].stage
       case Alloced => true
       case Queued => true
       case Interrupted => true
       case Waiting => SpotOf(g, p) == Looking || (SpotOf(g, p) != Asleep && !IsDone(g.mux, p))
       case _ => false
  }

  /** Somebody sleeps, nobody reads or looks for somebody to wake, and nobody is going to. */
  ghost predicate Stranded(g: Gate) {
    && (exists p :: SpotOf(g, p) == Asleep) && g.mux.rip == None && g.opener == None
    && forall p :: !OnItsWay(g, p)
  }

  ghost predicate SpotOk(g: Gate, p: Pid) {
    && (SpotOf(g, p) != Looking ==> At(g.mux, p, Waiting))
    && (SpotOf(g, p) == Asleep ==> !IsDone(g.mux, p))
  }

  /** What waits and is not done is in the list. */
  ghost predicate WaitOk(m: Mux, p: Pid) {
    At(m, p, Waiting) && !IsDone(m, p) ==> Top(m.calls[p]) in m.queue
  }

  ghost predicate Moving(g: Gate) {
    exists p :: OnItsWay(g, p)
  }

  /** While there is no reader, somebody is on the way or about to be woken. */
  ghost predicate GateOk(g: Gate) {
    && (g.opener.Some? ==> g.mux.rip == None)
    && (g.mux.rip == None && !Moving(g) ==>
          forall p :: SpotOf(g, p) == Asleep ==> g.opener.Some? && At(g.mux, p, Waiting) && Top(g.mux.calls[p]) in g.opener.value.left)
  }

  ghost predicate GateInv(g: Gate) {
    Inv(g.mux) && (forall p :: SpotOk(g, p)) && (forall p :: WaitOk(g.mux, p)) && GateOk(g)
  }

  // ---------- What a step leaves as it was ----------

  /** The call of q is as far as it was. */
  ghost predicate Same(m: Mux, n: Mux, q: Pid) {
    && (q in m.calls <==> q in n.calls) && (q in m.calls ==> n.calls[q] == m.calls[q])
    && (q in m.calls && m.calls[q].In? && m.calls[q].chain != [] ==>
          && (IsDone(m, q) <==> IsDone(n, q))
          && (Top(m.calls[q]) in m.queue ==> Top(m.calls[q]) in n.queue))
  }

  lemma TopHeld(m: Mux, p: Pid)
    requires CallsOk(m) && p in m.calls && m.calls[p].In?
    ensures m.calls[p].chain != [] && Top(m.calls[p]) in m.rpc && Holds(m.calls[p], Top(m.calls[p]))
  {
    assert ChainOk(m, m.calls[p]);
  }

  lemma OneHolder(m: Mux, p: Pid, q: Pid, u: Uid)
    requires CallsOk(m) && p in m.calls && q in m.calls && Holds(m.calls[p], u) && Holds(m.calls[q], u)
    ensures p == q
  {
  }

  lemma NotBoth(m: Mux, p: Pid, q: Pid, u: Uid)
    requires CallsOk(m) && p in m.calls && q in m.calls && p != q && Holds(m.calls[p], u)
    ensures !Holds(m.calls[q], u)
  {
    if Holds(m.calls[q], u) { OneHolder(m, p, q, u); }
  }

  lemma TopsDiffer(m: Mux, p: Pid, q: Pid)
    requires CallsOk(m) && p in m.calls && q in m.calls && m.calls[p].In? && m.calls[q].In? && p != q
    ensures m.calls[p].chain != [] && m.calls[q].chain != [] && Top(m.calls[p]) != Top(m.calls[q])
    ensures Top(m.calls[p]) in m.rpc && Top(m.calls[q]) in m.rpc
  {
    TopHeld(m, p);
    TopHeld(m, q);
    NotBoth(m, p, q, Top(m.calls[p]));
  }

  lemma SameNew(m: Mux, n: Mux, p: Pid, q: Pid, u: Uid, tag: nat)
    requires TagsOk(m) && CallsOk(m) && q != p && (StartCall(m, n, p, u, tag) || StartFlush(m, n, p, u, tag))
    ensures Same(m, n, q)
  {
    if q in m.calls && m.calls[q].In? { TopHeld(m, q); }
  }

  lemma SameGone(m: Mux, n: Mux, p: Pid, q: Pid)
    requires QueueOk(m) && CallsOk(m) && q != p && (Unwind(m, n, p) || FinishCall(m, n, p))
    ensures Same(m, n, q)
  {
    if q in m.calls && m.calls[q].In? {
      TopsDiffer(m, p, q);
      UnqueueOk(m.queue, Top(m.calls[p]));
    }
  }

  lemma OthersSame(m: Mux, n: Mux, p: Pid, locked: bool, q: Pid)
    requires Inv(m) && CallerSteps(m, n, p, locked) && q != p
    ensures Same(m, n, q)
  {
    if Unwind(m, n, p) || FinishCall(m, n, p) {
      SameGone(m, n, p, q);
    } else if u, tag :| StartCall(m, n, p, u, tag) || StartFlush(m, n, p, u, tag) {
      SameNew(m, n, p, q, u, tag);
    }
  }

  /** Only the stage of p changes. */
  lemma OthersGo(m: Mux, n: Mux, p: Pid, stage: Stage, q: Pid)
    requires p in m.calls && m.calls[p].In? && n == Go(m, p, stage).(rip := n.rip) && q != p
    ensures Same(m, n, q)
  {
  }

  /** A caller that is as far as it was, at the same place, is as well placed. */
  lemma SameKeeps(g: Gate, h: Gate, q: Pid)
    requires SpotOk(g, q) && WaitOk(g.mux, q) && Same(g.mux, h.mux, q) && SpotOf(h, q) == SpotOf(g, q)
    requires Inv(g.mux)
    ensures SpotOk(h, q) && WaitOk(h.mux, q) && (OnItsWay(g, q) <==> OnItsWay(h, q))
  {
    if q in g.mux.calls && g.mux.calls[q].In? { TopHeld(g.mux, q); }
  }

  /** Who was on the way still is, and who sleeps has slept before. */
  ghost predicate Quiet(g: Gate, h: Gate, q: Pid) {
    && (OnItsWay(g, q) ==> OnItsWay(h, q))
    && (SpotOf(h, q) == Asleep ==> SpotOf(g, q) == Asleep && (At(g.mux, q, Waiting) ==> At(h.mux, q, Waiting) && h.mux.calls[q] == g.mux.calls[q]))
  }

  lemma QuietKeeps(g: Gate, h: Gate)
    requires GateOk(g) && h.mux.rip == g.mux.rip && h.opener == g.opener && forall q :: Quiet(g, h, q)
    ensures GateOk(h)
  {
    if q :| OnItsWay(g, q) { assert Quiet(g, h, q); }
    forall q | h.mux.rip == None && !Moving(h) && SpotOf(h, q) == Asleep
      ensures h.opener.Some? && At(h.mux, q, Waiting) && Top(h.mux.calls[q]) in h.opener.value.left
    {
      assert Quiet(g, h, q);
    }
  }

  // ---------- Every step keeps the invariant ----------

  ghost predicate ToGate(m: Mux, p: Pid) {
    p in m.calls && m.calls[p].In? && (m.calls[p].stage == Alloced || m.calls[p].stage == Queued || m.calls[p].stage == Interrupted)
  }

  lemma CallerMoves(m: Mux, n: Mux, p: Pid, locked: bool)
    requires CallerSteps(m, n, p, locked)
    ensures !At(m, p, Waiting) && n.rip == m.rip
    ensures At(n, p, Waiting) ==> At(m, p, Queued) && Top(n.calls[p]) == Top(m.calls[p]) && n.queue == m.queue
    ensures ToGate(m, p) ==> ToGate(n, p) || At(n, p, Waiting)
  {
  }

  /** Away from the gate. */
  lemma AwayOne(g: Gate, h: Gate, p: Pid)
    requires CallsOk(g.mux) && SpotOk(g, p) && Away(g, h, p)
    ensures SpotOf(g, p) == Looking && SpotOk(h, p) && WaitOk(h.mux, p) && Quiet(g, h, p) && h.mux.rip == g.mux.rip
  {
    CallerMoves(g.mux, h.mux, p, g.opener.Some?);
    if At(h.mux, p, Waiting) { assert ChainOk(g.mux, g.mux.calls[p]); }
    if p in g.mux.calls && g.mux.calls[p].In? { TopHeld(g.mux, p); }
  }

  lemma AwayKeeps(g: Gate, h: Gate, p: Pid)
    requires GateInv(g) && Away(g, h, p)
    ensures (forall q :: SpotOk(h, q)) && (forall q :: WaitOk(h.mux, q)) && GateOk(h)
  {
    AwayOne(g, h, p);
    forall q
      ensures SpotOk(h, q) && WaitOk(h.mux, q) && Quiet(g, h, q)
    {
      if q != p {
        OthersSame(g.mux, h.mux, p, g.opener.Some?, q);
        SameKeeps(g, h, q);
      }
    }
    QuietKeeps(g, h);
  }

  ghost predicate Placed(g: Gate) {
    (forall p :: SpotOk(g, p)) && (forall p :: WaitOk(g.mux, p)) && GateOk(g)
  }

  /** Steps at the gate that change the stage of p. */
  lemma GoKeeps(g: Gate, h: Gate, p: Pid, stage: Stage)
    requires GateInv(g) && p in g.mux.calls && g.mux.calls[p].In? && h.mux == Go(g.mux, p, stage).(rip := h.mux.rip)
    requires stage != Waiting && SpotOf(h, p) == Looking && forall q :: q != p ==> SpotOf(h, q) == SpotOf(g, q)
    ensures (forall q :: SpotOk(h, q)) && (forall q :: WaitOk(h.mux, q)) && forall q :: q != p ==> Quiet(g, h, q)
  {
    forall q
      ensures SpotOk(h, q) && WaitOk(h.mux, q) && (q != p ==> Quiet(g, h, q))
    {
      if q != p {
        OthersGo(g.mux, h.mux, p, stage, q);
        SameKeeps(g, h, q);
      }
    }
  }

  lemma TakesOverKeeps(g: Gate, h: Gate, p: Pid)
    requires GateInv(g) && TakesOver(g, h, p)
    ensures Placed(h)
  {
    GoKeeps(g, h, p, Reading);
  }

  lemma DisturbedKeeps(g: Gate, h: Gate, p: Pid)
    requires GateInv(g) && Disturbed(g, h, p)
    ensures Placed(h)
  {
    GoKeeps(g, h, p, Interrupted);
    assert OnItsWay(h, p);
  }

  /** Whoever sleeps when the reader goes is in the list that it goes through. */
  lemma OpensKeeps(g: Gate, h: Gate, p: Pid)
    requires GateInv(g) && Opens(g, h, p)
    ensures Placed(h)
  {
    assert SpotOk(g, p);
    GoKeeps(g, h, p, if StopReading(g.mux, h.mux, p) then Unwinding else Interrupted);
    forall q | SpotOf(h, q) == Asleep
      ensures At(h.mux, q, Waiting) && Top(h.mux.calls[q]) in h.opener.value.left
    {
      assert SpotOk(h, q) && WaitOk(h.mux, q);
    }
  }

  lemma GetsUpKeeps(g: Gate, h: Gate, p: Pid)
    requires GateInv(g) && GetsUp(g, h, p)
    ensures Placed(h)
  {
    assert SpotOk(g, p);
    if IsDone(g.mux, p) {
      GoKeeps(g, h, p, Unwinding);
      assert Quiet(g, h, p);
      QuietKeeps(g, h);
    } else {
      assert OnItsWay(h, p);
      forall q ensures SpotOk(h, q) && WaitOk(h.mux, q) {
        assert SpotOk(g, q) && WaitOk(g.mux, q);
      }
    }
  }

  /** A caller at the gate goes to another place there. */
  lemma SpotKeeps(g: Gate, h: Gate, p: Pid, spot: Spot)
    requires GateInv(g) && At(g.mux, p, Waiting) && h == g.(spot := g.spot[p := spot])
    requires spot == Asleep ==> !IsDone(g.mux, p) && g.mux.rip.Some?
    requires OnItsWay(g, p) ==> OnItsWay(h, p) || g.mux.rip.Some?
    ensures Placed(h)
  {
    forall q ensures SpotOk(h, q) && WaitOk(h.mux, q) {
      assert SpotOk(g, q) && WaitOk(g.mux, q);
    }
    if g.mux.rip == None {
      assert forall q :: Quiet(g, h, q);
      QuietKeeps(g, h);
    }
  }

  lemma LooksOnKeeps(g: Gate, h: Gate, p: Pid)
    requires GateInv(g) && (LooksOn(g, h, p) || LiesDown(g, h, p))
    ensures Placed(h)
  {
    assert SpotOk(g, p);
    SpotKeeps(g, h, p, SpotOf(h, p));
  }

  // ---------- An answer ----------

  /** The request that the next message is for. */
  ghost function Answered(m: Mux): Option<Uid>
    requires m.inn != [] && forall u <- m.queue :: u in m.rpc
  {
    var i := Lookup(m.queue, m.rpc, m.inn[0].tag);
    if i < |m.queue| then Some(m.queue[i]) else None
  }

  lemma StaysIn(queue: seq<Uid>, i: nat, v: Uid)
    requires i < |queue| && v in queue && v != queue[i]
    ensures v in Remove(queue, i)
  {
    assert queue == queue[..i] + [queue[i]] + queue[i + 1..];
  }

  lemma ReadMoves(m: Mux, n: Mux, p: Pid, q: Pid)
    requires ReadReply(m, n, p) && q in m.calls && m.calls[q].In? && m.calls[q].chain != [] && Top(m.calls[q]) in m.rpc
    ensures n.calls == m.calls
    ensures var v := Top(m.calls[q]); IsDone(n, q) <==> IsDone(m, q) || Answered(m) == Some(v)
    ensures var v := Top(m.calls[q]); v in m.queue && Answered(m) != Some(v) ==> v in n.queue
  {
    var i, v := Lookup(m.queue, m.rpc, m.inn[0].tag), Top(m.calls[q]);
    if i < |m.queue| && v in m.queue && v != m.queue[i] { StaysIn(m.queue, i, v); }
  }

  /** Whoever sleeps has not got the answer: its owner is awake now. */
  lemma OwnerAwake(g: Gate, h: Gate, p: Pid, q: Pid)
    requires CallsOk(g.mux) && Reads(g, h, p) && SpotOk(g, q) && SpotOf(h, q) == Asleep
    ensures SpotOf(g, q) == Asleep && Answered(g.mux) != Some(Top(g.mux.calls[q]))
  {
    TopHeld(g.mux, p);
    TopHeld(g.mux, q);
    NotBoth(g.mux, p, q, Top(g.mux.calls[p]));
  }

  lemma ReadsOne(g: Gate, h: Gate, p: Pid, q: Pid)
    requires CallsOk(g.mux) && Reads(g, h, p) && SpotOk(g, q) && WaitOk(g.mux, q)
    ensures SpotOk(h, q) && WaitOk(h.mux, q)
  {
    if q in g.mux.calls && g.mux.calls[q].In? {
      TopHeld(g.mux, q);
      ReadMoves(g.mux, h.mux, p, q);
      if SpotOf(h, q) == Asleep { OwnerAwake(g, h, p, q); }
    }
  }

  lemma ReadsKeeps(g: Gate, h: Gate, p: Pid)
    requires GateInv(g) && Reads(g, h, p)
    ensures Placed(h)
  {
    forall q ensures SpotOk(h, q) && WaitOk(h.mux, q) {
      ReadsOne(g, h, p, q);
    }
  }

  // ---------- The list is gone through ----------

  lemma WakesOne(g: Gate, h: Gate, u: Uid, p: Pid)
    requires GateInv(g) && Sleeps(g, p, u) && h == g.(spot := Wake(g, u), opener := None)
    ensures Placed(h)
  {
    assert SpotOk(g, p);
    assert OnItsWay(h, p);
    forall q ensures SpotOk(h, q) && WaitOk(h.mux, q) {
      assert SpotOk(g, q) && WaitOk(g.mux, q);
    }
  }

  /** The first in the list is nobody's to wake. */
  lemma PassesOver(g: Gate, h: Gate)
    requires GateInv(g) && Scans(g, h) && h.spot == g.spot && g.opener.value.left != []
    ensures Placed(h)
  {
    var left := g.opener.value.left;
    forall q | g.mux.rip == None && !Moving(h) && SpotOf(h, q) == Asleep
      ensures At(h.mux, q, Waiting) && Top(h.mux.calls[q]) in left[1..]
    {
      if r :| OnItsWay(g, r) { assert OnItsWay(h, r); }
      assert SpotOk(g, q) && Top(g.mux.calls[q]) in left;
      TopHeld(g.mux, q);
      assert Sleeps(g, q, Top(g.mux.calls[q]));
      assert left == [left[0]] + left[1..];
    }
    forall q ensures SpotOk(h, q) && WaitOk(h.mux, q) {
      assert SpotOk(g, q) && WaitOk(g.mux, q);
    }
  }

  lemma ScansKeeps(g: Gate, h: Gate)
    requires GateInv(g) && Scans(g, h)
    ensures Placed(h)
  {
    var left := g.opener.value.left;
    if left != [] && left[0] in g.mux.rpc && !g.mux.rpc[left[0]].done && exists p :: Sleeps(g, p, left[0]) {
      var p :| Sleeps(g, p, left[0]);
      WakesOne(g, h, left[0], p);
    } else if left != [] {
      PassesOver(g, h);
    } else {
      Closes(g, h);
    }
  }

  /** The end of the list: nobody sleeps, or somebody is on the way. */
  lemma Closes(g: Gate, h: Gate)
    requires GateInv(g) && g.opener.Some? && g.opener.value.left == [] && h == g.(opener := None)
    ensures Placed(h)
  {
    if r :| OnItsWay(g, r) { assert OnItsWay(h, r); }
    forall q
      ensures SpotOk(h, q) && WaitOk(h.mux, q) && (g.mux.rip == None && !Moving(h) ==> SpotOf(h, q) != Asleep)
    {
      assert SpotOk(g, q) && WaitOk(g.mux, q) && SpotOf(h, q) == SpotOf(g, q);
    }
  }

  lemma ServesKeeps(g: Gate, h: Gate)
    requires GateInv(g) && Serves(g, h)
    ensures Placed(h)
  {
    assert h.mux.calls == g.mux.calls && h.mux.rpc == g.mux.rpc && h.mux.queue == g.mux.queue && h.mux.rip == g.mux.rip;
    forall q
      ensures SpotOk(h, q) && WaitOk(h.mux, q) && Quiet(g, h, q)
    {
      assert Same(g.mux, h.mux, q);
      SameKeeps(g, h, q);
    }
    QuietKeeps(g, h);
  }

  // ---------- Every run ----------

  /** Every step is one of the callers and the server, or leaves them alone. */
  lemma Refines(g: Gate, h: Gate)
    requires Step(g, h, false)
    ensures h.mux == g.mux || DevmntRuns.Step(g.mux, h.mux)
  {
    if p :| ByCaller(g, h, p, false) {
      CallerRefines(g, h, p);
    }
  }

  lemma CallerRefines(g: Gate, h: Gate, p: Pid)
    requires ByCaller(g, h, p, false)
    ensures h.mux == g.mux || DevmntRuns.Step(g.mux, h.mux)
  {
    if Away(g, h, p) { AwayRefines(g.mux, h.mux, p, g.opener.Some?); }
  }

  lemma AwayRefines(m: Mux, n: Mux, p: Pid, locked: bool)
    requires CallerSteps(m, n, p, locked)
    ensures DevmntRuns.Step(m, n)
  {
    if u, tag :| StartCall(m, n, p, u, tag) {
    } else if u, tag :| StartFlush(m, n, p, u, tag) {
    }
  }

  lemma CallerKeeps(g: Gate, h: Gate, p: Pid)
    requires GateInv(g) && ByCaller(g, h, p, false)
    ensures Placed(h)
  {
    if Away(g, h, p) {
      AwayKeeps(g, h, p);
    } else if TakesOver(g, h, p) {
      TakesOverKeeps(g, h, p);
    } else if LooksOn(g, h, p) || LiesDown(g, h, p) {
      LooksOnKeeps(g, h, p);
    } else if GetsUp(g, h, p) {
      GetsUpKeeps(g, h, p);
    } else if Reads(g, h, p) {
      ReadsKeeps(g, h, p);
    } else if Opens(g, h, p) {
      OpensKeeps(g, h, p);
    } else {
      DisturbedKeeps(g, h, p);
    }
  }

  lemma StepKeeps(g: Gate, h: Gate)
    requires GateInv(g) && Step(g, h, false)
    ensures GateInv(h)
  {
    Refines(g, h);
    if h.mux != g.mux { DevmntRuns.StepKeeps(g.mux, h.mux); }
    if Serves(g, h) {
      ServesKeeps(g, h);
    } else if Scans(g, h) {
      ScansKeeps(g, h);
    } else {
      var p :| ByCaller(g, h, p, false);
      CallerKeeps(g, h, p);
    }
  }

  lemma {:induction false} RunKeeps(run: seq<Gate>, i: nat)
    requires Run(run, false) && i < |run|
    ensures GateInv(run[i])
  {
    if i > 0 {
      RunKeeps(run, i - 1);
      assert StepAt(run, i - 1, false);
      StepKeeps(run[i - 1], run[i]);
    } else {
      StartOk(run[0]);
    }
  }

  lemma StartOk(g: Gate)
    requires Init(g)
    ensures GateInv(g)
  {
    DevmntRuns.RunKeeps([g.mux], 0);
  }

  /** Without faults nobody is ever left asleep. */
  lemma NeverStranded(run: seq<Gate>, i: nat)
    requires Run(run, false) && i < |run|
    ensures !Stranded(run[i])
  {
    RunKeeps(run, i);
  }

  // ---------- Whoever is on the way can go on ----------

  /** How many steps of its own p is from reading. */
  function Distance(g: Gate, p: Pid): nat
    requires p in g.mux.calls && g.mux.calls[p].In?
  {
    match g.mux.calls[p].stage
    case Interrupted => 6
    case Alloced => 5
    case Queued => 4
    case Waiting => if SpotOf(g, p) == Seen then 3 else if SpotOf(g, p) == Woken then 2 else 1
    case _ => 0
  }

  lemma {:induction false} Unused(used: set<Uid>) returns (u: Uid)
    ensures u !in used && forall v <- used :: v < u
    decreases |used|
  {
    u := 0;
    if used != {} {
      var v :| v in used;
      var w := Unused(used - {v});
      u := if v < w then w else v + 1;
      assert forall x <- used :: x == v || x in used - {v};
    }
  }

  ghost predicate Nearer(g: Gate, h: Gate, p: Pid) {
    ByCaller(g, h, p, false) && p in g.mux.calls && g.mux.calls[p].In? && p in h.mux.calls && h.mux.calls[p].In?
    && Distance(h, p) < Distance(g, p) && (OnItsWay(h, p) || h.mux.rip == Some(p))
  }

  /** A caller on its way needs nobody else: each of its steps takes it nearer to reading, with
      nobody reading.  Only a flush has to find a tag that is not in use. */
  lemma CanGoOn(g: Gate, p: Pid)
    requires GateInv(g) && OnItsWay(g, p) && g.mux.rip == None && g.opener == None
    requires exists tag :: TagFree(g.mux, tag)
    ensures exists h :: Nearer(g, h, p)
  {
    TopHeld(g.mux, p);
    assert SpotOk(g, p);
    match g.mux.calls[p].stage {
      case Interrupted => FlushGoes(g, p);
      case Alloced => NewGoes(g, p);
      case Queued => SendGoes(g, p);
      case _ => WaitGoes(g, p);
    }
  }

  lemma FlushGoes(g: Gate, p: Pid)
    requires At(g.mux, p, Interrupted) && Top(g.mux.calls[p]) in g.mux.rpc && g.opener == None
    requires exists tag :: TagFree(g.mux, tag)
    ensures exists h :: Nearer(g, h, p)
  {
    var m, c := g.mux, g.mux.calls[p].chain;
    var tag :| TagFree(m, tag);
    var u := Unused(m.used);
    var f := m.rpc[Top(m.calls[p])];
    var n := m.(rpc := m.rpc[u := Rpc(tag, true, if f.flush then f.oldtag else f.tag, set v | v in c, false, Nothing)],
                used := m.used + {u}, calls := m.calls[p := In(Alloced, c + [u])]);
    assert StartFlush(m, n, p, u, tag);
    assert Nearer(g, g.(mux := n), p);
  }

  lemma NewGoes(g: Gate, p: Pid)
    requires At(g.mux, p, Alloced) && g.opener == None
    ensures exists h :: Nearer(g, h, p)
  {
    var m := g.mux;
    var n := Go(m, p, Queued).(queue := [Top(m.calls[p])] + m.queue);
    assert Enqueue(m, n, p);
    assert Nearer(g, g.(mux := n), p);
  }

  lemma SendGoes(g: Gate, p: Pid)
    requires SpotOk(g, p) && At(g.mux, p, Queued) && Top(g.mux.calls[p]) in g.mux.rpc && g.opener == None
    ensures exists h :: Nearer(g, h, p)
  {
    var m, u := g.mux, Top(g.mux.calls[p]);
    var n := Go(m, p, Waiting).(out := m.out + [Msg(u, m.rpc[u].tag, m.rpc[u].flush, m.rpc[u].oldtag)]);
    assert Transmit(m, n, p);
    assert Nearer(g, g.(mux := n), p);
  }

  lemma WaitGoes(g: Gate, p: Pid)
    requires OnItsWay(g, p) && At(g.mux, p, Waiting) && g.mux.rip == None && g.opener == None
    ensures exists h :: Nearer(g, h, p)
  {
    if SpotOf(g, p) == Looking {
      assert Nearer(g, g.(mux := Go(g.mux, p, Reading).(rip := Some(p))), p);
    } else if SpotOf(g, p) == Seen {
      assert Nearer(g, g.(spot := g.spot[p := Woken]), p);
    } else {
      assert Nearer(g, g.(spot := g.spot[p := Looking]), p);
    }
  }

  // ---------- A run that leaves somebody asleep ----------

  lemma Longer(run: seq<Gate>, h: Gate, faulty: bool)
    requires Run(run, faulty) && Step(run[|run| - 1], h, faulty)
    ensures Run(run + [h], faulty)
  {
    var more := run + [h];
    forall i | 0 <= i < |more| - 1 ensures StepAt(more, i, faulty) {
      assert i < |run| - 1 ==> StepAt(run, i, faulty);
    }
  }

  lemma LongerBy(run: seq<Gate>, h: Gate, p: Pid)
    requires Run(run, true) && ByCaller(run[|run| - 1], h, p, true)
    ensures Run(run + [h], true)
  {
    Longer(run, h, true);
  }

  /** p has come with request u, under the same number for a tag, and sleeps or not. */
  function Came(g: Gate, p: Pid, u: Uid, stage: Stage): Gate {
    var m := g.mux;
    g.(mux := m.(rpc := m.rpc[u := Rpc(u, false, 0, {}, false, Nothing)], used := m.used + {u}, calls := m.calls[p := In(stage, [u])],
                 queue := if stage == Alloced then m.queue else [u] + m.queue,
                 out := if stage == Waiting then m.out + [Msg(u, u, false, 0)] else m.out))
  }

  ghost predicate CanCome(g: Gate, p: Pid, u: Uid) {
    g.opener == None && p in g.mux.calls && g.mux.calls[p] == Idle && u !in g.mux.used && TagFree(g.mux, u)
  }

  lemma Comes(run: seq<Gate>, p: Pid, u: Uid) returns (more: seq<Gate>)
    requires Run(run, true) && CanCome(run[|run| - 1], p, u)
    ensures Run(more, true) && more[|more| - 1] == Came(run[|run| - 1], p, u, Waiting)
  {
    var g := run[|run| - 1];
    var a, b, c := Came(g, p, u, Alloced), Came(g, p, u, Queued), Came(g, p, u, Waiting);
    assert StartCall(g.mux, a.mux, p, u, u);
    LongerBy(run, a, p);
    more := run + [a];
    assert b.mux.calls == a.mux.calls[p := In(Queued, [u])] && c.mux.calls == b.mux.calls[p := In(Waiting, [u])];
    assert Enqueue(a.mux, b.mux, p);
    LongerBy(more, b, p);
    more := more + [b];
    assert Transmit(b.mux, c.mux, p);
    LongerBy(more, c, p);
    more := more + [c];
  }

  /** There is a reader, so it sleeps. */
  lemma ComesToSleep(run: seq<Gate>, p: Pid, u: Uid) returns (more: seq<Gate>)
    requires Run(run, true) && CanCome(run[|run| - 1], p, u) && run[|run| - 1].mux.rip.Some? && p !in run[|run| - 1].spot
    ensures Run(more, true) && var g := run[|run| - 1]; more[|more| - 1] == Came(g, p, u, Waiting).(spot := g.spot[p := Asleep])
  {
    var g := run[|run| - 1];
    more := Comes(run, p, u);
    var a := Came(g, p, u, Waiting);
    var b, c := a.(spot := g.spot[p := Seen]), a.(spot := g.spot[p := Asleep]);
    assert LooksOn(a, b, p);
    LongerBy(more, b, p);
    more := more + [b];
    assert c.spot == b.spot[p := Asleep];
    assert LiesDown(b, c, p);
    LongerBy(more, c, p);
    more := more + [c];
  }

  const ALONE := Gate(Mux(map[], [], None, map[1 := Idle, 2 := Idle, 3 := Idle], {}, [], [], []), map[], None)

  /** The process 1 reads, and 2 and 3 sleep. */
  function Reads1(): Gate {
    var g := Came(ALONE, 1, 1, Waiting);
    g.(mux := Go(g.mux, 1, Reading).(rip := Some(1)))
  }

  function Sleeps2(): Gate {
    Came(Reads1(), 2, 2, Waiting).(spot := map[2 := Asleep])
  }

  function Sleeps3(): Gate {
    Came(Sleeps2(), 3, 3, Waiting).(spot := map[2 := Asleep, 3 := Asleep])
  }

  lemma AllCome() returns (run: seq<Gate>)
    ensures Run(run, true) && run[|run| - 1] == Sleeps3()
  {
    assert Run([ALONE], true);
    run := Comes([ALONE], 1, 1);
    assert TakesOver(Came(ALONE, 1, 1, Waiting), Reads1(), 1);
    LongerBy(run, Reads1(), 1);
    run := run + [Reads1()];
    run := ComesToSleep(run, 2, 2);
    assert run[|run| - 1] == Sleeps2();
    run := ComesToSleep(run, 3, 3);
    assert Sleeps2().spot[3 := Asleep] == Sleeps3().spot;
  }

  /** The server answers 1, which reads that and wakes 3 as it goes. */
  function Served(): Gate {
    var g := Sleeps3();
    g.(mux := g.mux.(out := [Msg(2, 2, false, 0), Msg(3, 3, false, 0)], inn := [Reply(1, 1)]))
  }

  function HasRead(): Gate {
    var g := Served();
    g.(mux := g.mux.(rpc := g.mux.rpc[1 := g.mux.rpc[1].(done := true, got := Answer(1))], queue := [3, 2], inn := []))
  }

  function Leaves(): Gate {
    var g := HasRead();
    g.(mux := Go(g.mux, 1, Unwinding).(rip := None), opener := Some(Opening(1, [3, 2])))
  }

  function Wakes3(): Gate {
    Leaves().(spot := map[2 := Asleep, 3 := Woken], opener := None)
  }

  /** But 3 is interrupted and cannot transmit its flush. */
  function Stops3(): Gate {
    var g := Wakes3();
    g.(mux := Go(g.mux, 3, Interrupted), spot := map[2 := Asleep, 3 := Looking])
  }

  function Flushes3(stage: Stage): Gate {
    var g := Stops3();
    var c := g.mux.calls[3].chain;
    g.(mux := g.mux.(rpc := g.mux.rpc[4 := Rpc(4, true, 3, set v | v in c, false, Nothing)], used := g.mux.used + {4},
                     calls := g.mux.calls[3 := In(stage, [3, 4])],
                     queue := if stage == Alloced then [3, 2] else [4, 3, 2]))
  }

  function Took(): Gate {
    var g := Served();
    g.(mux := g.mux.(pending := [Msg(1, 1, false, 0)], inn := []))
  }

  lemma ServerDoes()
    ensures Serves(Sleeps3(), Took()) && Serves(Took(), Served())
  {
    var m, n := Sleeps3().mux, Took().mux;
    assert m.out == [Msg(1, 1, false, 0)] + n.out && m.queue == [3, 2, 1];
    assert ServerTakes(m, n);
    assert ServerAnswers(n, Served().mux, 0);
  }

  lemma Answers(run: seq<Gate>) returns (more: seq<Gate>)
    requires Run(run, true) && run[|run| - 1] == Sleeps3()
    ensures Run(more, true) && more[|more| - 1] == HasRead()
  {
    ServerDoes();
    Longer(run, Took(), true);
    more := run + [Took()];
    Longer(more, Served(), true);
    more := more + [Served()];
    ReadsAnswer();
    LongerBy(more, HasRead(), 1);
    more := more + [HasRead()];
  }

  lemma ReadsAnswer()
    ensures Reads(Served(), HasRead(), 1)
  {
    var m := Served().mux;
    assert m.queue == [3, 2, 1] && m.queue[1..] == [2, 1] && m.queue[1..][1..] == [1];
    assert Lookup([1], m.rpc, 1) == 0;
    assert Lookup([2, 1], m.rpc, 1) == 1;
    assert Lookup(m.queue, m.rpc, 1) == 2;
    assert Remove(m.queue, 2) == [3, 2] && m.inn[1..] == [];
  }

  lemma Wakes(run: seq<Gate>) returns (more: seq<Gate>)
    requires Run(run, true) && run[|run| - 1] == HasRead()
    ensures Run(more, true) && more[|more| - 1] == Wakes3()
  {
    assert Opens(HasRead(), Leaves(), 1);
    LongerBy(run, Leaves(), 1);
    more := run + [Leaves()];
    assert Sleeps(Leaves(), 3, 3) && Wake(Leaves(), 3) == Wakes3().spot;
    assert Scans(Leaves(), Wakes3());
    Longer(more, Wakes3(), true);
    more := more + [Wakes3()];
  }

  lemma StartsFlush()
    ensures Disturbed(Wakes3(), Stops3(), 3) && StartFlush(Stops3().mux, Flushes3(Alloced).mux, 3, 4, 4)
  {
    assert Wakes3().spot[3 := Looking] == Stops3().spot;
    var m, n := Stops3().mux, Flushes3(Alloced).mux;
    var c := m.calls[3].chain;
    assert c == [3] && [3] + [4] == [3, 4];
    assert m.rpc[3] == Rpc(3, false, 0, {}, false, Nothing);
    assert forall u <- m.rpc :: u == 1 || u == 2 || u == 3;
    assert TagFree(m, 4);
  }

  lemma FailsToSend()
    ensures Enqueue(Flushes3(Alloced).mux, Flushes3(Queued).mux, 3) && Fails(Flushes3(Queued), Flushes3(Unwinding), 3)
  {
    var a, b, c := Flushes3(Alloced), Flushes3(Queued), Flushes3(Unwinding);
    assert a.mux.calls[3 := In(Queued, [3, 4])] == b.mux.calls && b.mux.calls[3 := In(Unwinding, [3, 4])] == c.mux.calls;
    assert [4] + [3, 2] == [4, 3, 2];
  }

  lemma GivesUp(run: seq<Gate>) returns (more: seq<Gate>)
    requires Run(run, true) && run[|run| - 1] == Wakes3()
    ensures Run(more, true) && more[|more| - 1] == Flushes3(Unwinding)
  {
    StartsFlush();
    LongerBy(run, Stops3(), 3);
    more := run + [Stops3()];
    assert Away(Stops3(), Flushes3(Alloced), 3);
    LongerBy(more, Flushes3(Alloced), 3);
    more := more + [Flushes3(Alloced)];
    FailsToSend();
    assert Away(Flushes3(Alloced), Flushes3(Queued), 3);
    LongerBy(more, Flushes3(Queued), 3);
    more := more + [Flushes3(Queued)];
    LongerBy(more, Flushes3(Unwinding), 3);
    more := more + [Flushes3(Unwinding)];
  }

  lemma LeftAsleep()
    ensures Stranded(Flushes3(Unwinding))
  {
    var g := Flushes3(Unwinding);
    assert SpotOf(g, 2) == Asleep;
    assert forall p <- g.mux.calls :: p == 1 || p == 2 || p == 3;
  }

  lemma LeavesAsleep() returns (run: seq<Gate>)
    ensures Run(run, true) && Stranded(run[|run| - 1])
  {
    run := AllCome();
    run := Answers(run);
    run := Wakes(run);
    run := GivesUp(run);
    LeftAsleep();
  }

  ghost predicate Strands(run: seq<Gate>, i: nat, faulty: bool) {
    Run(run, faulty) && i < |run| && Stranded(run[i])
  }

  /** Nobody is ever left asleep, exactly when no request fails to be transmitted. */
  lemma StrandedIff(faulty: bool)
    ensures (exists run, i :: Strands(run, i, faulty)) <==> faulty
  {
    if run, i :| Strands(run, i, faulty) {
      if !faulty { NeverStranded(run, i); }
    }
    if faulty {
      var run := LeavesAsleep();
      assert Strands(run, |run| - 1, faulty);
    }
  }
}
