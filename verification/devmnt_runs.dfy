/**
 Every interleaving of callers of kern/devmnt.c, of interrupts, and of a server that obeys
 flush(5) of the Plan 9 manual, over an error-free channel.
 */
module DevmntRuns {
  import opened Words
  import opened Devmnt

  /** A message to the server, and a reply; uid names the request itself, which only the model sees. */
  datatype Msg = Msg(uid: Uid, tag: nat, flush: bool, oldtag: nat)
  datatype Reply = Reply(uid: Uid, tag: nat)

  /** Where a caller is.  The last element of chain is the request it works on; the others are
      those that it flushes, down to the request of the call. */
  datatype Stage =
    | Alloced      // has a request, not yet queued
    | Queued       // queued, not yet transmitted
    | Waiting      // transmitted, at the gate
    | Reading      // the reader
    | Interrupted  // caught an interrupt
    | Unwinding    // in mntflushfree
    | Returned     // mountio has returned, the request is still held
  datatype Call = Idle | In(stage: Stage, chain: seq<Uid>)

  datatype Mux = Mux(rpc: Rpcs, queue: seq<Uid>, rip: Option<Pid>, calls: map<Pid, Call>, used: set<Uid>,
                     out: seq<Msg>, pending: seq<Msg>, inn: seq<Reply>)

  ghost predicate Init(s: Mux) {
    s.rpc == map[] && s.queue == [] && s.rip == None && s.used == {} && s.out == [] && s.pending == [] && s.inn == []
    && forall p <- s.calls :: s.calls[p] == Idle
  }

  function Top(c: Call): Uid
    requires c.In? && c.chain != []
  {
    c.chain[|c.chain| - 1]
  }

  ghost predicate At(s: Mux, p: Pid, stage: Stage) {
    p in s.calls && s.calls[p].In? && s.calls[p].stage == stage && s.calls[p].chain != []
  }

  function Go(s: Mux, p: Pid, stage: Stage): Mux
    requires p in s.calls && s.calls[p].In?
  {
    s.(calls := s.calls[p := In(stage, s.calls[p].chain)])
  }

  /** Tags held by live requests. */
  ghost predicate TagFree(s: Mux, t: nat) {
    0 < t < NOTAG && forall u <- s.rpc :: s.rpc[u].tag != t
  }

  // ---------- Callers ----------

  ghost predicate StartCall(s: Mux, t: Mux, p: Pid, u: Uid, tag: nat) {
    && p in s.calls && s.calls[p] == Idle && u !in s.used && TagFree(s, tag)
    && t == s.(rpc := s.rpc[u := Rpc(tag, false, 0, {}, false, Nothing)], used := s.used + {u},
               calls := s.calls[p := In(Alloced, [u])])
  }

  ghost predicate Enqueue(s: Mux, t: Mux, p: Pid) {
    At(s, p, Alloced) && t == Go(s, p, Queued).(queue := [Top(s.calls[p])] + s.queue)
  }

  ghost predicate Transmit(s: Mux, t: Mux, p: Pid) {
    && At(s, p, Queued) && Top(s.calls[p]) in s.rpc
    && var u := Top(s.calls[p]);
    && t == Go(s, p, Waiting).(out := s.out + [Msg(u, s.rpc[u].tag, s.rpc[u].flush, s.rpc[u].oldtag)])
  }

  ghost predicate BecomeReader(s: Mux, t: Mux, p: Pid) {
    At(s, p, Waiting) && s.rip == None && t == Go(s, p, Reading).(rip := Some(p))
  }

  /** Woken with the request done. */
  ghost predicate WokenDone(s: Mux, t: Mux, p: Pid) {
    && At(s, p, Waiting) && Top(s.calls[p]) in s.rpc && s.rpc[Top(s.calls[p])].done
    && t == Go(s, p, Unwinding)
  }

  /** mntrpcread and mountmux. */
  ghost predicate ReadReply(s: Mux, t: Mux, p: Pid) {
    && At(s, p, Reading) && Top(s.calls[p]) in s.rpc && !s.rpc[Top(s.calls[p])].done
    && s.inn != [] && (forall u <- s.queue :: u in s.rpc)
    && var r := s.inn[0];
    && var i := Lookup(s.queue, s.rpc, r.tag);
    && t == if i < |s.queue|
            then s.(inn := s.inn[1..], queue := Remove(s.queue, i),
                    rpc := s.rpc[s.queue[i] := s.rpc[s.queue[i]].(done := true, got := Answer(r.uid))])
            else s.(inn := s.inn[1..])
  }

  /** The reader's own request is done: it opens the gate. */
  ghost predicate StopReading(s: Mux, t: Mux, p: Pid) {
    && At(s, p, Reading) && Top(s.calls[p]) in s.rpc && s.rpc[Top(s.calls[p])].done
    && t == Go(s, p, Unwinding).(rip := None)
  }

  /** An interrupt while transmitting, waiting or reading; a reader opens the gate. */
  ghost predicate Interrupt(s: Mux, t: Mux, p: Pid) {
    && (At(s, p, Queued) || At(s, p, Waiting) || At(s, p, Reading))
    && t == Go(s, p, Interrupted).(rip := if At(s, p, Reading) then None else s.rip)
  }

  /** mntflushalloc. */
  ghost predicate StartFlush(s: Mux, t: Mux, p: Pid, u: Uid, tag: nat) {
    && At(s, p, Interrupted) && u !in s.used && TagFree(s, tag) && Top(s.calls[p]) in s.rpc
    && var f := s.rpc[Top(s.calls[p])];
    && var c := s.calls[p].chain;
    && t == s.(rpc := s.rpc[u := Rpc(tag, true, if f.flush then f.oldtag else f.tag, set v | v in c, false, Nothing)],
               used := s.used + {u}, calls := s.calls[p := In(Alloced, c + [u])])
  }

  /** One turn of mntflushfree. */
  ghost predicate Unwind(s: Mux, t: Mux, p: Pid) {
    && At(s, p, Unwinding) && Top(s.calls[p]) in s.rpc
    && var c := s.calls[p].chain;
    && var u := Top(s.calls[p]);
    && var queue := if s.rpc[u].done then s.queue else Unqueue(s.queue, u);
    && if |c| == 1 then
         t == Go(s, p, Returned).(queue := queue,
                                  rpc := if s.rpc[u].done then s.rpc else s.rpc[u := s.rpc[u].(done := true, got := Rflush)])
       else
         t == s.(queue := queue, rpc := s.rpc - {u}, calls := s.calls[p := In(Unwinding, c[..|c| - 1])])
  }

  /** The caller of mountrpc has used the reply. */
  ghost predicate FinishCall(s: Mux, t: Mux, p: Pid) {
    && At(s, p, Returned)
    && t == s.(rpc := s.rpc - {Top(s.calls[p])}, calls := s.calls[p := Idle])
  }

  // ---------- The server ----------

  ghost predicate ServerTakes(s: Mux, t: Mux) {
    s.out != [] && t == s.(out := s.out[1..], pending := s.pending + [s.out[0]])
  }

  ghost predicate ServerAnswers(s: Mux, t: Mux, i: nat) {
    && i < |s.pending| && !s.pending[i].flush
    && t == s.(pending := s.pending[..i] + s.pending[i + 1..], inn := s.inn + [Reply(s.pending[i].uid, s.pending[i].tag)])
  }

  /** Those requests of ms that an answered flush of tag o leaves: not the one with that tag, nor
      other flushes of it, which it answers too. */
  function Spared(ms: seq<Msg>, o: nat): seq<Msg> {
    if ms == [] then []
    else (if (if ms[0].flush then ms[0].oldtag else ms[0].tag) == o then [] else [ms[0]]) + Spared(ms[1..], o)
  }

  ghost predicate ServerAnswersFlush(s: Mux, t: Mux, i: nat) {
    && i < |s.pending| && s.pending[i].flush
    && t == s.(pending := Spared(s.pending[..i], s.pending[i].oldtag) + s.pending[i + 1..],
               inn := s.inn + [Reply(s.pending[i].uid, s.pending[i].tag)])
  }

  ghost predicate Step(s: Mux, t: Mux) {
    || (exists p, u, tag :: StartCall(s, t, p, u, tag))
    || (exists p :: Enqueue(s, t, p))
    || (exists p :: Transmit(s, t, p))
    || (exists p :: BecomeReader(s, t, p))
    || (exists p :: WokenDone(s, t, p))
    || (exists p :: ReadReply(s, t, p))
    || (exists p :: StopReading(s, t, p))
    || (exists p :: Interrupt(s, t, p))
    || (exists p, u, tag :: StartFlush(s, t, p, u, tag))
    || (exists p :: Unwind(s, t, p))
    || (exists p :: FinishCall(s, t, p))
    || ServerTakes(s, t)
    || (exists i :: ServerAnswers(s, t, i))
    || (exists i :: ServerAnswersFlush(s, t, i))
  }

  ghost predicate Run(run: seq<Mux>) {
    && run != [] && Init(run[0])
    && forall i :: 0 <= i < |run| - 1 ==> Step(run[i], run[i + 1])
  }

  // ---------- The invariant ----------

  function MsgUids(ms: seq<Msg>): seq<Uid> {
    seq(|ms|, i requires 0 <= i < |ms| => ms[i].uid)
  }

  function ReplyUids(rs: seq<Reply>): seq<Uid> {
    seq(|rs|, i requires 0 <= i < |rs| => rs[i].uid)
  }

  /** Everything whose answer may still come, in the order in which the answers would come. */
  function Pipe(s: Mux): seq<Uid> {
    ReplyUids(s.inn) + MsgUids(s.pending) + MsgUids(s.out)
  }

  /** Live requests have distinct tags, none of them reserved. */
  ghost predicate TagsOk(s: Mux) {
    && (forall u <- s.rpc :: u in s.used && 0 < s.rpc[u].tag < NOTAG)
    && (forall u <- s.rpc, v <- s.rpc :: u != v ==> s.rpc[u].tag != s.rpc[v].tag)
  }

  ghost predicate NoRepeats(us: seq<Uid>) {
    forall i, j :: 0 <= i < j < |us| ==> us[i] != us[j]
  }

  /** The queue holds live, undone requests, once each. */
  ghost predicate QueueOk(s: Mux) {
    && (forall u <- s.queue :: u in s.rpc && !s.rpc[u].done)
    && NoRepeats(s.queue)
  }

  /** Whatever may still be answered is live, undone, queued, and goes under its own tag. */
  ghost predicate PipeOk(s: Mux) {
    && (forall u <- Pipe(s) :: u in s.rpc && u in s.queue)
    && NoRepeats(Pipe(s))
    && (forall r <- s.inn :: r.uid in s.rpc && r.tag == s.rpc[r.uid].tag)
    && (forall m <- s.pending :: m.uid in s.rpc && m == Msg(m.uid, s.rpc[m.uid].tag, s.rpc[m.uid].flush, s.rpc[m.uid].oldtag))
    && (forall m <- s.out :: m.uid in s.rpc && m == Msg(m.uid, s.rpc[m.uid].tag, s.rpc[m.uid].flush, s.rpc[m.uid].oldtag))
  }

  /** Nothing that a flush is for comes after the flush. */
  ghost predicate Ordered(us: seq<Uid>, rpc: Rpcs) {
    forall i, j :: 0 <= i < j < |us| && us[i] in rpc ==> us[j] !in rpc[us[i]].below
  }

  /** A chain: the request of the call, then flushes of it, each for all before it. */
  ghost predicate ChainShape(rpc: Rpcs, chain: seq<Uid>) {
    && chain != [] && NoRepeats(chain)
    && (forall u <- chain :: u in rpc)
    && (forall i :: 0 <= i < |chain| ==> LinkOk(rpc, chain, i))
  }

  ghost predicate LinkOk(rpc: Rpcs, chain: seq<Uid>, i: nat)
    requires i < |chain| && forall u <- chain :: u in rpc
  {
    var r := rpc[chain[i]];
    && r.flush == (i > 0) && r.below == (set v | v in chain[..i])
    && (i > 0 ==> r.oldtag == rpc[chain[0]].tag)
  }

  ghost predicate StageOk(s: Mux, c: Call)
    requires c.In? && c.chain != [] && Top(c) in s.rpc
  {
    match c.stage
    case Alloced => Top(c) !in Pipe(s) && Top(c) !in s.queue && !s.rpc[Top(c)].done
    case Queued => Top(c) !in Pipe(s) && Top(c) in s.queue
    case Unwinding => forall u <- c.chain :: u !in Pipe(s)
    case Returned => |c.chain| == 1 && Top(c) !in Pipe(s) && Top(c) !in s.queue
    case _ => true
  }

  ghost predicate ChainOk(s: Mux, c: Call) {
    c.In? ==> ChainShape(s.rpc, c.chain) && StageOk(s, c)
  }

  /** When a flush has been answered, nothing it was for will be. */
  ghost predicate FlushedOk(s: Mux) {
    forall f <- s.rpc :: s.rpc[f].done && s.rpc[f].flush ==> forall b <- s.rpc[f].below :: b !in Pipe(s)
  }

  ghost predicate Holds(c: Call, u: Uid) {
    c.In? && u in c.chain
  }

  ghost predicate CallsOk(s: Mux) {
    && (forall p <- s.calls :: ChainOk(s, s.calls[p]))
    && (forall p <- s.calls, q <- s.calls, u :: Holds(s.calls[p], u) && Holds(s.calls[q], u) ==> p == q)
    && (forall u <- s.rpc :: exists p <- s.calls :: Holds(s.calls[p], u))
  }

  /** At most one process is the reader, and rip names it. */
  ghost predicate ReaderOk(s: Mux) {
    && (forall p <- s.calls :: At(s, p, Reading) <==> s.rip == Some(p))
    && (s.rip.Some? ==> s.rip.value in s.calls)
  }

  /** An answer got is the answer to the request itself. */
  ghost predicate GotOk(s: Mux) {
    forall u <- s.rpc :: s.rpc[u].got.Answer? ==> s.rpc[u].got.of == u
  }

  ghost predicate Inv(s: Mux) {
    TagsOk(s) && QueueOk(s) && PipeOk(s) && Ordered(Pipe(s), s.rpc) && FlushedOk(s) && CallsOk(s) && ReaderOk(s) && GotOk(s)
  }

  // ---------- Callers' steps that leave messages alone ----------

  /** Only the stage of one caller changes. */
  lemma StageKeeps(s: Mux, t: Mux, p: Pid, stage: Stage)
    requires Inv(s) && p in s.calls && s.calls[p].In?
    requires t == Go(s, p, stage).(rip := t.rip)
    requires stage == Waiting || stage == Reading || stage == Interrupted || stage == Unwinding
    requires stage == Unwinding ==> forall u <- s.calls[p].chain :: u !in Pipe(s)
    requires ReaderOk(t)
    ensures Inv(t)
  {
    assert Pipe(t) == Pipe(s);
    forall q <- t.calls ensures ChainOk(t, t.calls[q]) {
      assert ChainOk(s, s.calls[q]);
    }
    CallsFrame(s, t);
    MessagesFrame(s, t);
  }

  /** The same requests, queue and messages. */
  lemma MessagesFrame(s: Mux, t: Mux)
    requires TagsOk(s) && QueueOk(s) && PipeOk(s) && Ordered(Pipe(s), s.rpc) && FlushedOk(s) && GotOk(s)
    requires t == s.(calls := t.calls, rip := t.rip)
    ensures TagsOk(t) && QueueOk(t) && PipeOk(t) && Ordered(Pipe(t), t.rpc) && FlushedOk(t) && GotOk(t)
  {
    assert Pipe(t) == Pipe(s);
  }

  lemma BecomeReaderKeeps(s: Mux, t: Mux, p: Pid)
    requires Inv(s) && BecomeReader(s, t, p)
    ensures Inv(t)
  {
    StageKeeps(s, t, p, Reading);
  }

  lemma InterruptKeeps(s: Mux, t: Mux, p: Pid)
    requires Inv(s) && Interrupt(s, t, p)
    ensures Inv(t)
  {
    StageKeeps(s, t, p, Interrupted);
  }

  /** A request that is done will not be answered, nor will what it is a flush for. */
  lemma DoneChainSilent(s: Mux, p: Pid)
    requires Inv(s) && p in s.calls && s.calls[p].In?
    requires s.calls[p].chain != [] && Top(s.calls[p]) in s.rpc && s.rpc[Top(s.calls[p])].done
    ensures forall u <- s.calls[p].chain :: u !in Pipe(s)
  {
    var c := s.calls[p];
    assert ChainOk(s, c);
    var f := Top(c);
    assert LinkOk(s.rpc, c.chain, |c.chain| - 1);
    forall u <- c.chain ensures u !in Pipe(s) {
      if u != f {
        assert u in s.rpc[f].below;
      } else {
        assert f in Pipe(s) ==> f in s.queue;
      }
    }
  }

  lemma ToUnwindingKeeps(s: Mux, t: Mux, p: Pid)
    requires Inv(s) && (WokenDone(s, t, p) || StopReading(s, t, p))
    ensures Inv(t)
  {
    DoneChainSilent(s, p);
    StageKeeps(s, t, p, Unwinding);
  }

  // ---------- New requests ----------

  /** A caller's chain grows at its top by a fresh request. */
  ghost predicate Grows(s: Mux, t: Mux, p: Pid, u: Uid, r: Rpc) {
    && p in s.calls && u !in s.used && TagFree(s, r.tag) && !r.done && r.got == Nothing
    && var c := if s.calls[p].In? then s.calls[p].chain else [];
    && (s.calls[p].In? ==> s.calls[p].stage == Interrupted)
    && r.flush == (c != []) && r.below == (set v | v in c)
    && (c != [] ==> c[0] in s.rpc && r.oldtag == s.rpc[c[0]].tag)
    && t == s.(rpc := s.rpc[u := r], used := s.used + {u}, calls := s.calls[p := In(Alloced, c + [u])])
  }

  lemma GrowsFresh(s: Mux, t: Mux, p: Pid, u: Uid, r: Rpc)
    requires TagsOk(s) && QueueOk(s) && PipeOk(s) && Grows(s, t, p, u, r)
    ensures Pipe(t) == Pipe(s) && u !in Pipe(s) && u !in s.queue && u !in s.rpc
    ensures TagsOk(t) && QueueOk(t)
  {
  }

  lemma GrowsPipe(s: Mux, t: Mux, p: Pid, u: Uid, r: Rpc)
    requires TagsOk(s) && QueueOk(s) && PipeOk(s) && Grows(s, t, p, u, r)
    ensures PipeOk(t) && (Ordered(Pipe(s), s.rpc) ==> Ordered(Pipe(t), t.rpc))
  {
    GrowsFresh(s, t, p, u, r);
    PipeFrame(s, t);
  }

  lemma GrowsMessages(s: Mux, t: Mux, p: Pid, u: Uid, r: Rpc)
    requires Inv(s) && Grows(s, t, p, u, r)
    ensures Pipe(t) == Pipe(s) && u !in Pipe(s) && u !in s.queue && u !in s.rpc
    ensures TagsOk(t) && QueueOk(t) && PipeOk(t) && Ordered(Pipe(t), t.rpc) && FlushedOk(t) && GotOk(t) && ReaderOk(t)
  {
    GrowsFresh(s, t, p, u, r);
    GrowsPipe(s, t, p, u, r);
  }

  /** A chain is not disturbed by changes of other requests. */
  lemma ShapeFrame(rpc: Rpcs, rpc': Rpcs, chain: seq<Uid>)
    requires ChainShape(rpc, chain)
    requires forall u <- chain :: u in rpc' && SameRequest(rpc[u], rpc'[u])
    ensures ChainShape(rpc', chain)
  {
    forall i | 0 <= i < |chain| ensures LinkOk(rpc', chain, i) {
      assert LinkOk(rpc, chain, i);
      assert chain[i] in chain && chain[0] in chain;
    }
  }

  ghost predicate SameRequest(r: Rpc, r': Rpc) {
    r' == r.(done := r'.done, got := r'.got)
  }

  lemma GrowsOther(s: Mux, t: Mux, p: Pid, u: Uid, r: Rpc, q: Pid)
    requires Inv(s) && Grows(s, t, p, u, r) && q in s.calls && q != p
    ensures ChainOk(t, t.calls[q])
  {
    GrowsMessages(s, t, p, u, r);
    assert ChainOk(s, s.calls[q]);
    if s.calls[q].In? {
      ShapeFrame(s.rpc, t.rpc, s.calls[q].chain);
    }
  }

  lemma ShapeGrows(rpc: Rpcs, chain: seq<Uid>, u: Uid, r: Rpc)
    requires chain == [] || ChainShape(rpc, chain)
    requires u !in rpc && r.flush == (chain != []) && r.below == (set v | v in chain)
    requires chain != [] ==> r.oldtag == rpc[chain[0]].tag
    ensures ChainShape(rpc[u := r], chain + [u])
  {
    var c', rpc' := chain + [u], rpc[u := r];
    forall i | 0 <= i < |c'| ensures LinkOk(rpc', c', i) {
      if i < |chain| {
        assert LinkOk(rpc, chain, i);
        assert c'[..i] == chain[..i] && chain[i] in chain && chain[0] in chain;
      } else {
        assert c'[..i] == chain;
      }
    }
  }

  lemma GrowsOwn(s: Mux, t: Mux, p: Pid, u: Uid, r: Rpc)
    requires Inv(s) && Grows(s, t, p, u, r)
    ensures ChainOk(t, t.calls[p])
  {
    GrowsMessages(s, t, p, u, r);
    assert ChainOk(s, s.calls[p]);
    ShapeGrows(s.rpc, if s.calls[p].In? then s.calls[p].chain else [], u, r);
  }

  lemma GrowsCalls(s: Mux, t: Mux, p: Pid, u: Uid, r: Rpc)
    requires Inv(s) && Grows(s, t, p, u, r) && forall q <- t.calls :: ChainOk(t, t.calls[q])
    ensures CallsOk(t)
  {
    forall v <- t.rpc ensures exists q <- t.calls :: Holds(t.calls[q], v) {
      if v == u {
        assert Holds(t.calls[p], u);
      } else {
        var q :| q in s.calls && Holds(s.calls[q], v);
        assert Holds(t.calls[q], v);
      }
    }
    forall a <- t.calls, b <- t.calls, v | Holds(t.calls[a], v) && Holds(t.calls[b], v) ensures a == b {
      HeldBefore(s, t, p, u, r, a, v);
      HeldBefore(s, t, p, u, r, b, v);
    }
  }

  lemma GrowsKeeps(s: Mux, t: Mux, p: Pid, u: Uid, r: Rpc)
    requires Inv(s) && Grows(s, t, p, u, r)
    ensures Inv(t)
  {
    GrowsMessages(s, t, p, u, r);
    GrowsOwn(s, t, p, u, r);
    forall q <- t.calls ensures ChainOk(t, t.calls[q]) {
      if q != p { GrowsOther(s, t, p, u, r, q); }
    }
    GrowsCalls(s, t, p, u, r);
  }

  lemma HeldBefore(s: Mux, t: Mux, p: Pid, u: Uid, r: Rpc, a: Pid, v: Uid)
    requires Inv(s) && Grows(s, t, p, u, r) && a in t.calls && Holds(t.calls[a], v)
    ensures if v == u then a == p else Holds(s.calls[a], v)
  {
    assert ChainOk(s, s.calls[a]);
    GrowsMessages(s, t, p, u, r);
  }

  lemma StartCallKeeps(s: Mux, t: Mux, p: Pid, u: Uid, tag: nat)
    requires Inv(s) && StartCall(s, t, p, u, tag)
    ensures Inv(t)
  {
    assert [] + [u] == [u];
    GrowsKeeps(s, t, p, u, Rpc(tag, false, 0, {}, false, Nothing));
  }

  lemma StartFlushKeeps(s: Mux, t: Mux, p: Pid, u: Uid, tag: nat)
    requires Inv(s) && StartFlush(s, t, p, u, tag)
    ensures Inv(t)
  {
    var c := s.calls[p].chain;
    assert ChainOk(s, s.calls[p]);
    assert LinkOk(s.rpc, c, |c| - 1);
    GrowsKeeps(s, t, p, u, t.rpc[u]);
  }

  lemma EnqueueMessages(s: Mux, t: Mux, p: Pid)
    requires Inv(s) && Enqueue(s, t, p)
    ensures Pipe(t) == Pipe(s)
    ensures TagsOk(t) && QueueOk(t) && PipeOk(t) && Ordered(Pipe(t), t.rpc) && FlushedOk(t) && GotOk(t) && ReaderOk(t)
  {
    assert ChainOk(s, s.calls[p]);
    assert Top(s.calls[p]) in s.calls[p].chain;
  }

  lemma EnqueueKeeps(s: Mux, t: Mux, p: Pid)
    requires Inv(s) && Enqueue(s, t, p)
    ensures Inv(t)
  {
    var u := Top(s.calls[p]);
    EnqueueMessages(s, t, p);
    assert Holds(s.calls[p], u);
    forall q <- t.calls ensures ChainOk(t, t.calls[q]) {
      assert ChainOk(s, s.calls[q]);
      if q != p && s.calls[q].In? {
        assert !Holds(s.calls[q], u);
        assert Top(s.calls[q]) in s.calls[q].chain;
      }
    }
    CallsFrame(s, t);
  }

  /** Who holds what is unchanged. */
  lemma CallsFrame(s: Mux, t: Mux)
    requires CallsOk(s) && t.calls.Keys == s.calls.Keys && t.rpc.Keys <= s.rpc.Keys
    requires forall q <- s.calls :: ChainOk(t, t.calls[q])
    requires forall q <- s.calls, u <- t.rpc :: Holds(t.calls[q], u) <==> Holds(s.calls[q], u)
    ensures CallsOk(t)
  {
    forall u <- t.rpc ensures exists q <- t.calls :: Holds(t.calls[q], u) {
      var q :| q in s.calls && Holds(s.calls[q], u);
      assert Holds(t.calls[q], u);
    }
    forall a <- t.calls, b <- t.calls, v | Holds(t.calls[a], v) && Holds(t.calls[b], v) ensures a == b {
      assert ChainOk(t, t.calls[a]);
      assert Holds(s.calls[a], v) && Holds(s.calls[b], v);
    }
  }

  // ---------- Transmission ----------

  /** The top of a chain is below no live request. */
  lemma TopIsBelowNothing(s: Mux, p: Pid, f: Uid)
    requires Inv(s) && p in s.calls && s.calls[p].In? && f in s.rpc
    ensures s.calls[p].chain != [] && Top(s.calls[p]) !in s.rpc[f].below
  {
    assert ChainOk(s, s.calls[p]);
    var u := Top(s.calls[p]);
    var q :| q in s.calls && Holds(s.calls[q], f);
    assert ChainOk(s, s.calls[q]);
    var c := s.calls[q].chain;
    var i :| 0 <= i < |c| && c[i] == f;
    assert LinkOk(s.rpc, c, i);
    if u in s.rpc[f].below {
      assert Holds(s.calls[q], u) && Holds(s.calls[p], u);
      assert false;
    }
  }

  lemma PipeTransmit(s: Mux, t: Mux, p: Pid)
    requires Transmit(s, t, p)
    ensures Pipe(t) == Pipe(s) + [Top(s.calls[p])]
  {
    assert MsgUids(t.out) == MsgUids(s.out) + [Top(s.calls[p])];
  }

  lemma OrderedAppend(us: seq<Uid>, u: Uid, rpc: Rpcs)
    requires Ordered(us, rpc) && forall f <- us :: f in rpc ==> u !in rpc[f].below
    ensures Ordered(us + [u], rpc)
  {
  }

  lemma TransmitPipeOk(s: Mux, t: Mux, p: Pid)
    requires Inv(s) && Transmit(s, t, p)
    ensures PipeOk(t)
  {
    var u := Top(s.calls[p]);
    PipeTransmit(s, t, p);
    assert ChainOk(s, s.calls[p]);
    assert forall v <- Pipe(t) :: v in Pipe(s) || v == u;
    var m := Msg(u, s.rpc[u].tag, s.rpc[u].flush, s.rpc[u].oldtag);
    assert forall x <- t.out :: x in s.out || x == m;
  }

  lemma TransmitMessages(s: Mux, t: Mux, p: Pid)
    requires Inv(s) && Transmit(s, t, p)
    ensures TagsOk(t) && QueueOk(t) && PipeOk(t) && Ordered(Pipe(t), t.rpc) && FlushedOk(t) && GotOk(t) && ReaderOk(t)
  {
    TransmitPipeOk(s, t, p);
    PipeTransmit(s, t, p);
    forall f <- s.rpc ensures Top(s.calls[p]) !in s.rpc[f].below {
      TopIsBelowNothing(s, p, f);
    }
    OrderedAppend(Pipe(s), Top(s.calls[p]), s.rpc);
  }

  lemma TransmitKeeps(s: Mux, t: Mux, p: Pid)
    requires Inv(s) && Transmit(s, t, p)
    ensures Inv(t)
  {
    var u := Top(s.calls[p]);
    TransmitMessages(s, t, p);
    PipeTransmit(s, t, p);
    assert ChainOk(s, s.calls[p]);
    assert Holds(s.calls[p], u);
    forall q <- t.calls ensures ChainOk(t, t.calls[q]) {
      assert ChainOk(s, s.calls[q]);
      if q != p && s.calls[q].In? {
        assert forall v <- s.calls[q].chain :: Holds(s.calls[q], v) && v != u;
      }
    }
    CallsFrame(s, t);
  }

  // ---------- The end of a call ----------

  lemma PrependOk(u: Uid, us: seq<Uid>)
    requires NoRepeats(us) && u !in us
    ensures NoRepeats([u] + us)
  {
  }

  lemma UnqueueOk(queue: seq<Uid>, u: Uid)
    requires NoRepeats(queue)
    ensures NoRepeats(Unqueue(queue, u))
    ensures forall v :: v in Unqueue(queue, u) <==> v in queue && v != u
  {
    if queue != [] && queue[0] != u {
      UnqueueOk(queue[1..], u);
      assert forall v :: v in queue <==> v == queue[0] || v in queue[1..];
      assert forall j :: 0 <= j < |queue[1..]| ==> queue[1..][j] == queue[j + 1];
      PrependOk(queue[0], Unqueue(queue[1..], u));
    } else if queue != [] {
      assert forall v :: v in queue <==> v == queue[0] || v in queue[1..];
    }
  }

  /** u, the top of p's chain, will not be answered: it leaves the queue and the live requests, or
      is marked. */
  ghost predicate Settles(s: Mux, t: Mux, p: Pid, gone: bool) {
    && p in s.calls && s.calls[p].In? && s.calls[p].chain != [] && Top(s.calls[p]) in s.rpc
    && var u := Top(s.calls[p]);
    && u !in Pipe(s)
    && (t.queue == s.queue || t.queue == Unqueue(s.queue, u))
    && u !in t.queue
    && (if gone then t.rpc == s.rpc - {u}
        else t.rpc == s.rpc || t.rpc == s.rpc[u := s.rpc[u].(done := true, got := Rflush)])
    && t == s.(queue := t.queue, rpc := t.rpc, calls := t.calls)
    && p in t.calls && t.calls == s.calls[p := t.calls[p]]
  }

  lemma InPipe(s: Mux)
    ensures forall r <- s.inn :: r.uid in Pipe(s)
    ensures forall m <- s.pending :: m.uid in Pipe(s)
    ensures forall m <- s.out :: m.uid in Pipe(s)
  {
    forall r <- s.inn ensures r.uid in Pipe(s) {
      var i :| 0 <= i < |s.inn| && s.inn[i] == r;
      assert Pipe(s)[i] == r.uid;
    }
    forall m <- s.pending ensures m.uid in Pipe(s) {
      var i :| 0 <= i < |s.pending| && s.pending[i] == m;
      assert Pipe(s)[|s.inn| + i] == m.uid;
    }
    forall m <- s.out ensures m.uid in Pipe(s) {
      var i :| 0 <= i < |s.out| && s.out[i] == m;
      assert Pipe(s)[|s.inn| + |s.pending| + i] == m.uid;
    }
  }

  /** Messages do not mind when other requests go or are marked, and when the queue keeps theirs. */
  lemma PipeFrame(s: Mux, t: Mux)
    requires PipeOk(s) && t.inn == s.inn && t.pending == s.pending && t.out == s.out
    requires forall u <- Pipe(s) :: u in t.rpc && u in t.queue && (u in s.rpc ==> SameRequest(s.rpc[u], t.rpc[u]))
    ensures Pipe(t) == Pipe(s) && PipeOk(t)
  {
    InPipe(s);
  }

  lemma SettlesQueue(s: Mux, t: Mux, p: Pid, gone: bool)
    requires Inv(s) && Settles(s, t, p, gone)
    ensures Pipe(t) == Pipe(s) && TagsOk(t) && QueueOk(t) && PipeOk(t)
  {
    UnqueueOk(s.queue, Top(s.calls[p]));
    PipeFrame(s, t);
  }

  lemma SettlesMessages(s: Mux, t: Mux, p: Pid, gone: bool)
    requires Inv(s) && Settles(s, t, p, gone) && !s.calls[p].stage.Reading? && !At(t, p, Reading)
    requires !gone ==> forall b <- s.rpc[Top(s.calls[p])].below :: b !in Pipe(s)
    ensures Pipe(t) == Pipe(s)
    ensures TagsOk(t) && QueueOk(t) && PipeOk(t) && Ordered(Pipe(t), t.rpc) && FlushedOk(t) && GotOk(t) && ReaderOk(t)
  {
    SettlesQueue(s, t, p, gone);
    SettlesAnswers(s, t, p, gone);
  }

  lemma SettlesAnswers(s: Mux, t: Mux, p: Pid, gone: bool)
    requires Ordered(Pipe(s), s.rpc) && FlushedOk(s) && GotOk(s) && Settles(s, t, p, gone) && Pipe(t) == Pipe(s)
    requires !gone ==> forall b <- s.rpc[Top(s.calls[p])].below :: b !in Pipe(s)
    ensures Ordered(Pipe(t), t.rpc) && FlushedOk(t) && GotOk(t)
  {
  }

  lemma SettlesOther(s: Mux, t: Mux, p: Pid, gone: bool, q: Pid)
    requires Inv(s) && Settles(s, t, p, gone) && q in s.calls && q != p
    ensures ChainOk(t, t.calls[q])
  {
    var u, c := Top(s.calls[p]), s.calls[q];
    assert ChainOk(s, c);
    if c.In? {
      assert Holds(s.calls[p], u);
      assert forall v <- c.chain :: Holds(c, v) && v != u;
      OtherChain(s, t, c, u);
    }
  }

  /** A chain without u does not mind when u goes, is marked, or leaves the queue. */
  lemma OtherChain(s: Mux, t: Mux, c: Call, u: Uid)
    requires NoRepeats(s.queue) && c.In? && ChainOk(s, c) && u !in c.chain
    requires t.queue == s.queue || t.queue == Unqueue(s.queue, u)
    requires forall v <- Pipe(t) :: v in Pipe(s)
    requires forall v <- Pipe(s) :: v in Pipe(t) || v == u
    requires forall v <- s.rpc :: v != u ==> v in t.rpc && t.rpc[v] == s.rpc[v]
    ensures ChainOk(t, c)
  {
    UnqueueOk(s.queue, u);
    ShapeFrame(s.rpc, t.rpc, c.chain);
    assert Top(c) in c.chain;
  }

  lemma SettlesCalls(s: Mux, t: Mux, p: Pid, gone: bool)
    requires Inv(s) && Settles(s, t, p, gone) && forall q <- t.calls :: ChainOk(t, t.calls[q])
    requires forall v <- t.rpc :: Holds(t.calls[p], v) <==> Holds(s.calls[p], v)
    ensures CallsOk(t)
  {
    CallsFrame(s, t);
  }

  lemma ShapePrefix(rpc: Rpcs, chain: seq<Uid>)
    requires ChainShape(rpc, chain) && |chain| > 1
    ensures ChainShape(rpc - {chain[|chain| - 1]}, chain[..|chain| - 1])
  {
    var c', u := chain[..|chain| - 1], chain[|chain| - 1];
    var rpc' := rpc - {u};
    assert forall v <- c' :: v in chain && v != u;
    forall i | 0 <= i < |c'| ensures LinkOk(rpc', c', i) {
      assert LinkOk(rpc, chain, i);
      assert c'[..i] == chain[..i] && c'[i] in c' && c'[0] in c';
    }
  }

  lemma UnwindLast(s: Mux, t: Mux, p: Pid)
    requires Inv(s) && Unwind(s, t, p) && |s.calls[p].chain| == 1
    ensures Settles(s, t, p, false) && ChainOk(t, t.calls[p])
    ensures forall b <- s.rpc[Top(s.calls[p])].below :: b !in Pipe(s)
  {
    var c := s.calls[p].chain;
    assert ChainOk(s, s.calls[p]);
    assert LinkOk(s.rpc, c, 0);
    assert c[0] in c;
    UnqueueOk(s.queue, c[0]);
    ShapeFrame(s.rpc, t.rpc, c);
    assert Pipe(t) == Pipe(s);
  }

  lemma UnwindOne(s: Mux, t: Mux, p: Pid)
    requires Inv(s) && Unwind(s, t, p) && |s.calls[p].chain| > 1
    ensures Settles(s, t, p, true) && ChainOk(t, t.calls[p])
  {
    var c := s.calls[p].chain;
    assert ChainOk(s, s.calls[p]);
    assert Top(s.calls[p]) in c;
    UnqueueOk(s.queue, Top(s.calls[p]));
    ShapePrefix(s.rpc, c);
    assert forall v <- c[..|c| - 1] :: v in c;
    assert Pipe(t) == Pipe(s);
  }

  lemma UnwindKeeps(s: Mux, t: Mux, p: Pid)
    requires Inv(s) && Unwind(s, t, p)
    ensures Inv(t)
  {
    var c := s.calls[p].chain;
    var gone := |c| > 1;
    if gone { UnwindOne(s, t, p); } else { UnwindLast(s, t, p); }
    SettlesMessages(s, t, p, gone);
    forall q <- t.calls ensures ChainOk(t, t.calls[q]) {
      if q != p { SettlesOther(s, t, p, gone, q); }
    }
    if gone { LastOut(c); } else { assert t.calls[p].chain == c; }
    SettlesCalls(s, t, p, gone);
  }

  lemma LastOut(c: seq<Uid>)
    requires c != []
    ensures forall v :: v in c <==> v in c[..|c| - 1] || v == c[|c| - 1]
  {
  }

  lemma FinishCallSettles(s: Mux, t: Mux, p: Pid)
    requires FinishCall(s, t, p) && ChainOk(s, s.calls[p])
    ensures Settles(s, t, p, true) && s.calls[p].chain == [Top(s.calls[p])]
  {
  }

  lemma FinishCallKeeps(s: Mux, t: Mux, p: Pid)
    requires Inv(s) && FinishCall(s, t, p)
    ensures Inv(t)
  {
    var c := s.calls[p].chain;
    FinishCallSettles(s, t, p);
    SettlesMessages(s, t, p, true);
    forall q <- t.calls ensures ChainOk(t, t.calls[q]) {
      if q != p { SettlesOther(s, t, p, true, q); }
    }
    SettlesCalls(s, t, p, true);
  }

  // ---------- Replies ----------

  /** The first queued request with the tag of a reply is the request answered. */
  lemma ReplyFindsItsRequest(s: Mux)
    requires Inv(s) && s.inn != []
    ensures var i := Lookup(s.queue, s.rpc, s.inn[0].tag); i < |s.queue| && s.queue[i] == s.inn[0].uid
  {
    var u := s.inn[0].uid;
    assert Pipe(s)[0] == u && u in Pipe(s);
    assert s.inn[0] in s.inn;
    var k :| 0 <= k < |s.queue| && s.queue[k] == u;
    var i := Lookup(s.queue, s.rpc, s.inn[0].tag);
    assert s.queue[i] in s.queue;
  }

  lemma PipeHead(s: Mux, t: Mux)
    requires s.inn != [] && t.inn == s.inn[1..] && t.pending == s.pending && t.out == s.out
    ensures Pipe(s) == [s.inn[0].uid] + Pipe(t) && Pipe(s)[1..] == Pipe(t)
    ensures forall v <- Pipe(t) :: v in Pipe(s)
    ensures NoRepeats(Pipe(s)) ==> s.inn[0].uid !in Pipe(t)
  {
    assert ReplyUids(s.inn) == [s.inn[0].uid] + ReplyUids(s.inn[1..]);
    assert Pipe(s) == [s.inn[0].uid] + Pipe(t);
    var us, vs := Pipe(s), Pipe(t);
    assert forall k :: 0 <= k < |vs| ==> vs[k] == us[k + 1];
    assert NoRepeats(us) ==> forall k :: 0 <= k < |vs| ==> vs[k] != us[0];
  }

  lemma ReadReplyShape(s: Mux, t: Mux, p: Pid)
    requires Inv(s) && ReadReply(s, t, p)
    ensures t.queue == Unqueue(s.queue, s.inn[0].uid)
    ensures s.inn[0].uid in s.rpc
         && t.rpc == s.rpc[s.inn[0].uid := s.rpc[s.inn[0].uid].(done := true, got := Answer(s.inn[0].uid))]
    ensures t == s.(inn := s.inn[1..], queue := t.queue, rpc := t.rpc)
  {
    ReplyFindsItsRequest(s);
    UnqueueIsRemove(s.queue, Lookup(s.queue, s.rpc, s.inn[0].tag));
    assert s.inn[0] in s.inn;
  }

  lemma ReadReplyPipeOk(s: Mux, t: Mux, u: Uid)
    requires PipeOk(s) && Ordered(Pipe(s), s.rpc) && QueueOk(s) && s.inn != [] && u == s.inn[0].uid && u in s.rpc
    requires u in t.rpc && SameRequest(s.rpc[u], t.rpc[u])
    requires t == s.(inn := s.inn[1..], queue := Unqueue(s.queue, u), rpc := s.rpc[u := t.rpc[u]])
    ensures PipeOk(t) && Ordered(Pipe(t), t.rpc)
  {
    PipeHead(s, t);
    UnqueueOk(s.queue, u);
    InPipe(s);
    assert forall r <- t.inn :: r in s.inn;
  }

  lemma ReadReplyMessages(s: Mux, t: Mux, p: Pid)
    requires Inv(s) && ReadReply(s, t, p)
    ensures TagsOk(t) && QueueOk(t) && PipeOk(t) && Ordered(Pipe(t), t.rpc) && GotOk(t) && ReaderOk(t)
  {
    ReadReplyShape(s, t, p);
    ReadReplyPipeOk(s, t, s.inn[0].uid);
    ReadReplyQueue(s, t, s.inn[0].uid);
  }

  lemma ReadReplyQueue(s: Mux, t: Mux, u: Uid)
    requires TagsOk(s) && QueueOk(s) && GotOk(s) && ReaderOk(s) && u in s.rpc
    requires t.queue == Unqueue(s.queue, u) && t.rpc == s.rpc[u := s.rpc[u].(done := true, got := Answer(u))]
    requires t.used == s.used && t.calls == s.calls && t.rip == s.rip
    ensures TagsOk(t) && QueueOk(t) && GotOk(t) && ReaderOk(t)
  {
    UnqueueOk(s.queue, u);
  }

  lemma {:induction false} UnqueueIsRemove(queue: seq<Uid>, i: nat)
    requires i < |queue| && forall j :: 0 <= j < i ==> queue[j] != queue[i]
    ensures Unqueue(queue, queue[i]) == Remove(queue, i)
    decreases i
  {
    if i > 0 {
      var rest := queue[1..];
      assert rest[i - 1] == queue[i] && forall j :: 0 <= j < i - 1 ==> rest[j] == queue[j + 1];
      UnqueueIsRemove(rest, i - 1);
      assert Remove(queue, i) == [queue[0]] + Remove(rest, i - 1);
    }
  }

  lemma ReadReplyFlushed(s: Mux, t: Mux)
    requires FlushedOk(s) && Ordered(Pipe(s), s.rpc) && s.inn != [] && s.inn[0].uid in s.rpc
    requires t.rpc == s.rpc[s.inn[0].uid := s.rpc[s.inn[0].uid].(done := true, got := Answer(s.inn[0].uid))]
    requires t == s.(inn := s.inn[1..], queue := t.queue, rpc := t.rpc)
    ensures FlushedOk(t)
  {
    PipeHead(s, t);
    forall f <- t.rpc, b | t.rpc[f].done && t.rpc[f].flush && b in t.rpc[f].below ensures b !in Pipe(t) {
      if f == s.inn[0].uid && b in Pipe(t) {
        HeadComesFirst(Pipe(s), s.rpc, b);
      }
    }
  }

  lemma ReadReplyKeeps(s: Mux, t: Mux, p: Pid)
    requires Inv(s) && ReadReply(s, t, p)
    ensures Inv(t)
  {
    var u := s.inn[0].uid;
    ReadReplyShape(s, t, p);
    ReadReplyMessages(s, t, p);
    ReadReplyFlushed(s, t);
    forall q <- t.calls ensures ChainOk(t, t.calls[q]) {
      ReadReplyChain(s, t, s.calls[q]);
    }
    CallsFrame(s, t);
  }

  lemma ReadReplyChain(s: Mux, t: Mux, c: Call)
    requires QueueOk(s) && ChainOk(s, c) && s.inn != [] && s.inn[0].uid in s.rpc
    requires t.rpc == s.rpc[s.inn[0].uid := s.rpc[s.inn[0].uid].(done := true, got := Answer(s.inn[0].uid))]
    requires t == s.(inn := s.inn[1..], queue := Unqueue(s.queue, s.inn[0].uid), rpc := t.rpc)
    ensures ChainOk(t, c)
  {
    if c.In? {
      var u := s.inn[0].uid;
      PipeHead(s, t);
      UnqueueOk(s.queue, u);
      ShapeFrame(s.rpc, t.rpc, c.chain);
      assert Pipe(s)[0] == u && u in Pipe(s);
    }
  }

  lemma HeadComesFirst(us: seq<Uid>, rpc: Rpcs, b: Uid)
    requires us != [] && Ordered(us, rpc) && us[0] in rpc && b in us[1..]
    ensures b !in rpc[us[0]].below
  {
    var j :| 0 <= j < |us[1..]| && us[1..][j] == b;
    assert us[j + 1] == b;
  }

  // ---------- The server's steps ----------

  /** Messages are regrouped: some are dropped, the rest may only be answered sooner. */
  lemma ServerFrame(s: Mux, t: Mux)
    requires Inv(s) && t == s.(out := t.out, pending := t.pending, inn := t.inn)
    requires PipeOk(t) && Ordered(Pipe(t), t.rpc) && forall u <- Pipe(t) :: u in Pipe(s)
    ensures Inv(t)
  {
    forall q <- t.calls ensures ChainOk(t, t.calls[q]) {
      assert ChainOk(s, s.calls[q]);
    }
    CallsFrame(s, t);
  }

  lemma ServerTakesKeeps(s: Mux, t: Mux)
    requires Inv(s) && ServerTakes(s, t)
    ensures Inv(t)
  {
    TakesPipe(s, t);
    TakesPipeOk(s, t);
    ServerFrame(s, t);
  }

  lemma TakesPipe(s: Mux, t: Mux)
    requires ServerTakes(s, t)
    ensures Pipe(t) == Pipe(s)
  {
    assert MsgUids(s.out) == [s.out[0].uid] + MsgUids(t.out);
    assert MsgUids(t.pending) == MsgUids(s.pending) + [s.out[0].uid];
  }

  lemma TakesPipeOk(s: Mux, t: Mux)
    requires PipeOk(s) && ServerTakes(s, t) && Pipe(t) == Pipe(s)
    ensures PipeOk(t)
  {
    assert forall m <- t.pending :: m in s.pending || m == s.out[0];
    assert forall m <- t.out :: m in s.out;
  }

  /** a, then kept out of b, then c in front of what they were in front of. */
  ghost predicate Within(us: seq<Uid>, vs: seq<Uid>) {
    forall u <- us :: u in vs
  }

  /** u moves forward over kept, which is part of b, and the rest of b is dropped. */
  lemma MoveForward(a: seq<Uid>, b: seq<Uid>, kept: seq<Uid>, u: Uid, c: seq<Uid>, rpc: Rpcs)
    requires NoRepeats(a + b + [u] + c) && Ordered(a + b + [u] + c, rpc)
    requires Within(kept, b) && NoRepeats(kept) && Ordered(kept, rpc)
    requires u in rpc ==> forall v <- kept :: v !in rpc[u].below
    ensures NoRepeats(a + [u] + kept + c) && Ordered(a + [u] + kept + c, rpc)
    ensures Within(a + [u] + kept + c, a + b + [u] + c)
  {
    var us := a + b + [u] + c;
    Parts(a, b, u, c, rpc);
    Assemble(a, kept, u, c, rpc);
  }

  /** Different parts share nothing, and nothing below an earlier element is in a later part. */
  ghost predicate Apart(xs: seq<Uid>, ys: seq<Uid>, rpc: Rpcs) {
    forall x <- xs, y <- ys :: x != y && (x in rpc ==> y !in rpc[x].below)
  }

  ghost predicate Good(us: seq<Uid>, rpc: Rpcs) {
    NoRepeats(us) && Ordered(us, rpc)
  }

  lemma GoodJoin(xs: seq<Uid>, ys: seq<Uid>, rpc: Rpcs)
    ensures Good(xs + ys, rpc) <==> Good(xs, rpc) && Good(ys, rpc) && Apart(xs, ys, rpc)
  {
    var us := xs + ys;
    if Good(us, rpc) {
      assert forall i :: 0 <= i < |xs| ==> us[i] == xs[i];
      assert Good(xs, rpc);
      assert forall i :: 0 <= i < |ys| ==> ys[i] == us[|xs| + i];
      assert Good(ys, rpc);
      forall x <- xs, y <- ys ensures x != y && (x in rpc ==> y !in rpc[x].below) {
        var i :| 0 <= i < |xs| && xs[i] == x;
        var j :| 0 <= j < |ys| && ys[j] == y;
        assert us[i] == x && us[|xs| + j] == y;
      }
    }
    if Good(xs, rpc) && Good(ys, rpc) && Apart(xs, ys, rpc) {
      forall i, j | 0 <= i < j < |us| ensures us[i] != us[j] && (us[i] in rpc ==> us[j] !in rpc[us[i]].below) {
        if i < |xs| <= j { assert xs[i] in xs && ys[j - |xs|] in ys; }
      }
    }
  }

  lemma Parts(a: seq<Uid>, b: seq<Uid>, u: Uid, c: seq<Uid>, rpc: Rpcs)
    requires Good(a + b + [u] + c, rpc)
    ensures Good(a, rpc) && Good(b, rpc) && Good(c, rpc)
    ensures Apart(a, b, rpc) && Apart(a, [u], rpc) && Apart(a, c, rpc)
    ensures Apart(b, [u], rpc) && Apart(b, c, rpc) && Apart([u], c, rpc)
  {
    GoodJoin(a + b + [u], c, rpc);
    GoodJoin(a + b, [u], rpc);
    GoodJoin(a, b, rpc);
    assert forall x <- a :: x in a + b && x in a + b + [u];
    assert forall x <- b :: x in a + b && x in a + b + [u];
    assert u in a + b + [u];
  }

  lemma Assemble(a: seq<Uid>, kept: seq<Uid>, u: Uid, c: seq<Uid>, rpc: Rpcs)
    requires Good(a, rpc) && Good(kept, rpc) && Good(c, rpc)
    requires Apart(a, kept, rpc) && Apart(a, [u], rpc) && Apart(a, c, rpc)
    requires Apart([u], kept, rpc) && Apart(kept, c, rpc) && Apart([u], c, rpc)
    ensures Good(a + [u] + kept + c, rpc)
  {
    assert Good([u], rpc);
    GoodJoin(a, [u], rpc);
    assert forall x <- a + [u] :: x in a || x == u;
    assert u in [u];
    GoodJoin(a + [u], kept, rpc);
    assert forall x <- a + [u] + kept :: x in a || x == u || x in kept;
    GoodJoin(a + [u] + kept, c, rpc);
  }

  /** The pipe around a pending message. */
  lemma SplitPending(s: Mux, i: nat)
    requires i < |s.pending|
    ensures Pipe(s) == ReplyUids(s.inn) + MsgUids(s.pending[..i]) + [s.pending[i].uid]
                       + (MsgUids(s.pending[i + 1..]) + MsgUids(s.out))
  {
    assert MsgUids(s.pending) == MsgUids(s.pending[..i]) + [s.pending[i].uid] + MsgUids(s.pending[i + 1..]);
  }

  /** Pending message i is answered and only kept stays of those before it. */
  ghost predicate Answers(s: Mux, t: Mux, i: nat, kept: seq<Msg>) {
    && i < |s.pending| && (forall m <- kept :: m in s.pending[..i])
    && t == s.(pending := kept + s.pending[i + 1..], inn := s.inn + [Reply(s.pending[i].uid, s.pending[i].tag)])
  }

  lemma AnswersPipe(s: Mux, t: Mux, i: nat, kept: seq<Msg>)
    requires Answers(s, t, i, kept)
    ensures Pipe(t) == ReplyUids(s.inn) + [s.pending[i].uid] + MsgUids(kept)
                       + (MsgUids(s.pending[i + 1..]) + MsgUids(s.out))
    ensures forall m <- t.pending :: m in s.pending
    ensures forall r <- t.inn :: r in s.inn || r == Reply(s.pending[i].uid, s.pending[i].tag)
  {
    assert ReplyUids(t.inn) == ReplyUids(s.inn) + [s.pending[i].uid];
    assert MsgUids(t.pending) == MsgUids(kept) + MsgUids(s.pending[i + 1..]);
    assert forall m <- s.pending[i + 1..] :: m in s.pending;
    assert forall m <- s.pending[..i] :: m in s.pending;
  }

  /** Kept messages are a part of what was pending before message i, in the same order. */
  ghost predicate KeptOk(s: Mux, i: nat, kept: seq<Msg>)
    requires i < |s.pending|
  {
    && Within(MsgUids(kept), MsgUids(s.pending[..i]))
    && (Good(MsgUids(s.pending[..i]), s.rpc) ==> Good(MsgUids(kept), s.rpc))
    && (s.pending[i].uid in s.rpc ==> forall m <- kept :: m.uid !in s.rpc[s.pending[i].uid].below)
  }

  lemma AnswersKeeps(s: Mux, t: Mux, i: nat, kept: seq<Msg>)
    requires Inv(s) && Answers(s, t, i, kept) && KeptOk(s, i, kept)
    ensures Inv(t)
  {
    var u := s.pending[i].uid;
    var a, b, c := ReplyUids(s.inn), MsgUids(s.pending[..i]), MsgUids(s.pending[i + 1..]) + MsgUids(s.out);
    SplitPending(s, i);
    AnswersPipe(s, t, i, kept);
    Parts(a, b, u, c, s.rpc);
    MoveForward(a, b, MsgUids(kept), u, c, s.rpc);
    assert s.pending[i] in s.pending;
    AnswersPipeOk(s, t, i, kept);
    ServerFrame(s, t);
  }

  lemma AnswersPipeOk(s: Mux, t: Mux, i: nat, kept: seq<Msg>)
    requires PipeOk(s) && Answers(s, t, i, kept) && NoRepeats(Pipe(t)) && forall u <- Pipe(t) :: u in Pipe(s)
    ensures PipeOk(t)
  {
    AnswersPipe(s, t, i, kept);
    assert s.pending[i] in s.pending;
  }

  /** A request of its own is a flush for nothing; a flush is for requests that a flush of the same
      tag answers. */
  lemma BelowIsFlushed(s: Mux, f: Uid)
    requires Inv(s) && f in s.rpc
    ensures !s.rpc[f].flush ==> s.rpc[f].below == {}
    ensures forall b <- s.rpc[f].below ::
              b in s.rpc && (if s.rpc[b].flush then s.rpc[b].oldtag else s.rpc[b].tag) == s.rpc[f].oldtag
  {
    var q :| q in s.calls && Holds(s.calls[q], f);
    assert ChainOk(s, s.calls[q]);
    var c := s.calls[q].chain;
    var i :| 0 <= i < |c| && c[i] == f;
    assert LinkOk(s.rpc, c, i);
    forall b <- s.rpc[f].below
      ensures b in s.rpc && (if s.rpc[b].flush then s.rpc[b].oldtag else s.rpc[b].tag) == s.rpc[f].oldtag
    {
      var j :| 0 <= j < |c[..i]| && c[..i][j] == b;
      assert c[j] == b && b in c;
      assert LinkOk(s.rpc, c, j);
    }
  }

  lemma ServerAnswersKeeps(s: Mux, t: Mux, i: nat)
    requires Inv(s) && ServerAnswers(s, t, i)
    ensures Inv(t)
  {
    var m := s.pending[i];
    assert m in s.pending;
    BelowIsFlushed(s, m.uid);
    AnswersKeeps(s, t, i, s.pending[..i]);
  }

  lemma SparedMembers(ms: seq<Msg>, o: nat)
    ensures forall m <- Spared(ms, o) :: m in ms && (if m.flush then m.oldtag else m.tag) != o
  {
  }

  lemma WithinMsgs(kept: seq<Msg>, ms: seq<Msg>)
    requires forall m <- kept :: m in ms
    ensures Within(MsgUids(kept), MsgUids(ms))
  {
    forall u <- MsgUids(kept) ensures u in MsgUids(ms) {
      var i :| 0 <= i < |kept| && MsgUids(kept)[i] == u;
      assert kept[i] in ms;
      var j :| 0 <= j < |ms| && ms[j] == kept[i];
      assert MsgUids(ms)[j] == u;
    }
  }

  lemma {:induction false} SparedGood(ms: seq<Msg>, o: nat, rpc: Rpcs)
    requires Good(MsgUids(ms), rpc)
    ensures Good(MsgUids(Spared(ms, o)), rpc)
    decreases |ms|
  {
    if ms != [] {
      var rest := Spared(ms[1..], o);
      var u, us := ms[0].uid, MsgUids(ms[1..]);
      assert MsgUids(ms) == [u] + us;
      GoodJoin([u], us, rpc);
      SparedGood(ms[1..], o, rpc);
      SparedMembers(ms[1..], o);
      WithinMsgs(rest, ms[1..]);
      if Spared(ms, o) != rest { GoodCons(ms[0], us, rest, rpc); }
    }
  }

  lemma GoodCons(m: Msg, us: seq<Uid>, rest: seq<Msg>, rpc: Rpcs)
    requires Apart([m.uid], us, rpc) && Within(MsgUids(rest), us) && Good(MsgUids(rest), rpc)
    ensures Good(MsgUids([m] + rest), rpc)
  {
    assert MsgUids([m] + rest) == [m.uid] + MsgUids(rest);
    GoodJoin([m.uid], MsgUids(rest), rpc);
  }

  lemma ServerAnswersFlushKeeps(s: Mux, t: Mux, i: nat)
    requires Inv(s) && ServerAnswersFlush(s, t, i)
    ensures Inv(t)
  {
    var m := s.pending[i];
    var kept := Spared(s.pending[..i], m.oldtag);
    assert m in s.pending;
    BelowIsFlushed(s, m.uid);
    SparedMembers(s.pending[..i], m.oldtag);
    WithinMsgs(kept, s.pending[..i]);
    if Good(MsgUids(s.pending[..i]), s.rpc) { SparedGood(s.pending[..i], m.oldtag, s.rpc); }
    forall k <- kept ensures k.uid !in s.rpc[m.uid].below {
      assert k in s.pending;
    }
    AnswersKeeps(s, t, i, kept);
  }

  // ---------- Every run ----------

  lemma StepKeeps(s: Mux, t: Mux)
    requires Inv(s) && Step(s, t)
    ensures Inv(t)
  {
    if p, u, tag :| StartCall(s, t, p, u, tag) {
      StartCallKeeps(s, t, p, u, tag);
    } else if p :| Enqueue(s, t, p) {
      EnqueueKeeps(s, t, p);
    } else if p :| Transmit(s, t, p) {
      TransmitKeeps(s, t, p);
    } else if p :| BecomeReader(s, t, p) {
      BecomeReaderKeeps(s, t, p);
    } else if p :| WokenDone(s, t, p) {
      ToUnwindingKeeps(s, t, p);
    } else if p :| ReadReply(s, t, p) {
      ReadReplyKeeps(s, t, p);
    } else if p :| StopReading(s, t, p) {
      ToUnwindingKeeps(s, t, p);
    } else if p :| Interrupt(s, t, p) {
      InterruptKeeps(s, t, p);
    } else if p, u, tag :| StartFlush(s, t, p, u, tag) {
      StartFlushKeeps(s, t, p, u, tag);
    } else if p :| Unwind(s, t, p) {
      UnwindKeeps(s, t, p);
    } else if p :| FinishCall(s, t, p) {
      FinishCallKeeps(s, t, p);
    } else {
      ServerStepKeeps(s, t);
    }
  }

  lemma ServerStepKeeps(s: Mux, t: Mux)
    requires Inv(s)
    requires ServerTakes(s, t) || (exists i :: ServerAnswers(s, t, i)) || (exists i :: ServerAnswersFlush(s, t, i))
    ensures Inv(t)
  {
    if ServerTakes(s, t) {
      ServerTakesKeeps(s, t);
    } else if i :| ServerAnswers(s, t, i) {
      ServerAnswersKeeps(s, t, i);
    } else {
      var i :| ServerAnswersFlush(s, t, i);
      ServerAnswersFlushKeeps(s, t, i);
    }
  }

  lemma {:induction false} RunKeeps(run: seq<Mux>, i: nat)
    requires Run(run) && i < |run|
    ensures Inv(run[i])
  {
    if i > 0 {
      RunKeeps(run, i - 1);
      StepKeeps(run[i - 1], run[i]);
    }
  }

  /** In every run a call that returns with an answer has the server's answer to that very request,
      and a call that returns without one will not be answered any more. */
  lemma ReturnsOwnAnswer(run: seq<Mux>, i: nat, p: Pid)
    requires Run(run) && i < |run| && At(run[i], p, Returned)
    ensures var s := run[i]; var u := Top(s.calls[p]);
            && s.calls[p].chain == [u] && u in s.rpc && !s.rpc[u].flush
            && (s.rpc[u].got.Answer? ==> s.rpc[u].got.of == u)
            && u !in Pipe(s)
  {
    RunKeeps(run, i);
    var s := run[i];
    assert ChainOk(s, s.calls[p]);
    assert LinkOk(s.rpc, s.calls[p].chain, 0);
  }

  /** In every run live requests have distinct, unreserved tags; a tag whose answer may still come
      belongs to a live request, so it is not given out; and at most one caller reads. */
  lemma TagsAndReader(run: seq<Mux>, i: nat)
    requires Run(run) && i < |run|
    ensures var s := run[i];
            && (forall u <- s.rpc, v <- s.rpc :: u != v ==> s.rpc[u].tag != s.rpc[v].tag)
            && (forall u <- s.rpc :: 0 < s.rpc[u].tag < NOTAG)
            && (forall r <- s.inn :: !TagFree(s, r.tag)) && (forall m <- s.pending + s.out :: !TagFree(s, m.tag))
            && (forall p, q :: At(s, p, Reading) && At(s, q, Reading) ==> p == q)
  {
    RunKeeps(run, i);
    var s := run[i];
    forall m <- s.pending + s.out ensures !TagFree(s, m.tag) {
      assert m in s.pending || m in s.out;
    }
  }
}
