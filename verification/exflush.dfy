/**
 Flushing in exportfs (Xflush, slave and blockingslave of exportfs/exportsrv.c): one process takes the
 messages in and answers or hands them to slaves, which reply on their own. Every step here is one access
 to what the processes share, as they are ordered by the slaves' locks and rendezvous.
 */
module ExportFlush {
  import opened Words

  /** A message by its place among all that came. A Tflush carries the request that the client means: the
      last one it sent with that tag, if any. */
  type Id = nat

  datatype Msg = Work(tag: nat, slow: bool) | Flush(tag: nat, oldtag: nat, target: Option<Id>)

  datatype Out = Reply(id: Id) | Rflush(id: Id)

  /** Given a request; past the look at its flushtag; past its reply, or past that for being flushed. */
  datatype Stage = Given | Working | Done

  /** busy is set; or cleared again, with a Tflush perhaps still to be answered; or waiting. */
  datatype Slave = Idle | Busy(req: Id, stage: Stage, flush: Option<Id>) | Ending(req: Id, flush: Option<Id>)

  /** Ready for a message; about to hand one over; or looking for the one to flush from the i'th slave on. */
  datatype Main = Ready | Hand(id: Id) | Scan(id: Id, i: nat)

  datatype State = State(got: seq<Msg>, procs: seq<Slave>, main: Main, sent: seq<Out>)

  datatype Action = Recv(m: Msg) | HandTo(i: nat) | HandNew | Sweep(i: nat) | Look | NoneFound
    | Begin(i: nat) | Answer(i: nat) | Release(i: nat) | Finish(i: nat)

  const START := State([], [], Ready, [])

  // ---------- What the client may send ----------

  predicate IsWork(s: State, id: Id) {
    id < |s.got| && s.got[id].Work?
  }

  predicate IsFlush(s: State, id: Id) {
    id < |s.got| && s.got[id].Flush?
  }

  predicate HasTag(s: State, id: Id, tag: nat) {
    IsWork(s, id) && s.got[id].tag == tag
  }

  predicate Names(s: State, f: Id, id: Id) {
    IsFlush(s, f) && s.got[f].target == Some(id)
  }

  /** The client has the reply, or has the answer to the last Tflush it sent for it: flush(5). */
  ghost predicate Settled(s: State, id: Id) {
    (Reply(id) in s.sent && forall f: Id :: !Names(s, f, id))
    || exists f: Id :: Names(s, f, id) && Rflush(f) in s.sent && forall g: Id :: Names(s, g, id) ==> g <= f
  }

  /** The target is the last request with the tag. */
  ghost predicate Means(s: State, tag: nat, target: Option<Id>) {
    if target.None? then forall id: Id :: !HasTag(s, id, tag)
    else HasTag(s, target.value, tag) && forall id: Id :: HasTag(s, id, tag) ==> id <= target.value
  }

  /** A tag is not used again before what used it is settled. A Tflush means the last request with the tag it
      names. */
  ghost predicate ClientMay(s: State, m: Msg) {
    && (m.Work? ==> forall id: Id :: HasTag(s, id, m.tag) ==> Settled(s, id))
    && (m.Flush? ==> Means(s, m.oldtag, m.target))
  }

  // ---------- Steps ----------

  /** What Xflush looks for: a busy slave whose request has the tag. */
  predicate Hit(s: State, f: Id, i: nat)
    requires IsFlush(s, f) && i < |s.procs|
  {
    s.procs[i].Busy? && HasTag(s, s.procs[i].req, s.got[f].oldtag)
  }

  ghost predicate Enabled(s: State, a: Action) {
    match a
    case Recv(m) => s.main.Ready? && ClientMay(s, m)
    case HandTo(i) => s.main.Hand? && i < |s.procs| && s.procs[i].Idle?
    case HandNew => s.main.Hand? && Idle !in s.procs
    case Sweep(i) => s.main.Ready? && i < |s.procs| && s.procs[i].Idle?
    case Look => s.main.Scan? && s.main.i < |s.procs| && IsFlush(s, s.main.id)
    case NoneFound => s.main.Scan? && s.main.i == |s.procs|
    case Begin(i) => i < |s.procs| && s.procs[i].Busy? && s.procs[i].stage.Given?
    case Answer(i) => i < |s.procs| && s.procs[i].Busy? && s.procs[i].stage.Working?
    case Release(i) => i < |s.procs| && s.procs[i].Busy? && s.procs[i].stage.Done?
    case Finish(i) => i < |s.procs| && s.procs[i].Ending?
  }

  function SetProc(s: State, i: nat, p: Slave): State
    requires i < |s.procs|
  {
    s.(procs := s.procs[i := p])
  }

  function Send(s: State, o: Out): State {
    s.(sent := s.sent + [o])
  }

  function Taken(s: State, m: Msg): State {
    var id := |s.got|;
    var s' := s.(got := s.got + [m]);
    if m.Flush? then s'.(main := Scan(id, 0))
    else if m.slow then s'.(main := Hand(id))
    else Send(s', Reply(id))
  }

  ghost function Do(s: State, a: Action): State
    requires Enabled(s, a)
  {
    match a
    case Recv(m) => Taken(s, m)
    case HandTo(i) => SetProc(s, i, Busy(s.main.id, Given, None)).(main := Ready)
    case HandNew => s.(procs := [Busy(s.main.id, Given, None)] + s.procs, main := Ready)
    case Sweep(i) => s.(procs := s.procs[..i] + s.procs[i + 1..])
    case Look =>
      var i := s.main.i;
      if Hit(s, s.main.id, i) then SetProc(s, i, Busy(s.procs[i].req, s.procs[i].stage, Some(s.main.id))).(main := Ready)
      else s.(main := Scan(s.main.id, i + 1))
    case NoneFound => Send(s, Rflush(s.main.id)).(main := Ready)
    case Begin(i) => SetProc(s, i, s.procs[i].(stage := if s.procs[i].flush.None? then Working else Done))
    case Answer(i) => Send(SetProc(s, i, s.procs[i].(stage := Done)), Reply(s.procs[i].req))
    case Release(i) => SetProc(s, i, Ending(s.procs[i].req, s.procs[i].flush))
    case Finish(i) =>
      var p := s.procs[i];
      var s' := SetProc(s, i, Idle);
      if p.flush.Some? then Send(s', Rflush(p.flush.value)) else s'
  }

  // ---------- What is promised ----------

  /** A reply to a request after the answer to a Tflush that named it. */
  ghost predicate Late(s: State) {
    exists p, q :: 0 <= p < q < |s.sent| && s.sent[p].Rflush? && s.sent[q].Reply? && Names(s, s.sent[p].id, s.sent[q].id)
  }

  predicate WillReply(p: Slave, id: Id) {
    p.Busy? && p.req == id && (p.stage.Working? || (p.stage.Given? && p.flush.None?))
  }

  /** Its reply is still to come, unless it is flushed. */
  ghost predicate Pending(s: State, id: Id) {
    s.main == Hand(id) || exists i :: 0 <= i < |s.procs| && WillReply(s.procs[i], id)
  }

  /** Xflush finds the request that was meant, or one that was not while the one meant is past its reply. */
  ghost predicate GoodHit(s: State, a: Action)
    requires Enabled(s, a)
  {
    a.Look? && Hit(s, s.main.id, s.main.i) ==>
      forall t: Id :: Names(s, s.main.id, t) ==> s.procs[s.main.i].req == t || !Pending(s, t)
  }

  // ---------- Invariant ----------

  predicate Holds(p: Slave, id: Id) {
    !p.Idle? && p.req == id
  }

  predicate Over(p: Slave) {
    p.Ending? || (p.Busy? && p.stage.Done?)
  }

  ghost predicate Messages(s: State) {
    forall f: Id, id: Id :: Names(s, f, id) ==> id < f && HasTag(s, id, s.got[f].oldtag)
  }

  ghost predicate Places(s: State) {
    && (forall i :: 0 <= i < |s.procs| && !s.procs[i].Idle? ==> IsWork(s, s.procs[i].req))
    && (forall i :: 0 <= i < |s.procs| && !s.procs[i].Idle? && s.procs[i].flush.Some? ==> IsFlush(s, s.procs[i].flush.value))
    && (forall i, j :: 0 <= i < j < |s.procs| && !s.procs[i].Idle? && !s.procs[j].Idle? ==> s.procs[i].req != s.procs[j].req)
    && (s.main.Hand? ==> IsWork(s, s.main.id) && forall i :: 0 <= i < |s.procs| ==> !Holds(s.procs[i], s.main.id))
  }

  /** Slaves already looked at do not hold what is looked for. */
  ghost predicate Looked(s: State) {
    s.main.Scan? ==>
      (&& IsFlush(s, s.main.id) && s.main.id == |s.got| - 1 && Means(s, s.got[s.main.id].oldtag, s.got[s.main.id].target) && s.main.i <= |s.procs|
       && forall j :: 0 <= j < s.main.i && s.procs[j].Busy? ==> !HasTag(s, s.procs[j].req, s.got[s.main.id].oldtag))
  }

  /** What was answered is not answered again. */
  ghost predicate Answered(s: State) {
    && (forall id: Id :: Reply(id) in s.sent ==> IsWork(s, id) && s.main != Hand(id))
    && (forall id: Id, i :: Reply(id) in s.sent && 0 <= i < |s.procs| && Holds(s.procs[i], id) ==> Over(s.procs[i]))
    && (forall f: Id :: Rflush(f) in s.sent ==> IsFlush(s, f))
  }

  ghost predicate Basic(s: State) {
    Messages(s) && Places(s) && Looked(s) && Answered(s)
  }

  /** A request that an answered Tflush named, or one that is to be answered when its slave is done, does not
      reply any more; nor does one whose tag has been used again. */
  ghost predicate Dropped(s: State) {
    && (forall f: Id, id: Id :: Rflush(f) in s.sent && Names(s, f, id) ==> !Pending(s, id))
    && (forall i, id: Id :: 0 <= i < |s.procs| && !s.procs[i].Idle? && s.procs[i].flush.Some? && Names(s, s.procs[i].flush.value, id)
          ==> id == s.procs[i].req || !Pending(s, id))
    && (forall r: Id, t: Id :: r < t && IsWork(s, t) && HasTag(s, r, s.got[t].tag) ==> !Pending(s, r))
  }

  lemma StartIsGood()
    ensures Basic(START) && Dropped(START) && !Late(START)
  {
    assert START.sent == [] && START.procs == [] && START.got == [];
  }

  // ---------- The invariant in every step ----------

  lemma BasicRecv(s: State, m: Msg)
    requires Basic(s) && Enabled(s, Recv(m))
    ensures Basic(Do(s, Recv(m)))
  {
    var s' := Do(s, Recv(m));
    assert forall id: Id :: IsWork(s, id) ==> IsWork(s', id);
    assert forall f: Id :: IsFlush(s, f) ==> IsFlush(s', f);
    assert forall f: Id, id: Id :: Names(s', f, id) && f < |s.got| ==> Names(s, f, id);
    assert forall id: Id, tag :: HasTag(s, id, tag) ==> HasTag(s', id, tag);
    if m.Flush? {
      assert forall id: Id :: HasTag(s', id, m.oldtag) ==> HasTag(s, id, m.oldtag);
      assert Means(s', m.oldtag, m.target);
    }
  }

  lemma SameMessages(s: State, s': State)
    requires s'.got == s.got
    ensures forall f: Id, id: Id :: Names(s', f, id) == Names(s, f, id)
    ensures forall id: Id, tag :: HasTag(s', id, tag) == HasTag(s, id, tag)
    ensures forall f: Id :: IsFlush(s', f) == IsFlush(s, f) && IsWork(s', f) == IsWork(s, f)
  {
  }

  lemma BasicHand(s: State, a: Action)
    requires Basic(s) && Enabled(s, a) && (a.HandTo? || a.HandNew?)
    ensures Basic(Do(s, a))
  {
    var s' := Do(s, a);
    SameMessages(s, s');
    if a.HandNew? {
      assert forall i :: 1 <= i < |s'.procs| ==> s'.procs[i] == s.procs[i - 1];
    }
  }

  lemma BasicSweep(s: State, a: Action)
    requires Basic(s) && Enabled(s, a) && a.Sweep?
    ensures Basic(Do(s, a))
  {
    var s' := Do(s, a);
    SameMessages(s, s');
    assert forall i :: 0 <= i < |s'.procs| ==> s'.procs[i] == s.procs[if i < a.i then i else i + 1];
  }

  lemma BasicLook(s: State, a: Action)
    requires Basic(s) && Enabled(s, a) && (a.Look? || a.NoneFound?)
    ensures Basic(Do(s, a))
  {
    SameMessages(s, Do(s, a));
  }

  lemma BasicWork(s: State, a: Action)
    requires Basic(s) && Enabled(s, a) && (a.Begin? || a.Answer?)
    ensures Basic(Do(s, a))
  {
    SameMessages(s, Do(s, a));
  }

  lemma BasicEnd(s: State, a: Action)
    requires Basic(s) && Enabled(s, a) && (a.Release? || a.Finish?)
    ensures Basic(Do(s, a))
  {
    SameMessages(s, Do(s, a));
  }

  lemma BasicStep(s: State, a: Action)
    requires Basic(s) && Enabled(s, a)
    ensures Basic(Do(s, a))
  {
    match a
    case Recv(m) => BasicRecv(s, m);
    case HandTo(_) => BasicHand(s, a);
    case HandNew => BasicHand(s, a);
    case Sweep(_) => BasicSweep(s, a);
    case Look => BasicLook(s, a);
    case NoneFound => BasicLook(s, a);
    case Begin(_) => BasicWork(s, a);
    case Answer(_) => BasicWork(s, a);
    case Release(_) => BasicEnd(s, a);
    case Finish(_) => BasicEnd(s, a);
  }

  /** Where a slave that has a request was before. */
  function Before(a: Action, i: nat): int {
    if a.HandNew? then i - 1 else if a.Sweep? && i >= a.i then i + 1 else i
  }

  lemma Came(s: State, a: Action, i: nat)
    requires Enabled(s, a) && i < |Do(s, a).procs| && !Do(s, a).procs[i].Idle?
    ensures var p, j := Do(s, a).procs[i], Before(a, i);
            if (a.HandNew? && i == 0) || (a.HandTo? && i == a.i) then p == Busy(s.main.id, Given, None)
            else (&& 0 <= j < |s.procs| && !s.procs[j].Idle? && p.req == s.procs[j].req
                  && (p.flush == s.procs[j].flush || (a.Look? && j == s.main.i && Hit(s, s.main.id, j) && p.flush == Some(s.main.id))))
  {
  }

  /** Where it is after. */
  function Then(a: Action, i: nat): nat {
    if a.HandNew? then i + 1 else if a.Sweep? && i > a.i then i - 1 else i
  }

  lemma Goes(s: State, a: Action, i: nat)
    requires Enabled(s, a) && i < |s.procs| && !s.procs[i].Idle? && !(a.Finish? && a.i == i)
    ensures Then(a, i) < |Do(s, a).procs|
    ensures var p, q := s.procs[i], Do(s, a).procs[Then(a, i)];
            && !q.Idle? && q.req == p.req
            && q.flush == if a.Look? && i == s.main.i && Hit(s, s.main.id, i) then Some(s.main.id) else p.flush
  {
  }

  lemma WouldReplyBefore(s: State, a: Action, i: nat, id: Id)
    requires Enabled(s, a) && i < |Do(s, a).procs| && WillReply(Do(s, a).procs[i], id)
    requires !((a.HandNew? && i == 0) || (a.HandTo? && i == a.i))
    ensures 0 <= Before(a, i) < |s.procs| && WillReply(s.procs[Before(a, i)], id)
  {
  }

  /** What will not reply never will. */
  lemma PendingShrinks(s: State, a: Action, id: Id)
    requires Basic(s) && Enabled(s, a) && id < |s.got| && Pending(Do(s, a), id)
    ensures Pending(s, id)
  {
    var s' := Do(s, a);
    if s'.main != Hand(id) {
      var i: nat :| i < |s'.procs| && WillReply(s'.procs[i], id);
      if !((a.HandNew? && i == 0) || (a.HandTo? && i == a.i)) {
        WouldReplyBefore(s, a, i, id);
      }
    }
  }

  lemma RepliedIsOver(s: State, id: Id)
    requires Basic(s) && Reply(id) in s.sent
    ensures !Pending(s, id)
  {
    forall i | 0 <= i < |s.procs|
      ensures !WillReply(s.procs[i], id)
    {
      assert Holds(s.procs[i], id) ==> Over(s.procs[i]);
    }
  }

  /** A request whose slave is past its reply does not reply elsewhere. */
  lemma HeldOnce(s: State, i: nat, id: Id)
    requires Basic(s) && i < |s.procs| && Holds(s.procs[i], id) && Over(s.procs[i])
    ensures !Pending(s, id)
  {
  }

  /** A search that came to the end leaves nothing pending that it was for. */
  lemma SearchedAll(s: State, id: Id)
    requires Basic(s) && s.main.Scan? && s.main.i == |s.procs| && Names(s, s.main.id, id)
    ensures !Pending(s, id)
  {
    forall i | 0 <= i < |s.procs|
      ensures !WillReply(s.procs[i], id)
    {
      assert s.procs[i].Busy? ==> !HasTag(s, s.procs[i].req, s.got[s.main.id].oldtag);
    }
  }

  lemma AnsweredDropped(s: State, a: Action, f: Id, id: Id)
    requires Basic(s) && Dropped(s) && Enabled(s, a) && Rflush(f) in Do(s, a).sent && Names(Do(s, a), f, id)
    ensures !Pending(Do(s, a), id)
  {
    BasicStep(s, a);
    assert IsFlush(s, f);
    assert Names(s, f, id);
    if Rflush(f) !in s.sent {
      if a.NoneFound? {
        SearchedAll(s, id);
      } else if id == s.procs[a.i].req {
        HeldOnce(s, a.i, id);
      }
    }
    if Pending(Do(s, a), id) {
      PendingShrinks(s, a, id);
    }
  }

  lemma OwedDropped(s: State, a: Action, i: nat, id: Id)
    requires Basic(s) && Dropped(s) && Enabled(s, a) && GoodHit(s, a)
    requires var s' := Do(s, a);
             i < |s'.procs| && !s'.procs[i].Idle? && s'.procs[i].flush.Some? && Names(s', s'.procs[i].flush.value, id)
    ensures id == Do(s, a).procs[i].req || !Pending(Do(s, a), id)
  {
    var s', j := Do(s, a), Before(a, i);
    Came(s, a, i);
    var f := s'.procs[i].flush.value;
    assert s.procs[j].flush == Some(f) ==> IsFlush(s, f);
    assert Names(s, f, id);
    if Pending(s', id) {
      PendingShrinks(s, a, id);
    }
  }

  lemma ReusedDropped(s: State, a: Action, r: Id, t: Id)
    requires Basic(s) && Dropped(s) && Enabled(s, a)
    requires var s' := Do(s, a); r < t && IsWork(s', t) && HasTag(s', r, s'.got[t].tag)
    ensures !Pending(Do(s, a), r)
  {
    if t == |s.got| {
      assert HasTag(s, r, a.m.tag);
      if Reply(r) in s.sent {
        RepliedIsOver(s, r);
      }
    } else {
      assert HasTag(s, r, s.got[t].tag);
    }
    if Pending(Do(s, a), r) {
      PendingShrinks(s, a, r);
    }
  }

  lemma DroppedStep(s: State, a: Action)
    requires Basic(s) && Dropped(s) && Enabled(s, a) && GoodHit(s, a)
    ensures Dropped(Do(s, a))
  {
    var s' := Do(s, a);
    forall f: Id, id: Id | Rflush(f) in s'.sent && Names(s', f, id)
      ensures !Pending(s', id)
    {
      AnsweredDropped(s, a, f, id);
    }
    forall i, id: Id | 0 <= i < |s'.procs| && !s'.procs[i].Idle? && s'.procs[i].flush.Some? && Names(s', s'.procs[i].flush.value, id)
      ensures id == s'.procs[i].req || !Pending(s', id)
    {
      OwedDropped(s, a, i, id);
    }
    forall r: Id, t: Id | r < t && IsWork(s', t) && HasTag(s', r, s'.got[t].tag)
      ensures !Pending(s', r)
    {
      ReusedDropped(s, a, r, t);
    }
  }

  lemma NotLateStep(s: State, a: Action)
    requires Basic(s) && Dropped(s) && !Late(s) && Enabled(s, a)
    ensures !Late(Do(s, a))
  {
    var s' := Do(s, a);
    BasicStep(s, a);
    forall p, q | 0 <= p < q < |s'.sent| && s'.sent[p].Rflush? && s'.sent[q].Reply?
      ensures !Names(s', s'.sent[p].id, s'.sent[q].id)
    {
      var f, id := s'.sent[p].id, s'.sent[q].id;
      assert s.sent[p] == Rflush(f);
      if q < |s.sent| {
        assert s.sent[q] == Reply(id);
      } else if id < |s.got| {
        assert WillReply(s.procs[a.i], id);
      }
      assert Names(s', f, id) ==> Names(s, f, id);
    }
  }

  // ---------- Runs ----------

  ghost predicate Leads(s: State, acts: seq<Action>, t: State)
    decreases |acts|
  {
    if acts == [] then s == t else Enabled(s, acts[0]) && Leads(Do(s, acts[0]), acts[1..], t)
  }

  ghost predicate AllGood(s: State, acts: seq<Action>)
    decreases |acts|
  {
    acts == [] || (Enabled(s, acts[0]) && GoodHit(s, acts[0]) && AllGood(Do(s, acts[0]), acts[1..]))
  }

  lemma {:induction false} GoodRun(s: State, acts: seq<Action>, t: State)
    requires Basic(s) && Dropped(s) && !Late(s) && Leads(s, acts, t) && AllGood(s, acts)
    ensures Basic(t) && Dropped(t) && !Late(t)
    decreases |acts|
  {
    if acts != [] {
      BasicStep(s, acts[0]);
      DroppedStep(s, acts[0]);
      NotLateStep(s, acts[0]);
      GoodRun(Do(s, acts[0]), acts[1..], t);
    }
  }

  /** As long as Xflush finds what is meant, no reply comes after the answer to a Tflush that named it. */
  lemma NeverLate(acts: seq<Action>, t: State)
    requires Leads(START, acts, t) && AllGood(START, acts)
    ensures !Late(t)
  {
    StartIsGood();
    GoodRun(START, acts, t);
  }

  // ---------- When it is another ----------

  lemma {:induction false} LeadsOn(s: State, acts: seq<Action>, t: State, more: seq<Action>, u: State)
    requires Leads(s, acts, t) && Leads(t, more, u)
    ensures Leads(s, acts + more, u)
    decreases |acts|
  {
    if acts == [] {
      assert acts + more == more;
    } else {
      LeadsOn(Do(s, acts[0]), acts[1..], t, more, u);
      assert (acts + more)[1..] == acts[1..] + more;
    }
  }

  lemma OneStep(s: State, a: Action)
    requires Enabled(s, a)
    ensures Leads(s, [a], Do(s, a))
  {
    assert Leads(Do(s, a), [a][1..], Do(s, a));
  }

  /** A slave that does not reply any more can go on to answer the Tflush. */
  lemma SlaveEnds(s: State, i: nat) returns (acts: seq<Action>, t: State)
    requires i < |s.procs| && s.procs[i].Busy? && s.procs[i].flush.Some? && !s.procs[i].stage.Working?
    ensures Leads(s, acts, t) && t == Send(SetProc(s, i, Idle), Rflush(s.procs[i].flush.value))
  {
    acts, t := [], s;
    if s.procs[i].stage.Given? {
      OneStep(s, Begin(i));
      acts, t := [Begin(i)], Do(s, Begin(i));
    }
    OneStep(t, Release(i));
    LeadsOn(s, acts, t, [Release(i)], Do(t, Release(i)));
    acts, t := acts + [Release(i)], Do(t, Release(i));
    OneStep(t, Finish(i));
    LeadsOn(s, acts, t, [Finish(i)], Do(t, Finish(i)));
    acts, t := acts + [Finish(i)], Do(t, Finish(i));
    assert t.procs == SetProc(s, i, Idle).procs;
  }

  /** A slave that will reply can. */
  lemma SlaveReplies(s: State, j: nat, id: Id) returns (acts: seq<Action>, t: State)
    requires j < |s.procs| && WillReply(s.procs[j], id)
    ensures Leads(s, acts, t) && t.sent == s.sent + [Reply(id)] && t.got == s.got
  {
    acts, t := [], s;
    if s.procs[j].stage.Given? {
      OneStep(s, Begin(j));
      acts, t := [Begin(j)], Do(s, Begin(j));
    }
    OneStep(t, Answer(j));
    LeadsOn(s, acts, t, [Answer(j)], Do(t, Answer(j)));
    acts, t := acts + [Answer(j)], Do(t, Answer(j));
  }

  /** And if it finds another while the one meant has still to reply, that reply can come too late. */
  lemma BadHitGoesLate(s: State, a: Action) returns (acts: seq<Action>, t: State)
    requires Basic(s) && Dropped(s) && Enabled(s, a) && !GoodHit(s, a)
    ensures Leads(s, acts, t) && Late(t)
  {
    var i, f := s.main.i, s.main.id;
    var id: Id :| Names(s, f, id) && s.procs[i].req != id && Pending(s, id);
    var j :| 0 <= j < |s.procs| && WillReply(s.procs[j], id);
    var r := s.procs[i].req;
    assert HasTag(s, r, s.got[id].tag) && r < id;
    assert !Pending(s, r) && !WillReply(s.procs[i], r);
    var s1 := Do(s, a);
    OneStep(s, a);
    var acts1, s2 := SlaveEnds(s1, i);
    LeadsOn(s, [a], s1, acts1, s2);
    assert s2.procs[j] == s.procs[j];
    var acts2, s3 := SlaveReplies(s2, j, id);
    acts, t := [a] + acts1 + acts2, s3;
    LeadsOn(s, [a] + acts1, s2, acts2, s3);
    var n := |s.sent|;
    assert s3.sent == s.sent + [Rflush(f)] + [Reply(id)];
    assert s3.sent[n] == Rflush(f) && s3.sent[n + 1] == Reply(id) && Names(s3, f, id);
  }

  // ---------- It does happen ----------

  lemma {:induction false} AllGoodOn(s: State, acts: seq<Action>, t: State, more: seq<Action>)
    requires Leads(s, acts, t) && AllGood(s, acts) && AllGood(t, more)
    ensures AllGood(s, acts + more)
    decreases |acts|
  {
    if acts == [] {
      assert acts + more == more;
    } else {
      AllGoodOn(Do(s, acts[0]), acts[1..], t, more);
      assert (acts + more)[1..] == acts[1..] + more;
    }
  }

  lemma Go(acts: seq<Action>, s: State, a: Action, t: State)
    requires Leads(START, acts, s) && AllGood(START, acts) && Enabled(s, a) && !a.Look? && t == Do(s, a)
    ensures Leads(START, acts + [a], t) && AllGood(START, acts + [a])
  {
    OneStep(s, a);
    LeadsOn(START, acts, s, [a], t);
    assert AllGood(t, [a][1..]);
    AllGoodOn(START, acts, s, [a]);
  }

  lemma BothAtWork() returns (acts: seq<Action>, s: State)
    ensures Leads(START, acts, s) && AllGood(START, acts)
    ensures s == State([Work(1, true), Work(2, true)], [Busy(1, Given, None), Busy(0, Given, None)], Ready, [])
  {
    var m0, m1 := Work(1, true), Work(2, true);
    var s1 := State([m0], [], Hand(0), []);
    Go([], START, Recv(m0), s1);
    var s2 := State([m0], [Busy(0, Given, None)], Ready, []);
    Go([] + [Recv(m0)], s1, HandNew, s2);
    var s3 := State([m0, m1], [Busy(0, Given, None)], Hand(1), []);
    Go([] + [Recv(m0)] + [HandNew], s2, Recv(m1), s3);
    s := State([m0, m1], [Busy(1, Given, None), Busy(0, Given, None)], Ready, []);
    Go([] + [Recv(m0)] + [HandNew] + [Recv(m1)], s3, HandNew, s);
    acts := [] + [Recv(m0)] + [HandNew] + [Recv(m1)] + [HandNew];
  }

  /** Two slaves at work: the second, at the head of the list, and the first free again. */
  lemma TwoSlaves() returns (acts: seq<Action>, s: State)
    ensures Leads(START, acts, s) && AllGood(START, acts)
    ensures s == State([Work(1, true), Work(2, true)], [Busy(1, Given, None), Idle], Ready, [Reply(0)])
  {
    var s4;
    acts, s4 := BothAtWork();
    var s5 := SetProc(s4, 1, Busy(0, Working, None));
    Go(acts, s4, Begin(1), s5);
    var s6 := Send(SetProc(s4, 1, Busy(0, Done, None)), Reply(0));
    Go(acts + [Begin(1)], s5, Answer(1), s6);
    var s7 := Send(SetProc(s4, 1, Ending(0, None)), Reply(0));
    Go(acts + [Begin(1)] + [Answer(1)], s6, Release(1), s7);
    s := Send(SetProc(s4, 1, Idle), Reply(0));
    Go(acts + [Begin(1)] + [Answer(1)] + [Release(1)], s7, Finish(1), s);
    acts := acts + [Begin(1)] + [Answer(1)] + [Release(1)] + [Finish(1)];
  }

  /** The slave at the head has replied but is still busy when its tag is used again, for the other one. */
  lemma TagUsedAgain() returns (acts: seq<Action>, s: State)
    ensures Leads(START, acts, s) && AllGood(START, acts)
    ensures s == State([Work(1, true), Work(2, true), Work(2, true), Flush(3, 2, Some(2))],
                       [Busy(1, Done, None), Busy(2, Given, None)], Scan(3, 0), [Reply(0), Reply(1)])
  {
    var s8;
    acts, s8 := TwoSlaves();
    var s9 := SetProc(s8, 0, Busy(1, Working, None));
    Go(acts, s8, Begin(0), s9);
    var s10 := Send(SetProc(s8, 0, Busy(1, Done, None)), Reply(1));
    Go(acts + [Begin(0)], s9, Answer(0), s10);
    var m2, m3 := Work(2, true), Flush(3, 2, Some(2));
    assert Reply(1) in s10.sent && Settled(s10, 1);
    var s11 := State(s8.got + [m2], s10.procs, Hand(2), s10.sent);
    Go(acts + [Begin(0)] + [Answer(0)], s10, Recv(m2), s11);
    var s12 := State(s11.got, [Busy(1, Done, None), Busy(2, Given, None)], Ready, s10.sent);
    Go(acts + [Begin(0)] + [Answer(0)] + [Recv(m2)], s11, HandTo(1), s12);
    s := State(s12.got + [m3], s12.procs, Scan(3, 0), s12.sent);
    Go(acts + [Begin(0)] + [Answer(0)] + [Recv(m2)] + [HandTo(1)], s12, Recv(m3), s);
    acts := acts + [Begin(0)] + [Answer(0)] + [Recv(m2)] + [HandTo(1)] + [Recv(m3)];
  }

  /** Then the Tflush meant for the new request goes to the old one, and the reply can come too late. */
  lemma LateReply() returns (acts: seq<Action>, t: State)
    ensures Leads(START, acts, t) && Late(t)
  {
    var first, s := TagUsedAgain();
    StartIsGood();
    GoodRun(START, first, s);
    assert Hit(s, 3, 0) && Names(s, 3, 2) && WillReply(s.procs[1], 2);
    var more;
    more, t := BadHitGoesLate(s, Look);
    LeadsOn(START, first, s, more, t);
    acts := first + more;
  }

  // ---------- A client that does not use a tag for two requests ----------

  ghost predicate TagsDiffer(s: State) {
    forall r: Id, t: Id :: IsWork(s, r) && IsWork(s, t) && s.got[r].tag == s.got[t].tag ==> r == t
  }

  lemma {:induction false} GotGrows(s: State, acts: seq<Action>, t: State)
    requires Leads(s, acts, t)
    ensures s.got <= t.got
    decreases |acts|
  {
    if acts != [] {
      GotGrows(Do(s, acts[0]), acts[1..], t);
      assert s.got <= Do(s, acts[0]).got;
    }
  }

  lemma {:induction false} GoodWithTags(s: State, acts: seq<Action>, t: State)
    requires Basic(s) && Leads(s, acts, t) && TagsDiffer(t)
    ensures AllGood(s, acts)
    decreases |acts|
  {
    if acts != [] {
      var s' := Do(s, acts[0]);
      GotGrows(s, acts, t);
      forall r: Id, u: Id | IsWork(s, r) && IsWork(s, u) && s.got[r].tag == s.got[u].tag
        ensures r == u
      {
        assert IsWork(t, r) && IsWork(t, u);
      }
      BasicStep(s, acts[0]);
      GoodWithTags(s', acts[1..], t);
    }
  }

  lemma NeverLateForOnce(acts: seq<Action>, t: State)
    requires Leads(START, acts, t) && TagsDiffer(t)
    ensures !Late(t)
  {
    StartIsGood();
    GoodWithTags(START, acts, t);
    NeverLate(acts, t);
  }

  // ---------- How requests and flushes end ----------

  /** A slave past its reply has sent it, or owes an answer to a Tflush of its tag. */
  ghost predicate Owing(s: State) {
    && (forall i :: 0 <= i < |s.procs| && Over(s.procs[i]) && s.procs[i].flush.None? ==> Reply(s.procs[i].req) in s.sent)
    && (forall i :: 0 <= i < |s.procs| && !s.procs[i].Idle? && s.procs[i].flush.Some? ==>
          IsFlush(s, s.procs[i].flush.value) && HasTag(s, s.procs[i].req, s.got[s.procs[i].flush.value].oldtag))
  }

  /** Answered itself, or by the answer to a Tflush of its tag. */
  ghost predicate Ended(s: State, id: Id)
    requires IsWork(s, id)
  {
    Reply(id) in s.sent || exists f: Id :: Rflush(f) in s.sent && IsFlush(s, f) && s.got[f].oldtag == s.got[id].tag
  }

  ghost predicate InHand(s: State, id: Id) {
    s.main == Hand(id) || exists i :: 0 <= i < |s.procs| && Holds(s.procs[i], id)
  }

  /** A flush is being looked for, or a slave has to answer it, or it is answered; or another one of the same
      tag has taken its place. */
  ghost predicate Heard(s: State, f: Id)
    requires IsFlush(s, f)
  {
    || (s.main.Scan? && s.main.id == f)
    || (exists i :: 0 <= i < |s.procs| && !s.procs[i].Idle? && s.procs[i].flush == Some(f))
    || Rflush(f) in s.sent
    || exists g: Id :: f < g && IsFlush(s, g) && s.got[g].oldtag == s.got[f].oldtag
  }

  ghost predicate Accounted(s: State) {
    && Owing(s)
    && (forall id: Id :: IsWork(s, id) ==> InHand(s, id) || Ended(s, id))
    && (forall f: Id :: IsFlush(s, f) ==> Heard(s, f))
  }

  lemma OwingStep(s: State, a: Action)
    requires Basic(s) && Owing(s) && Enabled(s, a)
    ensures Owing(Do(s, a))
  {
    var s' := Do(s, a);
    forall i: nat | i < |s'.procs| && !s'.procs[i].Idle?
      ensures Over(s'.procs[i]) && s'.procs[i].flush.None? ==> Reply(s'.procs[i].req) in s'.sent
      ensures s'.procs[i].flush.Some? ==> var f := s'.procs[i].flush.value; IsFlush(s', f) && HasTag(s', s'.procs[i].req, s'.got[f].oldtag)
    {
      OwingSlave(s, a, i);
    }
  }

  lemma OwingSlave(s: State, a: Action, i: nat)
    requires Basic(s) && Owing(s) && Enabled(s, a) && i < |Do(s, a).procs| && !Do(s, a).procs[i].Idle?
    ensures var s' := Do(s, a);
            && (Over(s'.procs[i]) && s'.procs[i].flush.None? ==> Reply(s'.procs[i].req) in s'.sent)
            && (s'.procs[i].flush.Some? ==> var f := s'.procs[i].flush.value; IsFlush(s', f) && HasTag(s', s'.procs[i].req, s'.got[f].oldtag))
  {
    Came(s, a, i);
    var j := Before(a, i);
    if !((a.HandNew? && i == 0) || (a.HandTo? && i == a.i)) {
      assert s.procs[j].flush.Some? ==> IsFlush(s, s.procs[j].flush.value);
      assert Over(s.procs[j]) && s.procs[j].flush.None? ==> Reply(s.procs[j].req) in s.sent;
    }
  }

  lemma HeldStep(s: State, a: Action, id: Id)
    requires Basic(s) && Owing(s) && Enabled(s, a) && IsWork(s, id) && InHand(s, id)
    ensures InHand(Do(s, a), id) || Ended(Do(s, a), id)
  {
    var s' := Do(s, a);
    if s.main == Hand(id) {
      var k := if a.HandTo? then a.i else 0;
      assert a.HandTo? || a.HandNew? ==> Holds(s'.procs[k], id);
    } else {
      var i: nat :| i < |s.procs| && Holds(s.procs[i], id);
      if a.Finish? && a.i == i {
        assert Over(s.procs[i]);
      } else {
        Goes(s, a, i);
        assert Holds(s'.procs[Then(a, i)], id);
      }
    }
  }

  lemma OwedStep(s: State, a: Action, f: Id, i: nat)
    requires Basic(s) && Owing(s) && Enabled(s, a) && IsFlush(s, f)
    requires i < |s.procs| && !s.procs[i].Idle? && s.procs[i].flush == Some(f)
    ensures Heard(Do(s, a), f)
  {
    if !(a.Finish? && a.i == i) {
      Goes(s, a, i);
      if a.Look? && i == s.main.i && Hit(s, s.main.id, i) {
        assert s.got[s.main.id].oldtag == s.got[f].oldtag;
        assert IsFlush(Do(s, a), s.main.id);
      } else {
        assert Do(s, a).procs[Then(a, i)].flush == Some(f);
      }
    }
  }

  lemma SoughtStep(s: State, a: Action)
    requires Basic(s) && Enabled(s, a) && s.main.Scan?
    ensures Heard(Do(s, a), s.main.id)
  {
    var f := s.main.id;
    if a.Look? && Hit(s, f, s.main.i) {
      assert Do(s, a).procs[s.main.i].flush == Some(f);
    }
  }

  lemma HeardStep(s: State, a: Action, f: Id)
    requires Basic(s) && Owing(s) && Enabled(s, a) && IsFlush(s, f) && Heard(s, f)
    ensures Heard(Do(s, a), f)
  {
    if s.main.Scan? && s.main.id == f {
      SoughtStep(s, a);
    } else if i: nat :| i < |s.procs| && !s.procs[i].Idle? && s.procs[i].flush == Some(f) {
      OwedStep(s, a, f, i);
    } else if g: Id :| f < g && IsFlush(s, g) && s.got[g].oldtag == s.got[f].oldtag {
      assert IsFlush(Do(s, a), g);
    }
  }

  lemma EndedStays(s: State, a: Action, id: Id)
    requires Enabled(s, a) && IsWork(s, id) && Ended(s, id)
    ensures Ended(Do(s, a), id)
  {
    var s' := Do(s, a);
    if Reply(id) !in s.sent {
      var f: Id :| Rflush(f) in s.sent && IsFlush(s, f) && s.got[f].oldtag == s.got[id].tag;
      assert Rflush(f) in s'.sent && IsFlush(s', f);
    }
  }

  lemma AccountedStep(s: State, a: Action)
    requires Basic(s) && Accounted(s) && Enabled(s, a)
    ensures Accounted(Do(s, a))
  {
    var s' := Do(s, a);
    OwingStep(s, a);
    forall id: Id | IsWork(s', id)
      ensures InHand(s', id) || Ended(s', id)
    {
      if id < |s.got| {
        assert IsWork(s, id);
        if InHand(s, id) {
          HeldStep(s, a, id);
        } else {
          EndedStays(s, a, id);
        }
      }
    }
    forall f: Id | IsFlush(s', f)
      ensures Heard(s', f)
    {
      if f < |s.got| {
        assert IsFlush(s, f);
        HeardStep(s, a, f);
      }
    }
  }

  ghost predicate RepliesOnce(s: State) {
    forall p, q :: 0 <= p < q < |s.sent| && s.sent[p].Reply? ==> s.sent[p] != s.sent[q]
  }

  lemma OnceStep(s: State, a: Action)
    requires Basic(s) && RepliesOnce(s) && Enabled(s, a)
    ensures RepliesOnce(Do(s, a))
  {
    var s' := Do(s, a);
    forall p, q | 0 <= p < q < |s'.sent| && s'.sent[p].Reply?
      ensures s'.sent[p] != s'.sent[q]
    {
      assert s'.sent[p] == s.sent[p] && s.sent[p] in s.sent;
    }
  }

  lemma {:induction false} AccountedRun(s: State, acts: seq<Action>, t: State)
    requires Basic(s) && Accounted(s) && RepliesOnce(s) && Leads(s, acts, t)
    ensures Accounted(t) && RepliesOnce(t)
    decreases |acts|
  {
    if acts != [] {
      BasicStep(s, acts[0]);
      AccountedStep(s, acts[0]);
      OnceStep(s, acts[0]);
      AccountedRun(Do(s, acts[0]), acts[1..], t);
    }
  }

  /** In every run a request is replied to once at most; when no slave has it any more it was replied to, or
      a Tflush of its tag was answered; and a Tflush is answered unless its slave still has to do that or a
      later one for the same tag took its place. */
  lemma AllEnd(acts: seq<Action>, t: State)
    requires Leads(START, acts, t)
    ensures Accounted(t) && RepliesOnce(t)
  {
    StartIsGood();
    AccountedRun(START, acts, t);
  }
}
