/**
 rlock, runlock, wlock and wunlock of kern/rwlock.c, interleaved at every lock: x and k are queueing
 locks, lk a spin lock.
 */
module RWLock {
  import opened Words
  import opened Qlock

  type Pid = nat

  /** Where a process is.  Wake: qunlock is about to procwakeup(p) and goes on at next. */
  datatype Pc =
    | Idle
    | RWantX        // rlock: in the queue of x, or given x and not yet running
    | RHasX         // rlock: has x
    | RCounting     // rlock: has x and lk
    | RCounted      // rlock: the same, readers counts this one, canqlock(k) is next
    | RDone         // rlock: has x, about to qunlock it
    | Reading
    | RLeaving      // runlock: has lk
    | RLast         // runlock: has lk, readers is 0, qunlock(k) is next
    | RLeft         // runlock: has lk, about to unlock it
    | WWantX        // wlock: in the queue of x, or given x and not yet running
    | WHasX         // wlock: has x
    | WWantK        // wlock: has x, and in the queue of k, or given k and not yet running
    | Writing
    | WDone         // wunlock: has x, about to qunlock it
    | Wake(p: Pid, next: Pc)

  /** woken: those a procwakeup has come for.  inside: the readers that readers counts; the program
      does not keep this set. */
  datatype Sys = Sys(pcs: map<Pid, Pc>, x: Q<Pid>, k: Q<Pid>, lk: Option<Pid>, readers: int,
                     woken: set<Pid>, inside: set<Pid>)

  ghost predicate Init(s: Sys) {
    && (forall p <- s.pcs :: s.pcs[p] == Idle)
    && s.x == Q(None, []) && s.k == Q(None, []) && s.lk == None && s.readers == 0 && s.woken == {} && s.inside == {}
  }

  ghost predicate At(s: Sys, p: Pid, pc: Pc) {
    p in s.pcs && s.pcs[p] == pc
  }

  function Go(s: Sys, p: Pid, pc: Pc): Sys {
    s.(pcs := s.pcs[p := pc])
  }

  /** After qunlock, p goes on at next, first waking whoever has the lock now. */
  function After(q: Q<Pid>, next: Pc): Pc {
    if q.hold.Some? then Wake(q.hold.value, next) else next
  }

  // ---------- Steps ----------

  /** qlock(&l->x), for a reader or a writer. */
  ghost predicate LockX(s: Sys, t: Sys, p: Pid, w: bool) {
    && At(s, p, Idle)
    && t == Go(s, p, if s.x.hold != None then (if w then WWantX else RWantX) else (if w then WHasX else RHasX))
            .(x := Enter(s.x, p))
  }

  /** procsleep returns. */
  ghost predicate Resume(s: Sys, t: Sys, p: Pid) {
    && p in s.pcs && p in s.woken && (s.pcs[p].RWantX? || s.pcs[p].WWantX? || s.pcs[p].WWantK?)
    && t == Go(s, p, match s.pcs[p] case RWantX => RHasX case WWantX => WHasX case _ => Writing)
            .(woken := s.woken - {p})
  }

  ghost predicate Wakeup(s: Sys, t: Sys, p: Pid) {
    p in s.pcs && s.pcs[p].Wake? && t == Go(s, p, s.pcs[p].next).(woken := s.woken + {s.pcs[p].p})
  }

  ghost predicate RLock(s: Sys, t: Sys, p: Pid) {
    At(s, p, RHasX) && s.lk == None && t == Go(s, p, RCounting).(lk := Some(p))
  }

  ghost predicate RCount(s: Sys, t: Sys, p: Pid) {
    At(s, p, RCounting) && t == Go(s, p, RCounted).(readers := s.readers + 1, inside := s.inside + {p})
  }

  ghost predicate RBlock(s: Sys, t: Sys, p: Pid) {
    At(s, p, RCounted) && t == Go(s, p, RDone).(k := Try(s.k, p), lk := None)
  }

  /** qunlock(&l->x), for a reader or a writer. */
  ghost predicate UnlockX(s: Sys, t: Sys, p: Pid) {
    && (At(s, p, RDone) || At(s, p, WDone))
    && t == Go(s, p, After(Leave(s.x), if At(s, p, RDone) then Reading else Idle)).(x := Leave(s.x))
  }

  ghost predicate RUnlock(s: Sys, t: Sys, p: Pid) {
    At(s, p, Reading) && s.lk == None && t == Go(s, p, RLeaving).(lk := Some(p))
  }

  ghost predicate RUncount(s: Sys, t: Sys, p: Pid) {
    && At(s, p, RLeaving)
    && t == Go(s, p, if s.readers - 1 == 0 then RLast else RLeft).(readers := s.readers - 1, inside := s.inside - {p})
  }

  ghost predicate RLastOut(s: Sys, t: Sys, p: Pid) {
    At(s, p, RLast) && t == Go(s, p, After(Leave(s.k), RLeft)).(k := Leave(s.k))
  }

  ghost predicate RLeave(s: Sys, t: Sys, p: Pid) {
    At(s, p, RLeft) && t == Go(s, p, Idle).(lk := None)
  }

  /** qlock(&l->k). */
  ghost predicate LockK(s: Sys, t: Sys, p: Pid) {
    At(s, p, WHasX) && t == Go(s, p, if s.k.hold != None then WWantK else Writing).(k := Enter(s.k, p))
  }

  ghost predicate WUnlock(s: Sys, t: Sys, p: Pid) {
    At(s, p, Writing) && t == Go(s, p, After(Leave(s.k), WDone)).(k := Leave(s.k))
  }

  ghost predicate ReaderStep(s: Sys, t: Sys, p: Pid) {
    LockX(s, t, p, false) || RLock(s, t, p) || RCount(s, t, p) || RBlock(s, t, p)
    || RUnlock(s, t, p) || RUncount(s, t, p) || RLastOut(s, t, p) || RLeave(s, t, p)
  }

  ghost predicate OtherStep(s: Sys, t: Sys, p: Pid) {
    LockX(s, t, p, true) || Resume(s, t, p) || Wakeup(s, t, p) || UnlockX(s, t, p) || LockK(s, t, p) || WUnlock(s, t, p)
  }

  ghost predicate Step(s: Sys, t: Sys) {
    exists p :: ReaderStep(s, t, p) || OtherStep(s, t, p)
  }

  ghost predicate StepAt(run: seq<Sys>, i: nat)
    requires i < |run| - 1
  {
    Step(run[i], run[i + 1])
  }

  ghost predicate Run(run: seq<Sys>) {
    && run != [] && Init(run[0])
    && forall i :: 0 <= i < |run| - 1 ==> StepAt(run, i)
  }

  // ---------- The invariant ----------

  function Base(pc: Pc): Pc {
    if pc.Wake? then pc.next else pc
  }

  /** Past qlock(&l->x) and before qunlock(&l->x) has let it go. */
  predicate HasX(pc: Pc) {
    var b := Base(pc);
    b.RHasX? || b.RCounting? || b.RCounted? || b.RDone? || b.WHasX? || b.WWantK? || b.Writing? || b.WDone?
  }

  predicate WantsX(pc: Pc) {
    pc.RWantX? || pc.WWantX?
  }

  predicate HasLk(pc: Pc) {
    var b := Base(pc);
    b.RCounting? || b.RCounted? || b.RLeaving? || b.RLast? || b.RLeft?
  }

  predicate IsInside(pc: Pc) {
    var b := Base(pc);
    b.RCounted? || b.RDone? || b.Reading? || b.RLeaving?
  }

  /** The lock that p waits for has been given to it. */
  ghost predicate Pending(s: Sys, p: Pid) {
    p in s.pcs && ((WantsX(s.pcs[p]) && p !in s.x.queue) || (s.pcs[p].WWantK? && p !in s.k.queue))
  }

  /** Has k as a writer, running or not. */
  ghost predicate Granted(s: Sys, p: Pid) {
    p in s.pcs && (s.pcs[p].Writing? || (s.pcs[p].WWantK? && p !in s.k.queue))
  }

  ghost predicate XOk(s: Sys, p: Pid)
    requires p in s.pcs
  {
    var pc := s.pcs[p];
    && (HasX(pc) ==> s.x.hold == Some(p))
    && (WantsX(pc) ==> s.x.hold == Some(p) || p in s.x.queue)
    && (p in s.x.queue ==> WantsX(pc) && s.x.hold != Some(p))
  }

  ghost predicate LkOk(s: Sys, p: Pid)
    requires p in s.pcs
  {
    var pc := s.pcs[p];
    && (HasLk(pc) <==> s.lk == Some(p))
    && (p in s.inside <==> IsInside(pc))
    && (p in s.inside && s.k.hold == None ==> pc.RCounted?)
    && (pc.RLast? ==> s.inside == {} && s.k.hold.Some?)
  }

  ghost predicate KOk(s: Sys, p: Pid)
    requires p in s.pcs
  {
    && (p in s.k.queue ==> s.pcs[p].WWantK?)
    && (Granted(s, p) ==> s.k.hold == Some(p) && s.inside == {} && !AtLast(s))
  }

  /** The holder of lk is about to let k go. */
  ghost predicate AtLast(s: Sys) {
    s.lk.Some? && s.lk.value in s.pcs && s.pcs[s.lk.value].RLast?
  }

  ghost predicate WakeOk(s: Sys, p: Pid)
    requires p in s.pcs
  {
    var pc := s.pcs[p];
    && (p in s.woken ==> Pending(s, p))
    && (pc.Wake? ==> pc.p != p && Pending(s, pc.p) && pc.p !in s.woken
                     && (pc.next.Idle? || pc.next.Reading? || pc.next.RLeft? || pc.next.WDone?))
  }

  ghost predicate ProcOk(s: Sys, p: Pid)
    requires p in s.pcs
  {
    XOk(s, p) && LkOk(s, p) && KOk(s, p) && WakeOk(s, p)
  }

  ghost predicate Distinct(l: seq<Pid>) {
    forall i, j :: 0 <= i < j < |l| ==> l[i] != l[j]
  }

  ghost predicate QueuesOk(s: Sys) {
    && Distinct(s.x.queue) && Distinct(s.k.queue) && Fair(s.x) && Fair(s.k)
    && (forall p <- s.x.queue :: p in s.pcs) && (forall p <- s.k.queue :: p in s.pcs)
    && (s.x.hold.Some? ==> s.x.hold.value in s.pcs && (HasX(s.pcs[s.x.hold.value]) || WantsX(s.pcs[s.x.hold.value])))
    && (s.lk.Some? ==> s.lk.value in s.pcs)
  }

  ghost predicate CountOk(s: Sys) {
    s.readers == |s.inside| && forall p <- s.inside :: p in s.pcs
  }

  /** If k is held, it is for a writer, for the readers, or by a last reader about to let it go. */
  ghost predicate HeldForSomebody(s: Sys) {
    s.k.hold.Some? ==> s.inside != {} || AtLast(s) || (s.x.hold.Some? && Granted(s, s.x.hold.value))
  }

  ghost predicate OneWaker(s: Sys) {
    forall a <- s.pcs, b <- s.pcs :: s.pcs[a].Wake? && s.pcs[b].Wake? && s.pcs[a].p == s.pcs[b].p ==> a == b
  }

  /** Who has been given a lock has been woken or is about to be. */
  ghost predicate NoneForgotten(s: Sys) {
    forall q <- s.pcs :: Pending(s, q) ==> q in s.woken || exists a <- s.pcs :: Wakes(s.pcs[a], q)
  }

  predicate Wakes(pc: Pc, q: Pid) {
    pc.Wake? && pc.p == q
  }

  ghost predicate Inv(s: Sys) {
    && (forall p <- s.pcs :: ProcOk(s, p))
    && QueuesOk(s) && CountOk(s) && HeldForSomebody(s) && OneWaker(s) && NoneForgotten(s)
  }

  // ---------- Each process, over each step ----------

  lemma LockXProc(s: Sys, t: Sys, p: Pid, w: bool, q: Pid)
    requires LockX(s, t, p, w) && q in s.pcs && ProcOk(s, p) && ProcOk(s, q) && QueuesOk(s)
    ensures ProcOk(t, q)
  {
  }

  lemma ResumeProc(s: Sys, t: Sys, p: Pid, q: Pid)
    requires Resume(s, t, p) && q in s.pcs && ProcOk(s, p) && ProcOk(s, q) && QueuesOk(s)
    requires !Wakes(s.pcs[q], p)
    ensures ProcOk(t, q)
  {
  }

  lemma WakeupProc(s: Sys, t: Sys, p: Pid, q: Pid)
    requires Wakeup(s, t, p) && q in s.pcs && ProcOk(s, p) && ProcOk(s, q) && QueuesOk(s)
    requires q != p ==> !Wakes(s.pcs[q], s.pcs[p].p)
    ensures ProcOk(t, q)
  {
  }

  lemma RLockProc(s: Sys, t: Sys, p: Pid, q: Pid)
    requires (RLock(s, t, p) || RUnlock(s, t, p) || RLeave(s, t, p)) && q in s.pcs && ProcOk(s, p) && ProcOk(s, q) && QueuesOk(s)
    ensures ProcOk(t, q)
  {
  }

  lemma RCountProc(s: Sys, t: Sys, p: Pid, q: Pid)
    requires RCount(s, t, p) && q in s.pcs && ProcOk(s, p) && ProcOk(s, q) && QueuesOk(s)
    ensures ProcOk(t, q)
  {
  }

  lemma RBlockProc(s: Sys, t: Sys, p: Pid, q: Pid)
    requires RBlock(s, t, p) && q in s.pcs && ProcOk(s, p) && ProcOk(s, q) && QueuesOk(s)
    ensures ProcOk(t, q)
  {
  }

  lemma HeadOut(l: seq<Pid>)
    requires Distinct(l) && l != []
    ensures Distinct(l[1..]) && l[0] !in l[1..] && forall q :: q in l <==> q == l[0] || q in l[1..]
  {
    assert forall i :: 0 <= i < |l| - 1 ==> l[1..][i] == l[i + 1];
  }

  ghost predicate HeadOk(s: Sys, l: seq<Pid>) {
    l != [] ==> l[0] in s.pcs && ProcOk(s, l[0])
  }

  lemma UnlockXProc(s: Sys, t: Sys, p: Pid, q: Pid)
    requires UnlockX(s, t, p) && q in s.pcs && ProcOk(s, p) && ProcOk(s, q) && QueuesOk(s) && HeadOk(s, s.x.queue)
    ensures ProcOk(t, q)
  {
    if s.x.queue != [] { HeadOut(s.x.queue); }
  }

  lemma RUncountProc(s: Sys, t: Sys, p: Pid, q: Pid)
    requires RUncount(s, t, p) && q in s.pcs && ProcOk(s, p) && ProcOk(s, q) && QueuesOk(s) && CountOk(s)
    ensures ProcOk(t, q)
  {
    assert p in s.inside && |s.inside - {p}| == |s.inside| - 1;
  }

  lemma RLastOutProc(s: Sys, t: Sys, p: Pid, q: Pid)
    requires RLastOut(s, t, p) && q in s.pcs && ProcOk(s, p) && ProcOk(s, q) && QueuesOk(s) && HeadOk(s, s.k.queue)
    ensures ProcOk(t, q)
  {
    if s.k.queue != [] { HeadOut(s.k.queue); }
  }

  /** When k is free, whoever is in is the holder of x, being counted. */
  lemma CountedOnly(s: Sys)
    requires Inv(s) && s.k.hold == None
    ensures forall q <- s.inside :: q in s.pcs && s.pcs[q].RCounted? && s.x.hold == Some(q)
  {
    forall q <- s.inside ensures q in s.pcs && s.pcs[q].RCounted? && s.x.hold == Some(q) {
      assert ProcOk(s, q);
    }
  }

  /** When one has x who is not a reader being counted, and k is free, k is free for good reason. */
  lemma KFree(s: Sys, p: Pid)
    requires Inv(s) && p in s.pcs && HasX(s.pcs[p]) && !s.pcs[p].RCounted? && s.k.hold == None
    ensures s.inside == {} && !AtLast(s)
  {
    CountedOnly(s);
    assert ProcOk(s, p);
    LastHoldsK(s);
  }

  lemma LastHoldsK(s: Sys)
    requires Inv(s)
    ensures AtLast(s) ==> s.k.hold.Some?
  {
    if AtLast(s) { assert ProcOk(s, s.lk.value); }
  }

  lemma LockKProc(s: Sys, t: Sys, p: Pid, q: Pid)
    requires LockK(s, t, p) && q in s.pcs && ProcOk(s, p) && ProcOk(s, q) && QueuesOk(s)
    requires s.k.hold == None ==> s.inside == {} && !AtLast(s)
    ensures ProcOk(t, q)
  {
  }

  lemma WUnlockProc(s: Sys, t: Sys, p: Pid, q: Pid)
    requires WUnlock(s, t, p) && q in s.pcs && ProcOk(s, p) && ProcOk(s, q) && QueuesOk(s) && HeadOk(s, s.k.queue)
    ensures ProcOk(t, q) && s.k.queue == []
  {
  }

  lemma StepProc(s: Sys, t: Sys, p: Pid, q: Pid)
    requires Inv(s) && (ReaderStep(s, t, p) || OtherStep(s, t, p)) && q in s.pcs
    ensures ProcOk(t, q)
  {
    assert ProcOk(s, p) && ProcOk(s, q);
    if LockX(s, t, p, false) { LockXProc(s, t, p, false, q); }
    else if LockX(s, t, p, true) { LockXProc(s, t, p, true, q); }
    else if Resume(s, t, p) { ResumeProc(s, t, p, q); }
    else if Wakeup(s, t, p) { WakeupProc(s, t, p, q); }
    else if RLock(s, t, p) || RUnlock(s, t, p) || RLeave(s, t, p) { RLockProc(s, t, p, q); }
    else if RCount(s, t, p) { RCountProc(s, t, p, q); }
    else if RBlock(s, t, p) { RBlockProc(s, t, p, q); }
    else if UnlockX(s, t, p) { UnlockXProc(s, t, p, q); }
    else if RUncount(s, t, p) { RUncountProc(s, t, p, q); }
    else if RLastOut(s, t, p) { RLastOutProc(s, t, p, q); }
    else if LockK(s, t, p) { if s.k.hold == None { KFree(s, p); } LockKProc(s, t, p, q); }
    else { WUnlockProc(s, t, p, q); }
  }

  // ---------- The rest of the invariant ----------

  /** Steps that do not qunlock. */
  ghost predicate PlainStep(s: Sys, t: Sys, p: Pid) {
    || LockX(s, t, p, false) || LockX(s, t, p, true) || Resume(s, t, p) || Wakeup(s, t, p)
    || RLock(s, t, p) || RCount(s, t, p) || RBlock(s, t, p) || RUnlock(s, t, p) || RUncount(s, t, p) || RLeave(s, t, p)
    || LockK(s, t, p)
  }

  ghost predicate UnlockStep(s: Sys, t: Sys, p: Pid) {
    UnlockX(s, t, p) || RLastOut(s, t, p) || WUnlock(s, t, p)
  }

  lemma EnterQueues(s: Sys, t: Sys, p: Pid, w: bool)
    requires QueuesOk(s) && (LockX(s, t, p, w) || LockK(s, t, p)) && ProcOk(s, p)
    ensures QueuesOk(t)
  {
  }

  lemma PlainQueues(s: Sys, t: Sys, p: Pid)
    requires QueuesOk(s) && PlainStep(s, t, p) && ProcOk(s, p)
    ensures QueuesOk(t)
  {
    if LockX(s, t, p, false) || LockK(s, t, p) {
      EnterQueues(s, t, p, false);
    } else if LockX(s, t, p, true) {
      EnterQueues(s, t, p, true);
    } else {
      assert t.x == s.x && t.k.queue == s.k.queue;
    }
  }

  lemma UnlockQueues(s: Sys, t: Sys, p: Pid)
    requires QueuesOk(s) && UnlockStep(s, t, p) && ProcOk(s, p) && HeadOk(s, s.x.queue)
    ensures QueuesOk(t)
  {
    if s.x.queue != [] { HeadOut(s.x.queue); }
    if s.k.queue != [] { HeadOut(s.k.queue); }
  }

  lemma StepCount(s: Sys, t: Sys, p: Pid)
    requires CountOk(s) && (PlainStep(s, t, p) || UnlockStep(s, t, p)) && LkOk(s, p)
    ensures CountOk(t)
  {
    if RCount(s, t, p) {
      assert p !in s.inside && |s.inside + {p}| == |s.inside| + 1;
    } else if RUncount(s, t, p) {
      assert p in s.inside && |s.inside - {p}| == |s.inside| - 1;
    } else {
      assert t.inside == s.inside && t.readers == s.readers;
    }
  }

  lemma ReaderHeld(s: Sys, t: Sys, p: Pid)
    requires p in s.pcs && HeldForSomebody(s) && CountOk(s) && ProcOk(s, p)
    requires RLock(s, t, p) || RCount(s, t, p) || RBlock(s, t, p) || RUnlock(s, t, p) || RUncount(s, t, p) || RLeave(s, t, p)
    ensures HeldForSomebody(t)
  {
    if RUncount(s, t, p) { assert p in s.inside && |s.inside - {p}| == |s.inside| - 1; }
  }

  lemma WriterHeld(s: Sys, t: Sys, p: Pid)
    requires p in s.pcs && HeldForSomebody(s) && QueuesOk(s) && ProcOk(s, p)
    requires LockX(s, t, p, false) || LockX(s, t, p, true) || Resume(s, t, p) || Wakeup(s, t, p) || LockK(s, t, p)
    ensures HeldForSomebody(t)
  {
  }

  lemma PlainHeld(s: Sys, t: Sys, p: Pid)
    requires HeldForSomebody(s) && CountOk(s) && QueuesOk(s) && PlainStep(s, t, p) && ProcOk(s, p)
    ensures HeldForSomebody(t)
  {
    if RLock(s, t, p) || RCount(s, t, p) || RBlock(s, t, p) || RUnlock(s, t, p) || RUncount(s, t, p) || RLeave(s, t, p) {
      ReaderHeld(s, t, p);
    } else {
      WriterHeld(s, t, p);
    }
  }

  lemma UnlockHeld(s: Sys, t: Sys, p: Pid)
    requires HeldForSomebody(s) && QueuesOk(s) && UnlockStep(s, t, p) && ProcOk(s, p) && HeadOk(s, s.k.queue)
    ensures HeldForSomebody(t)
  {
    if s.k.queue != [] { HeadOut(s.k.queue); }
  }

  lemma PlainWaker(s: Sys, t: Sys, p: Pid)
    requires OneWaker(s) && PlainStep(s, t, p) && WakeOk(s, p)
    ensures OneWaker(t)
  {
    assert forall a <- s.pcs :: t.pcs[a].Wake? ==> s.pcs[a].Wake? && s.pcs[a].p == t.pcs[a].p;
  }

  /** Nobody is about to wake the head of a queue. */
  lemma HeadUnwoken(s: Sys, h: Pid)
    requires (forall a <- s.pcs :: ProcOk(s, a)) && h in s.pcs && (h in s.x.queue || h in s.k.queue)
    ensures forall a <- s.pcs :: !Wakes(s.pcs[a], h)
  {
    forall a <- s.pcs ensures !Wakes(s.pcs[a], h) {
      assert ProcOk(s, a) && ProcOk(s, h);
    }
  }

  /** Whom an unlock wakes. */
  ghost predicate WakesHead(s: Sys, t: Sys, p: Pid) {
    p in s.pcs && !s.pcs[p].Wake? && t.pcs.Keys == s.pcs.Keys && t.pcs == s.pcs[p := t.pcs[p]]
    && (t.pcs[p].Wake? ==> t.pcs[p].p in s.pcs && (t.pcs[p].p in s.x.queue || t.pcs[p].p in s.k.queue))
  }

  lemma UnlockWaker(s: Sys, t: Sys, p: Pid)
    requires Inv(s) && WakesHead(s, t, p)
    ensures OneWaker(t)
  {
    if t.pcs[p].Wake? { HeadUnwoken(s, t.pcs[p].p); }
  }

  lemma UnlockWakesHead(s: Sys, t: Sys, p: Pid)
    requires UnlockStep(s, t, p) && QueuesOk(s)
    ensures WakesHead(s, t, p)
  {
  }

  /** The pending of s stay provided for, and the only new one is the one that p is about to wake. */
  ghost predicate Provides(s: Sys, t: Sys, p: Pid) {
    && p in s.pcs && t.pcs.Keys == s.pcs.Keys && t.pcs == s.pcs[p := t.pcs[p]]
    && (forall q <- s.pcs :: Pending(t, q) ==> Pending(s, q) || Wakes(t.pcs[p], q))
    && (forall q <- s.pcs :: Pending(t, q) && q in s.woken ==> q in t.woken)
    && (forall q <- s.pcs :: Wakes(s.pcs[p], q) ==> q in t.woken)
  }

  lemma EnterProvides(s: Sys, t: Sys, p: Pid, w: bool)
    requires (LockX(s, t, p, w) || LockK(s, t, p)) && ProcOk(s, p)
    ensures Provides(s, t, p)
  {
  }

  lemma PlainProvides(s: Sys, t: Sys, p: Pid)
    requires PlainStep(s, t, p) && ProcOk(s, p)
    ensures Provides(s, t, p)
  {
    if LockX(s, t, p, false) || LockK(s, t, p) {
      EnterProvides(s, t, p, false);
    } else if LockX(s, t, p, true) {
      EnterProvides(s, t, p, true);
    } else {
      SameQueuesProvide(s, t, p);
    }
  }

  lemma SameQueuesProvide(s: Sys, t: Sys, p: Pid)
    requires p in s.pcs && ProcOk(s, p)
    requires Resume(s, t, p) || Wakeup(s, t, p) || RLock(s, t, p) || RCount(s, t, p) || RBlock(s, t, p)
          || RUnlock(s, t, p) || RUncount(s, t, p) || RLeave(s, t, p)
    ensures Provides(s, t, p)
  {
    assert t.x.queue == s.x.queue && t.k.queue == s.k.queue;
    assert forall q <- s.pcs :: q != p ==> t.pcs[q] == s.pcs[q];
    assert !Pending(t, p);
  }

  lemma UnlockProvides(s: Sys, t: Sys, p: Pid)
    requires UnlockStep(s, t, p) && ProcOk(s, p) && QueuesOk(s)
    ensures Provides(s, t, p)
  {
    if s.x.queue != [] { HeadOut(s.x.queue); }
    if s.k.queue != [] { HeadOut(s.k.queue); }
  }

  lemma NoneLost(s: Sys, t: Sys, p: Pid)
    requires NoneForgotten(s) && Provides(s, t, p)
    ensures NoneForgotten(t)
  {
    forall q <- t.pcs | Pending(t, q) && q !in t.woken ensures exists a <- t.pcs :: Wakes(t.pcs[a], q) {
      if !Wakes(t.pcs[p], q) {
        var a :| a in s.pcs && Wakes(s.pcs[a], q);
        assert Wakes(t.pcs[a], q);
      }
    }
  }

  lemma PlainRest(s: Sys, t: Sys, p: Pid)
    requires Inv(s) && PlainStep(s, t, p)
    ensures QueuesOk(t) && CountOk(t) && HeldForSomebody(t) && OneWaker(t) && NoneForgotten(t)
  {
    assert ProcOk(s, p);
    PlainQueues(s, t, p);
    StepCount(s, t, p);
    PlainHeld(s, t, p);
    PlainWaker(s, t, p);
    PlainProvides(s, t, p);
    NoneLost(s, t, p);
  }

  lemma UnlockRest(s: Sys, t: Sys, p: Pid)
    requires Inv(s) && UnlockStep(s, t, p)
    ensures QueuesOk(t) && CountOk(t) && HeldForSomebody(t) && OneWaker(t) && NoneForgotten(t)
  {
    assert ProcOk(s, p) && HeadOk(s, s.x.queue) && HeadOk(s, s.k.queue);
    UnlockQueues(s, t, p);
    StepCount(s, t, p);
    UnlockHeld(s, t, p);
    UnlockWakesHead(s, t, p);
    UnlockWaker(s, t, p);
    UnlockProvides(s, t, p);
    NoneLost(s, t, p);
  }

  lemma StepKeeps(s: Sys, t: Sys, p: Pid)
    requires Inv(s) && (ReaderStep(s, t, p) || OtherStep(s, t, p))
    ensures Inv(t)
  {
    StepRest(s, t, p);
    forall q <- t.pcs ensures ProcOk(t, q) {
      StepSameProcs(s, t, p);
      StepProc(s, t, p, q);
    }
  }

  lemma StepSameProcs(s: Sys, t: Sys, p: Pid)
    requires ReaderStep(s, t, p) || OtherStep(s, t, p)
    ensures t.pcs.Keys == s.pcs.Keys
  {
  }

  lemma StepRest(s: Sys, t: Sys, p: Pid)
    requires Inv(s) && (ReaderStep(s, t, p) || OtherStep(s, t, p))
    ensures QueuesOk(t) && CountOk(t) && HeldForSomebody(t) && OneWaker(t) && NoneForgotten(t)
  {
    if PlainStep(s, t, p) { PlainRest(s, t, p); } else { UnlockRest(s, t, p); }
  }

  lemma {:induction false} RunKeeps(run: seq<Sys>, i: nat)
    requires Run(run) && i < |run|
    ensures Inv(run[i])
  {
    if i > 0 {
      RunKeeps(run, i - 1);
      assert StepAt(run, i - 1);
      var p :| ReaderStep(run[i - 1], run[i], p) || OtherStep(run[i - 1], run[i], p);
      StepKeeps(run[i - 1], run[i], p);
    }
  }

  // ---------- What it comes to ----------

  /** In every run a writer holds both x and k and shares the lock with no reader and no other
      writer, and readers counts exactly those readers that are in. */
  lemma Exclusion(run: seq<Sys>, i: nat, w: Pid, q: Pid)
    requires Run(run) && i < |run| && At(run[i], w, Writing) && q != w
    ensures var s := run[i];
            && s.x.hold == Some(w) && s.k.hold == Some(w) && s.readers == 0
            && !At(s, q, Reading) && !At(s, q, Writing)
  {
    RunKeeps(run, i);
    var s := run[i];
    assert ProcOk(s, w);
    if q in s.pcs { assert ProcOk(s, q); }
  }

  /** In every run readers is the number of readers in, so never negative; while one reads, k is held
      and no writer has it. */
  lemma ReadersHoldK(run: seq<Sys>, i: nat, q: Pid)
    requires Run(run) && i < |run| && At(run[i], q, Reading)
    ensures var s := run[i];
            s.readers == |set p | p in s.pcs && IsInside(s.pcs[p])| > 0 && s.k.hold.Some? && forall w :: !Granted(s, w)
  {
    RunKeeps(run, i);
    var s := run[i];
    assert ProcOk(s, q);
    forall p <- s.pcs ensures p in s.inside <==> IsInside(s.pcs[p]) { assert ProcOk(s, p); }
    assert s.inside == set p | p in s.pcs && IsInside(s.pcs[p]);
    forall w ensures !Granted(s, w) { if w in s.pcs { assert ProcOk(s, w); } }
  }

  ghost predicate CanStep(s: Sys) {
    exists p, t :: ReaderStep(s, t, p) || OtherStep(s, t, p)
  }

  /** Is p inside one of the four functions? */
  ghost predicate Busy(s: Sys, p: Pid) {
    p in s.pcs && !s.pcs[p].Idle? && !s.pcs[p].Reading? && !s.pcs[p].Writing?
  }

  /** The steps of a process that finds nothing in its way. */
  predicate Free(pc: Pc) {
    pc.Wake? || pc.RCounting? || pc.RCounted? || pc.RDone? || pc.WDone? || pc.RLeaving? || pc.RLast? || pc.RLeft? || pc.WHasX?
  }

  lemma FreeSteps(s: Sys, p: Pid)
    requires p in s.pcs && (Free(s.pcs[p]) || (s.pcs[p].RHasX? && s.lk == None))
    ensures CanStep(s)
  {
    match s.pcs[p]
    case Wake(q, next) => assert OtherStep(s, Go(s, p, next).(woken := s.woken + {q}), p);
    case RHasX => assert ReaderStep(s, Go(s, p, RCounting).(lk := Some(p)), p);
    case RCounting => assert ReaderStep(s, Go(s, p, RCounted).(readers := s.readers + 1, inside := s.inside + {p}), p);
    case RCounted => assert ReaderStep(s, Go(s, p, RDone).(k := Try(s.k, p), lk := None), p);
    case RDone => assert OtherStep(s, Go(s, p, After(Leave(s.x), Reading)).(x := Leave(s.x)), p);
    case WDone => assert OtherStep(s, Go(s, p, After(Leave(s.x), Idle)).(x := Leave(s.x)), p);
    case RLeaving =>
      assert ReaderStep(s, Go(s, p, if s.readers - 1 == 0 then RLast else RLeft)
                             .(readers := s.readers - 1, inside := s.inside - {p}), p);
    case RLast => assert ReaderStep(s, Go(s, p, After(Leave(s.k), RLeft)).(k := Leave(s.k)), p);
    case RLeft => assert ReaderStep(s, Go(s, p, Idle).(lk := None), p);
    case WHasX => assert OtherStep(s, Go(s, p, if s.k.hold != None then WWantK else Writing).(k := Enter(s.k, p)), p);
  }

  lemma PendingSteps(s: Sys, p: Pid)
    requires Inv(s) && Pending(s, p)
    ensures CanStep(s)
  {
    if p in s.woken {
      var pc := match s.pcs[p] case RWantX => RHasX case WWantX => WHasX case _ => Writing;
      assert OtherStep(s, Go(s, p, pc).(woken := s.woken - {p}), p);
    } else {
      var a :| a in s.pcs && Wakes(s.pcs[a], p);
      FreeSteps(s, a);
    }
  }

  /** Somebody has the lock, to read or to write. */
  ghost predicate InUse(s: Sys) {
    exists q <- s.pcs :: s.pcs[q].Reading? || s.pcs[q].Writing?
  }

  /** Who has x can step, unless it writes or waits for readers that read. */
  lemma HolderSteps(s: Sys, h: Pid)
    requires Inv(s) && h in s.pcs && HasX(s.pcs[h])
    ensures CanStep(s) || InUse(s)
  {
    assert ProcOk(s, h);
    if s.lk.Some? {
      LkHolderSteps(s);
    } else if s.pcs[h].WWantK? {
      if Pending(s, h) { PendingSteps(s, h); } else { WaitsForReaders(s, h); }
    } else if !s.pcs[h].Writing? {
      FreeSteps(s, h);
    }
  }

  lemma LkHolderSteps(s: Sys)
    requires Inv(s) && s.lk.Some?
    ensures CanStep(s)
  {
    var l := s.lk.value;
    assert ProcOk(s, l);
    FreeSteps(s, l);
  }

  lemma WaitsForReaders(s: Sys, h: Pid)
    requires Inv(s) && h in s.k.queue && h in s.pcs && s.lk == None
    ensures exists q <- s.pcs :: s.pcs[q].Reading? || s.pcs[q].Wake?
    ensures CanStep(s) || InUse(s)
  {
    assert ProcOk(s, h);
    assert s.inside != {};
    var q :| q in s.inside;
    assert ProcOk(s, q);
    if s.pcs[q].Wake? { FreeSteps(s, q); }
  }

  /** The lock never wedges: in every run, while somebody is inside one of the four functions, some
      process can take a step, unless one has the lock that has yet to give it back. */
  lemma NeverStuck(run: seq<Sys>, i: nat, p: Pid)
    requires Run(run) && i < |run| && Busy(run[i], p)
    ensures CanStep(run[i]) || InUse(run[i])
  {
    RunKeeps(run, i);
    var s := run[i];
    assert ProcOk(s, p);
    if Free(s.pcs[p]) {
      FreeSteps(s, p);
    } else if Pending(s, p) {
      PendingSteps(s, p);
    } else if HasX(s.pcs[p]) {
      HolderSteps(s, p);
    } else {
      var h := s.x.hold.value;
      if HasX(s.pcs[h]) { HolderSteps(s, h); } else { assert ProcOk(s, h); PendingSteps(s, h); }
    }
  }
}
