/**
 sleep, wakeup and procinterrupt of kern/sleep.c, with procsleep and procwakeup of kern/posix.c and
 _sysrendezvous of kern/sysfile.c under them, interleaved at every lock.
 */
module Sleep {
  import opened Words

  type Pid = nat
  type Rid = nat

  /** The value that an interrupted rendezvous returns. */
  const NOVAL := 0xFFFFFFFFFFFFFFFF

  datatype State = Running | Wakeme | Rendezvous

  datatype Pc =
    | Idle                      // in none of these functions
    | SleepR(r: Rid)            // sleep: holds r->lk
    | SleepRP(r: Rid)           // sleep: holds both locks, r->p is set
    | Committed(on: Option<Rid>) // about to procsleep, on a Rendez or (None) on a rendezvous
    | Asleep(on: Option<Rid>)   // in the loop of procsleep
    | Woken(r: Rid)             // sleep: about to look at notepending
    | Clearing(r: Rid)          // sleep: has seen notepending
    | WakeR(r: Rid)             // wakeup: holds r->lk
    | WakeRP(r: Rid, p: Pid)    // wakeup: holds both locks
    | Waking(p: Pid)            // about to procwakeup(p)
    | Int(p: Pid)               // procinterrupt: has set notepending, holds nothing
    | IntP(p: Pid)              // procinterrupt: holds p->rlock
    | IntOut(p: Pid)            // procinterrupt: p was not waiting for a wakeup

  /** waiting: blocked in the condition variable.  waker: who took the process off what it slept
      on and has still to call procwakeup; the program does not keep this. */
  datatype Proc = Proc(pc: Pc, state: State, r: Option<Rid>, note: bool, rlock: Option<Pid>,
                       nsleep: nat, nwakeup: nat, waiting: bool, tag: nat, val: nat, waker: Option<Pid>)

  datatype Rend = Rend(p: Option<Pid>, lk: Option<Pid>)

  /** cond: the Rendezes whose condition holds.  list: the rendezvous hash chain. */
  datatype Sys = Sys(procs: map<Pid, Proc>, rends: map<Rid, Rend>, cond: set<Rid>, list: seq<Pid>, panicked: bool)

  ghost predicate Init(s: Sys) {
    && (forall a <- s.procs :: Fresh(s.procs[a]))
    && (forall r <- s.rends :: s.rends[r] == Rend(None, None))
    && s.list == [] && !s.panicked
  }

  predicate Fresh(x: Proc) {
    x == Proc(Idle, Running, None, false, None, 0, 0, false, x.tag, x.val, None)
  }

  function With(s: Sys, a: Pid, x: Proc): Sys {
    s.(procs := s.procs[a := x])
  }

  function WithRend(s: Sys, r: Rid, x: Rend): Sys {
    s.(rends := s.rends[r := x])
  }

  ghost predicate At(s: Sys, a: Pid, pc: Pc) {
    a in s.procs && s.procs[a].pc == pc
  }

  // ---------- sleep ----------

  /** Nobody else may be linked to r: the program only reports a double sleep.  Who has been taken off r does
      not count, though it may not have run yet. */
  ghost predicate SleepLockR(s: Sys, t: Sys, a: Pid, r: Rid) {
    && At(s, a, Idle) && r in s.rends && s.rends[r].lk == None
    && s.rends[r].p == None
    && t == WithRend(With(s, a, s.procs[a].(pc := SleepR(r))), r, s.rends[r].(lk := Some(a)))
  }

  ghost predicate SleepLockP(s: Sys, t: Sys, a: Pid, r: Rid) {
    && At(s, a, SleepR(r)) && r in s.rends && s.procs[a].rlock == None
    && t == WithRend(With(s, a, s.procs[a].(pc := SleepRP(r), rlock := Some(a))), r, s.rends[r].(p := Some(a)))
  }

  ghost predicate SleepCheck(s: Sys, t: Sys, a: Pid, r: Rid) {
    && At(s, a, SleepRP(r)) && r in s.rends
    && t == if r in s.cond || s.procs[a].note
            then WithRend(With(s, a, s.procs[a].(pc := Woken(r), rlock := None)), r, Rend(None, None))
            else WithRend(With(s, a, s.procs[a].(pc := Committed(Some(r)), state := Wakeme, r := Some(r), rlock := None)),
                          r, s.rends[r].(lk := None))
  }

  ghost predicate Finish(s: Sys, t: Sys, a: Pid, r: Rid) {
    At(s, a, Woken(r)) && t == With(s, a, s.procs[a].(pc := if s.procs[a].note then Clearing(r) else Idle))
  }

  /** sleep fails with Eintr. */
  ghost predicate Clear(s: Sys, t: Sys, a: Pid, r: Rid) {
    At(s, a, Clearing(r)) && t == With(s, a, s.procs[a].(pc := Idle, note := false))
  }

  // ---------- procsleep and procwakeup ----------

  ghost predicate Procsleep(s: Sys, t: Sys, a: Pid, on: Option<Rid>) {
    && At(s, a, Committed(on))
    && var x := s.procs[a];
    && t == With(s, a, x.(pc := Asleep(on), nsleep := x.nsleep + 1, waiting := x.nsleep + 1 > x.nwakeup))
  }

  /** The condition variable may return for no reason. */
  ghost predicate Spurious(s: Sys, t: Sys, a: Pid) {
    a in s.procs && s.procs[a].waiting && t == With(s, a, s.procs[a].(waiting := false))
  }

  ghost predicate Recheck(s: Sys, t: Sys, a: Pid, on: Option<Rid>) {
    && At(s, a, Asleep(on)) && !s.procs[a].waiting
    && var x := s.procs[a];
    && t == With(s, a, if x.nsleep > x.nwakeup then x.(waiting := true)
                       else x.(pc := if on.Some? then Woken(on.value) else Idle))
  }

  /** The signal is only sent when the counts meet. */
  ghost predicate Procwakeup(s: Sys, t: Sys, a: Pid, p: Pid) {
    && At(s, a, Waking(p)) && p in s.procs && p != a
    && var x := s.procs[p];
    && t == With(With(s, p, x.(nwakeup := x.nwakeup + 1, waiting := x.waiting && x.nwakeup + 1 != x.nsleep, waker := None)),
                 a, s.procs[a].(pc := Idle))
  }

  // ---------- wakeup ----------

  ghost predicate WakeLockR(s: Sys, t: Sys, a: Pid, r: Rid) {
    && At(s, a, Idle) && r in s.rends && s.rends[r].lk == None
    && t == WithRend(With(s, a, s.procs[a].(pc := WakeR(r))), r, s.rends[r].(lk := Some(a)))
  }

  ghost predicate WakeNobody(s: Sys, t: Sys, a: Pid, r: Rid) {
    && At(s, a, WakeR(r)) && r in s.rends && s.rends[r].p == None
    && t == WithRend(With(s, a, s.procs[a].(pc := Idle)), r, s.rends[r].(lk := None))
  }

  ghost predicate WakeLockP(s: Sys, t: Sys, a: Pid, r: Rid, p: Pid) {
    && At(s, a, WakeR(r)) && r in s.rends && s.rends[r].p == Some(p) && p in s.procs && s.procs[p].rlock == None
    && t == With(With(s, p, s.procs[p].(rlock := Some(a))), a, s.procs[a].(pc := WakeRP(r, p)))
  }

  ghost predicate WakeTake(s: Sys, t: Sys, a: Pid, r: Rid, p: Pid) {
    && At(s, a, WakeRP(r, p)) && r in s.rends && p in s.procs && p != a
    && var x := s.procs[p];
    && t == if x.state != Wakeme || x.r != Some(r) then s.(panicked := true)
            else WithRend(With(With(s, p, x.(state := Running, r := None, rlock := None, waker := Some(a))),
                               a, s.procs[a].(pc := Waking(p))), r, Rend(None, None))
  }

  // ---------- procinterrupt ----------

  ghost predicate IntStart(s: Sys, t: Sys, a: Pid, p: Pid) {
    && At(s, a, Idle) && p in s.procs
    && var u := With(s, p, s.procs[p].(note := true));
    && t == With(u, a, u.procs[a].(pc := Int(p)))
  }

  ghost predicate IntLock(s: Sys, t: Sys, a: Pid, p: Pid) {
    && At(s, a, Int(p)) && p in s.procs && s.procs[p].rlock == None
    && var u := With(s, p, s.procs[p].(rlock := Some(a)));
    && t == With(u, a, u.procs[a].(pc := IntP(p)))
  }

  ghost predicate IntNone(s: Sys, t: Sys, a: Pid, p: Pid) {
    && At(s, a, IntP(p)) && p in s.procs && s.procs[p].r == None
    && var u := With(s, p, s.procs[p].(rlock := None));
    && t == With(u, a, u.procs[a].(pc := IntOut(p)))
  }

  /** The second lock is taken, so this is tried again. */
  ghost predicate IntRetry(s: Sys, t: Sys, a: Pid, p: Pid, r: Rid) {
    && At(s, a, IntP(p)) && p in s.procs && s.procs[p].r == Some(r) && r in s.rends && s.rends[r].lk != None && p != a
    && t == With(With(s, p, s.procs[p].(rlock := None)), a, s.procs[a].(pc := Int(p)))
  }

  ghost predicate IntTake(s: Sys, t: Sys, a: Pid, p: Pid, r: Rid) {
    && At(s, a, IntP(p)) && p in s.procs && s.procs[p].r == Some(r) && r in s.rends && s.rends[r].lk == None && p != a
    && var x := s.procs[p];
    && t == if x.state != Wakeme || s.rends[r].p != Some(p) then s.(panicked := true)
            else WithRend(With(With(s, p, x.(r := None, rlock := None, waker := Some(a))),
                               a, s.procs[a].(pc := Waking(p))), r, Rend(None, None))
  }

  ghost predicate IntRendezvous(s: Sys, t: Sys, a: Pid, p: Pid) {
    && At(s, a, IntOut(p)) && p in s.procs
    && if s.procs[p].state == Rendezvous && p in s.list && p != a
       then t == With(With(s, p, s.procs[p].(val := NOVAL, waker := Some(a))), a, s.procs[a].(pc := Waking(p)))
                 .(list := Without(s.list, p))
       else t == With(s, a, s.procs[a].(pc := Idle))
  }

  function Without(list: seq<Pid>, p: Pid): (l: seq<Pid>) {
    if list == [] then [] else if list[0] == p then list[1..] else [list[0]] + Without(list[1..], p)
  }

  // ---------- _sysrendezvous ----------

  ghost predicate Meet(s: Sys, t: Sys, a: Pid, tag: nat, v: nat, p: Pid) {
    && At(s, a, Idle) && p in s.list && p in s.procs && p != a && s.procs[p].tag == tag
    && t == With(With(s, p, s.procs[p].(val := v, waker := Some(a))), a, s.procs[a].(pc := Waking(p)))
            .(list := Without(s.list, p))
  }

  ghost predicate Await(s: Sys, t: Sys, a: Pid, tag: nat, v: nat) {
    && At(s, a, Idle) && (forall p <- s.list :: p in s.procs && s.procs[p].tag != tag)
    && t == With(s, a, s.procs[a].(pc := Committed(None), state := Rendezvous, tag := tag, val := v)).(list := [a] + s.list)
  }

  // ---------- The rest of the program ----------

  /** enderror, at the end of a system call. */
  ghost predicate EndCall(s: Sys, t: Sys, a: Pid) {
    At(s, a, Idle) && t == With(s, a, s.procs[a].(note := false))
  }

  /** Conditions come and go. */
  ghost predicate Change(s: Sys, t: Sys) {
    t == s.(cond := t.cond)
  }

  ghost predicate SleepStep(s: Sys, t: Sys, a: Pid) {
    || (exists r :: SleepLockR(s, t, a, r))
    || (exists r :: SleepLockP(s, t, a, r))
    || (exists r :: SleepCheck(s, t, a, r))
    || (exists r :: Finish(s, t, a, r))
    || (exists r :: Clear(s, t, a, r))
    || (exists on :: Procsleep(s, t, a, on))
    || Spurious(s, t, a)
    || (exists on :: Recheck(s, t, a, on))
  }

  ghost predicate WakeStep(s: Sys, t: Sys, a: Pid) {
    || (exists p :: Procwakeup(s, t, a, p))
    || (exists r :: WakeLockR(s, t, a, r))
    || (exists r :: WakeNobody(s, t, a, r))
    || (exists r, p :: WakeLockP(s, t, a, r, p))
    || (exists r, p :: WakeTake(s, t, a, r, p))
  }

  ghost predicate IntStep(s: Sys, t: Sys, a: Pid) {
    || (exists p :: IntStart(s, t, a, p))
    || (exists p :: IntLock(s, t, a, p))
    || (exists p :: IntNone(s, t, a, p))
    || (exists p, r :: IntRetry(s, t, a, p, r))
    || (exists p, r :: IntTake(s, t, a, p, r))
    || (exists p :: IntRendezvous(s, t, a, p))
  }

  ghost predicate RendezvousStep(s: Sys, t: Sys, a: Pid) {
    || (exists tag, v, p :: Meet(s, t, a, tag, v, p))
    || (exists tag, v :: Await(s, t, a, tag, v))
    || EndCall(s, t, a)
  }

  ghost predicate Step(s: Sys, t: Sys) {
    || Change(s, t)
    || (exists a :: SleepStep(s, t, a)) || (exists a :: WakeStep(s, t, a))
    || (exists a :: IntStep(s, t, a)) || (exists a :: RendezvousStep(s, t, a))
  }

  ghost predicate Run(run: seq<Sys>) {
    && run != [] && Init(run[0])
    && forall i :: 0 <= i < |run| - 1 ==> StepAt(run, i)
  }

  ghost predicate StepAt(run: seq<Sys>, i: nat)
    requires i < |run| - 1
  {
    Step(run[i], run[i + 1])
  }

  // ---------- The invariant ----------

  predicate HoldsR(pc: Pc, r: Rid) {
    pc == SleepR(r) || pc == SleepRP(r) || pc == WakeR(r) || (pc.WakeRP? && pc.r == r)
  }

  /** Does a process a at pc hold the lock of p? */
  predicate HoldsP(pc: Pc, a: Pid, p: Pid) {
    (pc.SleepRP? && a == p) || (pc.WakeRP? && pc.p == p) || pc == IntP(p)
  }

  predicate InProcsleep(pc: Pc) {
    pc.Committed? || pc.Asleep?
  }

  /** What a process relies on where it is. */
  ghost predicate PcOk(s: Sys, a: Pid)
    requires a in s.procs
  {
    match s.procs[a].pc
    case SleepR(r) => r in s.rends && s.rends[r] == Rend(None, Some(a))
    case SleepRP(r) => r in s.rends && s.rends[r] == Rend(Some(a), Some(a)) && s.procs[a].rlock == Some(a)
    case WakeR(r) => r in s.rends && s.rends[r].lk == Some(a)
    case WakeRP(r, p) => r in s.rends && s.rends[r] == Rend(Some(p), Some(a)) && p in s.procs && s.procs[p].rlock == Some(a)
    case Waking(p) => p in s.procs && s.procs[p].waker == Some(a)
    case IntP(p) => p in s.procs && s.procs[p].rlock == Some(a)
    case Int(p) => p in s.procs
    case IntOut(p) => p in s.procs
    case _ => true
  }

  /** Whether a still has a procwakeup to come: it is linked to a Rendez, on the rendezvous list, or
      somebody has taken it off. */
  function Owed(s: Sys, a: Pid): nat
    requires a in s.procs
  {
    (if s.procs[a].r.Some? then 1 else 0) + (if a in s.list then 1 else 0) + (if s.procs[a].waker.Some? then 1 else 0)
  }

  ghost predicate Balanced(s: Sys, a: Pid)
    requires a in s.procs
  {
    var x := s.procs[a];
    && x.nwakeup + Owed(s, a) == x.nsleep + (if x.pc.Committed? then 1 else 0)
    && Owed(s, a) <= (if InProcsleep(x.pc) then 1 else 0)
    && (x.waiting ==> x.pc.Asleep? && x.nwakeup < x.nsleep)
  }

  ghost predicate LinkOk(s: Sys, a: Pid)
    requires a in s.procs
  {
    var x := s.procs[a];
    && (x.r.Some? ==> x.r.value in s.rends && s.rends[x.r.value].p == Some(a) && x.state == Wakeme
                      && (x.pc == Committed(x.r) || x.pc == Asleep(x.r)))
    && (a in s.list ==> x.state == Rendezvous && (x.pc == Committed(None) || x.pc == Asleep(None)))
    && (x.rlock.Some? ==> x.rlock.value in s.procs && HoldsP(s.procs[x.rlock.value].pc, x.rlock.value, a))
    && (x.waker.Some? ==> x.waker.value in s.procs && s.procs[x.waker.value].pc == Waking(a))
  }

  ghost predicate RendOk(s: Sys, r: Rid)
    requires r in s.rends
  {
    var x := s.rends[r];
    && (x.p.Some? ==> x.p.value in s.procs && (s.procs[x.p.value].r == Some(r) || s.procs[x.p.value].pc == SleepRP(r)))
    && (x.lk.Some? ==> x.lk.value in s.procs && HoldsR(s.procs[x.lk.value].pc, r))
  }

  ghost predicate ListOk(s: Sys) {
    && (forall p <- s.list :: p in s.procs)
    && (forall i, j :: 0 <= i < j < |s.list| ==> s.list[i] != s.list[j])
  }

  /** A process that waits for a wakeup with a note pending has an interrupt on its way. */
  ghost predicate NoteOk(s: Sys) {
    forall p <- s.procs :: s.procs[p].note && s.procs[p].r.Some? ==> exists a <- s.procs :: Interrupting(s.procs[a].pc, p)
  }

  predicate Interrupting(pc: Pc, p: Pid) {
    pc == Int(p) || pc == IntP(p)
  }

  ghost predicate ProcOk(s: Sys, a: Pid)
    requires a in s.procs
  {
    PcOk(s, a) && Balanced(s, a) && LinkOk(s, a)
  }

  ghost predicate Inv(s: Sys) {
    && (forall a <- s.procs :: ProcOk(s, a))
    && (forall r <- s.rends :: RendOk(s, r))
    && ListOk(s) && NoteOk(s) && !s.panicked
  }

  // ---------- What one step leaves alone ----------

  /** Only a and p change, and r, if any; p stays where it is. */
  ghost predicate Local(s: Sys, t: Sys, a: Pid, p: Pid, r: Option<Rid>) {
    && a in s.procs && p in s.procs && t.procs.Keys == s.procs.Keys && t.rends.Keys == s.rends.Keys
    && (r.Some? ==> r.value in s.rends)
    && (forall q <- s.procs :: q != a && q != p ==> t.procs[q] == s.procs[q])
    && (p != a ==> t.procs[p].pc == s.procs[p].pc)
    && (forall q <- s.rends :: Some(q) != r ==> t.rends[q] == s.rends[q])
    && (forall q: Pid :: q != a && q != p ==> (q in t.list <==> q in s.list))
    && t.panicked == s.panicked
  }

  /** Locks and links change only where they are free or belong to a or p. */
  ghost predicate Owns(s: Sys, t: Sys, a: Pid, p: Pid, r: Option<Rid>)
    requires Local(s, t, a, p, r)
  {
    && (r.Some? ==> RendOwned(s.rends[r.value], t.rends[r.value], a, p))
    && ProcOwned(s.procs[a], t.procs[a], a) && ProcOwned(s.procs[p], t.procs[p], a)
  }

  predicate RendOwned(x: Rend, y: Rend, a: Pid, p: Pid) {
    && (y == x || x.lk == None || x.lk == Some(a))
    && (y.p == x.p || x.p == None || x.p == Some(a) || x.p == Some(p))
  }

  predicate ProcOwned(x: Proc, y: Proc, a: Pid) {
    && (y.rlock == x.rlock || x.rlock == None || x.rlock == Some(a))
    && (y.waker == x.waker || x.waker == None || x.waker == Some(a))
  }

  /** a and p keep what others see of them. */
  ghost predicate KeepsHold(s: Sys, t: Sys, a: Pid, p: Pid, r: Option<Rid>)
    requires Local(s, t, a, p, r)
  {
    var x, y := s.procs[a].pc, t.procs[a].pc;
    && (forall q: Pid :: q != a && q != p && HoldsP(x, a, q) ==> HoldsP(y, a, q))
    && (x.Waking? && x.p != p ==> y == x)
    && (forall q: Rid :: Some(q) != r && HoldsR(x, q) ==> HoldsR(y, q))
    && (x.SleepRP? && Some(x.r) != r ==> y == x)
    && (s.procs[a].r.Some? && s.procs[a].r != r ==> t.procs[a].r == s.procs[a].r)
    && (s.procs[p].r.Some? && s.procs[p].r != r ==> t.procs[p].r == s.procs[p].r)
  }

  ghost predicate Small(s: Sys, t: Sys, a: Pid, p: Pid, r: Option<Rid>) {
    Local(s, t, a, p, r) && Owns(s, t, a, p, r) && KeepsHold(s, t, a, p, r)
  }

  /** Nobody new waits with a note pending, and no interrupt is forgotten. */
  ghost predicate Quiet(s: Sys, t: Sys, a: Pid, p: Pid)
    requires a in s.procs && p in s.procs && t.procs.Keys == s.procs.Keys
  {
    && (t.procs[a].note && t.procs[a].r.Some? ==> s.procs[a].note && s.procs[a].r.Some?)
    && (t.procs[p].note && t.procs[p].r.Some? ==> s.procs[p].note && s.procs[p].r.Some?)
    && (forall q <- s.procs :: Interrupting(s.procs[a].pc, q) && t.procs[q].r.Some? ==> Interrupting(t.procs[a].pc, q))
  }

  /** What a step has to show of those it changes. */
  ghost predicate Ends(s: Sys, t: Sys, a: Pid, p: Pid, r: Option<Rid>) {
    Small(s, t, a, p, r) && ProcOk(t, a) && ProcOk(t, p) && (r.Some? ==> RendOk(t, r.value))
  }

  lemma OthersKeep(s: Sys, t: Sys, a: Pid, p: Pid, r: Option<Rid>, q: Pid)
    requires Small(s, t, a, p, r) && q in s.procs && q != a && q != p && ProcOk(s, q)
    ensures ProcOk(t, q)
  {
    assert PcOk(t, q);
    assert LinkOk(t, q);
  }

  lemma RendsKeep(s: Sys, t: Sys, a: Pid, p: Pid, r: Option<Rid>, q: Rid)
    requires Small(s, t, a, p, r) && q in s.rends && Some(q) != r && RendOk(s, q)
    ensures RendOk(t, q)
  {
  }

  lemma SmallKeeps(s: Sys, t: Sys, a: Pid, p: Pid, r: Option<Rid>)
    requires Inv(s) && Ends(s, t, a, p, r) && ListOk(t) && NoteOk(t)
    ensures Inv(t)
  {
    forall q <- t.procs ensures ProcOk(t, q) {
      if q != a && q != p { OthersKeep(s, t, a, p, r, q); }
    }
    forall q <- t.rends ensures RendOk(t, q) {
      if Some(q) != r { RendsKeep(s, t, a, p, r, q); }
    }
  }

  lemma QuietNotes(s: Sys, t: Sys, a: Pid, p: Pid, r: Option<Rid>)
    requires Local(s, t, a, p, r) && Quiet(s, t, a, p) && NoteOk(s)
    ensures NoteOk(t)
  {
    forall q <- t.procs | t.procs[q].note && t.procs[q].r.Some?
      ensures exists b <- t.procs :: Interrupting(t.procs[b].pc, q)
    {
      var b :| b in s.procs && Interrupting(s.procs[b].pc, q);
      assert Interrupting(t.procs[b].pc, q);
    }
  }

  lemma QuietKeeps(s: Sys, t: Sys, a: Pid, p: Pid, r: Option<Rid>)
    requires Inv(s) && Ends(s, t, a, p, r) && Quiet(s, t, a, p) && ListOk(t)
    ensures Inv(t)
  {
    QuietNotes(s, t, a, p, r);
    SmallKeeps(s, t, a, p, r);
  }

  // ---------- Steps of sleep ----------

  lemma SleepLockREnds(s: Sys, t: Sys, a: Pid, r: Rid)
    requires SleepLockR(s, t, a, r) && ProcOk(s, a) && RendOk(s, r)
    ensures Ends(s, t, a, a, Some(r)) && Quiet(s, t, a, a)
  {
  }

  lemma SleepLockRKeeps(s: Sys, t: Sys, a: Pid, r: Rid)
    requires Inv(s) && SleepLockR(s, t, a, r)
    ensures Inv(t)
  {
    SleepLockREnds(s, t, a, r);
    QuietKeeps(s, t, a, a, Some(r));
  }

  lemma SleepLockPEnds(s: Sys, t: Sys, a: Pid, r: Rid)
    requires SleepLockP(s, t, a, r) && ProcOk(s, a) && RendOk(s, r)
    ensures Ends(s, t, a, a, Some(r)) && Quiet(s, t, a, a)
  {
  }

  lemma SleepLockPKeeps(s: Sys, t: Sys, a: Pid, r: Rid)
    requires Inv(s) && SleepLockP(s, t, a, r)
    ensures Inv(t)
  {
    SleepLockPEnds(s, t, a, r);
    QuietKeeps(s, t, a, a, Some(r));
  }

  lemma SleepCheckEnds(s: Sys, t: Sys, a: Pid, r: Rid)
    requires SleepCheck(s, t, a, r) && ProcOk(s, a) && RendOk(s, r)
    ensures Ends(s, t, a, a, Some(r)) && Quiet(s, t, a, a)
  {
  }

  lemma SleepCheckKeeps(s: Sys, t: Sys, a: Pid, r: Rid)
    requires Inv(s) && SleepCheck(s, t, a, r)
    ensures Inv(t)
  {
    SleepCheckEnds(s, t, a, r);
    QuietKeeps(s, t, a, a, Some(r));
  }

  /** Steps of one process that touch no lock. */
  ghost predicate OwnStep(s: Sys, t: Sys, a: Pid) {
    || (exists r :: Finish(s, t, a, r)) || (exists r :: Clear(s, t, a, r)) || EndCall(s, t, a)
    || (exists on :: Procsleep(s, t, a, on)) || Spurious(s, t, a) || (exists on :: Recheck(s, t, a, on))
  }

  lemma FinishEnds(s: Sys, t: Sys, a: Pid, r: Rid)
    requires (Finish(s, t, a, r) || Clear(s, t, a, r) || EndCall(s, t, a)) && ProcOk(s, a)
    ensures Ends(s, t, a, a, None) && Quiet(s, t, a, a)
  {
  }

  lemma ProcsleepSmall(s: Sys, t: Sys, a: Pid, on: Option<Rid>)
    requires (Procsleep(s, t, a, on) || Recheck(s, t, a, on)) && ProcOk(s, a)
    ensures Small(s, t, a, a, None) && Quiet(s, t, a, a)
  {
  }

  lemma ProcsleepEnds(s: Sys, t: Sys, a: Pid, on: Option<Rid>)
    requires (Procsleep(s, t, a, on) || Recheck(s, t, a, on)) && ProcOk(s, a)
    ensures Ends(s, t, a, a, None) && Quiet(s, t, a, a)
  {
    ProcsleepSmall(s, t, a, on);
  }

  lemma SpuriousEnds(s: Sys, t: Sys, a: Pid)
    requires Spurious(s, t, a) && ProcOk(s, a)
    ensures Ends(s, t, a, a, None) && Quiet(s, t, a, a)
  {
  }

  lemma OwnStepEnds(s: Sys, t: Sys, a: Pid)
    requires OwnStep(s, t, a) && ProcOk(s, a)
    ensures Ends(s, t, a, a, None) && Quiet(s, t, a, a) && t.list == s.list
  {
    if r :| Finish(s, t, a, r) { FinishEnds(s, t, a, r); }
    else if r :| Clear(s, t, a, r) { FinishEnds(s, t, a, r); }
    else if EndCall(s, t, a) { FinishEnds(s, t, a, 0); }
    else if on :| Procsleep(s, t, a, on) { ProcsleepEnds(s, t, a, on); }
    else if on :| Recheck(s, t, a, on) { ProcsleepEnds(s, t, a, on); }
    else { SpuriousEnds(s, t, a); }
  }

  lemma OwnStepKeeps(s: Sys, t: Sys, a: Pid)
    requires Inv(s) && OwnStep(s, t, a)
    ensures Inv(t)
  {
    OwnStepEnds(s, t, a);
    QuietKeeps(s, t, a, a, None);
  }

  // ---------- Steps of wakeup ----------

  lemma ProcwakeupEnds(s: Sys, t: Sys, a: Pid, p: Pid)
    requires Procwakeup(s, t, a, p) && ProcOk(s, a) && ProcOk(s, p)
    ensures Ends(s, t, a, p, None) && Quiet(s, t, a, p)
  {
  }

  lemma ProcwakeupKeeps(s: Sys, t: Sys, a: Pid, p: Pid)
    requires Inv(s) && Procwakeup(s, t, a, p)
    ensures Inv(t)
  {
    ProcwakeupEnds(s, t, a, p);
    QuietKeeps(s, t, a, p, None);
  }

  lemma WakeLockEnds(s: Sys, t: Sys, a: Pid, r: Rid)
    requires (WakeLockR(s, t, a, r) || WakeNobody(s, t, a, r)) && ProcOk(s, a) && RendOk(s, r)
    ensures Ends(s, t, a, a, Some(r)) && Quiet(s, t, a, a)
  {
  }

  lemma WakeLockKeeps(s: Sys, t: Sys, a: Pid, r: Rid)
    requires Inv(s) && (WakeLockR(s, t, a, r) || WakeNobody(s, t, a, r))
    ensures Inv(t)
  {
    WakeLockEnds(s, t, a, r);
    QuietKeeps(s, t, a, a, Some(r));
  }

  lemma WakeLockPSmall(s: Sys, t: Sys, a: Pid, r: Rid, p: Pid)
    requires WakeLockP(s, t, a, r, p) && ProcOk(s, a) && ProcOk(s, p) && RendOk(s, r)
    ensures Small(s, t, a, p, Some(r)) && Quiet(s, t, a, p)
  {
  }

  lemma WakeLockPEnds(s: Sys, t: Sys, a: Pid, r: Rid, p: Pid)
    requires WakeLockP(s, t, a, r, p) && ProcOk(s, a) && ProcOk(s, p) && RendOk(s, r)
    ensures Ends(s, t, a, p, Some(r)) && Quiet(s, t, a, p)
  {
    WakeLockPSmall(s, t, a, r, p);
  }

  lemma WakeLockPKeeps(s: Sys, t: Sys, a: Pid, r: Rid, p: Pid)
    requires Inv(s) && WakeLockP(s, t, a, r, p)
    ensures Inv(t)
  {
    WakeLockPEnds(s, t, a, r, p);
    QuietKeeps(s, t, a, p, Some(r));
  }

  /** The test before the panic of wakeup never holds. */
  lemma WakeupDoesNotPanic(s: Sys, a: Pid, r: Rid, p: Pid)
    requires Inv(s) && At(s, a, WakeRP(r, p))
    ensures p in s.procs && p != a && s.procs[p].state == Wakeme && s.procs[p].r == Some(r)
  {
    assert ProcOk(s, a) && RendOk(s, r);
    assert ProcOk(s, p);
  }

  lemma WakeTakeSmall(s: Sys, t: Sys, a: Pid, r: Rid, p: Pid)
    requires WakeTake(s, t, a, r, p) && ProcOk(s, a) && ProcOk(s, p) && RendOk(s, r)
    requires s.procs[p].state == Wakeme && s.procs[p].r == Some(r)
    ensures Small(s, t, a, p, Some(r)) && Quiet(s, t, a, p)
  {
  }

  lemma WakeTakeEnds(s: Sys, t: Sys, a: Pid, r: Rid, p: Pid)
    requires WakeTake(s, t, a, r, p) && ProcOk(s, a) && ProcOk(s, p) && RendOk(s, r)
    requires s.procs[p].state == Wakeme && s.procs[p].r == Some(r)
    ensures Ends(s, t, a, p, Some(r)) && Quiet(s, t, a, p)
  {
    WakeTakeSmall(s, t, a, r, p);
  }

  lemma WakeTakeKeeps(s: Sys, t: Sys, a: Pid, r: Rid, p: Pid)
    requires Inv(s) && WakeTake(s, t, a, r, p)
    ensures Inv(t)
  {
    WakeupDoesNotPanic(s, a, r, p);
    WakeTakeEnds(s, t, a, r, p);
    QuietKeeps(s, t, a, p, Some(r));
  }

  // ---------- Steps of procinterrupt ----------

  lemma IntStartSmall(s: Sys, t: Sys, a: Pid, p: Pid)
    requires IntStart(s, t, a, p) && ProcOk(s, a) && ProcOk(s, p)
    ensures Small(s, t, a, p, None)
  {
  }

  lemma IntStartEnds(s: Sys, t: Sys, a: Pid, p: Pid)
    requires IntStart(s, t, a, p) && ProcOk(s, a) && ProcOk(s, p)
    ensures Ends(s, t, a, p, None)
  {
    IntStartSmall(s, t, a, p);
  }

  lemma IntStartKeeps(s: Sys, t: Sys, a: Pid, p: Pid)
    requires Inv(s) && IntStart(s, t, a, p)
    ensures Inv(t)
  {
    IntStartEnds(s, t, a, p);
    IntStartNote(s, t, a, p);
    SmallKeeps(s, t, a, p, None);
  }

  lemma IntStartNote(s: Sys, t: Sys, a: Pid, p: Pid)
    requires NoteOk(s) && IntStart(s, t, a, p)
    ensures NoteOk(t)
  {
    assert Interrupting(t.procs[a].pc, p);
    forall q <- t.procs | t.procs[q].note && t.procs[q].r.Some?
      ensures exists b <- t.procs :: Interrupting(t.procs[b].pc, q)
    {
      if q != p {
        var b :| b in s.procs && Interrupting(s.procs[b].pc, q);
        assert Interrupting(t.procs[b].pc, q);
      }
    }
  }

  lemma IntLockSmall(s: Sys, t: Sys, a: Pid, p: Pid)
    requires IntLock(s, t, a, p) && ProcOk(s, a) && ProcOk(s, p)
    ensures Small(s, t, a, p, None) && Quiet(s, t, a, p)
  {
  }

  lemma IntLockEnds(s: Sys, t: Sys, a: Pid, p: Pid)
    requires IntLock(s, t, a, p) && ProcOk(s, a) && ProcOk(s, p)
    ensures Ends(s, t, a, p, None) && Quiet(s, t, a, p)
  {
    IntLockSmall(s, t, a, p);
  }

  lemma IntNoneSmall(s: Sys, t: Sys, a: Pid, p: Pid)
    requires IntNone(s, t, a, p) && ProcOk(s, a) && ProcOk(s, p)
    ensures Small(s, t, a, p, None) && Quiet(s, t, a, p)
  {
  }

  lemma IntNoneEnds(s: Sys, t: Sys, a: Pid, p: Pid)
    requires IntNone(s, t, a, p) && ProcOk(s, a) && ProcOk(s, p)
    ensures Ends(s, t, a, p, None) && Quiet(s, t, a, p)
  {
    IntNoneSmall(s, t, a, p);
  }

  lemma IntRetryEnds(s: Sys, t: Sys, a: Pid, p: Pid, r: Rid)
    requires IntRetry(s, t, a, p, r) && ProcOk(s, a) && ProcOk(s, p)
    ensures Ends(s, t, a, p, None) && Quiet(s, t, a, p)
  {
  }

  lemma IntLockKeeps(s: Sys, t: Sys, a: Pid, p: Pid, r: Rid)
    requires Inv(s) && (IntLock(s, t, a, p) || IntNone(s, t, a, p) || IntRetry(s, t, a, p, r))
    ensures Inv(t)
  {
    if IntLock(s, t, a, p) { IntLockEnds(s, t, a, p); }
    else if IntNone(s, t, a, p) { IntNoneEnds(s, t, a, p); }
    else { IntRetryEnds(s, t, a, p, r); }
    QuietKeeps(s, t, a, p, None);
  }

  /** Nor does that of procinterrupt. */
  lemma InterruptDoesNotPanic(s: Sys, a: Pid, p: Pid, r: Rid)
    requires Inv(s) && At(s, a, IntP(p)) && p in s.procs && s.procs[p].r == Some(r)
    ensures p != a && s.procs[p].state == Wakeme && r in s.rends && s.rends[r].p == Some(p)
  {
    assert ProcOk(s, p);
  }

  lemma IntTakeSmall(s: Sys, t: Sys, a: Pid, p: Pid, r: Rid)
    requires IntTake(s, t, a, p, r) && ProcOk(s, a) && ProcOk(s, p) && RendOk(s, r)
    ensures Small(s, t, a, p, Some(r)) && Quiet(s, t, a, p)
  {
  }

  lemma IntTakeEnds(s: Sys, t: Sys, a: Pid, p: Pid, r: Rid)
    requires IntTake(s, t, a, p, r) && ProcOk(s, a) && ProcOk(s, p) && RendOk(s, r)
    ensures Ends(s, t, a, p, Some(r)) && Quiet(s, t, a, p)
  {
    IntTakeSmall(s, t, a, p, r);
  }

  lemma IntTakeKeeps(s: Sys, t: Sys, a: Pid, p: Pid, r: Rid)
    requires Inv(s) && IntTake(s, t, a, p, r)
    ensures Inv(t)
  {
    IntTakeEnds(s, t, a, p, r);
    QuietKeeps(s, t, a, p, Some(r));
  }

  lemma WithoutList(s: Sys, t: Sys, p: Pid)
    requires ListOk(s) && t.list == Without(s.list, p) && t.procs.Keys == s.procs.Keys
    ensures ListOk(t) && forall q :: q in t.list <==> q in s.list && q != p
  {
    WithoutIsMinus(s.list, p);
  }

  ghost predicate Distinct(l: seq<Pid>) {
    forall i, j :: 0 <= i < j < |l| ==> l[i] != l[j]
  }

  lemma {:induction false} WithoutIsMinus(list: seq<Pid>, p: Pid)
    requires Distinct(list)
    ensures forall q :: q in Without(list, p) <==> q in list && q != p
    ensures Distinct(Without(list, p))
    decreases |list|
  {
    if list != [] {
      var rest := list[1..];
      assert forall i :: 0 <= i < |rest| ==> rest[i] == list[i + 1];
      assert forall q :: q in list <==> q == list[0] || q in rest;
      assert list[0] !in rest;
      if list[0] != p {
        WithoutIsMinus(rest, p);
        assert Without(list, p) == [list[0]] + Without(rest, p);
      }
    }
  }

  /** p is taken off the rendezvous list by a. */
  ghost predicate TakenOff(s: Sys, t: Sys, a: Pid, p: Pid, v: nat) {
    && a in s.procs && p in s.list && p in s.procs && p != a
    && (s.procs[a].pc == Idle || s.procs[a].pc == IntOut(p))
    && t == With(With(s, p, s.procs[p].(val := v, waker := Some(a))), a, s.procs[a].(pc := Waking(p)))
            .(list := Without(s.list, p))
  }

  lemma TakenOffSmall(s: Sys, t: Sys, a: Pid, p: Pid, v: nat)
    requires TakenOff(s, t, a, p, v) && ProcOk(s, a) && ProcOk(s, p)
    requires forall q :: q in t.list <==> q in s.list && q != p
    ensures Small(s, t, a, p, None) && Quiet(s, t, a, p)
  {
  }

  lemma TakenOffEnds(s: Sys, t: Sys, a: Pid, p: Pid, v: nat)
    requires TakenOff(s, t, a, p, v) && ProcOk(s, a) && ProcOk(s, p)
    requires forall q :: q in t.list <==> q in s.list && q != p
    ensures Ends(s, t, a, p, None) && Quiet(s, t, a, p)
  {
    TakenOffSmall(s, t, a, p, v);
  }

  lemma TakenOffKeeps(s: Sys, t: Sys, a: Pid, p: Pid, v: nat)
    requires Inv(s) && TakenOff(s, t, a, p, v)
    ensures Inv(t)
  {
    WithoutList(s, t, p);
    TakenOffEnds(s, t, a, p, v);
    QuietKeeps(s, t, a, p, None);
  }

  lemma IntOutEnds(s: Sys, t: Sys, a: Pid, p: Pid)
    requires At(s, a, IntOut(p)) && t == With(s, a, s.procs[a].(pc := Idle)) && ProcOk(s, a)
    ensures Ends(s, t, a, a, None) && Quiet(s, t, a, a)
  {
  }

  lemma IntRendezvousKeeps(s: Sys, t: Sys, a: Pid, p: Pid)
    requires Inv(s) && IntRendezvous(s, t, a, p)
    ensures Inv(t)
  {
    if s.procs[p].state == Rendezvous && p in s.list && p != a {
      TakenOffKeeps(s, t, a, p, NOVAL);
    } else {
      IntOutEnds(s, t, a, p);
      QuietKeeps(s, t, a, a, None);
    }
  }

  // ---------- Steps of _sysrendezvous, and the rest ----------

  lemma AwaitEnds(s: Sys, t: Sys, a: Pid, tag: nat, v: nat)
    requires Await(s, t, a, tag, v) && ProcOk(s, a)
    ensures Ends(s, t, a, a, None) && Quiet(s, t, a, a) && a !in s.list
  {
  }

  lemma AwaitKeeps(s: Sys, t: Sys, a: Pid, tag: nat, v: nat)
    requires Inv(s) && Await(s, t, a, tag, v)
    ensures Inv(t)
  {
    AwaitEnds(s, t, a, tag, v);
    QuietKeeps(s, t, a, a, None);
  }

  lemma ChangeKeeps(s: Sys, t: Sys)
    requires Inv(s) && Change(s, t)
    ensures Inv(t)
  {
    forall q <- t.procs ensures ProcOk(t, q) { assert ProcOk(s, q); }
    forall q <- t.rends ensures RendOk(t, q) { assert RendOk(s, q); }
  }

  // ---------- Every run ----------

  lemma SleepStepKeeps(s: Sys, t: Sys, a: Pid)
    requires Inv(s) && SleepStep(s, t, a)
    ensures Inv(t)
  {
    if r :| SleepLockR(s, t, a, r) { SleepLockRKeeps(s, t, a, r); }
    else if r :| SleepLockP(s, t, a, r) { SleepLockPKeeps(s, t, a, r); }
    else if r :| SleepCheck(s, t, a, r) { SleepCheckKeeps(s, t, a, r); }
    else { OwnStepKeeps(s, t, a); }
  }

  lemma WakeStepKeeps(s: Sys, t: Sys, a: Pid)
    requires Inv(s) && WakeStep(s, t, a)
    ensures Inv(t)
  {
    if p :| Procwakeup(s, t, a, p) { ProcwakeupKeeps(s, t, a, p); }
    else if r :| WakeLockR(s, t, a, r) { WakeLockKeeps(s, t, a, r); }
    else if r :| WakeNobody(s, t, a, r) { WakeLockKeeps(s, t, a, r); }
    else if r, p :| WakeLockP(s, t, a, r, p) { WakeLockPKeeps(s, t, a, r, p); }
    else { var r, p :| WakeTake(s, t, a, r, p); WakeTakeKeeps(s, t, a, r, p); }
  }

  lemma IntStepKeeps(s: Sys, t: Sys, a: Pid)
    requires Inv(s) && IntStep(s, t, a)
    ensures Inv(t)
  {
    if p :| IntStart(s, t, a, p) { IntStartKeeps(s, t, a, p); }
    else if p :| IntLock(s, t, a, p) { IntLockKeeps(s, t, a, p, 0); }
    else if p :| IntNone(s, t, a, p) { IntLockKeeps(s, t, a, p, 0); }
    else if p, r :| IntRetry(s, t, a, p, r) { IntLockKeeps(s, t, a, p, r); }
    else if p, r :| IntTake(s, t, a, p, r) { IntTakeKeeps(s, t, a, p, r); }
    else { var p :| IntRendezvous(s, t, a, p); IntRendezvousKeeps(s, t, a, p); }
  }

  lemma RendezvousStepKeeps(s: Sys, t: Sys, a: Pid)
    requires Inv(s) && RendezvousStep(s, t, a)
    ensures Inv(t)
  {
    if tag, v, p :| Meet(s, t, a, tag, v, p) { TakenOffKeeps(s, t, a, p, v); }
    else if tag, v :| Await(s, t, a, tag, v) { AwaitKeeps(s, t, a, tag, v); }
    else { OwnStepKeeps(s, t, a); }
  }

  lemma StepKeeps(s: Sys, t: Sys)
    requires Inv(s) && Step(s, t)
    ensures Inv(t)
  {
    if Change(s, t) { ChangeKeeps(s, t); }
    else if a :| SleepStep(s, t, a) { SleepStepKeeps(s, t, a); }
    else if a :| WakeStep(s, t, a) { WakeStepKeeps(s, t, a); }
    else if a :| IntStep(s, t, a) { IntStepKeeps(s, t, a); }
    else { var a :| RendezvousStep(s, t, a); RendezvousStepKeeps(s, t, a); }
  }

  lemma {:induction false} RunKeeps(run: seq<Sys>, i: nat)
    requires Run(run) && i < |run|
    ensures Inv(run[i])
  {
    if i == 0 {
      InitOk(run[0]);
    } else {
      RunKeeps(run, i - 1);
      assert StepAt(run, i - 1);
      StepKeeps(run[i - 1], run[i]);
    }
  }

  lemma InitOk(s: Sys)
    requires Init(s)
    ensures Inv(s)
  {
  }

  /** In every run no panic is reached, and every committed sleep is ended by exactly one
      procwakeup: counted, or still to come from a process that has taken the sleeper off what it
      slept on, or possible because the sleeper is linked where wakeup and procinterrupt, or the
      next rendezvous, will find it. Nobody is left in the condition variable with nothing to come. */
  lemma OneWakeupPerSleep(run: seq<Sys>, i: nat, a: Pid)
    requires Run(run) && i < |run| && a in run[i].procs
    ensures var s := run[i]; var x := s.procs[a];
            && !s.panicked
            && x.nwakeup + Owed(s, a) == x.nsleep + (if x.pc.Committed? then 1 else 0)
            && Owed(s, a) <= (if InProcsleep(x.pc) then 1 else 0)
            && (x.waiting ==> x.nwakeup < x.nsleep && Owed(s, a) == 1)
            && (x.r.Some? ==> x.r.value in s.rends && s.rends[x.r.value].p == Some(a))
            && (x.waker.Some? ==> At(s, x.waker.value, Waking(a)))
            && (forall b: Pid :: At(s, b, Waking(a)) ==> x.waker == Some(b))
  {
    RunKeeps(run, i);
    var s := run[i];
    assert ProcOk(s, a);
    forall b: Pid | At(s, b, Waking(a)) ensures s.procs[a].waker == Some(b) {
      assert ProcOk(s, b);
    }
  }

  // ---------- What a step may do to a process ----------

  ghost predicate Drops(s: Sys, t: Sys, p: Pid) {
    (exists r :: Clear(s, t, p, r)) || EndCall(s, t, p)
  }

  /** A process is linked to a Rendez only by itself, when it has found the condition false and no
      note pending; a note goes only with Drops; and a note keeps sleep from returning normally. */
  ghost predicate Tame(s: Sys, t: Sys, p: Pid) {
    p in s.procs && p in t.procs
    && var x, y := s.procs[p], t.procs[p];
    && (y.r.Some? ==> y.r == x.r || (x.pc == SleepRP(y.r.value) && y.r.value !in s.cond && !x.note))
    && (x.note && !y.note ==> Drops(s, t, p))
    && (x.note && x.pc.Woken? ==> y.pc != Idle)
    && (x.note && x.pc.SleepRP? ==> !y.pc.Committed?)
  }

  lemma SleepIsTame(s: Sys, t: Sys, a: Pid, p: Pid)
    requires SleepStep(s, t, a) && (p in s.procs || p in t.procs)
    ensures Tame(s, t, p)
  {
    if r :| SleepCheck(s, t, a, r) {
    } else if r :| Clear(s, t, a, r) {
    } else if r :| SleepLockR(s, t, a, r) || SleepLockP(s, t, a, r) || Finish(s, t, a, r) {
    } else {
      ProcsleepIsTame(s, t, a, p);
    }
  }

  lemma ProcsleepIsTame(s: Sys, t: Sys, a: Pid, p: Pid)
    requires (exists on :: Procsleep(s, t, a, on) || Recheck(s, t, a, on)) || Spurious(s, t, a)
    requires p in s.procs || p in t.procs
    ensures Tame(s, t, p)
  {
  }

  lemma WakeIsTame(s: Sys, t: Sys, a: Pid, p: Pid)
    requires WakeStep(s, t, a) && (p in s.procs || p in t.procs)
    ensures Tame(s, t, p)
  {
    if r, q :| WakeTake(s, t, a, r, q) {
      WakeTakeIsTame(s, t, a, r, q, p);
    } else if q :| Procwakeup(s, t, a, q) {
    } else {
      WakeLockIsTame(s, t, a, p);
    }
  }

  lemma WakeTakeIsTame(s: Sys, t: Sys, a: Pid, r: Rid, q: Pid, p: Pid)
    requires WakeTake(s, t, a, r, q) && (p in s.procs || p in t.procs)
    ensures Tame(s, t, p)
  {
  }

  lemma WakeLockIsTame(s: Sys, t: Sys, a: Pid, p: Pid)
    requires (exists r :: WakeLockR(s, t, a, r) || WakeNobody(s, t, a, r)) || (exists r, q :: WakeLockP(s, t, a, r, q))
    requires p in s.procs || p in t.procs
    ensures Tame(s, t, p)
  {
  }

  lemma IntIsTame(s: Sys, t: Sys, a: Pid, p: Pid)
    requires IntStep(s, t, a) && (p in s.procs || p in t.procs)
    ensures Tame(s, t, p)
  {
    if q, r :| IntTake(s, t, a, q, r) {
      IntTakeIsTame(s, t, a, q, r, p);
    } else if q :| IntRendezvous(s, t, a, q) {
      IntRendezvousIsTame(s, t, a, q, p);
    } else if q :| IntStart(s, t, a, q) {
      IntStartIsTame(s, t, a, q, p);
    } else if q :| IntLock(s, t, a, q) || IntNone(s, t, a, q) {
      IntLockIsTame(s, t, a, q, p);
    } else {
      var q, r :| IntRetry(s, t, a, q, r);
    }
  }

  lemma IntStartIsTame(s: Sys, t: Sys, a: Pid, q: Pid, p: Pid)
    requires IntStart(s, t, a, q) && (p in s.procs || p in t.procs)
    ensures Tame(s, t, p)
  {
  }

  lemma IntRendezvousIsTame(s: Sys, t: Sys, a: Pid, q: Pid, p: Pid)
    requires IntRendezvous(s, t, a, q) && (p in s.procs || p in t.procs)
    ensures Tame(s, t, p)
  {
  }

  lemma IntTakeIsTame(s: Sys, t: Sys, a: Pid, q: Pid, r: Rid, p: Pid)
    requires IntTake(s, t, a, q, r) && (p in s.procs || p in t.procs)
    ensures Tame(s, t, p)
  {
  }

  lemma IntLockIsTame(s: Sys, t: Sys, a: Pid, q: Pid, p: Pid)
    requires (IntLock(s, t, a, q) || IntNone(s, t, a, q)) && (p in s.procs || p in t.procs)
    ensures Tame(s, t, p)
  {
  }

  lemma RendezvousIsTame(s: Sys, t: Sys, a: Pid, p: Pid)
    requires RendezvousStep(s, t, a) && (p in s.procs || p in t.procs)
    ensures Tame(s, t, p)
  {
  }

  lemma StepIsTame(s: Sys, t: Sys, p: Pid)
    requires Step(s, t) && (p in s.procs || p in t.procs)
    ensures Tame(s, t, p)
  {
    if Change(s, t) {
    } else if a :| SleepStep(s, t, a) { SleepIsTame(s, t, a, p); }
    else if a :| WakeStep(s, t, a) { WakeIsTame(s, t, a, p); }
    else if a :| IntStep(s, t, a) { IntIsTame(s, t, a, p); }
    else { var a :| RendezvousStep(s, t, a); RendezvousIsTame(s, t, a, p); }
  }

  // ---------- No wakeup is missed ----------

  /** wakeup on r goes through its critical section. */
  ghost predicate Wakes(s: Sys, t: Sys, r: Rid) {
    (exists a :: WakeNobody(s, t, a, r)) || (exists a, p :: WakeTake(s, t, a, r, p))
  }

  ghost predicate NobodyOn(s: Sys, r: Rid) {
    forall p <- s.procs :: s.procs[p].r != Some(r)
  }

  lemma WakesClears(s: Sys, t: Sys, r: Rid)
    requires Inv(s) && Inv(t) && Wakes(s, t, r)
    ensures NobodyOn(t, r)
  {
    if a :| WakeNobody(s, t, a, r) {
    } else {
      var a, p :| WakeTake(s, t, a, r, p);
      WakeupDoesNotPanic(s, a, r, p);
    }
    assert t.rends[r].p == None;
    forall p <- t.procs ensures t.procs[p].r != Some(r) {
      assert ProcOk(t, p);
    }
  }

  lemma NobodyComes(s: Sys, t: Sys, r: Rid)
    requires NobodyOn(s, r) && Step(s, t) && r in s.cond
    ensures NobodyOn(t, r)
  {
    forall p <- t.procs ensures t.procs[p].r != Some(r) {
      StepIsTame(s, t, p);
    }
  }

  /** If the condition of r holds from before wakeup goes through its critical section, at step i,
      until state j, then in state j nobody waits on r. */
  lemma {:induction false} ConditionNotMissed(run: seq<Sys>, i: nat, j: nat, r: Rid)
    requires Run(run) && i < j < |run| && Wakes(run[i], run[i + 1], r)
    requires forall k :: i <= k < j ==> r in run[k].cond
    ensures NobodyOn(run[j], r)
    decreases j
  {
    if j == i + 1 {
      RunKeeps(run, i);
      RunKeeps(run, j);
      WakesClears(run[i], run[j], r);
    } else {
      ConditionNotMissed(run, i, j - 1, r);
      assert StepAt(run, j - 1);
      NobodyComes(run[j - 1], run[j], r);
    }
  }

  // ---------- Interrupts ----------

  /** A pending note goes away exactly when a sleep fails with Eintr or, without a failure, when a
      system call ends. */
  lemma NoteGoesIff(s: Sys, t: Sys, p: Pid)
    requires Step(s, t) && p in s.procs && s.procs[p].note
    ensures p in t.procs && (!t.procs[p].note <==> Drops(s, t, p))
  {
    StepIsTame(s, t, p);
  }

  ghost predicate DropsAt(run: seq<Sys>, k: nat, p: Pid)
    requires k < |run| - 1
  {
    Drops(run[k], run[k + 1], p)
  }

  /** While the note stays, the process commits to no sleep, none of its sleeps returns normally,
      and if it waits for a wakeup then the interrupt is still on its way to it. */
  lemma {:induction false} InterruptFailsSleep(run: seq<Sys>, i: nat, j: nat, p: Pid)
    requires Run(run) && i < j < |run| && p in run[i].procs && run[i].procs[p].note
    requires forall k :: i <= k < j ==> !DropsAt(run, k, p)
    ensures p in run[j - 1].procs && p in run[j].procs && run[j].procs[p].note
    ensures run[j].procs[p].r.Some? ==> exists a <- run[j].procs :: Interrupting(run[j].procs[a].pc, p)
    ensures run[j - 1].procs[p].pc.Woken? ==> run[j].procs[p].pc != Idle
    ensures run[j - 1].procs[p].pc.SleepRP? ==> !run[j].procs[p].pc.Committed?
    decreases j
  {
    if i < j - 1 { InterruptFailsSleep(run, i, j - 1, p); }
    assert !DropsAt(run, j - 1, p);
    RunIsTame(run, j - 1, p);
  }

  lemma RunIsTame(run: seq<Sys>, k: nat, p: Pid)
    requires Run(run) && k < |run| - 1 && p in run[k].procs
    ensures Tame(run[k], run[k + 1], p) && NoteOk(run[k + 1])
  {
    assert StepAt(run, k);
    StepIsTame(run[k], run[k + 1], p);
    RunKeeps(run, k + 1);
  }

  lemma StepsMakeRun(s0: Sys, s1: Sys, s2: Sys)
    requires Init(s0) && (exists a :: IntStep(s0, s1, a)) && (exists a :: RendezvousStep(s1, s2, a))
    ensures Run([s0, s1, s2])
  {
    var run := [s0, s1, s2];
    assert StepAt(run, 0) && StepAt(run, 1);
  }

  /** An interrupt that comes in a system call which then ends without sleeping fails no sleep. */
  lemma InterruptLost()
    ensures exists run: seq<Sys>, p: Pid :: Run(run) && |run| == 3 && p in run[1].procs && run[1].procs[p].note
              && p in run[2].procs && !run[2].procs[p].note && !exists r :: Clear(run[1], run[2], p, r)
  {
    var x := Proc(Idle, Running, None, false, None, 0, 0, false, 0, 0, None);
    var s0 := Sys(map[1 := x, 2 := x], map[], {}, [], false);
    var s1 := s0.(procs := map[1 := x.(note := true), 2 := x.(pc := Int(1))]);
    var s2 := s0.(procs := map[1 := x, 2 := x.(pc := Int(1))]);
    assert IntStep(s0, s1, 2) by { assert IntStart(s0, s1, 2, 1); }
    assert RendezvousStep(s1, s2, 1) by { assert EndCall(s1, s2, 1); }
    var run := [s0, s1, s2];
    StepsMakeRun(s0, s1, s2);
    assert At(s1, 1, Idle);
    assert run[1].procs[1].note && !run[2].procs[1].note;
  }

  // ---------- The two lock orders do not deadlock ----------

  /** Who holds the lock of a process can give it up in its next step, whatever others do. */
  lemma ProcLockReleased(s: Sys, p: Pid, a: Pid)
    requires Inv(s) && p in s.procs && s.procs[p].rlock == Some(a)
    ensures exists t :: (SleepStep(s, t, a) || WakeStep(s, t, a) || IntStep(s, t, a)) && p in t.procs && t.procs[p].rlock == None
  {
    assert ProcOk(s, p) && ProcOk(s, a);
    match s.procs[a].pc
    case SleepRP(r) =>
      var t := if r in s.cond || s.procs[a].note
            then WithRend(With(s, a, s.procs[a].(pc := Woken(r), rlock := None)), r, Rend(None, None))
            else WithRend(With(s, a, s.procs[a].(pc := Committed(Some(r)), state := Wakeme, r := Some(r), rlock := None)),
                          r, s.rends[r].(lk := None));
      assert SleepCheck(s, t, a, r);
      assert SleepStep(s, t, a);
    case WakeRP(r, q) =>
      WakeupDoesNotPanic(s, a, r, p);
      var t := WithRend(With(With(s, p, s.procs[p].(state := Running, r := None, rlock := None, waker := Some(a))),
                               a, s.procs[a].(pc := Waking(p))), r, Rend(None, None));
      assert WakeTake(s, t, a, r, p);
      assert WakeStep(s, t, a);
    case IntP(q) => InterruptReleases(s, p, a);
    case _ =>
  }

  lemma InterruptReleases(s: Sys, p: Pid, a: Pid)
    requires Inv(s) && p in s.procs && At(s, a, IntP(p))
    ensures exists t :: IntStep(s, t, a) && p in t.procs && t.procs[p].rlock == None
  {
    if s.procs[p].r == None {
      var u := With(s, p, s.procs[p].(rlock := None));
      var t := With(u, a, u.procs[a].(pc := IntOut(p)));
      assert IntNone(s, t, a, p);
      assert IntStep(s, t, a);
    } else {
      var r := s.procs[p].r.value;
      InterruptDoesNotPanic(s, a, p, r);
      if s.rends[r].lk != None {
        var t := With(With(s, p, s.procs[p].(rlock := None)), a, s.procs[a].(pc := Int(p)));
        assert IntRetry(s, t, a, p, r);
        assert IntStep(s, t, a);
      } else {
        var t := WithRend(With(With(s, p, s.procs[p].(r := None, rlock := None, waker := Some(a))),
                               a, s.procs[a].(pc := Waking(p))), r, Rend(None, None));
        assert IntTake(s, t, a, p, r);
        assert IntStep(s, t, a);
      }
    }
  }

  /** The lock of a process that a, holding the lock of a Rendez, takes next. */
  ghost predicate Wants(s: Sys, a: Pid, p: Pid) {
    a in s.procs && ((s.procs[a].pc.SleepR? && p == a)
                     || (s.procs[a].pc.WakeR? && s.procs[a].pc.r in s.rends && s.rends[s.procs[a].pc.r].p == Some(p)))
  }

  /** Who holds the lock of a Rendez can step, or waits for the lock of a process that another has. */
  lemma RendLockMoves(s: Sys, r: Rid, a: Pid)
    requires Inv(s) && r in s.rends && s.rends[r].lk == Some(a)
    ensures (exists t :: SleepStep(s, t, a) || WakeStep(s, t, a) || IntStep(s, t, a))
         || (exists p <- s.procs :: Wants(s, a, p) && s.procs[p].rlock.Some? && s.procs[p].rlock != Some(a))
  {
    assert RendOk(s, r);
    assert ProcOk(s, a);
    match s.procs[a].pc
    case SleepR(_) => SleeperMoves(s, r, a);
    case WakeR(_) => WakerMoves(s, r, a);
    case SleepRP(_) => ProcLockReleased(s, a, a);
    case WakeRP(_, p) => ProcLockReleased(s, p, a);
    case _ =>
  }

  lemma SleeperMoves(s: Sys, r: Rid, a: Pid)
    requires At(s, a, SleepR(r)) && r in s.rends && ProcOk(s, a)
    ensures (exists t :: SleepStep(s, t, a)) || (s.procs[a].rlock.Some? && s.procs[a].rlock != Some(a))
  {
    if s.procs[a].rlock == None {
      var t := WithRend(With(s, a, s.procs[a].(pc := SleepRP(r), rlock := Some(a))), r, s.rends[r].(p := Some(a)));
      assert SleepLockP(s, t, a, r);
      assert SleepStep(s, t, a);
    }
  }

  lemma WakerMoves(s: Sys, r: Rid, a: Pid)
    requires At(s, a, WakeR(r)) && Inv(s)
    ensures (exists t :: WakeStep(s, t, a))
         || (exists p <- s.procs :: Wants(s, a, p) && s.procs[p].rlock.Some? && s.procs[p].rlock != Some(a))
  {
    assert ProcOk(s, a) && RendOk(s, r);
    if s.rends[r].p == None {
      var t := WithRend(With(s, a, s.procs[a].(pc := Idle)), r, s.rends[r].(lk := None));
      assert WakeNobody(s, t, a, r);
      assert WakeStep(s, t, a);
    } else {
      var p := s.rends[r].p.value;
      assert ProcOk(s, p);
      if s.procs[p].rlock == None {
        var t := With(With(s, p, s.procs[p].(rlock := Some(a))), a, s.procs[a].(pc := WakeRP(r, p)));
        assert WakeLockP(s, t, a, r, p);
        assert WakeStep(s, t, a);
      } else {
        assert Wants(s, a, p);
      }
    }
  }
}
