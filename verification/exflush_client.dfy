/**
 What a client of exportfs can do about replies that come too late: the messages it sends, without a look
 at the server's slaves.
 */
module ExportFlushClient {
  import opened Words
  import opened ExportFlush

  /** A request that goes to a slave. */
  predicate Slow(s: State, id: Id) {
    IsWork(s, id) && s.got[id].slow
  }

  ghost predicate Unnamed(s: State, id: Id) {
    forall f: Id :: !Names(s, f, id)
  }

  /** The tag of a slow request that was never flushed, and is not the first slow one, is used again for one
      that is flushed. */
  ghost predicate RiskyAt(s: State, a: Id, r: Id, t: Id, f: Id) {
    a < r < t && Slow(s, a) && Slow(s, r) && Slow(s, t) && s.got[r].tag == s.got[t].tag && Names(s, f, t) && Unnamed(s, r)
  }

  ghost predicate Risky(s: State) {
    exists a: Id, r: Id, t: Id, f: Id :: RiskyAt(s, a, r, t, f)
  }

  // ---------- What goes on in the server of a client that does not ----------

  ghost predicate NotFirst(s: State, id: Id) {
    exists a: Id :: a < id && Slow(s, a)
  }

  ghost predicate BusyWith(s: State, i: nat, id: Id) {
    i < |s.procs| && s.procs[i].Busy? && s.procs[i].req == id
  }

  /** Only the last slave in the list can have the first slow request. */
  ghost predicate Base(s: State) {
    && (s.main.Hand? ==> s.main.id == |s.got| - 1 && Slow(s, s.main.id))
    && (s.procs != [] ==> NotFirst(s, if s.main.Hand? then s.main.id else |s.got|))
    && (forall i :: 0 <= i < |s.procs| && !s.procs[i].Idle? ==> Slow(s, s.procs[i].req) && (i < |s.procs| - 1 ==> NotFirst(s, s.procs[i].req)))
  }

  ghost predicate Superseded(s: State, r: Id) {
    exists t: Id :: r < t && IsWork(s, t) && HasTag(s, r, s.got[t].tag)
  }

  /** Before its slave is free a request is not flushed, if its tag has been used again; none of its flushes has been
      answered; and no other slave is to answer them. */
  ghost predicate CleanOne(s: State, i: nat, r: Id) {
    BusyWith(s, i, r) ==>
      && (Superseded(s, r) ==> Unnamed(s, r))
      && (forall f: Id :: Names(s, f, r) ==> Rflush(f) !in s.sent)
      && (forall j :: 0 <= j < |s.procs| && !s.procs[j].Idle? && s.procs[j].flush.Some? && Names(s, s.procs[j].flush.value, r) ==> j == i)
  }

  ghost predicate Clean(s: State) {
    forall i: nat, r: Id :: CleanOne(s, i, r)
  }

  lemma StartIsClean()
    ensures Base(START) && Clean(START)
  {
  }

  lemma Kept(s: State, a: Action)
    requires Basic(s) && Enabled(s, a)
    ensures s.got <= Do(s, a).got && forall id: Id :: id < |s.got| ==> IsWork(s, id) == IsWork(Do(s, a), id)
    ensures forall id: Id :: id < |s.got| ==> Slow(s, id) == Slow(Do(s, a), id)
    ensures forall id: Id, tag :: id < |s.got| ==> HasTag(s, id, tag) == HasTag(Do(s, a), id, tag)
    ensures forall f: Id, id: Id :: f < |s.got| ==> Names(s, f, id) == Names(Do(s, a), f, id)
    ensures forall f: Id, id: Id :: Names(s, f, id) ==> Names(Do(s, a), f, id)
  {
  }

  lemma NotFirstStays(s: State, a: Action, id: Id)
    requires Basic(s) && Enabled(s, a) && NotFirst(s, id)
    ensures NotFirst(Do(s, a), id)
  {
    Kept(s, a);
    var b: Id :| b < id && Slow(s, b);
    assert Slow(Do(s, a), b);
  }

  lemma RiskyStays(s: State, a: Action)
    requires Basic(s) && Enabled(s, a) && Risky(s)
    ensures Risky(Do(s, a))
  {
    var s' := Do(s, a);
    Kept(s, a);
    var b: Id, r: Id, t: Id, f: Id :| RiskyAt(s, b, r, t, f);
    forall g: Id ensures !Names(s', g, r) {
      assert !Names(s, g, r);
      if g == |s.got| && a.Recv? { assert HasTag(s, t, s.got[r].tag); }
    }
    assert RiskyAt(s', b, r, t, f);
  }

  lemma BaseStep(s: State, a: Action)
    requires Basic(s) && Base(s) && Enabled(s, a)
    ensures Base(Do(s, a))
  {
    var s' := Do(s, a);
    Kept(s, a);
    forall i | 0 <= i < |s'.procs| && !s'.procs[i].Idle?
      ensures Slow(s', s'.procs[i].req) && (i < |s'.procs| - 1 ==> NotFirst(s', s'.procs[i].req))
    {
      Came(s, a, i);
      if (a.HandNew? && i == 0) || (a.HandTo? && i == a.i) {
        if s.procs != [] { NotFirstStays(s, a, s.main.id); }
      } else {
        var j := Before(a, i);
        if j < |s.procs| - 1 { NotFirstStays(s, a, s.procs[j].req); }
      }
    }
    if s'.procs != [] { BasePlace(s, a); }
  }

  lemma BasePlace(s: State, a: Action)
    requires Basic(s) && Base(s) && Enabled(s, a) && Do(s, a).procs != []
    ensures var s' := Do(s, a); NotFirst(s', if s'.main.Hand? then s'.main.id else |s'.got|)
  {
    var s' := Do(s, a);
    Kept(s, a);
    if s.procs == [] {
      assert Slow(s', s.main.id);
    } else {
      NotFirstStays(s, a, if s.main.Hand? then s.main.id else |s.got|);
    }
  }

  /** A search that finds another than the one meant, which is busy too, is for a client that takes the risk. */
  lemma HitIsRisky(s: State, y: Id, j: nat)
    requires Basic(s) && Base(s) && Clean(s) && Enabled(s, Look) && Hit(s, s.main.id, s.main.i)
    requires Names(s, s.main.id, y) && BusyWith(s, j, y) && s.procs[s.main.i].req != y
    ensures Risky(s)
  {
    var i, r := s.main.i, s.procs[s.main.i].req;
    assert i < j;
    assert r < y && HasTag(s, r, s.got[y].tag);
    assert CleanOne(s, i, r) && BusyWith(s, i, r) && Superseded(s, r);
    var a: Id :| a < r && Slow(s, a);
    assert RiskyAt(s, a, r, y, s.main.id);
  }

  lemma BusyBefore(s: State, a: Action, i: nat, r: Id)
    requires Enabled(s, a) && BusyWith(Do(s, a), i, r)
    ensures if (a.HandNew? && i == 0) || (a.HandTo? && i == a.i) then r == s.main.id && s.main.Hand?
            else 0 <= Before(a, i) && BusyWith(s, Before(a, i), r)
  {
    Came(s, a, i);
  }

  /** The request just handed over is the last message: nothing names it yet. */
  lemma NewIsClean(s: State, a: Action, i: nat)
    requires Basic(s) && Base(s) && Enabled(s, a) && s.main.Hand? && (a.HandNew? || a.HandTo?)
    ensures CleanOne(Do(s, a), i, s.main.id)
  {
    var s' := Do(s, a);
    Kept(s, a);
    assert forall f: Id :: !Names(s, f, s.main.id);
    assert forall f: Id :: !Names(s', f, s.main.id);
  }

  /** A flush that is answered named none that is busy. */
  lemma AnswerClean(s: State, a: Action, j: nat, r: Id, f: Id)
    requires Basic(s) && Clean(s) && Enabled(s, a) && BusyWith(s, j, r) && !(a.Release? && a.i == j)
    requires Names(Do(s, a), f, r)
    ensures Rflush(f) !in Do(s, a).sent
  {
    Kept(s, a);
    assert CleanOne(s, j, r);
    assert f >= |s.got| ==> !IsFlush(s, f);
  }

  lemma NamesClean(s: State, a: Action, j: nat, r: Id)
    requires Basic(s) && Clean(s) && Enabled(s, a) && BusyWith(s, j, r) && Superseded(Do(s, a), r)
    ensures Unnamed(Do(s, a), r)
  {
    var s' := Do(s, a);
    Kept(s, a);
    assert CleanOne(s, j, r);
    var t: Id :| r < t && IsWork(s', t) && HasTag(s', r, s'.got[t].tag);
    if t < |s.got| {
      assert Superseded(s, r) && HasTag(s, t, s.got[r].tag);
      assert Unnamed(s, r);
    } else {
      assert Settled(s, r);
    }
    forall f: Id ensures !Names(s', f, r) {
      assert !Names(s, f, r);
    }
  }

  lemma OwedClean(s: State, a: Action, i: nat, r: Id, k: nat)
    requires Basic(s) && Base(s) && Clean(s) && !Risky(s) && Enabled(s, a)
    requires var s' := Do(s, a); BusyWith(s', i, r) && k < |s'.procs| && !s'.procs[k].Idle? && s'.procs[k].flush.Some?
                                 && Names(s', s'.procs[k].flush.value, r)
    requires !((a.HandNew? && i == 0) || (a.HandTo? && i == a.i))
    ensures k == i
  {
    Kept(s, a);
    BusyBefore(s, a, i, r);
    Came(s, a, k);
    var j, l := Before(a, i), Before(a, k);
    assert CleanOne(s, j, r);
    if a.Look? && l == s.main.i && Hit(s, s.main.id, l) && Do(s, a).procs[k].flush == Some(s.main.id) {
      if s.procs[l].req != r { HitIsRisky(s, r, j); }
    } else {
      assert IsFlush(s, s.procs[l].flush.value);
    }
  }

  lemma CleanStep(s: State, a: Action)
    requires Basic(s) && Base(s) && Clean(s) && !Risky(s) && Enabled(s, a)
    ensures Clean(Do(s, a))
  {
    var s' := Do(s, a);
    forall i: nat, r: Id ensures CleanOne(s', i, r) {
      if BusyWith(s', i, r) {
        BusyBefore(s, a, i, r);
        if (a.HandNew? && i == 0) || (a.HandTo? && i == a.i) {
          NewIsClean(s, a, i);
        } else {
          OneStaysClean(s, a, i, r);
        }
      }
    }
  }

  lemma OneStaysClean(s: State, a: Action, i: nat, r: Id)
    requires Basic(s) && Base(s) && Clean(s) && !Risky(s) && Enabled(s, a) && BusyWith(Do(s, a), i, r)
    requires !((a.HandNew? && i == 0) || (a.HandTo? && i == a.i))
    ensures CleanOne(Do(s, a), i, r)
  {
    var s' := Do(s, a);
    BusyBefore(s, a, i, r);
    if Superseded(s', r) { NamesClean(s, a, Before(a, i), r); }
    forall f: Id | Names(s', f, r) ensures Rflush(f) !in s'.sent {
      AnswerClean(s, a, Before(a, i), r, f);
    }
    forall k | 0 <= k < |s'.procs| && !s'.procs[k].Idle? && s'.procs[k].flush.Some? && Names(s', s'.procs[k].flush.value, r)
      ensures k == i
    {
      OwedClean(s, a, i, r, k);
    }
  }

  /** What is found is what is meant. */
  lemma LookIsGood(s: State, a: Action)
    requires Basic(s) && Base(s) && Clean(s) && !Risky(s) && Enabled(s, a)
    ensures GoodHit(s, a)
  {
    if a.Look? && Hit(s, s.main.id, s.main.i) {
      forall t: Id | Names(s, s.main.id, t) && s.procs[s.main.i].req != t
        ensures !Pending(s, t)
      {
        if Pending(s, t) {
          var j: nat :| j < |s.procs| && WillReply(s.procs[j], t);
          HitIsRisky(s, t, j);
        }
      }
    }
  }

  lemma {:induction false} RunIsGood(s: State, acts: seq<Action>, t: State)
    requires Basic(s) && Base(s) && Clean(s) && Leads(s, acts, t) && !Risky(t)
    ensures AllGood(s, acts) && !Risky(s)
    decreases |acts|
  {
    if acts != [] {
      var s' := Do(s, acts[0]);
      BasicStep(s, acts[0]);
      BaseStep(s, acts[0]);
      if Risky(s) {
        RiskyRun(s, acts, t);
      } else {
        CleanStep(s, acts[0]);
        LookIsGood(s, acts[0]);
        RunIsGood(s', acts[1..], t);
      }
    }
  }

  lemma {:induction false} RiskyRun(s: State, acts: seq<Action>, t: State)
    requires Basic(s) && Leads(s, acts, t) && Risky(s)
    ensures Risky(t)
    decreases |acts|
  {
    if acts != [] {
      BasicStep(s, acts[0]);
      RiskyStays(s, acts[0]);
      RiskyRun(Do(s, acts[0]), acts[1..], t);
    }
  }

  /** Only a client that takes the risk ever gets a late reply. */
  lemma LateOnlyAtRisk(acts: seq<Action>, t: State)
    requires Leads(START, acts, t) && Late(t)
    ensures Risky(t)
  {
    StartIsGood();
    StartIsClean();
    if !Risky(t) {
      RunIsGood(START, acts, t);
      NeverLate(acts, t);
    }
  }
}
