/**
 The queueing locks of kern/qlock.c: hold, and the processes that wait, linked through qnext.
 */
module Qlock {
  import opened Words

  /** What a lock comes to: who has it, and who waits for it in order of arrival. */
  datatype Q<T(==)> = Q(hold: Option<T>, queue: seq<T>)

  /** With nobody holding the lock nobody waits. */
  predicate Fair<T(==)>(q: Q<T>) {
    q.hold == None ==> q.queue == []
  }

  /** qlock: p has it at once or waits behind all others. */
  function Enter<T(==)>(q: Q<T>, p: T): (r: Q<T>)
    ensures Fair(q) ==> Fair(r)
  {
    if q.hold == None then q.(hold := Some(p)) else q.(queue := q.queue + [p])
  }

  /** canqlock. */
  function Try<T(==)>(q: Q<T>, p: T): (r: Q<T>)
    ensures Fair(q) ==> Fair(r)
  {
    if q.hold == None then q.(hold := Some(p)) else q
  }

  /** qunlock: the first in the queue has it next. */
  function Leave<T(==)>(q: Q<T>): (r: Q<T>)
    ensures Fair(r)
  {
    if q.queue == [] then Q(None, []) else Q(Some(q.queue[0]), q.queue[1..])
  }

  class Proc {
    var qnext: Proc?

    constructor ()
      ensures qnext == null
    {
      qnext := null;
    }
  }

  function After(ps: seq<Proc>, i: nat): Proc?
    requires i < |ps|
  {
    if i + 1 < |ps| then ps[i + 1] else null
  }

  class QLock {
    var hold: Proc?
    var first: Proc?
    var last: Proc?
    ghost var waiting: seq<Proc>

    ghost predicate Valid()
      reads this, waiting
    {
      && (first == null <==> waiting == []) && (last == null <==> waiting == [])
      && (waiting != [] ==> first == waiting[0] && last == waiting[|waiting| - 1])
      && (forall i, j :: 0 <= i < j < |waiting| ==> waiting[i] != waiting[j])
      && (forall i :: 0 <= i < |waiting| ==> waiting[i].qnext == After(waiting, i))
    }

    ghost function Value(): Q<Proc>
      reads this
    {
      if hold == null then Q(None, waiting) else var h: Proc := hold; Q(Some(h), waiting)
    }

    constructor ()
      ensures Valid() && Value() == Q(None, [])
    {
      hold, first, last, waiting := null, null, null, [];
    }

    /** queue. */
    method Queue(up: Proc)
      requires Valid() && up !in waiting
      modifies this`first, this`last, this`waiting, last, up
      ensures Valid() && waiting == old(waiting) + [up] && hold == old(hold)
    {
      var t := last;
      if t == null {
        first := up;
      } else {
        t.qnext := up;
      }
      last := up;
      up.qnext := null;
      waiting := waiting + [up];
    }

    /** dequeue. */
    method Dequeue() returns (t: Proc?)
      requires Valid()
      modifies this`first, this`last, this`waiting
      ensures Valid() && hold == old(hold)
      ensures if old(waiting) == [] then t == null && waiting == []
              else t == old(waiting)[0] && waiting == old(waiting)[1..]
    {
      t := first;
      if t == null { return; }
      first := t.qnext;
      if first == null { last := null; }
      waiting := waiting[1..];
      assert forall i :: 0 <= i < |waiting| ==> waiting[i] == old(waiting)[i + 1];
    }

    /** qlock, up to procsleep; asleep tells whether that is called. */
    method Qlock(up: Proc) returns (asleep: bool)
      requires Valid() && up !in waiting
      modifies this, last, up
      ensures Valid() && Value() == Enter(old(Value()), up) && asleep == (old(hold) != null)
    {
      if hold == null {
        hold := up;
        return false;
      }
      Queue(up);
      return true;
    }

    method Canqlock(up: Proc) returns (got: bool)
      requires Valid()
      modifies this`hold
      ensures Valid() && Value() == Try(old(Value()), up) && got == (old(hold) == null)
    {
      if hold == null {
        hold := up;
        return true;
      }
      return false;
    }

    /** qunlock, up to procwakeup of p. */
    method Qunlock() returns (p: Proc?)
      requires Valid()
      modifies this
      ensures Valid() && Value() == Leave(old(Value())) && p == hold
    {
      p := Dequeue();
      hold := p;
    }
  }

  // ---------- Order of arrival ----------

  datatype Op<T> = Arrive(p: T) | Release

  /** Who gets the lock, in order, when arrivals and releases come as in ops; releases of a lock
      that nobody has do not happen. */
  function Grants<T(==)>(q: Q<T>, ops: seq<Op<T>>): seq<T>
    decreases |ops|
  {
    if ops == [] then []
    else match ops[0]
      case Arrive(p) => (if q.hold == None then [p] else []) + Grants(Enter(q, p), ops[1..])
      case Release => (if q.queue == [] then [] else [q.queue[0]]) + Grants(Leave(q), ops[1..])
  }

  function Arrivals<T>(ops: seq<Op<T>>): seq<T>
    decreases |ops|
  {
    if ops == [] then [] else (if ops[0].Arrive? then [ops[0].p] else []) + Arrivals(ops[1..])
  }

  function Final<T(==)>(q: Q<T>, ops: seq<Op<T>>): Q<T>
    decreases |ops|
  {
    if ops == [] then q
    else Final(if ops[0].Arrive? then Enter(q, ops[0].p) else Leave(q), ops[1..])
  }

  /** The lock is granted in order of arrival: those it was granted to, then those who still wait,
      are those who waited at first, then those who came. */
  lemma {:induction false} FirstComeFirstServed<T>(q: Q<T>, ops: seq<Op<T>>)
    requires Fair(q)
    ensures Grants(q, ops) + Final(q, ops).queue == q.queue + Arrivals(ops)
    decreases |ops|
  {
    if ops != [] {
      var rest := ops[1..];
      match ops[0]
      case Arrive(p) =>
        FirstComeFirstServed(Enter(q, p), rest);
        assert q.queue + ([p] + Arrivals(rest)) == (q.queue + [p]) + Arrivals(rest);
        if q.hold == None {
          assert [p] + Grants(Enter(q, p), rest) + Final(q, ops).queue == [p] + ([] + Arrivals(rest));
        }
      case Release =>
        FirstComeFirstServed(Leave(q), rest);
        if q.queue != [] {
          assert q.queue == [q.queue[0]] + q.queue[1..];
          assert [q.queue[0]] + Grants(Leave(q), rest) + Final(q, ops).queue
              == [q.queue[0]] + (q.queue[1..] + Arrivals(rest));
        }
    }
  }
}
