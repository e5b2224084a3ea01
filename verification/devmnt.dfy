/**
 The 9P multiplexer of kern/devmnt.c: tags, the queue of unanswered requests, and the hand-over
 of replies.
 */
module Devmnt {
  import opened Words

  const NOTAG := 0xFFFF

  /** One use of a request structure, from mntralloc to mntfree. */
  type Uid = nat
  type Pid = nat

  /** What a request has got: nothing yet, the mark of a successful flush, or an answer (named by
      the request that the server meant it for). */
  datatype Got = Nothing | Rflush | Answer(of: Uid)

  /** below: the requests that a flush was sent for, directly or through other flushes. */
  datatype Rpc = Rpc(tag: nat, flush: bool, oldtag: nat, below: set<Uid>, done: bool, got: Got)

  type Rpcs = map<Uid, Rpc>

  /** The first queued request with a tag. */
  function Lookup(queue: seq<Uid>, rpc: Rpcs, tag: nat): (i: nat)
    requires forall u <- queue :: u in rpc
    ensures i <= |queue|
    ensures i < |queue| ==> rpc[queue[i]].tag == tag
    ensures forall j :: 0 <= j < i ==> rpc[queue[j]].tag != tag
  {
    if queue == [] || rpc[queue[0]].tag == tag then 0 else 1 + Lookup(queue[1..], rpc, tag)
  }

  function Remove(queue: seq<Uid>, i: nat): seq<Uid>
    requires i < |queue|
  {
    queue[..i] + queue[i + 1..]
  }

  /** mntqrm: done, and off the queue. */
  function Unqueue(queue: seq<Uid>, u: Uid): (q: seq<Uid>)
  {
    if queue == [] then [] else if queue[0] == u then queue[1..] else [queue[0]] + Unqueue(queue[1..], u)
  }

  /** The part of Mnt that its lock protects. */
  class Mnt {
    var rpc: Rpcs
    var queue: seq<Uid>
    var rip: Option<Pid>

    ghost predicate Valid()
      reads this
    {
      forall u <- queue :: u in rpc
    }

    constructor ()
      ensures Valid() && rpc == map[] && queue == [] && rip == None
    {
      rpc, queue, rip := map[], [], None;
    }

    /** mountmux: the reply goes to the first queued request with its tag, whoever reads it. */
    method Mountmux(tag: nat, of: Uid) returns (found: bool)
      requires Valid()
      modifies this`rpc, this`queue
      ensures Valid()
      ensures var i := Lookup(old(queue), old(rpc), tag);
              if i < |old(queue)|
              then var u := old(queue)[i];
                   found && queue == Remove(old(queue), i)
                   && rpc == old(rpc)[u := old(rpc)[u].(done := true, got := Answer(of))]
              else !found && queue == old(queue) && rpc == old(rpc)
    {
      var i := 0;
      while i < |queue|
        invariant i <= |queue| && Lookup(queue, rpc, tag) == i + Lookup(queue[i..], rpc, tag)
        invariant queue == old(queue) && rpc == old(rpc)
      {
        var q := queue[i];
        if rpc[q].tag == tag {
          assert queue[i..][0] == q;
          queue := queue[..i] + queue[i + 1..];
          rpc := rpc[q := rpc[q].(done := true, got := Answer(of))];
          return true;
        }
        assert queue[i..][1..] == queue[i + 1..];
        i := i + 1;
      }
      return false;
    }

    /** mntqrm. */
    method Mntqrm(u: Uid)
      requires Valid() && u in rpc
      modifies this`rpc, this`queue
      ensures Valid() && queue == Unqueue(old(queue), u)
      ensures rpc == old(rpc)[u := old(rpc)[u].(done := true)]
    {
      rpc := rpc[u := rpc[u].(done := true)];
      var i := 0;
      assert queue[..0] == [];
      while i < |queue|
        invariant i <= |queue| && Valid()
        invariant queue == old(queue) && Unqueue(queue, u) == queue[..i] + Unqueue(queue[i..], u)
        invariant rpc == old(rpc)[u := old(rpc)[u].(done := true)]
      {
        if queue[i] == u {
          queue := queue[..i] + queue[i + 1..];
          return;
        }
        assert queue[..i + 1] == queue[..i] + [queue[i]] && queue[i..][1..] == queue[i + 1..];
        i := i + 1;
      }
    }
  }

  // ---------- Tags ----------

  const NMASK := 2048

  type Word = w: seq<bool> | |w| == 32 witness seq(32, _ => false)

  /** The tag bitmap and the list of free request structures, each keeping its tag. */
  class Mntalloc {
    const tagmask: array<Word>
    var rpcfree: seq<nat>

    /** Is the bit of tag t set? */
    ghost predicate Set(t: nat)
      requires t < NMASK * 32 && tagmask.Length == NMASK
      reads tagmask
    {
      tagmask[t / 32][t % 32]
    }

    /** The set bits are the two reserved tags, those in use, and those on the free list. */
    ghost predicate Valid(used: set<nat>)
      reads this, tagmask
    {
      && tagmask.Length == NMASK
      && (forall t <- used :: 0 < t < NOTAG)
      && (forall t <- rpcfree :: 0 < t < NOTAG && t !in used)
      && (forall i, j :: 0 <= i < j < |rpcfree| ==> rpcfree[i] != rpcfree[j])
      && (forall t :: 0 <= t < NMASK * 32 ==> (Set(t) <==> t == 0 || t == NOTAG || t in used || t in rpcfree))
    }

    /** mntreset. */
    constructor ()
      ensures Valid({}) && fresh(tagmask)
    {
      tagmask := new Word[NMASK](i => seq(32, j => (i == 0 && j == 0) || (i == NMASK - 1 && j == 31)));
      rpcfree := [];
    }

    /** alloctag: the first clear bit; None stands for the panic when every tag is taken. */
    method Alloctag(ghost used: set<nat>) returns (r: Option<nat>)
      requires Valid(used)
      modifies tagmask
      ensures r.Some? ==> 0 < r.value < NOTAG && r.value !in used && r.value !in rpcfree && Valid(used + {r.value})
      ensures r.None? ==> Valid(used) && forall t :: 0 < t < NOTAG ==> t in used || t in rpcfree
    {
      var i := 0;
      while i < NMASK
        invariant i <= NMASK && Valid(used) && tagmask[..] == old(tagmask[..])
        invariant forall t :: 0 <= t < i * 32 ==> Set(t)
      {
        var j := 0;
        while j < 32 && tagmask[i][j]
          invariant j <= 32
          invariant forall t :: 0 <= t < i * 32 + j ==> Set(t)
        {
          j := j + 1;
        }
        if j < 32 {
          var t := i * 32 + j;
          assert t / 32 == i && t % 32 == j && !Set(t);
          tagmask[i] := tagmask[i][j := true];
          r := Some(t);
          assert forall k :: 0 <= k < NMASK * 32 && k != t ==> (Set(k) <==> old(Set(k)));
          return;
        }
        i := i + 1;
      }
      r := None;
    }

    /** mntralloc: a request structure from the free list keeps the tag it had. */
    method Mntralloc(ghost used: set<nat>) returns (r: Option<nat>)
      requires Valid(used)
      modifies this`rpcfree, tagmask
      ensures r.Some? ==> 0 < r.value < NOTAG && r.value !in used && Valid(used + {r.value})
      ensures r.None? ==> Valid(used) && forall t :: 0 < t < NOTAG ==> t in used
    {
      if rpcfree == [] {
        r := Alloctag(used);
      } else {
        var t := rpcfree[0];
        rpcfree := rpcfree[1..];
        r := Some(t);
        assert t in old(rpcfree) && forall k <- rpcfree :: k in old(rpcfree);
        assert forall k <- old(rpcfree) :: k == t || k in rpcfree;
      }
    }

    /** mntfree: at most 32 structures are kept; then the tag is given back. */
    method Mntfree(t: nat, ghost used: set<nat>)
      requires Valid(used) && t in used
      modifies this`rpcfree, tagmask
      ensures Valid(used - {t})
    {
      if |rpcfree| < 32 {
        rpcfree := [t] + rpcfree;
        assert forall k :: k in rpcfree <==> k == t || k in old(rpcfree);
      } else {
        tagmask[t / 32] := tagmask[t / 32][t % 32 := false];
        assert forall k :: 0 <= k < NMASK * 32 && k != t ==> (Set(k) <==> old(Set(k)));
      }
    }
  }
}
