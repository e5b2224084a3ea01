/**
 Flow control in kern/qio.c: every interleaving of writers that block and of readers, on one queue
 whose limit stays and that is neither closed nor set not to block.
 */
module Flow {
  import opened Words
  import opened Blocks

  /** A queued block: its BALLOC, and whether its writer is still in qbwrite. */
  datatype Queued = Queued(alloc: nat, waits: bool)

  /** flow is the bit Qflow. */
  datatype State = State(rp: int, wp: int, queue: seq<Queued>, flow: bool)

  function Sum(qs: seq<Queued>): nat {
    if qs == [] then 0 else qs[0].alloc + Sum(qs[1..])
  }

  /** The blocks of writers that wait. */
  function WaitSum(qs: seq<Queued>): nat {
    if qs == [] then 0 else (if qs[0].waits then qs[0].alloc else 0) + WaitSum(qs[1..])
  }

  ghost predicate Init(s: State) {
    s.rp == s.wp && s.queue == [] && !s.flow
  }

  /** qbwrite up to qflow: above the limit, or with Qflow already set, the writer waits. */
  ghost predicate Write(s: State, t: State, alloc: nat, limit: nat) {
    var wp := s.wp + alloc;
    var flow := s.flow || wp - s.rp > limit;
    t == State(s.rp, wp, s.queue + [Queued(alloc, flow)], flow)
  }

  /** The position that the writer of queued block k has kept. */
  function Position(s: State, k: nat): int
    requires k < |s.queue|
  {
    s.wp - Sum(s.queue[k + 1..])
  }

  /** qflow sees that the position of the writer of block k is within the limit. */
  ghost predicate Return(s: State, t: State, k: nat, limit: nat) {
    && k < |s.queue| && s.queue[k].waits && Position(s, k) - s.rp <= limit
    && t == s.(queue := s.queue[k := s.queue[k].(waits := false)])
  }

  /** qremove, and the end of iunlock_consumer. */
  ghost predicate Remove(s: State, t: State, limit: nat) {
    && s.queue != []
    && var rp := s.rp + s.queue[0].alloc;
    t == State(rp, s.wp, s.queue[1..], s.flow && s.wp - rp > limit)
  }

  /** qremove, splitblock and qputback: the tail lies in a block of BALLOC tail. */
  ghost predicate Split(s: State, t: State, tail: nat, limit: nat) {
    && s.queue != []
    && var rp := s.rp + s.queue[0].alloc - tail;
    t == State(rp, s.wp, s.queue[0 := s.queue[0].(alloc := tail)], s.flow && s.wp - rp > limit)
  }

  /** The splits that can happen: of a block of BALLOC alloc, with a tail of BALLOC tail. */
  type Splits = (nat, nat) -> bool

  ghost predicate Step(s: State, t: State, limit: nat, may: Splits) {
    || (exists alloc :: Write(s, t, alloc, limit))
    || (exists k :: Return(s, t, k, limit))
    || Remove(s, t, limit)
    || (exists tail: nat :: Split(s, t, tail, limit) && may(s.queue[0].alloc, tail))
  }

  ghost predicate StepAt(run: seq<State>, i: nat, limit: nat, may: Splits)
    requires i < |run| - 1
  {
    Step(run[i], run[i + 1], limit, may)
  }

  ghost predicate Run(run: seq<State>, limit: nat, may: Splits) {
    && run != [] && Init(run[0])
    && forall i :: 0 <= i < |run| - 1 ==> StepAt(run, i, limit, may)
  }

  /** By how much memory a step makes the first block grow. */
  function Grown(s: State, t: State): nat {
    if s.queue != [] && |t.queue| == |s.queue| && t.queue[0].alloc > s.queue[0].alloc then t.queue[0].alloc - s.queue[0].alloc else 0
  }

  function GrownBy(run: seq<State>, i: nat): nat
    requires i < |run|
  {
    if i == 0 then 0 else GrownBy(run, i - 1) + Grown(run[i - 1], run[i])
  }

  // ---------- The invariant ----------

  /** base is what lies before qs: up to a block whose writer has returned all is within the limit. */
  ghost predicate Within(base: nat, qs: seq<Queued>, limit: nat)
    decreases |qs|
  {
    qs == [] || ((!qs[0].waits ==> base + qs[0].alloc <= limit) && Within(base + qs[0].alloc, qs[1..], limit))
  }

  /** Positions are apart by the memory queued; and below the limit Qflow is off or on its way there. */
  ghost predicate Inv(s: State, limit: nat) {
    s.wp - s.rp == Sum(s.queue) && Within(0, s.queue, limit)
  }

  lemma {:induction false} SumSnoc(qs: seq<Queued>, q: Queued)
    ensures Sum(qs + [q]) == Sum(qs) + q.alloc && WaitSum(qs + [q]) == WaitSum(qs) + (if q.waits then q.alloc else 0)
    decreases |qs|
  {
    if qs == [] {
      assert qs + [q] == [q];
    } else {
      assert (qs + [q])[1..] == qs[1..] + [q];
      SumSnoc(qs[1..], q);
    }
  }

  lemma {:induction false} WithinSnoc(base: nat, qs: seq<Queued>, q: Queued, limit: nat)
    requires Within(base, qs, limit) && (!q.waits ==> base + Sum(qs) + q.alloc <= limit)
    ensures Within(base, qs + [q], limit)
    decreases |qs|
  {
    if qs == [] {
      assert qs + [q] == [q];
    } else {
      assert (qs + [q])[1..] == qs[1..] + [q];
      WithinSnoc(base + qs[0].alloc, qs[1..], q, limit);
    }
  }

  lemma {:induction false} WithinMoved(base: nat, limit: nat, to: nat, qs: seq<Queued>, limit': nat)
    requires Within(base, qs, limit) && to - base <= limit' - limit
    ensures Within(to, qs, limit')
    decreases |qs|
  {
    if qs != [] { WithinMoved(base + qs[0].alloc, limit, to + qs[0].alloc, qs[1..], limit'); }
  }

  lemma {:induction false} WithinReturn(base: nat, qs: seq<Queued>, k: nat, limit: nat)
    requires Within(base, qs, limit) && k < |qs| && base + Sum(qs) - Sum(qs[k + 1..]) <= limit
    ensures Within(base, qs[k := qs[k].(waits := false)], limit)
    ensures Sum(qs[k := qs[k].(waits := false)]) == Sum(qs)
    decreases k
  {
    var q := qs[k := qs[k].(waits := false)];
    if k == 0 {
      assert q[1..] == qs[1..];
    } else {
      assert q[1..] == qs[1..][k - 1 := qs[1..][k - 1].(waits := false)] && qs[1..][k..] == qs[k + 1..];
      WithinReturn(base + qs[0].alloc, qs[1..], k - 1, limit);
    }
  }

  lemma SplitKeeps(s: State, t: State, tail: nat, limit: nat, g: nat)
    requires Inv(s, limit + g) && Split(s, t, tail, limit)
    ensures Inv(t, limit + g + Grown(s, t))
  {
    assert t.queue[1..] == s.queue[1..];
    WithinMoved(s.queue[0].alloc, limit + g, tail, s.queue[1..], limit + g + Grown(s, t));
  }

  lemma StepKeeps(s: State, t: State, limit: nat, may: Splits, g: nat)
    requires Inv(s, limit + g) && Step(s, t, limit, may)
    ensures Inv(t, limit + g + Grown(s, t))
  {
    if alloc :| Write(s, t, alloc, limit) {
      var q := t.queue[|s.queue|];
      SumSnoc(s.queue, q);
      WithinSnoc(0, s.queue, q, limit + g);
    } else if k :| Return(s, t, k, limit) {
      WithinReturn(0, s.queue, k, limit + g);
    } else if Remove(s, t, limit) {
      WithinMoved(s.queue[0].alloc, limit + g, 0, s.queue[1..], limit + g);
      WithinMoved(0, limit + g, 0, t.queue, limit + g + Grown(s, t));
    } else {
      var tail: nat :| Split(s, t, tail, limit);
      SplitKeeps(s, t, tail, limit, g);
    }
  }

  lemma {:induction false} RunKeeps(run: seq<State>, i: nat, limit: nat, may: Splits)
    requires Run(run, limit, may) && i < |run|
    ensures Inv(run[i], limit + GrownBy(run, i))
  {
    if i > 0 {
      RunKeeps(run, i - 1, limit, may);
      assert StepAt(run, i - 1, limit, may);
      StepKeeps(run[i - 1], run[i], limit, may, GrownBy(run, i - 1));
    }
  }

  function WaitBase(base: nat, limit: nat): nat {
    if base <= limit then 0 else base - limit
  }

  lemma {:induction false} BoundWaits(base: nat, qs: seq<Queued>, limit: nat)
    requires Within(base, qs, limit)
    ensures base + Sum(qs) <= limit + WaitBase(base, limit) + WaitSum(qs)
    decreases |qs|
  {
    if qs != [] { BoundWaits(base + qs[0].alloc, qs[1..], limit); }
  }

  /** In every run the queue holds no more than its limit, the blocks of the writers that still wait, and what
      splits have made of blocks; and the positions are apart by exactly what it holds. */
  lemma FlowIsBounded(run: seq<State>, i: nat, limit: nat, may: Splits)
    requires Run(run, limit, may) && i < |run|
    ensures run[i].wp - run[i].rp == Sum(run[i].queue) <= limit + GrownBy(run, i) + WaitSum(run[i].queue)
  {
    RunKeeps(run, i, limit, may);
    BoundWaits(0, run[i].queue, limit + GrownBy(run, i));
  }

  lemma {:induction false} WithinAt(base: nat, qs: seq<Queued>, k: nat, limit: nat)
    requires Within(base, qs, limit) && k < |qs| && !qs[k].waits
    ensures base + Sum(qs) - Sum(qs[k + 1..]) <= limit
    decreases k
  {
    if k > 0 {
      assert qs[1..][k..] == qs[k + 1..];
      WithinAt(base + qs[0].alloc, qs[1..], k - 1, limit);
    }
  }

  /** A writer is back from qbwrite only with everything up to its own block within the limit, but for what
      splits have made of blocks. */
  lemma BackWithinLimit(run: seq<State>, i: nat, k: nat, limit: nat, may: Splits)
    requires Run(run, limit, may) && i < |run| && k < |run[i].queue| && !run[i].queue[k].waits
    ensures Position(run[i], k) - run[i].rp <= limit + GrownBy(run, i)
  {
    RunKeeps(run, i, limit, may);
    WithinAt(0, run[i].queue, k, limit + GrownBy(run, i));
  }

  // ---------- When the limit is kept ----------

  /** The bound that flow control is for. */
  ghost predicate Keeps(s: State, limit: nat) {
    Sum(s.queue) <= limit + WaitSum(s.queue)
  }

  ghost predicate AlwaysKeeps(run: seq<State>, limit: nat) {
    forall s <- run :: Keeps(s, limit)
  }

  /** No split puts its tail into more memory than the block had. */
  ghost predicate Fit(may: Splits) {
    forall alloc, tail :: may(alloc, tail) ==> tail <= alloc
  }

  lemma {:induction false} NoneGrown(run: seq<State>, i: nat, limit: nat, may: Splits)
    requires Run(run, limit, may) && Fit(may) && i < |run|
    ensures GrownBy(run, i) == 0
  {
    if i > 0 {
      NoneGrown(run, i - 1, limit, may);
      assert StepAt(run, i - 1, limit, may);
      FitStep(run[i - 1], run[i], limit, may);
    }
  }

  lemma FitStep(s: State, t: State, limit: nat, may: Splits)
    requires Step(s, t, limit, may) && Fit(may)
    ensures Grown(s, t) == 0
  {
    if tail: nat :| Split(s, t, tail, limit) && may(s.queue[0].alloc, tail) {
      assert tail <= s.queue[0].alloc;
    }
  }

  /** One block that fills the queue, then split. */
  function OneSplit(alloc: nat, tail: nat): seq<State> {
    [State(0, 0, [], false), State(0, alloc, [Queued(alloc, false)], false), State(alloc - tail, alloc, [Queued(tail, false)], false)]
  }

  /** What that leads to is past the limit, with no writer waiting, exactly if the tail lies in more memory. */
  lemma FillAndSplit(alloc: nat, tail: nat, may: Splits)
    requires may(alloc, tail)
    ensures Run(OneSplit(alloc, tail), alloc, may)
    ensures Keeps(OneSplit(alloc, tail)[2], alloc) <==> tail <= alloc
  {
    var run := OneSplit(alloc, tail);
    assert run[0].queue + [Queued(alloc, false)] == run[1].queue;
    assert Write(run[0], run[1], alloc, alloc);
    assert Split(run[1], run[2], tail, alloc);
    assert StepAt(run, 0, alloc, may) && StepAt(run, 1, alloc, may);
    var qs := run[2].queue;
    assert qs[1..] == [] && !qs[0].waits;
    assert Sum(qs) == tail + Sum([]) && WaitSum(qs) == 0 + WaitSum([]);
  }

  /** The limit is kept in every run, whatever it is, if and only if no split that can happen puts its tail
      into more memory than the block had. */
  lemma KeptIffSplitsFit(may: Splits)
    ensures (forall run, limit :: Run(run, limit, may) ==> AlwaysKeeps(run, limit)) <==> Fit(may)
  {
    if Fit(may) {
      forall run, limit | Run(run, limit, may)
        ensures AlwaysKeeps(run, limit)
      {
        forall i | 0 <= i < |run|
          ensures Keeps(run[i], limit)
        {
          FlowIsBounded(run, i, limit, may);
          NoneGrown(run, i, limit, may);
        }
      }
    } else {
      var alloc, tail :| may(alloc, tail) && tail > alloc;
      var run := OneSplit(alloc, tail);
      FillAndSplit(alloc, tail, may);
      assert run[2] in run && !AlwaysKeeps(run, alloc);
    }
  }

  // ---------- The splits of the program ----------

  function Balloc(addr: nat, size: nat): int {
    Lim(addr, size) - Base(addr)
  }

  /** In aligned memory, as mallocs give it, n bytes split off into a new block fit exactly if they need no
      more of BLOCKALIGN than what was asked for with the block. */
  lemma AlignedSplitFits(addr: nat, size: nat, addr': nat, n: nat)
    requires addr % BLOCKALIGN == 0 && addr' % BLOCKALIGN == 0
    ensures Balloc(addr', n) <= Balloc(addr, size) <==> n / BLOCKALIGN <= size / BLOCKALIGN
  {
    assert Balloc(addr, size) == 8 * (size / 8) + 80 && Balloc(addr', n) == 8 * (n / 8) + 80;
  }

  /** In memory anywhere they fit exactly if they need less than one byte more than what was asked for. */
  lemma SplitFitsAnywhere(size: nat, n: nat)
    ensures (forall addr, addr' :: Balloc(addr', n) <= Balloc(addr, size)) <==> n / BLOCKALIGN < (size + 1) / BLOCKALIGN
  {
    forall addr
      ensures 8 * ((size + 1) / 8) + 72 <= Balloc(addr, size) && Balloc(addr, n) <= 8 * (n / 8) + 80
    {
      BallocRange(addr, size);
      BallocRange(addr, n);
    }
    assert Balloc(1, size) == 8 * ((size + 1) / 8) + 72 && Balloc(0, n) == 8 * (n / 8) + 80;
  }

  lemma BallocRange(addr: nat, size: nat)
    ensures 8 * ((size + 1) / 8) + 72 <= Balloc(addr, size) <= 8 * (size / 8) + 80
  {
  }

  /** The splits that qread and qbread make in aligned memory, of blocks that hold up to over bytes more than
      they were asked for with.  splitblock copies the tail only if it is not the longer part. */
  ghost predicate Made(over: nat, alloc: nat, tail: nat) {
    tail == alloc || exists addr, size, addr', n :: MadeAt(over, alloc, tail, addr, size, addr', n)
  }

  predicate MadeAt(over: nat, alloc: nat, tail: nat, addr: nat, size: nat, addr': nat, n: nat) {
    && addr % BLOCKALIGN == 0 && addr' % BLOCKALIGN == 0 && alloc == Balloc(addr, size) && tail == Balloc(addr', n)
    && 2 * n <= Min(size + over, alloc)
  }

  lemma MadeFits(over: nat, alloc: nat, tail: nat)
    requires Made(over, alloc, tail) && over <= BLOCKALIGN
    ensures tail <= alloc
  {
    if tail != alloc {
      var addr, size, addr', n :| MadeAt(over, alloc, tail, addr, size, addr', n);
      AlignedSplitFits(addr, size, addr', n);
      assert 2 * n <= size + 8;
    }
  }

  ghost function MadeWith(over: nat): Splits {
    (alloc: nat, tail: nat) => Made(over, alloc, tail)
  }

  /** The limit is kept by the program in every run if and only if blocks are filled with no more than 8 bytes
      above what was asked for, whether in front or behind. */
  lemma KeptIffNotOverfilled(over: nat)
    ensures (forall run, limit :: Run(run, limit, MadeWith(over)) ==> AlwaysKeeps(run, limit)) <==> over <= BLOCKALIGN
  {
    var may := MadeWith(over);
    KeptIffSplitsFit(may);
    if over <= BLOCKALIGN {
      forall alloc, tail | may(alloc, tail)
        ensures tail <= alloc
      {
        MadeFits(over, alloc, tail);
      }
    } else {
      assert Balloc(0, 7) == 80 && Balloc(0, 8) == 88;
      assert MadeAt(over, 80, 88, 0, 7, 0, 8);
      assert may(80, 88) && !Fit(may);
    }
  }

  /** A block asked for with one byte, since filled through the room for headers and trailers, fills a queue.
      A reader takes all but 15 bytes of it: the queue holds more than its limit and no writer waits. */
  lemma GrowingSplit()
    ensures var run := OneSplit(80, 88); Run(run, 80, MadeWith(79)) && !Keeps(run[2], 80) && WaitSum(run[2].queue) == 0
  {
    assert Balloc(0, 1) == 80 && Balloc(0, 15) == 88;
    assert MadeAt(79, 80, 88, 0, 1, 0, 15);
    FillAndSplit(80, 88, MadeWith(79));
    assert OneSplit(80, 88)[2].queue[1..] == [];
  }

  /** The words that the program compares say the same exactly while the true difference fits one. */
  lemma WordsCompare(d: int)
    ensures Signed(Wrap(d)) == d <==> -TWO31 <= d < TWO31
  {
    if Signed(Wrap(d)) == d {
      assert 0 <= Wrap(d) < TWO32;
    }
  }
}
