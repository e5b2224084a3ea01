/**
 Channels and the names they carry, in kern/chan.c: counted references, closing, and names that are
 copied when they are written to while others hold them.
 */
module Chans {
  import opened Words
  import opened Walk

  /** Where an object is. */
  type Id = nat

  /** A struct Path: the string, and the mount point crossed under each of its elements. */
  datatype Name = Name(s: string, mtpt: seq<Option<Id>>)

  /** A reference to a channel, to a name or to the mount head of a key. */
  datatype Ref = ChanRef(c: Id) | PathRef(p: Id) | HeadRef(k: Key)

  datatype Head = Head(from: Id, mount: seq<Id>)

  /** A channel: the file it is at, and the name it carries. */
  datatype Channel = Channel(file: Chan, own: Option<Id>)

  /** What is in memory. An object without references stays here, as free memory does. */
  datatype Store = Store(chan: map<Id, Channel>, path: map<Id, Name>)

  /** Memory and reference counts at some time. */
  datatype Snap = Snap(mem: Store, held: multiset<Ref>)

  // ---------- Closing ----------

  lemma Fewer(h: multiset<Ref>, held: multiset<Ref>)
    requires h <= held
    ensures |h| <= |held|
  {
    assert held == h + (held - h);
  }

  /** cclose, pathclose, and the loop of pathclose: what references are left. The last one to go takes with it
      those that the object had. */
  function CloseChan(s: Store, held: multiset<Ref>, c: Id): (h: multiset<Ref>)
    ensures h <= held
    decreases |held|, 0
  {
    if ChanRef(c) !in held then held
    else
      var h := held - multiset{ChanRef(c)};
      if ChanRef(c) in h || c !in s.chan || s.chan[c].own.None? then h else ClosePath(s, h, s.chan[c].own.value)
  }

  function ClosePath(s: Store, held: multiset<Ref>, p: Id): (h: multiset<Ref>)
    ensures h <= held
    decreases |held|, 0
  {
    if PathRef(p) !in held then held
    else
      var h := held - multiset{PathRef(p)};
      if PathRef(p) in h || p !in s.path then h else CloseAll(s, h, s.path[p].mtpt)
  }

  function CloseAll(s: Store, held: multiset<Ref>, ms: seq<Option<Id>>): (h: multiset<Ref>)
    ensures h <= held
    decreases |held|, |ms| + 1
  {
    if ms == [] then held
    else
      var h := if ms[0].Some? then CloseChan(s, held, ms[0].value) else held;
      Fewer(h, held);
      CloseAll(s, h, ms[1..])
  }

  function One(m: Option<Id>): multiset<Ref> {
    if m.Some? then multiset{ChanRef(m.value)} else multiset{}
  }

  /** The references that a name has. */
  function MtptRefs(ms: seq<Option<Id>>): multiset<Ref> {
    if ms == [] then multiset{} else One(ms[0]) + MtptRefs(ms[1..])
  }

  lemma {:induction false} MtptSnoc(ms: seq<Option<Id>>, m: Option<Id>)
    ensures MtptRefs(ms + [m]) == MtptRefs(ms) + One(m)
  {
    if ms == [] {
      assert ms + [m] == [m];
    } else {
      assert (ms + [m])[1..] == ms[1..] + [m];
      MtptSnoc(ms[1..], m);
    }
  }

  lemma LastReplaced<T>(left: seq<T>, x: T, y: T)
    ensures (left + [x])[|left| := y] == left + [y]
  {
  }

  lemma TakesOver(rest: multiset<Ref>, n: multiset<Ref>, c: Id)
    ensures rest + n + One(Some(c)) == rest + multiset{ChanRef(c)} + n
  {
  }

  lemma Nothing(rest: multiset<Ref>)
    ensures rest + One(None) == rest
  {
  }

  /** The references to and from a new name. */
  function NameRefs(p: Id, ms: seq<Option<Id>>): multiset<Ref> {
    multiset{PathRef(p)} + MtptRefs(ms)
  }

  /** One more element, on top of other references. */
  lemma NameSnoc(rest: multiset<Ref>, p: Id, ms: seq<Option<Id>>, m: Option<Id>)
    ensures rest + NameRefs(p, ms + [m]) == rest + NameRefs(p, ms) + One(m)
  {
    MtptSnoc(ms, m);
  }

  lemma MtptTake(ms: seq<Option<Id>>, i: nat)
    requires i < |ms|
    ensures MtptRefs(ms[..i + 1]) == MtptRefs(ms[..i]) + One(ms[i])
  {
    MtptSnoc(ms[..i], ms[i]);
    assert ms[..i + 1] == ms[..i] + [ms[i]];
  }

  ghost predicate AllHeld(ms: seq<Option<Id>>, held: multiset<Ref>) {
    forall i :: 0 <= i < |ms| && ms[i].Some? ==> ChanRef(ms[i].value) in held
  }

  lemma HeldSnoc(ms: seq<Option<Id>>, m: Option<Id>, held: multiset<Ref>)
    ensures AllHeld(ms + [m], held) <==> AllHeld(ms, held) && (m.Some? ==> ChanRef(m.value) in held)
  {
    var more := ms + [m];
    assert more[|ms|] == m;
    assert forall i :: 0 <= i < |ms| ==> more[i] == ms[i];
  }

  /** Channels that others hold too only lose what is closed. */
  lemma {:induction false} CloseAllHeld(s: Store, rest: multiset<Ref>, ms: seq<Option<Id>>)
    requires AllHeld(ms, rest)
    ensures CloseAll(s, rest + MtptRefs(ms), ms) == rest
  {
    if ms != [] {
      var more := rest + MtptRefs(ms[1..]);
      assert rest + MtptRefs(ms) == more + One(ms[0]);
      if ms[0].Some? {
        assert (more + One(ms[0])) - multiset{ChanRef(ms[0].value)} == more;
      } else {
        assert more + One(ms[0]) == more;
      }
      CloseAllHeld(s, rest, ms[1..]);
    }
  }

  lemma CloseShared(s: Store, rest: multiset<Ref>, c: Id)
    requires ChanRef(c) in rest || (c in s.chan && s.chan[c].own.None?)
    ensures CloseChan(s, rest + multiset{ChanRef(c)}, c) == rest
  {
    assert rest + multiset{ChanRef(c)} - multiset{ChanRef(c)} == rest;
  }

  lemma ClosePathShared(s: Store, rest: multiset<Ref>, p: Id)
    requires PathRef(p) in rest
    ensures ClosePath(s, rest + multiset{PathRef(p)}, p) == rest
  {
    assert rest + multiset{PathRef(p)} - multiset{PathRef(p)} == rest;
  }

  lemma ClosePathLast(s: Store, rest: multiset<Ref>, p: Id)
    requires PathRef(p) !in rest && p in s.path && AllHeld(s.path[p].mtpt, rest)
    ensures ClosePath(s, rest + MtptRefs(s.path[p].mtpt) + multiset{PathRef(p)}, p) == rest
  {
    var ms := s.path[p].mtpt;
    var more := rest + MtptRefs(ms);
    OnlyChans(ms);
    assert more + multiset{PathRef(p)} - multiset{PathRef(p)} == more;
    CloseAllHeld(s, rest, ms);
  }

  lemma {:induction false} OnlyChans(ms: seq<Option<Id>>)
    ensures forall r <- MtptRefs(ms) :: r.ChanRef?
  {
    if ms != [] {
      OnlyChans(ms[1..]);
    }
  }

  function FileOf(s: Store, m: Option<Id>): Option<Chan> {
    if m.Some? && m.value in s.chan then Some(s.chan[m.value].file) else None
  }

  function FilesOf(s: Store, ms: seq<Option<Id>>): (fs: seq<Option<Chan>>)
    ensures |fs| == |ms|
  {
    if ms == [] then [] else FilesOf(s, ms[..|ms| - 1]) + [FileOf(s, ms[|ms| - 1])]
  }

  lemma FilesSnoc(s: Store, ms: seq<Option<Id>>, m: Option<Id>)
    ensures FilesOf(s, ms + [m]) == FilesOf(s, ms) + [FileOf(s, m)]
  {
    assert (ms + [m])[..|ms|] == ms;
  }

  // ---------- Conservation ----------

  function OwnRefs(own: Option<Id>): multiset<Ref> {
    if own.Some? then multiset{PathRef(own.value)} else multiset{}
  }

  /** The references that the channel and the name at i have while they are in use. */
  function ChanRefs(s: Store, held: multiset<Ref>, i: Id): multiset<Ref> {
    if ChanRef(i) in held && i in s.chan then OwnRefs(s.chan[i].own) else multiset{}
  }

  function PathRefs(s: Store, held: multiset<Ref>, i: Id): multiset<Ref> {
    if PathRef(i) in held && i in s.path then MtptRefs(s.path[i].mtpt) else multiset{}
  }

  function RefsOf(s: Store, held: multiset<Ref>): Id -> multiset<Ref> {
    (i: Id) => ChanRefs(s, held, i) + PathRefs(s, held, i)
  }

  function Total<T(==)>(f: Id -> multiset<T>, n: nat): multiset<T> {
    if n == 0 then multiset{} else Total(f, n - 1) + f(n - 1)
  }

  /** Those of all objects below n. */
  function Inner(s: Store, held: multiset<Ref>, n: nat): multiset<Ref> {
    Total(RefsOf(s, held), n)
  }

  lemma {:induction false} TotalSame<T>(f: Id -> multiset<T>, g: Id -> multiset<T>, n: nat)
    requires forall i: Id :: i < n ==> f(i) == g(i)
    ensures Total(f, n) == Total(g, n)
  {
    if n > 0 {
      TotalSame(f, g, n - 1);
    }
  }

  lemma Slide<T>(a: multiset<T>, b: multiset<T>, d: multiset<T>)
    ensures a + (b + d) == (a + b) + d == (a + d) + b
  {
  }

  /** One object makes the difference. */
  lemma {:induction false} TotalBut<T>(f: Id -> multiset<T>, g: Id -> multiset<T>, n: nat, j: Id, d: multiset<T>)
    requires j < n && f(j) == g(j) + d && forall i: Id :: i < n && i != j ==> f(i) == g(i)
    ensures Total(f, n) == Total(g, n) + d
  {
    Slide(Total(g, n - 1), g(n - 1), d);
    if j == n - 1 {
      TotalSame(f, g, n - 1);
    } else {
      TotalBut(f, g, n - 1, j, d);
    }
  }

  lemma {:induction false} TotalHas<T>(f: Id -> multiset<T>, n: nat, i: Id)
    requires i < n
    ensures f(i) <= Total(f, n)
  {
    if i < n - 1 {
      TotalHas(f, n - 1, i);
    }
  }

  ghost predicate Below(s: Store, n: nat) {
    (forall c <- s.chan :: c < n) && (forall p <- s.path :: p < n)
  }

  /** Every reference is one of ext, or of an object in use. */
  ghost predicate Paid(s: Store, held: multiset<Ref>, ext: multiset<Ref>, n: nat) {
    Below(s, n) && held == ext + Inner(s, held, n)
  }

  lemma TakenOut<T>(held: multiset<T>, ext: multiset<T>, inner: multiset<T>, r: T)
    requires held == ext + inner && r in ext
    ensures held - multiset{r} == (ext - multiset{r}) + inner
  {
  }

  lemma Handed<T>(h: multiset<T>, ext: multiset<T>, inner: multiset<T>, d: multiset<T>)
    requires h == ext + (inner + d)
    ensures h == (ext + d) + inner
  {
  }

  lemma PutAndTaken<T>(ext: multiset<T>, r: T)
    ensures (ext + multiset{r}) - multiset{r} == ext
  {
  }

  lemma Reordered<T>(e: multiset<T>, o: multiset<T>, rest: multiset<T>, inner: multiset<T>)
    ensures e + (o + rest) + inner == ((e + rest) + o) + inner
  {
  }

  lemma RefsKept(s: Store, held: multiset<Ref>, h: multiset<Ref>, i: Id)
    ensures (ChanRef(i) in held <==> ChanRef(i) in h) ==> ChanRefs(s, held, i) == ChanRefs(s, h, i)
    ensures (PathRef(i) in held <==> PathRef(i) in h) ==> PathRefs(s, held, i) == PathRefs(s, h, i)
  {
  }

  /** The object at j has d less, and the others are as before. */
  lemma {:induction false} OneLess(s: Store, held: multiset<Ref>, h: multiset<Ref>, n: nat, j: Id, d: multiset<Ref>)
    requires j < n && RefsOf(s, held)(j) == RefsOf(s, h)(j) + d
    requires forall i: Id :: i != j ==> (ChanRef(i) in held <==> ChanRef(i) in h) && (PathRef(i) in held <==> PathRef(i) in h)
    ensures Inner(s, held, n) == Inner(s, h, n) + d
  {
    var f, g := RefsOf(s, held), RefsOf(s, h);
    forall i: Id | i != j
      ensures f(i) == g(i)
    {
      RefsKept(s, held, h, i);
    }
    TotalBut(f, g, n, j, d);
  }

  lemma {:induction false} NoneLess(s: Store, held: multiset<Ref>, h: multiset<Ref>, n: nat)
    requires forall i: Id :: (ChanRef(i) in held && i in s.chan <==> ChanRef(i) in h && i in s.chan)
                          && (PathRef(i) in held && i in s.path <==> PathRef(i) in h && i in s.path)
    ensures Inner(s, held, n) == Inner(s, h, n)
  {
    var f, g := RefsOf(s, held), RefsOf(s, h);
    forall i: Id
      ensures f(i) == g(i)
    {
      assert ChanRefs(s, held, i) == ChanRefs(s, h, i) && PathRefs(s, held, i) == PathRefs(s, h, i);
    }
    TotalSame(f, g, n);
  }

  lemma Slid<T>(d: multiset<T>, b: multiset<T>)
    ensures d + b == multiset{} + b + d && b + d == b + multiset{} + d
  {
  }

  lemma {:induction false} ChanLess(s: Store, held: multiset<Ref>, c: Id, n: nat)
    requires Below(s, n) && ChanRef(c) in held
    ensures var h := held - multiset{ChanRef(c)};
            Inner(s, held, n) == Inner(s, h, n) + (if ChanRef(c) in h || c !in s.chan then multiset{} else OwnRefs(s.chan[c].own))
  {
    var h := held - multiset{ChanRef(c)};
    if ChanRef(c) in h || c !in s.chan {
      NoneLess(s, held, h, n);
    } else {
      Slid(OwnRefs(s.chan[c].own), PathRefs(s, held, c));
      RefsKept(s, held, h, c);
      OneLess(s, held, h, n, c, OwnRefs(s.chan[c].own));
    }
  }

  lemma {:induction false} PathLess(s: Store, held: multiset<Ref>, p: Id, n: nat)
    requires Below(s, n) && PathRef(p) in held
    ensures var h := held - multiset{PathRef(p)};
            Inner(s, held, n) == Inner(s, h, n) + (if PathRef(p) in h || p !in s.path then multiset{} else MtptRefs(s.path[p].mtpt))
  {
    var h := held - multiset{PathRef(p)};
    if PathRef(p) in h || p !in s.path {
      NoneLess(s, held, h, n);
    } else {
      Slid(MtptRefs(s.path[p].mtpt), ChanRefs(s, held, p));
      RefsKept(s, held, h, p);
      OneLess(s, held, h, n, p, MtptRefs(s.path[p].mtpt));
    }
  }

  /** Closing takes one of the references from outside; the others that go are those of what is no longer in use. */
  lemma {:induction false} CloseChanPaid(s: Store, held: multiset<Ref>, ext: multiset<Ref>, c: Id, n: nat)
    requires Paid(s, held, ext, n) && ChanRef(c) in ext
    ensures Paid(s, CloseChan(s, held, c), ext - multiset{ChanRef(c)}, n)
    decreases |held|, 0
  {
    var h, e := held - multiset{ChanRef(c)}, ext - multiset{ChanRef(c)};
    TakenOut(held, ext, Inner(s, held, n), ChanRef(c));
    ChanLess(s, held, c, n);
    if !(ChanRef(c) in h || c !in s.chan || s.chan[c].own.None?) {
      var p := s.chan[c].own.value;
      Handed(h, e, Inner(s, h, n), multiset{PathRef(p)});
      ClosePathPaid(s, h, e + multiset{PathRef(p)}, p, n);
      PutAndTaken(e, PathRef(p));
    }
  }

  lemma {:induction false} ClosePathPaid(s: Store, held: multiset<Ref>, ext: multiset<Ref>, p: Id, n: nat)
    requires Paid(s, held, ext, n) && PathRef(p) in ext
    ensures Paid(s, ClosePath(s, held, p), ext - multiset{PathRef(p)}, n)
    decreases |held|, 0
  {
    var h, e := held - multiset{PathRef(p)}, ext - multiset{PathRef(p)};
    TakenOut(held, ext, Inner(s, held, n), PathRef(p));
    PathLess(s, held, p, n);
    if !(PathRef(p) in h || p !in s.path) {
      var ms := s.path[p].mtpt;
      Handed(h, e, Inner(s, h, n), MtptRefs(ms));
      CloseAllPaid(s, h, e, ms, n);
    }
  }

  lemma {:induction false} CloseAllPaid(s: Store, held: multiset<Ref>, ext: multiset<Ref>, ms: seq<Option<Id>>, n: nat)
    requires Paid(s, held, ext + MtptRefs(ms), n)
    ensures Paid(s, CloseAll(s, held, ms), ext, n)
    decreases |held|, |ms| + 1
  {
    if ms == [] {
      Nothing(ext);
    } else {
      var rest := ext + MtptRefs(ms[1..]);
      Reordered(ext, One(ms[0]), MtptRefs(ms[1..]), Inner(s, held, n));
      var h := held;
      if ms[0].Some? {
        var c := ms[0].value;
        CloseChanPaid(s, held, rest + One(ms[0]), c, n);
        PutAndTaken(rest, ChanRef(c));
        h := CloseChan(s, held, c);
      } else {
        Nothing(rest);
      }
      Fewer(h, held);
      CloseAllPaid(s, h, ext, ms[1..], n);
    }
  }

  lemma {:induction false} TotalGrows<T>(f: Id -> multiset<T>, g: Id -> multiset<T>, n: nat, m: nat)
    requires n <= m && (forall i: Id :: i < n ==> f(i) == g(i)) && forall i: Id :: n <= i < m ==> g(i) == multiset{}
    ensures Total(f, n) == Total(g, m)
    decreases m
  {
    if n == m {
      TotalSame(f, g, n);
    } else {
      TotalGrows(f, g, n, m - 1);
    }
  }

  /** All that is in use is there. */
  ghost predicate Present(s: Store, held: multiset<Ref>) {
    && (forall c :: ChanRef(c) in held ==> c in s.chan)
    && (forall p :: PathRef(p) in held ==> p in s.path)
  }

  /** Nothing that was there has changed. */
  ghost predicate Keeps(s: Store, t: Store) {
    && (forall c <- s.chan :: c in t.chan && t.chan[c] == s.chan[c])
    && (forall p <- s.path :: p in t.path && t.path[p] == s.path[p])
  }

  /** Objects that nobody refers to make no difference. */
  lemma {:induction false} MoreObjects(s: Store, t: Store, held: multiset<Ref>, n: nat, m: nat)
    requires Below(s, n) && n <= m && Present(s, held) && Keeps(s, t)
    ensures Inner(s, held, n) == Inner(t, held, m)
  {
    var f, g := RefsOf(s, held), RefsOf(t, held);
    forall i: Id
      ensures f(i) == g(i) && (i >= n ==> g(i) == multiset{})
    {
      assert ChanRefs(s, held, i) == ChanRefs(t, held, i) && PathRefs(s, held, i) == PathRefs(t, held, i);
    }
    TotalGrows(f, g, n, m);
  }

  lemma {:induction false} MtptHas(ms: seq<Option<Id>>, i: nat)
    requires i < |ms| && ms[i].Some?
    ensures ChanRef(ms[i].value) in MtptRefs(ms)
  {
    if i > 0 {
      MtptHas(ms[1..], i - 1);
    }
  }

  lemma {:induction false} MtptIn(ms: seq<Option<Id>>, r: Ref)
    requires r in MtptRefs(ms)
    ensures exists i :: 0 <= i < |ms| && ms[i].Some? && r == ChanRef(ms[i].value)
  {
    if r in One(ms[0]) {
      assert ms[0].Some?;
    } else {
      MtptIn(ms[1..], r);
      var i :| 0 <= i < |ms[1..]| && ms[1..][i].Some? && r == ChanRef(ms[1..][i].value);
      assert ms[i + 1] == ms[1..][i];
    }
  }

  lemma Placed<T>(ext: multiset<T>, i: multiset<T>, r: multiset<T>, b: multiset<T>)
    ensures (ext + i) + r + b == (ext + r) + (i + b)
  {
  }

  lemma {:induction false} MtptThere(s: Store, held: multiset<Ref>, ms: seq<Option<Id>>, n: nat)
    requires AllHeld(ms, held)
    ensures Inner(s, held + MtptRefs(ms), n) == Inner(s, held, n)
  {
    OnlyChans(ms);
    forall c: Id | ChanRef(c) in MtptRefs(ms)
      ensures ChanRef(c) in held
    {
      MtptIn(ms, ChanRef(c));
    }
    NoneLess(s, held + MtptRefs(ms), held, n);
  }

  lemma {:induction false} WithChan(s: Store, held: multiset<Ref>, r: Id, n: nat)
    requires Below(s, n) && r in s.chan && ChanRef(r) !in held
    ensures Inner(s, held + multiset{ChanRef(r)}, n) == Inner(s, held, n) + OwnRefs(s.chan[r].own)
  {
    assert held + multiset{ChanRef(r)} - multiset{ChanRef(r)} == held;
    ChanLess(s, held + multiset{ChanRef(r)}, r, n);
  }

  lemma {:induction false} WithPath(s: Store, held: multiset<Ref>, p: Id, n: nat)
    requires Below(s, n) && p in s.path
    ensures Inner(s, held + multiset{PathRef(p)}, n)
         == Inner(s, held, n) + (if PathRef(p) in held then multiset{} else MtptRefs(s.path[p].mtpt))
  {
    assert held + multiset{PathRef(p)} - multiset{PathRef(p)} == held;
    PathLess(s, held + multiset{PathRef(p)}, p, n);
  }

  /** What comes with a new channel: it, the reference to its name, and if that is new too those of the name. */
  lemma {:induction false} Received(s: Store, held: multiset<Ref>, ext: multiset<Ref>, r: Id, p: Id, bill: multiset<Ref>, n: nat)
    requires Paid(s, held, ext, n)
    requires r in s.chan && ChanRef(r) !in held && s.chan[r].own == Some(p) && p in s.path && AllHeld(s.path[p].mtpt, held)
    requires bill == if PathRef(p) in held then multiset{PathRef(p)} else NameRefs(p, s.path[p].mtpt)
    ensures Paid(s, held + multiset{ChanRef(r)} + bill, ext + multiset{ChanRef(r)}, n)
  {
    var ms := s.path[p].mtpt;
    var h1 := held + multiset{ChanRef(r)};
    var h2 := h1 + multiset{PathRef(p)};
    WithChan(s, held, r, n);
    WithPath(s, h1, p, n);
    if PathRef(p) !in held {
      MtptThere(s, h2, ms, n);
      Pieces(h1, multiset{PathRef(p)}, MtptRefs(ms), Inner(s, held, n));
    }
    Placed(ext, Inner(s, held, n), multiset{ChanRef(r)}, bill);
  }

  lemma Pieces<T>(h: multiset<T>, p: multiset<T>, m: multiset<T>, i: multiset<T>)
    ensures h + p + m == h + (p + m) && i + p + m == i + (p + m)
  {
  }

  lemma Settled<T>(ours: multiset<T>, table: multiset<T>, r: T, c: T)
    requires c in ours
    ensures ((ours + table) + multiset{r}) - multiset{c} == (ours - multiset{c} + multiset{r}) + table
  {
  }

  lemma ReceivedPresent(s: Store, held: multiset<Ref>, r: Id, p: Id, bill: multiset<Ref>)
    requires Present(s, held) && r in s.chan && p in s.path && AllHeld(s.path[p].mtpt, held)
    requires bill == if PathRef(p) in held then multiset{PathRef(p)} else NameRefs(p, s.path[p].mtpt)
    ensures Present(s, held + multiset{ChanRef(r)} + bill)
  {
    var ms := s.path[p].mtpt;
    OnlyChans(ms);
    forall c: Id | ChanRef(c) in MtptRefs(ms)
      ensures c in s.chan
    {
      MtptIn(ms, ChanRef(c));
    }
  }

  lemma PresentLess(s: Store, held: multiset<Ref>, h: multiset<Ref>)
    requires Present(s, held) && h <= held
    ensures Present(s, h)
  {
  }

  /** A new channel received, and another closed. */
  lemma {:induction false} Exchanged(s: Store, held: multiset<Ref>, ours: multiset<Ref>, table: multiset<Ref>, r: Id, p: Id,
                                     bill: multiset<Ref>, c: Id, n: nat)
    requires Present(s, held) && Paid(s, held, ours + table, n) && ChanRef(c) in ours
    requires r in s.chan && ChanRef(r) !in held && s.chan[r].own == Some(p) && p in s.path && AllHeld(s.path[p].mtpt, held)
    requires bill == if PathRef(p) in held then multiset{PathRef(p)} else NameRefs(p, s.path[p].mtpt)
    ensures var h := CloseChan(s, held + multiset{ChanRef(r)} + bill, c);
            Present(s, h) && Paid(s, h, (ours - multiset{ChanRef(c)} + multiset{ChanRef(r)}) + table, n)
  {
    var x := held + multiset{ChanRef(r)} + bill;
    Received(s, held, ours + table, r, p, bill, n);
    ReceivedPresent(s, held, r, p, bill);
    Settled(ours, table, ChanRef(r), ChanRef(c));
    CloseChanPaid(s, x, (ours + table) + multiset{ChanRef(r)}, c, n);
    PresentLess(s, x, CloseChan(s, x, c));
  }

  // ---------- The objects ----------

  class Kernel {
    const w: World
    /** The mount table. */
    const heads: map<Key, Head>
    /** The reference counts. */
    var held: multiset<Ref>
    var chan: map<Id, Channel>
    var path: map<Id, Name>
    /** The allocator: nothing is there yet. */
    var next: Id

    ghost function Mem(): Store
      reads `chan, `path
    {
      Store(chan, path)
    }

    ghost function Now(): Snap
      reads this
    {
      Snap(Mem(), held)
    }

    // ---------- Closing ----------

    /** cclose. A reference that is not there to be given up is passed over, where the program panics. */
    method Cclose(c: Id)
      modifies `held
      ensures held == CloseChan(Mem(), old(held), c)
      decreases |held|, 0
    {
      if ChanRef(c) !in held {
        return;
      }
      held := held - multiset{ChanRef(c)};
      if ChanRef(c) !in held && c in chan && chan[c].own.Some? {
        Pathclose(chan[c].own.value);
      }
    }

    /** pathclose. */
    method Pathclose(p: Id)
      modifies `held
      ensures held == ClosePath(Mem(), old(held), p)
      decreases |held|, 0
    {
      if PathRef(p) !in held {
        return;
      }
      held := held - multiset{PathRef(p)};
      if PathRef(p) !in held && p in path {
        Closeall(path[p].mtpt);
      }
    }

    /** The loop of pathclose. */
    method Closeall(ms: seq<Option<Id>>)
      modifies `held
      ensures held == CloseAll(Mem(), old(held), ms)
      decreases |held|, 1
    {
      assert ms[0..] == ms;
      for i := 0 to |ms|
        invariant held <= old(held)
        invariant CloseAll(Mem(), held, ms[i..]) == CloseAll(Mem(), old(held), ms)
      {
        assert ms[i..][1..] == ms[i + 1..];
        Fewer(held, old(held));
        if ms[i].Some? {
          Cclose(ms[i].value);
        }
      }
    }

    // ---------- A walk's own references ----------

    /** At that time the mount table was the one that names are resolved in, references led to names, and what
        the mount table and objects in use hold was held. */
    ghost predicate Sound(z: Snap) {
      && (forall key :: TableAt(z, key))
      && (forall p :: NameAt(z, p))
      && (forall c :: ChanAt(z, c))
    }

    ghost predicate TableAt(z: Snap, key: Key) {
      && (key in heads <==> key in w.table)
      && (key in heads ==>
            && HeadRef(key) in z.held && InUse(z, heads[key].from, w.table[key].from)
            && |heads[key].mount| == |w.table[key].mount|
            && forall i :: 0 <= i < |heads[key].mount| ==> InUse(z, heads[key].mount[i], w.table[key].mount[i]))
    }

    ghost predicate NameAt(z: Snap, p: Id) {
      PathRef(p) in z.held ==> p in z.mem.path && AllHeld(z.mem.path[p].mtpt, z.held)
    }

    ghost predicate ChanAt(z: Snap, c: Id) {
      ChanRef(c) in z.held ==> c in z.mem.chan && (z.mem.chan[c].own.Some? ==> PathRef(z.mem.chan[c].own.value) in z.held)
    }

    /** Every reference is one of ours, of the mount table, or of an object in use. */
    ghost predicate Balanced(z: Snap, ours: multiset<Ref>, table: multiset<Ref>, n: nat) {
      && Present(z.mem, z.held) && Paid(z.mem, z.held, ours + table, n)
      && forall key :: TableAt(Snap(z.mem, table), key)
    }

    ghost predicate Accounts(z: Snap, ours: multiset<Ref>, table: multiset<Ref>) {
      exists n :: Balanced(z, ours, table, n)
    }

    /** A channel at that file that others hold. */
    ghost predicate InUse(z: Snap, c: Id, f: Chan) {
      ChanRef(c) in z.held && c in z.mem.chan && z.mem.chan[c].file == f
    }

    /** No channel and no name that was there has been written to. */
    ghost predicate Since(z: Snap)
      reads `chan, `path, `next
    {
      && (forall c :: SameChan(z, c))
      && (forall p :: SameName(z, p))
    }

    ghost predicate SameChan(z: Snap, c: Id)
      reads `chan, `next
    {
      && (c in z.mem.chan ==> c in chan && chan[c] == z.mem.chan[c])
      && (c in chan ==> c < next)
    }

    ghost predicate SameName(z: Snap, p: Id)
      reads `path, `next
    {
      && (p in z.mem.path ==> p in path && path[p] == z.mem.path[p])
      && (p in path ==> p < next)
    }

    /** A name in use: one that was there, or a new one. */
    ghost predicate HasName(z: Snap, p: Id)
      reads `path
    {
      p in path && (p in z.mem.path ==> PathRef(p) in z.held) && AllHeld(path[p].mtpt, z.held)
    }

    /** The references that go with a name: to it, and from it if it is new. */
    ghost function Bill(z: Snap, p: Id): multiset<Ref>
      requires p in path
      reads `path
    {
      if p in z.mem.path then multiset{PathRef(p)} else NameRefs(p, path[p].mtpt)
    }

    /** References that others have had all along, and ours, but to no new name. */
    ghost predicate NoNewName(z: Snap, rest: multiset<Ref>) {
      z.held <= rest && forall p :: PathRef(p) in rest ==> p in z.mem.path
    }

    /** All the references are those of rest and those that go with the name. */
    ghost predicate Billed(z: Snap, p: Id, rest: multiset<Ref>)
      reads this
    {
      Since(z) && HasName(z, p) && NoNewName(z, rest) && held == rest + Bill(z, p)
    }

    /** What a name says; its mount points are channels that were there. */
    ghost function Val(z: Snap, p: Id): Path
      requires p in path
      reads `path
    {
      Path(path[p].s, FilesOf(z.mem, path[p].mtpt))
    }

    lemma {:induction false} NameBalanced(z: Snap, ours: multiset<Ref>, table: multiset<Ref>, n: nat, p: Id)
      requires Balanced(z, ours, table, n)
      ensures NameAt(z, p)
    {
      if PathRef(p) in z.held {
        var ms := z.mem.path[p].mtpt;
        forall i | 0 <= i < |ms| && ms[i].Some?
          ensures ChanRef(ms[i].value) in z.held
        {
          MtptHas(ms, i);
          TotalHas(RefsOf(z.mem, z.held), n, p);
          assert ChanRef(ms[i].value) in PathRefs(z.mem, z.held, p);
        }
      }
    }

    lemma {:induction false} ChanBalanced(z: Snap, ours: multiset<Ref>, table: multiset<Ref>, n: nat, c: Id)
      requires Balanced(z, ours, table, n)
      ensures ChanAt(z, c)
    {
      if ChanRef(c) in z.held && z.mem.chan[c].own.Some? {
        TotalHas(RefsOf(z.mem, z.held), n, c);
        assert PathRef(z.mem.chan[c].own.value) in ChanRefs(z.mem, z.held, c);
      }
    }

    /** Where the accounts are right, what is in use stays in use. */
    lemma AccountsSound(z: Snap, ours: multiset<Ref>, table: multiset<Ref>)
      requires Accounts(z, ours, table)
      ensures Sound(z)
    {
      var n :| Balanced(z, ours, table, n);
      forall p ensures NameAt(z, p) {
        NameBalanced(z, ours, table, n, p);
      }
      forall c ensures ChanAt(z, c) {
        ChanBalanced(z, ours, table, n, c);
      }
      forall key ensures TableAt(z, key) {
        TableMore(z, table, key);
      }
    }

    lemma TableMore(z: Snap, table: multiset<Ref>, key: Key)
      requires TableAt(Snap(z.mem, table), key) && table <= z.held
      ensures TableAt(z, key)
    {
      if key in heads {
        var y := Snap(z.mem, table);
        assert InUse(y, heads[key].from, w.table[key].from);
        forall i | 0 <= i < |heads[key].mount|
          ensures InUse(z, heads[key].mount[i], w.table[key].mount[i])
        {
          assert InUse(y, heads[key].mount[i], w.table[key].mount[i]);
        }
      }
    }

    lemma TableLater(s: Store, t: Store, table: multiset<Ref>, key: Key)
      requires TableAt(Snap(s, table), key) && Keeps(s, t)
      ensures TableAt(Snap(t, table), key)
    {
      if key in heads {
        var y, z := Snap(s, table), Snap(t, table);
        assert InUse(y, heads[key].from, w.table[key].from);
        forall i | 0 <= i < |heads[key].mount|
          ensures InUse(z, heads[key].mount[i], w.table[key].mount[i])
        {
          assert InUse(y, heads[key].mount[i], w.table[key].mount[i]);
        }
      }
    }

    lemma SinceKeeps(z: Snap)
      requires Since(z)
      ensures Keeps(z.mem, Mem()) && Below(Mem(), next)
    {
      forall c | c in z.mem.chan || c in chan ensures SameChan(z, c) {
      }
      forall p | p in z.mem.path || p in path ensures SameName(z, p) {
      }
      assert forall c <- z.mem.chan :: SameChan(z, c);
      assert forall p <- z.mem.path :: SameName(z, p);
      assert forall c <- chan :: SameChan(z, c);
      assert forall p <- path :: SameName(z, p);
    }

    /** New objects that nobody refers to leave the accounts right. */
    lemma {:induction false} StillBalanced(z: Snap, ours: multiset<Ref>, table: multiset<Ref>, n: nat, m: nat)
      requires Balanced(z, ours, table, n) && Since(z) && n <= m && next <= m
      ensures Present(Mem(), z.held) && Paid(Mem(), z.held, ours + table, m) && forall key :: TableAt(Snap(Mem(), table), key)
    {
      SinceKeeps(z);
      MoreObjects(z.mem, Mem(), z.held, n, m);
      forall key ensures TableAt(Snap(Mem(), table), key) {
        TableLater(z.mem, Mem(), table, key);
      }
    }

    method TakeOne(m: Option<Id>)
      modifies `held
      ensures held == old(held) + One(m)
    {
      if m.Some? {
        held := held + multiset{ChanRef(m.value)};
      }
    }

    method TakeAll(ms: seq<Option<Id>>)
      modifies `held
      ensures held == old(held) + MtptRefs(ms)
    {
      ghost var start, got := held, multiset{};
      for i := 0 to |ms|
        invariant held == start + got && got == MtptRefs(ms[..i])
      {
        MtptTake(ms, i);
        TakeOne(ms[i]);
        assert start + got + One(ms[i]) == start + (got + One(ms[i]));
        got := got + One(ms[i]);
      }
      assert ms[..|ms|] == ms;
    }

    /** A reference to a channel that others hold too is given up. */
    method CloseOne(m: Option<Id>, ghost more: multiset<Ref>)
      requires held == more + One(m) && (m.Some? ==> ChanRef(m.value) in more)
      modifies `held
      ensures held == more
    {
      if m.Some? {
        CloseShared(Mem(), more, m.value);
        Cclose(m.value);
      } else {
        assert more + One(m) == more;
      }
    }

    // ---------- Names ----------

    /** copypath. */
    method Copypath(p: Id, ghost z: Snap) returns (q: Id)
      requires Since(z) && p in path
      modifies `held, `path, `next
      ensures Since(z) && q !in z.mem.path && q !in old(path) && path == old(path)[q := old(path)[p]]
      ensures held == old(held) + NameRefs(q, path[q].mtpt)
    {
      q := next;
      next := next + 1;
      path := path[q := path[p]];
      held := held + multiset{PathRef(q)};
      TakeAll(path[q].mtpt);
      assert old(SameName(z, q));
      forall x
        ensures SameName(z, x) && SameChan(z, x)
      {
        assert old(SameName(z, x)) && old(SameChan(z, x));
      }
    }

    /** A new name has one reference, and one that was there more than one. */
    lemma NameCount(p: Id, z: Snap, rest: multiset<Ref>)
      requires Billed(z, p, rest)
      ensures held[PathRef(p)] > 1 <==> p in z.mem.path
    {
      OnlyChans(path[p].mtpt);
    }

    /** A name that others have is copied, and theirs left. */
    method Copyname(p: Id, ghost z: Snap, ghost rest: multiset<Ref>) returns (q: Id)
      requires Billed(z, p, rest) && p in z.mem.path
      modifies `held, `path, `next
      ensures Billed(z, q, rest) && q !in z.mem.path && path[q] == old(path)[p]
    {
      assert SameName(z, p);
      q := Copypath(p, z);
      ghost var more := rest + Bill(z, q);
      assert held == more + multiset{PathRef(p)};
      ClosePathShared(Mem(), more, p);
      Pathclose(p);
    }

    /** uniquepath. */
    method Uniquepath(p: Id, ghost z: Snap, ghost rest: multiset<Ref>) returns (q: Id)
      requires Billed(z, p, rest)
      modifies `held, `path, `next
      ensures Billed(z, q, rest) && q !in z.mem.path && path[q] == old(path)[p]
    {
      NameCount(p, z, rest);
      q := p;
      if held[PathRef(p)] > 1 {
        q := Copyname(p, z, rest);
      }
    }

    /** A name that is ours written over, the references from it exchanged by the caller. */
    method Write(q: Id, nm: Name, ghost z: Snap, ghost rest: multiset<Ref>)
      requires Since(z) && NoNewName(z, rest) && q in path && q !in z.mem.path
      requires AllHeld(nm.mtpt, z.held) && held == rest + NameRefs(q, nm.mtpt)
      modifies `path
      ensures Billed(z, q, rest) && path == old(path)[q := nm]
    {
      path := path[q := nm];
      forall x
        ensures SameName(z, x)
      {
        assert old(SameName(z, x));
      }
    }

    /** A list of mount points with one more at its end. */
    method Extended(q: Id, ms: seq<Option<Id>>, from: Option<Id>, ghost z: Snap, ghost rest: multiset<Ref>) returns (more: seq<Option<Id>>)
      ensures AllHeld(more, z.held) <==> AllHeld(ms, z.held) && (from.Some? ==> ChanRef(from.value) in z.held)
      ensures rest + NameRefs(q, more) == rest + NameRefs(q, ms) + One(from)
      ensures FilesOf(z.mem, more) == FilesOf(z.mem, ms) + [FileOf(z.mem, from)]
    {
      more := ms + [from];
      NameSnoc(rest, q, ms, from);
      FilesSnoc(z.mem, ms, from);
      HeldSnoc(ms, from, z.held);
    }

    /** And without its last. */
    method Shortened(q: Id, ms: seq<Option<Id>>, ghost z: Snap, ghost rest: multiset<Ref>) returns (left: seq<Option<Id>>, c: Option<Id>)
      requires ms != []
      ensures AllHeld(ms, z.held) <==> AllHeld(left, z.held) && (c.Some? ==> ChanRef(c.value) in z.held)
      ensures rest + NameRefs(q, ms) == rest + NameRefs(q, left) + One(c)
      ensures c == ms[|ms| - 1] && FilesOf(z.mem, ms) == FilesOf(z.mem, left) + [FileOf(z.mem, c)]
    {
      left, c := ms[..|ms| - 1], ms[|ms| - 1];
      assert ms == left + [c];
      NameSnoc(rest, q, left, c);
      FilesSnoc(z.mem, left, c);
      HeldSnoc(left, c, z.held);
    }

    /** Another element, with the mount point under it. */
    method Push(q: Id, s: string, from: Option<Id>, ghost z: Snap, ghost rest: multiset<Ref>)
      requires Billed(z, q, rest) && q !in z.mem.path && (from.Some? ==> ChanRef(from.value) in z.held)
      modifies `held, `path
      ensures Billed(z, q, rest) && Val(z, q) == Path(s, old(Val(z, q)).mtpt + [FileOf(z.mem, from)])
    {
      var more := Extended(q, path[q].mtpt, from, z, rest);
      TakeOne(from);
      Write(q, Name(s, more), z, rest);
    }

    /** The last element taken off, and its mount point let go of. */
    method Pop(q: Id, s: string, ghost z: Snap, ghost rest: multiset<Ref>)
      requires Billed(z, q, rest) && q !in z.mem.path && path[q].mtpt != []
      modifies `held, `path
      ensures Billed(z, q, rest)
      ensures var fs := old(Val(z, q)).mtpt; Val(z, q) == Path(s, fs[..|fs| - 1])
    {
      var left, c := Shortened(q, path[q].mtpt, z, rest);
      CloseOne(c, rest + NameRefs(q, left));
      Write(q, Name(s, left), z, rest);
    }

    /** Another mount point under the last element. */
    method Retop(q: Id, from: Option<Id>, ghost z: Snap, ghost rest: multiset<Ref>)
      requires Billed(z, q, rest) && q !in z.mem.path && path[q].mtpt != [] && (from.Some? ==> ChanRef(from.value) in z.held)
      modifies `held, `path
      ensures Billed(z, q, rest) && Val(z, q) == SetTop(old(Val(z, q)), FileOf(z.mem, from))
    {
      ghost var fs := Val(z, q).mtpt;
      assert fs[|fs| - 1 := FileOf(z.mem, from)] == fs[..|fs| - 1] + [FileOf(z.mem, from)];
      var s := path[q].s;
      Pop(q, s, z, rest);
      Push(q, s, from, z, rest);
    }

    /** The mount point under the last element taken out of the name, with the reference to it. */
    method Untop(q: Id, ghost z: Snap, ghost rest: multiset<Ref>) returns (nc: Id)
      requires Billed(z, q, rest) && q !in z.mem.path
      requires var ms := path[q].mtpt; ms != [] && ms[|ms| - 1].Some?
      modifies `path
      ensures Billed(z, q, rest + multiset{ChanRef(nc)}) && Val(z, q) == SetTop(old(Val(z, q)), None)
      ensures ChanRef(nc) in z.held && var fs := old(Val(z, q)).mtpt; fs != [] && fs[|fs| - 1] == FileOf(z.mem, Some(nc))
    {
      var left, c := Shortened(q, path[q].mtpt, z, rest);
      nc := c.value;
      var more := Extended(q, left, None, z, rest + multiset{ChanRef(nc)});
      LastReplaced(FilesOf(z.mem, left), FileOf(z.mem, c), None);
      TakesOver(rest, NameRefs(q, left), nc);
      Nothing(rest + multiset{ChanRef(nc)} + NameRefs(q, left));
      Write(q, Name(path[q].s, more), z, rest + multiset{ChanRef(nc)});
    }

    /** addelem of a "..", the string done. */
    method Dropelem(q: Id, s: string, ghost z: Snap, ghost rest: multiset<Ref>)
      requires Billed(z, q, rest) && q !in z.mem.path
      modifies `held, `path
      ensures Billed(z, q, rest)
      ensures var fs := old(Val(z, q)).mtpt; Val(z, q) == Path(s, if |fs| > 1 then fs[..|fs| - 1] else fs)
    {
      if |path[q].mtpt| > 1 {
        Pop(q, s, z, rest);
      } else {
        Write(q, Name(s, path[q].mtpt), z, rest);
      }
    }

    /** addelem. */
    method Addelem(p: Id, name: string, from: Option<Id>, ghost z: Snap, ghost rest: multiset<Ref>) returns (q: Id)
      requires Billed(z, p, rest) && (from.Some? ==> ChanRef(from.value) in z.held)
      modifies `held, `path, `next
      ensures Billed(z, q, rest) && Val(z, q) == AddElem(old(Val(z, p)), name, FileOf(z.mem, from))
      ensures name != "." ==> q !in z.mem.path
    {
      if name == "." {
        return p;
      }
      q := Uniquepath(p, z, rest);
      assert Val(z, q) == old(Val(z, p));
      var s := AddName(path[q].s, name);
      if name == ".." {
        Dropelem(q, FixDotDotName(s), z, rest);
      } else {
        Push(q, s, from, z, rest);
      }
    }

    /** A name that is done with: what was written for us goes with all that it referred to. */
    method Leave(p: Id, ghost z: Snap, ghost rest: multiset<Ref>)
      requires Billed(z, p, rest)
      modifies `held
      ensures held == rest
    {
      if p in z.mem.path {
        ClosePathShared(Mem(), rest, p);
      } else {
        assert PathRef(p) !in rest;
        ClosePathLast(Mem(), rest, p);
        assert rest + MtptRefs(path[p].mtpt) + multiset{PathRef(p)} == rest + NameRefs(p, path[p].mtpt);
      }
      Pathclose(p);
    }

    // ---------- Channels ----------

    /** A new channel, as devices make them. */
    method Newchan(f: Chan, ghost z: Snap) returns (c: Id)
      requires Since(z)
      modifies `held, `chan, `next
      ensures Since(z) && c !in old(chan) && c !in z.mem.chan && chan == old(chan)[c := Channel(f, None)]
      ensures held == old(held) + multiset{ChanRef(c)}
    {
      c := next;
      next := next + 1;
      chan := chan[c := Channel(f, None)];
      held := held + multiset{ChanRef(c)};
      assert old(SameChan(z, c));
      forall x
        ensures SameName(z, x) && SameChan(z, x)
      {
        assert old(SameName(z, x)) && old(SameChan(z, x));
      }
    }
  }
}
