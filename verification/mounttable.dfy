/**
 The mount table of a process group: cmount and cunmount of kern/chan.c, and the list of all mounts in
 the order they were made, kept by pgrpinsert and pgrpremove of kern/pgrp.c.
 */
module MountTable {
  import opened Words

  /** A channel as far as eqchan looks at it; mchan is the channel of the server it was mounted from. */
  datatype Chan = Chan(typ: nat, dev: nat, path: nat, vers: nat, dir: bool, mchan: Option<Chan>)

  /** What eqchan compares when it skips the version. */
  datatype Key = Key(typ: nat, dev: nat, path: nat)

  function KeyOf(c: Chan): Key {
    Key(c.typ, c.dev, c.path)
  }

  const MREPL := 0
  const MAFTER := 2

  function OrderOf(flag: nat): nat {
    flag % 4
  }

  predicate Create(flag: nat) {
    flag / 4 % 2 == 1
  }

  // ---------- What the table means ----------

  datatype Entry = Entry(to: Chan, mflag: nat, spec: string)

  type Table = map<Key, seq<Entry>>

  /** A member of a union that is bound as a whole goes under the order of the bind. */
  function Copy(e: Entry, order: nat): Entry {
    Entry(e.to, if order == MREPL then MAFTER else order, e.spec)
  }

  function Added(newc: Chan, flag: nat, spec: string, um: seq<Entry>): seq<Entry> {
    [Entry(newc, flag, spec)] + seq(if um == [] then 0 else |um| - 1, i requires 0 <= i < |um| - 1 => Copy(um[i + 1], OrderOf(flag)))
  }

  predicate MayMount(newc: Chan, oldc: Chan, flag: nat, um: seq<Entry>) {
    && newc.dir == oldc.dir
    && (oldc.dir || OrderOf(flag) == MREPL)
    && (um != [] && Create(flag) ==> |um| == 1 && Create(um[0].mflag))
  }

  /** What a fresh union starts with. */
  function Seed(oldc: Chan, order: nat): seq<Entry> {
    if order == MREPL then [] else [Entry(oldc, 0, "")]
  }

  function Union<T>(base: seq<T>, added: seq<T>, order: nat): seq<T> {
    if order == MAFTER then base + added
    else if order == MREPL then added
    else added + base
  }

  function Mounted(t: Table, newc: Chan, oldc: Chan, flag: nat, spec: string, um: seq<Entry>): Table {
    var k, order := KeyOf(oldc), OrderOf(flag);
    t[k := Union(if k in t then t[k] else Seed(oldc, order), Added(newc, flag, spec, um), order)]
  }

  /** A mount is named by the channel mounted, or by the channel of its server. */
  predicate Named(to: Chan, mounted: Chan) {
    KeyOf(to) == KeyOf(mounted) || (to.mchan.Some? && KeyOf(to.mchan.value) == KeyOf(mounted))
  }

  /** Where the first entry of that name is. */
  function Find(es: seq<Entry>, mounted: Chan): (i: nat)
    ensures i <= |es| && (i < |es| ==> Named(es[i].to, mounted)) && forall j :: 0 <= j < i ==> !Named(es[j].to, mounted)
  {
    if es == [] || Named(es[0].to, mounted) then 0 else 1 + Find(es[1..], mounted)
  }

  function Drop<T>(s: seq<T>, i: nat): seq<T>
    requires i < |s|
  {
    s[..i] + s[i + 1..]
  }

  datatype Outcome = Ok | Eunmount | Eunion

  function Unmount(t: Table, mnt: Chan, mounted: Option<Chan>): (Outcome, Table) {
    Unmounted(t, KeyOf(mnt), mounted)
  }

  function Unmounted(t: Table, k: Key, mounted: Option<Chan>): (Outcome, Table) {
    if k !in t then (Eunmount, t)
    else if mounted.None? then (Ok, t - {k})
    else
      var i := Find(t[k], mounted.value);
      if i == |t[k]| then (Eunion, t)
      else if |t[k]| == 1 then (Ok, t - {k})
      else (Ok, t[k := Drop(t[k], i)])
  }

  /** No union is empty. */
  predicate Good(t: Table) {
    forall k <- t :: t[k] != []
  }

  /** What a walk that comes to c goes on from, when c is a mount point. */
  function Found(t: Table, c: Chan): Option<Chan>
    requires KeyOf(c) in t ==> t[KeyOf(c)] != []
  {
    if KeyOf(c) in t then Some(t[KeyOf(c)][0].to) else None
  }

  // ---------- The lists ----------

  class Mount {
    const to: Chan
    const mflag: nat
    const spec: string
    const umh: Key
    /** Links of its union, and of the list of all mounts. */
    var next: Mount?
    var order: Mount?

    constructor (to: Chan, mflag: nat, spec: string, umh: Key)
      ensures this.to == to && this.mflag == mflag && this.spec == spec && this.umh == umh && next == null
    {
      this.to, this.mflag, this.spec, this.umh, next := to, mflag, spec, umh, null;
    }

    function Value(): Entry {
      Entry(to, mflag, spec)
    }
  }

  function Values(ms: seq<Mount>): (es: seq<Entry>)
    ensures |es| == |ms| && forall i :: 0 <= i < |es| ==> es[i] == ms[i].Value()
  {
    seq(|ms|, i requires 0 <= i < |ms| => ms[i].Value())
  }

  lemma ValuesJoin(a: seq<Mount>, b: seq<Mount>)
    ensures Values(a + b) == Values(a) + Values(b)
  {
  }

  ghost predicate Distinct<T>(s: seq<T>) {
    forall i, j :: 0 <= i < j < |s| ==> s[i] != s[j]
  }

  /** The mounts of s are linked from p, in that order, and lead to q. */
  ghost predicate Chain(p: Mount?, s: seq<Mount>, q: Mount?)
    reads s`order
  {
    if s == [] then p == q else p == s[0] && Chain(s[0].order, s[1..], q)
  }

  lemma {:induction false} ChainSplit(p: Mount?, s: seq<Mount>, i: nat, q: Mount?)
    requires Chain(p, s, q) && i < |s|
    ensures Chain(p, s[..i], s[i]) && Chain(s[i].order, s[i + 1..], q)
  {
    if i > 0 {
      ChainSplit(s[0].order, s[1..], i - 1, q);
      assert s[..i][1..] == s[1..][..i - 1] && s[1..][i..] == s[i + 1..];
    }
  }

  lemma {:induction false} ChainJoin(p: Mount?, a: seq<Mount>, q: Mount?, b: seq<Mount>, r: Mount?)
    requires Chain(p, a, q) && Chain(q, b, r)
    ensures Chain(p, a + b, r)
  {
    if a == [] {
      assert a + b == b;
    } else {
      ChainJoin(a[0].order, a[1..], q, b, r);
      assert (a + b)[1..] == a[1..] + b;
    }
  }

  /** The same by the links of a union. */
  ghost predicate Row(p: Mount?, s: seq<Mount>, q: Mount?)
    reads s`next
  {
    if s == [] then p == q else p == s[0] && Row(s[0].next, s[1..], q)
  }

  lemma {:induction false} RowSplit(p: Mount?, s: seq<Mount>, i: nat, q: Mount?)
    requires Row(p, s, q) && i < |s|
    ensures Row(p, s[..i], s[i]) && Row(s[i].next, s[i + 1..], q)
  {
    if i > 0 {
      RowSplit(s[0].next, s[1..], i - 1, q);
      assert s[..i][1..] == s[1..][..i - 1] && s[1..][i..] == s[i + 1..];
    }
  }

  lemma {:induction false} RowJoin(p: Mount?, a: seq<Mount>, q: Mount?, b: seq<Mount>, r: Mount?)
    requires Row(p, a, q) && Row(q, b, r)
    ensures Row(p, a + b, r)
  {
    if a == [] {
      assert a + b == b;
    } else {
      RowJoin(a[0].next, a[1..], q, b, r);
      assert (a + b)[1..] == a[1..] + b;
    }
  }

  lemma RowEnds(p: Mount?, s: seq<Mount>)
    requires Row(p, s, null)
    ensures p == null <==> s == []
  {
  }

  lemma ChainEnds(p: Mount?, s: seq<Mount>)
    requires Chain(p, s, null)
    ensures p == null <==> s == []
  {
  }

  /** What is left of a list, and its last mount, when the one at i goes. */
  lemma DropLast(s: seq<Mount>, i: nat)
    requires i < |s|
    ensures Last(Drop(s, i)) == if i + 1 == |s| then Last(s[..i]) else Last(s)
  {
  }

  function Last(ms: seq<Mount>): Mount? {
    if ms == [] then null else ms[|ms| - 1]
  }

  /** The mounts of s that are not in gone. */
  ghost function Keep(s: seq<Mount>, gone: set<Mount>): seq<Mount> {
    if s == [] then [] else (if s[0] in gone then [] else [s[0]]) + Keep(s[1..], gone)
  }

  lemma KeepNone(s: seq<Mount>, gone: set<Mount>)
    requires forall m <- s :: m !in gone
    ensures Keep(s, gone) == s
  {
    if s != [] {
      KeepNone(s[1..], gone);
    }
  }

  lemma {:induction false} KeepOne(s: seq<Mount>, i: nat)
    requires i < |s| && Distinct(s)
    ensures Keep(s, {s[i]}) == Drop(s, i)
  {
    if i == 0 {
      KeepNone(s[1..], {s[i]});
    } else {
      KeepOne(s[1..], i - 1);
    }
  }

  lemma {:induction false} KeepIn(s: seq<Mount>, gone: set<Mount>, m: Mount)
    ensures m in Keep(s, gone) <==> m in s && m !in gone
  {
    if s != [] {
      KeepIn(s[1..], gone, m);
      assert m in s <==> m == s[0] || m in s[1..];
    }
  }

  lemma {:induction false} KeepAppend(s: seq<Mount>, t: seq<Mount>, gone: set<Mount>)
    ensures Keep(s + t, gone) == Keep(s, gone) + Keep(t, gone)
  {
    if s == [] {
      assert s + t == t;
    } else {
      assert (s + t)[1..] == s[1..] + t;
      KeepAppend(s[1..], t, gone);
    }
  }

  lemma {:induction false} KeepTwice(s: seq<Mount>, a: set<Mount>, b: set<Mount>)
    ensures Keep(Keep(s, a), b) == Keep(s, a + b)
  {
    if s != [] {
      KeepTwice(s[1..], a, b);
      var rest := Keep(s[1..], a);
      if s[0] in a {
        assert Keep(s, a) == [] + rest == rest;
      } else {
        assert ([s[0]] + rest)[1..] == rest;
      }
    }
  }

  ghost function Set(s: seq<Mount>): set<Mount> {
    set m | m in s
  }

  lemma KeepSub(s: seq<Mount>, gone: set<Mount>)
    ensures forall m <- Keep(s, gone) :: m in s && m !in gone
    ensures forall m <- s :: m !in gone ==> m in Keep(s, gone)
  {
    forall m | m in Keep(s, gone)
      ensures m in s && m !in gone
    {
      KeepIn(s, gone, m);
    }
    forall m | m in s && m !in gone
      ensures m in Keep(s, gone)
    {
      KeepIn(s, gone, m);
    }
  }

  lemma KeepRest(s: seq<Mount>, t: seq<Mount>, gone: set<Mount>)
    requires forall m <- t :: m !in gone
    ensures Keep(s + t, gone) == Keep(s, gone) + t
  {
    KeepAppend(s, t, gone);
    KeepNone(t, gone);
  }

  ghost function Meaning(heads: map<Key, seq<Mount>>): Table {
    map k | k in heads :: Values(heads[k])
  }

  lemma MeaningBind(heads: map<Key, seq<Mount>>, k: Key, base: seq<Mount>, nm: seq<Mount>, order: nat)
    ensures Meaning(heads[k := Union(base, nm, order)]) == Meaning(heads)[k := Union(Values(base), Values(nm), order)]
  {
    assert Values(Union(base, nm, order)) == Union(Values(base), Values(nm), order);
  }

  /** What a bind starts from: mounts that were there already or seed a fresh union, and new ones. */
  ghost predicate Bound(heads: map<Key, seq<Mount>>, all: seq<Mount>, k: Key, order: nat, base: seq<Mount>, nm: seq<Mount>) {
    && nm != [] && Distinct(base) && Distinct(nm)
    && (forall m <- nm :: m.umh == k && m !in all && m !in base)
    && (if k in heads then base == heads[k]
        else (order == MREPL ==> base == []) && forall m <- base :: m.umh == k && m !in all)
  }

  lemma BoundUmh(heads: map<Key, seq<Mount>>, all: seq<Mount>, k: Key, order: nat, base: seq<Mount>, nm: seq<Mount>)
    requires Agree(heads, all) && Bound(heads, all, k, order, base, nm)
    ensures forall m <- base :: m.umh == k
  {
    OfUnion(heads, all, k);
  }

  lemma DistinctJoin<T>(a: seq<T>, b: seq<T>)
    requires Distinct(a) && Distinct(b) && forall x <- b :: x !in a
    ensures Distinct(a + b)
  {
    forall i, j | 0 <= i < j < |a + b|
      ensures (a + b)[i] != (a + b)[j]
    {
      if i < |a| <= j {
        assert b[j - |a|] in b && a[i] in a;
      }
    }
  }

  lemma Assoc<T>(a: seq<T>, b: seq<T>, c: seq<T>)
    ensures (a + b) + c == a + (b + c)
  {
  }

  /** The head at k gets the union of its mounts and new ones, those it replaces gone. */
  lemma AgreeBind(heads: map<Key, seq<Mount>>, all: seq<Mount>, k: Key, order: nat, base: seq<Mount>, nm: seq<Mount>)
    requires Agree(heads, all) && Bound(heads, all, k, order, base, nm)
    ensures var more := if k in heads then nm else base + nm;
            Agree(heads[k := Union(base, nm, order)], Keep(all + more, Set(Replaced(base, order))))
  {
    var more := if k in heads then nm else base + nm;
    var gone, list := Set(Replaced(base, order)), Union(base, nm, order);
    KeepSub(all + more, gone);
    OfUnion(heads, all, k);
    DistinctJoin(base, nm);
    DistinctJoin(nm, base);
    AgreeSet(heads, all, k, list, Keep(all + more, gone));
  }

  lemma MoreOf<T>(s: seq<T>, t: seq<T>, i: nat)
    requires i < |t|
    ensures s + t[..i + 1] == s + t[..i] + [t[i]]
  {
  }

  lemma SetGrows(s: seq<Mount>, i: nat)
    requires i < |s|
    ensures Set(s[..i + 1]) == Set(s[..i]) + {s[i]}
  {
    assert s[..i + 1] == s[..i] + [s[i]];
  }

  /** The mounts that a bind with MREPL takes away. */
  ghost function Replaced(base: seq<Mount>, order: nat): seq<Mount> {
    if order == MREPL then base else []
  }

  ghost function Taken(heads: map<Key, seq<Mount>>, k: Key, order: nat): set<Mount> {
    if k in heads then Set(Replaced(heads[k], order)) else {}
  }

  ghost predicate Hangs(heads: map<Key, seq<Mount>>, all: seq<Mount>, k: Key)
    requires k in heads
  {
    heads[k] != [] && Distinct(heads[k]) && forall m <- heads[k] :: m.umh == k && m in all
  }

  ghost predicate Listed(heads: map<Key, seq<Mount>>, m: Mount) {
    m.umh in heads && m in heads[m.umh]
  }

  /** No union is empty, and the unions together hold just the mounts of the list, each once. */
  ghost predicate Agree(heads: map<Key, seq<Mount>>, all: seq<Mount>) {
    && (forall k {:trigger Hangs(heads, all, k)} :: k in heads ==> Hangs(heads, all, k))
    && (forall m {:trigger Listed(heads, m)} :: m in all ==> Listed(heads, m))
  }

  lemma OfUnion(heads: map<Key, seq<Mount>>, all: seq<Mount>, k: Key)
    requires Agree(heads, all)
    ensures k in heads ==> heads[k] != [] && Distinct(heads[k]) && forall m <- heads[k] :: m.umh == k && m in all
    ensures forall m <- all :: m.umh == k ==> k in heads && m in heads[k]
  {
    assert k in heads ==> Hangs(heads, all, k);
    forall m <- all | m.umh == k
      ensures k in heads && m in heads[k]
    {
      assert Listed(heads, m);
    }
  }

  /** The mounts that cunmount takes away. */
  ghost function Goners(heads: map<Key, seq<Mount>>, k: Key, mounted: Option<Chan>): set<Mount> {
    if k !in heads then {}
    else if mounted.None? then Set(heads[k])
    else
      var i := Find(Values(heads[k]), mounted.value);
      if i == |heads[k]| then {} else {heads[k][i]}
  }

  lemma MeaningRelease(heads: map<Key, seq<Mount>>, k: Key, rest: seq<Mount>)
    ensures Meaning(if rest == [] then heads - {k} else heads[k := rest])
         == if rest == [] then Meaning(heads) - {k} else Meaning(heads)[k := Values(rest)]
  {
  }

  lemma ValuesDrop(ms: seq<Mount>, i: nat)
    requires i < |ms|
    ensures Values(Drop(ms, i)) == Drop(Values(ms), i)
  {
  }

  /** After a bind the list of all mounts is the old one but for those replaced, and then the new ones, the
      seed of a fresh union first. */
  ghost predicate Appended(heads: map<Key, seq<Mount>>, was: seq<Mount>, all: seq<Mount>, more: seq<Mount>,
      newc: Chan, oldc: Chan, flag: nat, spec: string, um: seq<Entry>)
  {
    var k, order := KeyOf(oldc), OrderOf(flag);
    && Values(more) == (if k in heads then [] else Seed(oldc, order)) + Added(newc, flag, spec, um)
    && all == Keep(was, Taken(heads, k, order)) + more
  }

  /** The list of all mounts after a bind: the old ones but those replaced, then the new ones. */
  lemma BindOrder(heads: map<Key, seq<Mount>>, all: seq<Mount>, k: Key, order: nat, base: seq<Mount>, nm: seq<Mount>)
    requires Agree(heads, all) && Bound(heads, all, k, order, base, nm)
    ensures var more := if k in heads then nm else base + nm;
            && Values(more) == (if k in heads then [] else Values(base)) + Values(nm)
            && Keep(all + more, Set(Replaced(base, order))) == Keep(all, Taken(heads, k, order)) + more
  {
    var gone := Set(Replaced(base, order));
    if k in heads {
      assert [] + Values(nm) == Values(nm);
      KeepRest(all, nm, gone);
    } else {
      assert gone == {};
      ValuesJoin(base, nm);
      KeepRest(all, base + nm, gone);
    }
  }

  /** The head at k gets a new list, or goes when that is empty. */
  lemma AgreeSet(heads: map<Key, seq<Mount>>, all: seq<Mount>, k: Key, list: seq<Mount>, after: seq<Mount>)
    requires Agree(heads, all) && Distinct(list) && forall m <- list :: m.umh == k
    requires forall m <- after :: (m in all && m.umh != k) || m in list
    requires forall m <- all :: m.umh != k ==> m in after
    requires forall m <- list :: m in after
    ensures Agree(if list == [] then heads - {k} else heads[k := list], after)
  {
    var heads' := if list == [] then heads - {k} else heads[k := list];
    forall j <- heads'
      ensures Hangs(heads', after, j)
    {
      assert j != k ==> Hangs(heads, all, j);
    }
    forall m <- after
      ensures Listed(heads', m)
    {
      assert m !in list ==> Listed(heads, m);
    }
  }

  /** Some mounts of a union taken away, and the head too when none are left. */
  lemma AgreeRelease(heads: map<Key, seq<Mount>>, all: seq<Mount>, k: Key, rest: seq<Mount>, gone: seq<Mount>)
    requires Agree(heads, all) && k in heads && Distinct(rest)
    requires forall m :: m in heads[k] <==> m in rest || m in gone
    requires forall m <- rest :: m !in gone
    ensures Agree(if rest == [] then heads - {k} else heads[k := rest], Keep(all, Set(gone)))
  {
    KeepSub(all, Set(gone));
    OfUnion(heads, all, k);
    AgreeSet(heads, all, k, rest, Keep(all, Set(gone)));
  }

  lemma DropFacts<T>(s: seq<T>, i: nat)
    requires i < |s|
    ensures var d := Drop(s, i);
            |d| == |s| - 1 && (forall j :: 0 <= j < |d| ==> d[j] == s[if j < i then j else j + 1]) && (Distinct(s) ==> Distinct(d))
  {
  }

  // ---------- Splicing ----------

  /** The last mount of a row linked to another row. */
  method Hook(f: Mount, b: Mount?, ghost first: Mount?, ghost s: seq<Mount>, ghost t: seq<Mount>)
    requires s != [] && f == s[|s| - 1] && Distinct(s) && Row(first, s, null) && Row(b, t, null) && forall m <- t :: m !in s
    modifies f`next
    ensures Row(first, s + t, null)
  {
    ghost var n := |s| - 1;
    RowSplit(first, s, n, null);
    assert f in s && f !in t;
    f.next := b;
    RowJoin(first, s[..n], f, [f], b);
    assert s[..n] + [f] == s;
    RowJoin(first, s, b, t, null);
  }

  /** The loops of cmount that find the end of a row. */
  method Append(first: Mount, b: Mount?, ghost s: seq<Mount>, ghost t: seq<Mount>)
    requires s != [] && Distinct(s) && Row(first, s, null) && Row(b, t, null) && forall m <- t :: m !in s
    modifies Set(s)`next
    ensures Row(first, s + t, null)
  {
    var f := first;
    ghost var i: nat := 0;
    assert s[0..] == s;
    while f.next != null
      invariant i < |s| && f == s[i] && Row(f, s[i..], null)
      decreases |s| - i
    {
      assert s[i..][1..] == s[i + 1..];
      f := f.next;
      i := i + 1;
    }
    RowEnds(f.next, s[i..][1..]);
    Hook(f, b, first, s, t);
  }

  /** The new union from the old mounts um and the new ones nm, and what the new ones replace. */
  method Relink(um: Mount?, nm: Mount, order: nat, ghost base: seq<Mount>, ghost added: seq<Mount>) returns (first: Mount, gone: Mount?)
    requires Distinct(base) && Distinct(added) && added != [] && forall m <- base :: m !in added
    requires Row(um, base, null) && Row(nm, added, null)
    modifies Set(base)`next, Set(added)`next
    ensures Row(first, Union(base, added, order), null) && Row(gone, Replaced(base, order), null)
  {
    RowEnds(um, base);
    gone := um;
    if um != null && order == MAFTER {
      Append(um, nm, base, added);
      first, gone := um, null;
    } else {
      if order != MREPL {
        Append(nm, um, added, base);
        gone := null;
      }
      first := nm;
      if base == [] {
        assert base + added == added && added + base == added;
      }
    }
  }

  /** The link in front of f, in the mount prev or in the head, made to pass over f. */
  method Skip(first: Mount, prev: Mount?, f: Mount, ghost s: seq<Mount>, ghost i: nat) returns (first': Mount?)
    requires Row(first, s, null) && Distinct(s) && i < |s| && f == s[i] && prev == Last(s[..i])
    modifies Set(s)`next
    ensures Row(first', Drop(s, i), null)
  {
    RowSplit(first, s, i, null);
    ghost var a, b := s[..i], s[i + 1..];
    var next := f.next;
    f.next := null;
    if prev == null {
      first' := next;
      assert a == [] && Drop(s, i) == b;
    } else {
      first' := first;
      Pass(first, prev, f, next, s, i);
    }
  }

  method Pass(first: Mount, prev: Mount, f: Mount, next: Mount?, ghost s: seq<Mount>, ghost i: nat)
    requires Distinct(s) && 0 < i < |s| && f == s[i] && prev == s[i - 1] && Row(first, s[..i], f) && Row(next, s[i + 1..], null)
    modifies prev`next
    ensures Row(first, Drop(s, i), null)
  {
    ghost var a, b := s[..i], s[i + 1..];
    RowSplit(first, a, i - 1, f);
    assert a[..i - 1] == s[..i - 1] && prev !in b && prev !in a[..i - 1];
    prev.next := next;
    RowJoin(first, a[..i - 1], prev, [prev], next);
    assert a[..i - 1] + [prev] == a;
    RowJoin(first, a, next, b, null);
  }

  class Pgrp {
    /** The Mheads by what they are mounted on: the first mount of each. */
    var mount: map<Key, Mount>
    ghost var heads: map<Key, seq<Mount>>
    var mntorder: Mount?
    /** The mount whose order field mntordertail points at; null when that is mntorder itself. */
    var mntordertail: Mount?
    ghost var all: seq<Mount>

    /** The mounts that have been in unions. */
    ghost var hung: set<Mount>

    /** The mounts of a union are linked from its head. */
    ghost predicate RowAt(k: Key)
      requires k in heads
      reads `mount, `heads, `hung, hung`next
    {
      && k in mount && (forall m <- heads[k] :: m in hung && m.umh == k)
      && Row(mount[k], heads[k], null)
    }

    ghost predicate Rows(but: Option<Key>)
      reads `mount, `heads, `hung, hung`next
    {
      forall k {:trigger RowAt(k)} :: k in heads && Some(k) != but ==> RowAt(k)
    }

    /** The list of all mounts, linked from mntorder to the tail. */
    ghost predicate Linked()
      reads `mntorder, `mntordertail, `all, all`order
    {
      Distinct(all) && Chain(mntorder, all, null) && mntordertail == Last(all)
    }

    ghost predicate Valid()
      reads this, all`order, hung`next
    {
      Linked() && Agree(heads, all) && Rows(None) && mount.Keys == heads.Keys
    }

    ghost function View(): Table
      reads `heads
    {
      Meaning(heads)
    }

    constructor ()
      ensures Valid() && View() == map[] && all == []
    {
      mount, heads, hung, mntorder, mntordertail, all := map[], map[], {}, null, null, [];
    }

    method PgrpInsert(m: Mount)
      requires Linked() && m !in all
      modifies `mntorder, `mntordertail, `all, m`order, Set(all)`order
      ensures Linked() && all == old(all) + [m]
    {
      ghost var was, n := all, |all|;
      if n > 0 {
        ChainSplit(mntorder, was, n - 1, null);
      }
      m.order := null;
      var tail := mntordertail;
      if tail == null {
        mntorder := m;
      } else {
        tail.order := m;
        ChainJoin(mntorder, was[..n - 1], tail, [tail], m);
        assert was == was[..n - 1] + [tail];
      }
      mntordertail := m;
      all := was + [m];
      ChainJoin(mntorder, was, m, [m], null);
    }

    /** The link behind l made to pass over f. */
    method Bypass(l: Mount, f: Mount, next: Mount?, ghost i: nat)
      requires 0 < i < |all| && Distinct(all) && Chain(mntorder, all, null) && l == all[i - 1] && f == all[i] && next == f.order
      modifies l`order
      ensures Chain(mntorder, all[..i], next) && Chain(next, all[i + 1..], null)
    {
      ghost var a := all[..i];
      ChainSplit(mntorder, all, i, null);
      assert a == a[..i - 1] + [l];
      ChainSplit(mntorder, a, i - 1, f);
      l.order := next;
      ChainJoin(mntorder, a[..i - 1], l, [l], next);
    }

    /** The step of pgrpremove that takes f out, l the mount in front of it or null. */
    method Unlink(l: Mount?, f: Mount, ghost i: nat)
      requires Linked() && i < |all| && f == all[i] && l == Last(all[..i])
      modifies `mntorder, `mntordertail, `all, Set(all)`order
      ensures Linked() && all == Drop(old(all), i)
    {
      ghost var a, b, left := all[..i], all[i + 1..], Drop(all, i);
      ChainSplit(mntorder, all, i, null);
      DropFacts(all, i);
      var next := f.order;
      ChainEnds(next, b);
      DropLast(all, i);
      if l == null {
        assert a == [];
        mntorder := next;
      } else {
        Bypass(l, f, next, i);
      }
      ChainJoin(mntorder, a, next, b, null);
      if next == null {
        mntordertail := l;
      }
      f.order := null;
      all := left;
    }

    method PgrpRemove(m: Mount)
      requires Linked() && m in all
      modifies `mntorder, `mntordertail, `all, Set(all)`order
      ensures Linked() && all == Keep(old(all), {m})
    {
      var l: Mount?, f := null, mntorder;
      ghost var i: nat := 0;
      assert all[0..] == all;
      while f != null && f != m
        invariant i <= |all| && Chain(f, all[i..], null) && l == Last(all[..i])
        invariant m in all[i..]
        decreases |all| - i
      {
        assert all[i..][1..] == all[i + 1..];
        l := f;
        f := f.order;
        i := i + 1;
      }
      KeepOne(all, i);
      Unlink(l, f, i);
    }

    /** The loop that puts the new mounts into the list. */
    method InsertAll(first: Mount?, ghost ms: seq<Mount>)
      requires Linked() && Distinct(ms) && Row(first, ms, null) && forall m <- ms :: m !in all
      modifies `mntorder, `mntordertail, `all, Set(all)`order, Set(ms)`order
      ensures Linked() && all == old(all) + ms
    {
      var f := first;
      ghost var i: nat := 0;
      assert ms[0..] == ms;
      while f != null
        invariant i <= |ms| && Row(f, ms[i..], null) && Linked() && all == old(all) + ms[..i]
        decreases |ms| - i
      {
        assert ms[i..][1..] == ms[i + 1..] && ms[i] !in ms[..i];
        PgrpInsert(f);
        MoreOf(old(all), ms, i);
        f := f.next;
        i := i + 1;
      }
      RowEnds(f, ms[i..]);
      assert ms[..i] == ms;
    }

    lemma KeepsOneLess(was: seq<Mount>, ms: seq<Mount>, i: nat)
      requires i < |ms|
      ensures Keep(Keep(was, Set(ms[..i])), {ms[i]}) == Keep(was, Set(ms[..i + 1]))
      ensures forall m <- Keep(was, Set(ms[..i + 1])) :: m in was
    {
      KeepTwice(was, Set(ms[..i]), {ms[i]});
      SetGrows(ms, i);
      KeepSub(was, Set(ms[..i + 1]));
    }

    /** The loop that takes mounts out of the list. */
    method RemoveAll(first: Mount?, ghost ms: seq<Mount>)
      requires Linked() && Distinct(ms) && Row(first, ms, null) && forall m <- ms :: m in all
      modifies `mntorder, `mntordertail, `all, Set(all)`order
      ensures Linked() && all == Keep(old(all), Set(ms))
    {
      KeepNone(all, Set(ms[..0]));
      var f := first;
      ghost var i: nat := 0;
      assert ms[0..] == ms;
      while f != null
        invariant i <= |ms| && Row(f, ms[i..], null) && Linked() && all == Keep(old(all), Set(ms[..i]))
        invariant forall m <- all :: m in old(all)
        decreases |ms| - i
      {
        assert ms[i..][1..] == ms[i + 1..];
        KeepIn(old(all), Set(ms[..i]), ms[i]);
        PgrpRemove(f);
        KeepsOneLess(old(all), ms, i);
        f := f.next;
        i := i + 1;
      }
      RowEnds(f, ms[i..]);
      assert ms[..i] == ms;
    }

    /** newmount for what is bound, and for the other members of a union that is bound. */
    method NewMounts(newc: Chan, flag: nat, spec: string, um: seq<Entry>, umh: Key) returns (first: Mount, ghost nm: seq<Mount>)
      ensures nm != [] && Distinct(nm) && Values(nm) == Added(newc, flag, spec, um) && forall m <- nm :: m.umh == umh && fresh(m)
      ensures Row(first, nm, null)
    {
      var order := OrderOf(flag);
      first := new Mount(newc, flag, spec, umh);
      nm := [first];
      var f, i: nat := first, 1;
      while i < |um|
        invariant 1 <= i && (i <= |um| || i == 1) && |nm| == i && f == nm[i - 1] && Row(first, nm, null)
        invariant Distinct(nm) && forall m <- nm :: m.umh == umh && fresh(m)
        invariant nm[0].Value() == Entry(newc, flag, spec)
        invariant forall j :: 1 <= j < i ==> nm[j].Value() == Copy(um[j], order)
      {
        var g := new Mount(um[i].to, if order == MREPL then MAFTER else order, um[i].spec, umh);
        assert g !in nm;
        assert f in nm;
        Hook(f, g, first, nm, [g]);
        nm := nm + [g];
        f := g;
        i := i + 1;
      }
      assert Values(nm) == Added(newc, flag, spec, um);
    }

    /** A fresh union starts with what it is mounted on. */
    method SeedMount(oldc: Chan, order: nat) returns (first: Mount?, ghost base: seq<Mount>)
      requires Linked()
      modifies `mntorder, `mntordertail, `all, Set(all)`order
      ensures Linked() && all == old(all) + base && Distinct(base) && Values(base) == Seed(oldc, order) && Row(first, base, null)
      ensures forall m <- base :: m.umh == KeyOf(oldc) && fresh(m)
    {
      first, base := null, [];
      if order != MREPL {
        var f := new Mount(oldc, 0, "", KeyOf(oldc));
        PgrpInsert(f);
        first, base := f, [f];
      }
    }

    /** The part of cmount that makes the new mounts known, links them in and drops those replaced. */
    method Splice(k: Key, order: nat, um: Mount?, nm: Mount, ghost base: seq<Mount>, ghost added: seq<Mount>)
      requires Linked() && Rows(Some(k))
      requires Distinct(added) && added != [] && Row(nm, added, null) && forall m <- added :: m !in all && m.umh == k
      requires Distinct(base) && Row(um, base, null) && forall m <- base :: m in all && m.umh == k
      modifies `mount, `heads, `hung, `mntorder, `mntordertail, `all, Set(all)`order, Set(added)`order, Set(added)`next, Set(base)`next
      ensures Linked() && Rows(None) && heads == old(heads)[k := Union(base, added, order)] && mount.Keys == old(mount).Keys + {k}
      ensures all == Keep(old(all) + added, Set(Replaced(base, order)))
    {
      InsertAll(nm, added);
      var gone := Restring(k, order, um, nm, base, added);
      RemoveAll(gone, Replaced(base, order));
    }

    /** The head of k gets that list. */
    method SetHead(k: Key, first: Mount, ghost list: seq<Mount>)
      requires Rows(Some(k)) && Row(first, list, null) && forall m <- list :: m.umh == k
      modifies `mount, `heads, `hung
      ensures Rows(None) && heads == old(heads)[k := list] && mount.Keys == old(mount).Keys + {k}
    {
      mount := mount[k := first];
      heads := heads[k := list];
      hung := hung + Set(list);
      forall j <- heads
        ensures RowAt(j)
      {
        assert j != k ==> old(RowAt(j));
      }
    }

    /** The head of k goes. */
    method DropHead(k: Key)
      requires Rows(Some(k))
      modifies `mount, `heads
      ensures Rows(None) && heads == old(heads) - {k} && mount.Keys == old(mount).Keys - {k}
    {
      mount, heads := mount - {k}, heads - {k};
      forall j <- heads
        ensures RowAt(j)
      {
        assert old(RowAt(j));
      }
    }

    /** The head gets the new union. */
    method Restring(k: Key, order: nat, um: Mount?, nm: Mount, ghost base: seq<Mount>, ghost added: seq<Mount>) returns (gone: Mount?)
      requires Rows(Some(k))
      requires Distinct(added) && added != [] && Row(nm, added, null) && (forall m <- added :: m.umh == k && m !in base)
      requires Distinct(base) && Row(um, base, null) && forall m <- base :: m.umh == k
      modifies `mount, `heads, `hung, Set(added)`next, Set(base)`next
      ensures Rows(None) && heads == old(heads)[k := Union(base, added, order)] && mount.Keys == old(mount).Keys + {k}
      ensures Row(gone, Replaced(base, order), null)
    {
      var first;
      first, gone := Relink(um, nm, order, base, added);
      forall j <- heads | j != k
        ensures RowAt(j)
      {
        assert old(RowAt(j));
      }
      UnionIn(base, added, order);
      SetHead(k, first, Union(base, added, order));
    }

    /** What a bind of the new mounts nm starts from: the union there, or a fresh one. */
    method Base(oldc: Chan, order: nat, ghost nm: seq<Mount>) returns (first: Mount?, ghost base: seq<Mount>)
      requires Valid() && nm != [] && Distinct(nm) && forall m <- nm :: m.umh == KeyOf(oldc) && m !in all
      modifies `mntorder, `mntordertail, `all, Set(all)`order
      ensures Linked() && Rows(None) && Row(first, base, null) && (forall m <- base :: m in all) && (forall m <- nm :: m !in all)
      ensures Bound(heads, old(all), KeyOf(oldc), order, base, nm) && forall m <- base :: m in old(all) || fresh(m)
      ensures if KeyOf(oldc) in heads then all == old(all) else Values(base) == Seed(oldc, order) && all == old(all) + base
    {
      var k := KeyOf(oldc);
      OfUnion(heads, all, k);
      if k in mount {
        first, base := mount[k], heads[k];
        assert RowAt(k);
      } else {
        first, base := SeedMount(oldc, order);
      }
    }

    /** The new mounts nm put into the table. */
    method Enter(oldc: Chan, order: nat, added: Mount, ghost nm: seq<Mount>) returns (ghost base: seq<Mount>)
      requires Valid() && nm != [] && Distinct(nm) && Row(added, nm, null) && forall m <- nm :: m.umh == KeyOf(oldc) && m !in all
      modifies `mount, `heads, `hung, `mntorder, `mntordertail, `all, Set(all)`order, Set(nm)`order, Set(nm)`next, Set(all)`next
      ensures Linked() && Rows(None) && mount.Keys == heads.Keys
      ensures var k := KeyOf(oldc);
              && Bound(old(heads), old(all), k, order, base, nm) && (k !in old(heads) ==> Values(base) == Seed(oldc, order))
              && heads == old(heads)[k := Union(base, nm, order)]
              && all == Keep(old(all) + (if k in old(heads) then nm else base + nm), Set(Replaced(base, order)))
    {
      ghost var before := all;
      var first;
      first, base := Base(oldc, order, nm);
      Assoc(before, base, nm);
      BoundUmh(heads, before, KeyOf(oldc), order, base, nm);
      Splice(KeyOf(oldc), order, first, added, base, nm);
    }

    /** The mounts made, and put into the table. */
    method Attach(newc: Chan, oldc: Chan, flag: nat, spec: string, um: seq<Entry>) returns (ghost base: seq<Mount>, ghost nm: seq<Mount>)
      requires Valid()
      modifies this, Set(all)
      ensures Linked() && Rows(None) && mount.Keys == heads.Keys
      ensures var k, order := KeyOf(oldc), OrderOf(flag);
              && Bound(old(heads), old(all), k, order, base, nm)
              && Values(nm) == Added(newc, flag, spec, um) && (k !in old(heads) ==> Values(base) == Seed(oldc, order))
              && heads == old(heads)[k := Union(base, nm, order)]
              && all == Keep(old(all) + (if k in old(heads) then nm else base + nm), Set(Replaced(base, order)))
    {
      var added;
      added, nm := NewMounts(newc, flag, spec, um, KeyOf(oldc));
      base := Enter(oldc, OrderOf(flag), added, nm);
    }

    /** cmount past its checks. */
    method Bind(newc: Chan, oldc: Chan, flag: nat, spec: string, um: seq<Entry>) returns (ghost more: seq<Mount>)
      requires Valid()
      modifies this, Set(all)
      ensures Valid() && View() == Mounted(old(View()), newc, oldc, flag, spec, um)
      ensures Appended(old(heads), old(all), all, more, newc, oldc, flag, spec, um)
    {
      ghost var before, unions := all, heads;
      ghost var base, nm := Attach(newc, oldc, flag, spec, um);
      ghost var k, order := KeyOf(oldc), OrderOf(flag);
      AgreeBind(unions, before, k, order, base, nm);
      MeaningBind(unions, k, base, nm, order);
      BindOrder(unions, before, k, order, base, nm);
      more := if k in unions then nm else base + nm;
    }

    /** cmount, um the union that newc was found in, or nothing. */
    method Cmount(newc: Chan, oldc: Chan, flag: nat, spec: string, um: seq<Entry>) returns (ok: bool, ghost more: seq<Mount>)
      requires Valid()
      modifies this, Set(all)
      ensures Valid() && ok == MayMount(newc, oldc, flag, um)
      ensures if ok then View() == Mounted(old(View()), newc, oldc, flag, spec, um) else heads == old(heads) && all == old(all)
      ensures ok ==> Appended(old(heads), old(all), all, more, newc, oldc, flag, spec, um)
    {
      more := [];
      ok := false;
      if newc.dir != oldc.dir || (!oldc.dir && OrderOf(flag) != MREPL) {
        return;
      }
      if um != [] && Create(flag) && (|um| > 1 || !Create(um[0].mflag)) {
        return;
      }
      ok := true;
      more := Bind(newc, oldc, flag, spec, um);
    }

    /** The loop of cunmount; prev is the mount in front of the one found. */
    method Search(first: Mount, mounted: Chan, ghost list: seq<Mount>) returns (prev: Mount?, f: Mount?, ghost i: nat)
      requires Row(first, list, null)
      ensures i == Find(Values(list), mounted) && (if i == |list| then f == null else f == list[i]) && prev == Last(list[..i])
    {
      prev, f, i := null, first, 0;
      assert list[0..] == list;
      while f != null && !Named(f.to, mounted)
        invariant i <= |list| && Row(f, list[i..], null) && prev == Last(list[..i])
        invariant forall j :: 0 <= j < i ==> !Named(list[j].to, mounted)
        decreases |list| - i
      {
        assert list[i..][1..] == list[i + 1..];
        prev := f;
        f := f.next;
        i := i + 1;
      }
      RowEnds(f, list[i..]);
      FindIs(Values(list), mounted, i);
    }

    /** The mount at i is taken out of its union; a union left empty goes with its head. */
    method Unhang(k: Key, prev: Mount?, f: Mount, ghost i: nat)
      requires k in heads && Rows(None) && mount.Keys == heads.Keys && Distinct(heads[k])
      requires i < |heads[k]| && f == heads[k][i] && prev == Last(heads[k][..i])
      modifies `mount, `heads, `hung, Set(heads[k])`next
      ensures Rows(None) && mount.Keys == heads.Keys
      ensures heads == var rest := Drop(old(heads)[k], i); if rest == [] then old(heads) - {k} else old(heads)[k := rest]
    {
      ghost var rest := Drop(heads[k], i);
      var first := SkipIn(k, prev, f, i);
      RowEnds(first, rest);
      if first == null {
        DropHead(k);
      } else {
        SetHead(k, first, rest);
      }
    }

    method SkipIn(k: Key, prev: Mount?, f: Mount, ghost i: nat) returns (first: Mount?)
      requires k in heads && Rows(None) && Distinct(heads[k])
      requires i < |heads[k]| && f == heads[k][i] && prev == Last(heads[k][..i])
      modifies Set(heads[k])`next
      ensures Rows(Some(k)) && Row(first, Drop(heads[k], i), null) && forall m <- Drop(heads[k], i) :: m.umh == k
    {
      assert RowAt(k);
      DropSplit(heads[k], i);
      first := Skip(mount[k], prev, f, heads[k], i);
      forall j <- heads | j != k
        ensures RowAt(j)
      {
        assert old(RowAt(j));
      }
    }

    /** A mount found by cunmount goes. */
    method TakeOff(k: Key, prev: Mount?, f: Mount, ghost i: nat)
      requires Valid() && k in heads && i < |heads[k]| && f == heads[k][i] && prev == Last(heads[k][..i])
      modifies this, Set(all)
      ensures Valid() && all == Keep(old(all), {f})
      ensures heads == var rest := Drop(old(heads)[k], i); if rest == [] then old(heads) - {k} else old(heads)[k := rest]
    {
      ghost var list := heads[k];
      OfUnion(heads, all, k);
      DropFacts(list, i);
      DropSplit(list, i);
      AgreeRelease(heads, all, k, Drop(list, i), [f]);
      assert Set([f]) == {f};
      PgrpRemove(f);
      Unhang(k, prev, f, i);
    }

    method UnmountOne(k: Key, mounted: Chan) returns (r: Outcome)
      requires Valid() && k in heads
      modifies this, Set(all)
      ensures Valid() && all == Keep(old(all), Goners(old(heads), k, Some(mounted)))
      ensures (r, View()) == Unmounted(old(View()), k, Some(mounted))
    {
      ghost var unions, list := heads, heads[k];
      assert RowAt(k);
      var prev, f;
      ghost var i;
      prev, f, i := Search(mount[k], mounted, list);
      if f == null {
        KeepNone(all, {});
        return Eunion;
      }
      TakeOff(k, prev, f, i);
      MeaningRelease(unions, k, Drop(list, i));
      ValuesDrop(list, i);
      return Ok;
    }

    /** A whole union taken away with its head. */
    method UnmountAll(k: Key)
      requires Valid() && k in heads
      modifies this, Set(all)`order
      ensures Valid() && all == Keep(old(all), Set(old(heads)[k])) && heads == old(heads) - {k}
    {
      ghost var list := heads[k];
      assert RowAt(k);
      OfUnion(heads, all, k);
      AgreeRelease(heads, all, k, [], list);
      RemoveAll(mount[k], list);
      DropHead(k);
    }

    /** cunmount; a union left empty goes with its head. */
    method Cunmount(mnt: Chan, mounted: Option<Chan>) returns (r: Outcome)
      requires Valid()
      modifies this, Set(all)
      ensures Valid() && all == Keep(old(all), Goners(old(heads), KeyOf(mnt), mounted))
      ensures (r, View()) == Unmount(old(View()), mnt, mounted)
    {
      var k := KeyOf(mnt);
      if k !in mount {
        KeepNone(all, {});
        r := Eunmount;
      } else if mounted.None? {
        ghost var unions := heads;
        UnmountAll(k);
        MeaningRelease(unions, k, []);
        r := Ok;
      } else {
        r := UnmountOne(k, mounted.value);
      }
    }

    /** findmount: what is found at the mount point c, if it is one. */
    method Findmount(c: Chan) returns (to: Option<Chan>)
      requires Valid()
      ensures Good(View()) && to == Found(View(), c)
    {
      forall k <- heads
        ensures heads[k] != []
      {
        assert Hangs(heads, all, k);
      }
      var k := KeyOf(c);
      if k !in mount {
        return None;
      }
      assert RowAt(k);
      to := Some(mount[k].to);
    }
  }

  lemma UnionIn(base: seq<Mount>, added: seq<Mount>, order: nat)
    ensures forall m <- Union(base, added, order) :: m in base || m in added
  {
  }

  lemma FindIs(es: seq<Entry>, mounted: Chan, i: nat)
    requires i <= |es| && (i < |es| ==> Named(es[i].to, mounted)) && forall j :: 0 <= j < i ==> !Named(es[j].to, mounted)
    ensures Find(es, mounted) == i
  {
  }

  lemma DropSplit<T>(s: seq<T>, i: nat)
    requires i < |s| && Distinct(s)
    ensures forall x :: x in s <==> x in Drop(s, i) || x == s[i]
    ensures s[i] !in Drop(s, i)
  {
    assert s == s[..i] + [s[i]] + s[i + 1..];
  }

  // ---------- What binds and unmounts do ----------

  datatype Op = Bind(newc: Chan, oldc: Chan, flag: nat, spec: string, um: seq<Entry>) | Unbind(mnt: Chan, mounted: Option<Chan>)

  function Do(t: Table, op: Op): Table {
    match op
    case Bind(newc, oldc, flag, spec, um) => if MayMount(newc, oldc, flag, um) then Mounted(t, newc, oldc, flag, spec, um) else t
    case Unbind(mnt, mounted) => Unmount(t, mnt, mounted).1
  }

  function Run(t: Table, ops: seq<Op>): Table
    decreases |ops|
  {
    if ops == [] then t else Run(Do(t, ops[0]), ops[1..])
  }

  /** In every run of binds and unmounts no union is ever empty, so that findmount finds something. */
  lemma {:induction false} NoneEmpty(t: Table, ops: seq<Op>)
    requires Good(t)
    ensures Good(Run(t, ops))
    decreases |ops|
  {
    if ops != [] {
      NoneEmpty(Do(t, ops[0]), ops[1..]);
    }
  }

  /** A walk that comes to oldc then goes on from newc, unless that was put behind what was there; and
      what was there, on a fresh union, is oldc itself. Nothing else is found anywhere else. */
  lemma FoundThen(t: Table, newc: Chan, oldc: Chan, flag: nat, spec: string, um: seq<Entry>, c: Chan)
    requires Good(t)
    ensures var after := Mounted(t, newc, oldc, flag, spec, um);
            && Good(after)
            && Found(after, c) == if KeyOf(c) != KeyOf(oldc) then Found(t, c)
                                  else if OrderOf(flag) != MAFTER then Some(newc)
                                  else if Found(t, oldc).Some? then Found(t, oldc)
                                  else Some(oldc)
  {
  }

  /** The j'th of the entries that a bind makes: newc, then the other members of a union that is bound. */
  predicate IsNew(e: Entry, j: nat, newc: Chan, flag: nat, spec: string, um: seq<Entry>)
    requires j == 0 || j < |um|
  {
    if j == 0 then e == Entry(newc, flag, spec)
    else e == Entry(um[j].to, if OrderOf(flag) == MREPL then MAFTER else OrderOf(flag), um[j].spec)
  }

  /** The j'th of those that were there; where nothing was mounted that is the directory itself. */
  predicate IsOld(e: Entry, j: nat, t: Table, oldc: Chan)
    requires j < if KeyOf(oldc) in t then |t[KeyOf(oldc)]| else 1
  {
    e == if KeyOf(oldc) in t then t[KeyOf(oldc)][j] else Entry(oldc, 0, "")
  }

  lemma AddedAre(newc: Chan, flag: nat, spec: string, um: seq<Entry>)
    ensures var es := Added(newc, flag, spec, um);
            |es| == (if |um| > 1 then |um| else 1) && forall j :: 0 <= j < |es| ==> IsNew(es[j], j, newc, flag, spec, um)
  {
  }

  lemma BehindEachOther<T>(a: seq<T>, b: seq<T>)
    ensures forall j :: 0 <= j < |a| ==> (a + b)[j] == a[j]
    ensures forall j :: |a| <= j < |a| + |b| ==> (a + b)[j] == b[j - |a|]
  {
  }

  /** A bind, member by member: it replaces what was there, or stands before it or behind it; and all other unions
      stay. */
  lemma BindThen(t: Table, newc: Chan, oldc: Chan, flag: nat, spec: string, um: seq<Entry>)
    ensures var after := Mounted(t, newc, oldc, flag, spec, um); var k := KeyOf(oldc);
            && after.Keys == t.Keys + {k} && forall l <- t :: l != k ==> after[l] == t[l]
    ensures var es := Mounted(t, newc, oldc, flag, spec, um)[KeyOf(oldc)];
            var n, m := if |um| > 1 then |um| else 1, if KeyOf(oldc) in t then |t[KeyOf(oldc)]| else 1;
            if OrderOf(flag) == MREPL then |es| == n && forall j :: 0 <= j < n ==> IsNew(es[j], j, newc, flag, spec, um)
            else if OrderOf(flag) == MAFTER then
              |es| == m + n && (forall j :: 0 <= j < m ==> IsOld(es[j], j, t, oldc)) && forall j :: m <= j < m + n ==> IsNew(es[j], j - m, newc, flag, spec, um)
            else
              |es| == n + m && (forall j :: 0 <= j < n ==> IsNew(es[j], j, newc, flag, spec, um)) && forall j :: n <= j < n + m ==> IsOld(es[j], j - n, t, oldc)
  {
    var k, order := KeyOf(oldc), OrderOf(flag);
    var base, added := if k in t then t[k] else Seed(oldc, order), Added(newc, flag, spec, um);
    AddedAre(newc, flag, spec, um);
    if order == MAFTER {
      BehindEachOther(base, added);
    } else if order != MREPL {
      BehindEachOther(added, base);
    }
  }

  /** The first entry of that name is gone from those of before, and the union with the last. */
  ghost predicate Removed(t: Table, after: Table, k: Key, mounted: Chan, i: nat)
    requires k in t
  {
    && i < |t[k]| && Named(t[k][i].to, mounted) && (forall j :: 0 <= j < i ==> !Named(t[k][j].to, mounted))
    && if |t[k]| == 1 then k !in after
       else k in after && |after[k]| == |t[k]| - 1 && forall j :: 0 <= j < |after[k]| ==> after[k][j] == t[k][if j < i then j else j + 1]
  }

  /** An unmount, member by member, and when it fails. */
  lemma UnmountThen(t: Table, mnt: Chan, mounted: Option<Chan>)
    ensures var (r, after) := Unmount(t, mnt, mounted); var k := KeyOf(mnt);
            && (r == Eunmount <==> k !in t)
            && (r == Eunion <==> k in t && mounted.Some? && forall e <- t[k] :: !Named(e.to, mounted.value))
            && (r != Ok ==> after == t) && (forall l :: l != k ==> (l in after <==> l in t) && (l in t ==> after[l] == t[l]))
            && (r == Ok && mounted.None? ==> k !in after)
            && (r == Ok && mounted.Some? ==> exists i: nat :: Removed(t, after, k, mounted.value, i))
  {
    var k := KeyOf(mnt);
    if k in t && mounted.Some? {
      var i := Find(t[k], mounted.value);
      if i < |t[k]| {
        assert t[k][i] in t[k];
        assert Removed(t, Unmount(t, mnt, mounted).1, k, mounted.value, i);
      }
    }
  }

  /** When an unmount of newc takes back a bind of it.  Bound as one mount: a replacement of nothing, or a member
      put before or behind others, where what came to lie in its place is just the same.  Bound as a union of
      several: only a replacement of just what the others of that union come to. */
  predicate TakenBack(t: Table, newc: Chan, oldc: Chan, flag: nat, spec: string, um: seq<Entry>) {
    var k, order := KeyOf(oldc), OrderOf(flag);
    if |um| > 1 then order == MREPL && k in t && t[k] == Added(newc, flag, spec, um)[1..]
    else if order == MREPL then k !in t
    else k in t && (order == MAFTER ==> forall j :: Find(t[k], newc) <= j < |t[k]| ==> t[k][j] == Entry(newc, flag, spec))
  }

  lemma {:induction false} ShiftedBack<T>(s: seq<T>, e: T, i: nat, j: nat)
    requires i <= j < |s| && Drop(s + [e], i) == s
    ensures s[j] == e
    decreases |s| - j
  {
    assert Drop(s + [e], i)[j] == (s + [e])[j + 1];
    if j + 1 < |s| {
      ShiftedBack(s, e, i, j + 1);
    }
  }

  lemma Shifted<T>(s: seq<T>, e: T, i: nat)
    requires i <= |s|
    ensures Drop(s + [e], i) == s <==> forall j :: i <= j < |s| ==> s[j] == e
  {
    DropFacts(s + [e], i);
    if Drop(s + [e], i) == s {
      forall j | i <= j < |s|
        ensures s[j] == e
      {
        ShiftedBack(s, e, i, j);
      }
    }
  }

  lemma SameAgain(t: Table, k: Key, list: seq<Entry>, rest: seq<Entry>)
    ensures t[k := list][k := rest] == t <==> k in t && t[k] == rest
    ensures t[k := list] - {k} == t <==> k !in t
  {
    if k in t && t[k] == rest {
      assert t[k := list][k := rest] == t;
    } else {
      assert k in t[k := list][k := rest] && t[k := list][k := rest][k] == rest;
    }
    if k in t {
      assert k !in t[k := list] - {k};
    } else {
      assert t[k := list] - {k} == t;
    }
  }

  lemma BehindUndone(t: Table, newc: Chan, k: Key, base: seq<Entry>, e: Entry)
    requires base != [] && (k in t ==> base == t[k]) && e.to == newc
    ensures Unmounted(t[k := base + [e]], k, Some(newc)) == (Ok, t)
       <==> k in t && forall j :: Find(t[k], newc) <= j < |t[k]| ==> t[k][j] == e
  {
    var i, list := Find(base, newc), base + [e];
    FindIs(list, newc, i);
    Shifted(base, e, i);
    SameAgain(t, k, list, Drop(list, i));
  }

  lemma InFrontUndone(t: Table, newc: Chan, k: Key, base: seq<Entry>, e: Entry)
    requires e.to == newc
    ensures Unmounted(t[k := [e] + base], k, Some(newc)) == (Ok, t) <==> if base == [] then k !in t else k in t && t[k] == base
  {
    var list := [e] + base;
    FindIs(list, newc, 0);
    assert Drop(list, 0) == base;
    SameAgain(t, k, list, base);
  }

  /** A list that was longer by two at least is not the old one with one mount less. */
  lemma SeveralUndone(t: Table, newc: Chan, k: Key, list: seq<Entry>, base: seq<Entry>)
    requires |list| > |base| + 1 && (k in t ==> base == t[k])
    ensures Unmounted(t[k := list], k, Some(newc)) != (Ok, t)
  {
    var i := Find(list, newc);
    if i < |list| {
      DropFacts(list, i);
      SameAgain(t, k, list, Drop(list, i));
    }
  }

  lemma UnionUndone(t: Table, newc: Chan, oldc: Chan, flag: nat, spec: string, um: seq<Entry>)
    requires Good(t) && |um| > 1
    ensures Unmount(Mounted(t, newc, oldc, flag, spec, um), oldc, Some(newc)) == (Ok, t) <==> TakenBack(t, newc, oldc, flag, spec, um)
  {
    var k, order, added := KeyOf(oldc), OrderOf(flag), Added(newc, flag, spec, um);
    var base := if k in t then t[k] else Seed(oldc, order);
    var list := Union(base, added, order);
    if order == MREPL {
      FindIs(list, newc, 0);
      assert Drop(list, 0) == added[1..];
      SameAgain(t, k, list, Drop(list, 0));
    } else {
      SeveralUndone(t, newc, k, list, base);
    }
  }

  /** Unmounting newc right after it was bound gives the old table back just then. */
  lemma UnmountUndoes(t: Table, newc: Chan, oldc: Chan, flag: nat, spec: string, um: seq<Entry>)
    requires Good(t)
    ensures Unmount(Mounted(t, newc, oldc, flag, spec, um), oldc, Some(newc)) == (Ok, t) <==> TakenBack(t, newc, oldc, flag, spec, um)
  {
    if |um| > 1 {
      UnionUndone(t, newc, oldc, flag, spec, um);
      return;
    }
    var k, order, e := KeyOf(oldc), OrderOf(flag), Entry(newc, flag, spec);
    assert Added(newc, flag, spec, um) == [e];
    var base := if k in t then t[k] else Seed(oldc, order);
    if order == MAFTER {
      BehindUndone(t, newc, k, base, e);
    } else if order == MREPL {
      assert [e] + [] == [e];
      InFrontUndone(t, newc, k, [], e);
    } else {
      InFrontUndone(t, newc, k, base, e);
    }
  }
}
