/**
 Directory reads seen through the name space, in kern/sysfile.c: entries replaced in place, what no
 longer fits saved in the rock, and the rock read back.
 */
module Mountfix {
  import opened Words
  import opened Blocks

  // ---------- Directory entries ----------

  const NAMEAT: nat := 41      // where the length of the name lies in an entry

  function Le16(b: Bytes, i: nat): nat
    requires i + 2 <= |b|
  {
    var lo: int, hi: int := b[i], b[i + 1];
    lo + 0x100 * hi
  }

  function Put16(x: nat): (b: Bytes)
    ensures |b| == 2
  {
    [x % 0x100, x / 0x100 % 0x100]
  }

  lemma GetPut(x: nat, b: Bytes, i: nat)
    requires x < 0x1_0000 && i + 2 <= |b| && b[i..i + 2] == Put16(x)
    ensures Le16(b, i) == x
  {
    assert b[i] == b[i..i + 2][0] && b[i + 1] == b[i..i + 2][1];
  }

  /** A whole entry: its size, the fixed fields, and a name among the rest. */
  predicate EntryOk(d: Bytes) {
    |d| >= NAMEAT + 2 && |d| == 2 + Le16(d, 0) && NAMEAT + 2 + Le16(d, NAMEAT) <= |d|
  }

  function Name(d: Bytes): Bytes
    requires EntryOk(d)
  {
    d[NAMEAT + 2..NAMEAT + 2 + Le16(d, NAMEAT)]
  }

  /** dirsetname: another name in an entry. */
  function SetName(d: Bytes, name: Bytes): Bytes
    requires EntryOk(d)
  {
    var end := NAMEAT + 2 + Le16(d, NAMEAT);
    Put16(NAMEAT + |name| + (|d| - end)) + d[2..NAMEAT] + Put16(|name|) + name + d[end..]
  }

  /** The name and the lengths change, and nothing else. */
  lemma SetNameOk(d: Bytes, name: Bytes)
    requires EntryOk(d) && |d| + |name| - |Name(d)| < 0x1_0002
    ensures var r := SetName(d, name); var end := NAMEAT + 2 + Le16(d, NAMEAT);
            && |r| == |d| + |name| - |Name(d)| && EntryOk(r) && Name(r) == name
            && r[2..NAMEAT] == d[2..NAMEAT] && r[NAMEAT + 2 + |name|..] == d[end..]
  {
    var r, end := SetName(d, name), NAMEAT + 2 + Le16(d, NAMEAT);
    var size := NAMEAT + |name| + (|d| - end);
    assert r[0..2] == Put16(size);
    GetPut(size, r, 0);
    assert r[NAMEAT..NAMEAT + 2] == Put16(|name|);
    GetPut(|name|, r, NAMEAT);
  }

  ghost predicate AllOk(es: seq<Bytes>) {
    forall e <- es :: EntryOk(e)
  }

  // ---------- What is mounted ----------

  /** The stat of what is mounted on the file of an entry, if the entry is to be rewritten: nothing
      when nothing is mounted there, when the file is itself in the union, or when stat fails. */
  type Mounts = Bytes -> Option<Bytes>

  ghost predicate MountsOk(mounted: Mounts) {
    forall d :: EntryOk(d) && mounted(d).Some? ==>
                  EntryOk(mounted(d).value) && |mounted(d).value| + |Name(d)| - |Name(mounted(d).value)| < 0x1_0002
  }

  /** An entry as the name space shows it: what is mounted there, under the old name. */
  function Fix(mounted: Mounts, d: Bytes): Bytes
    requires EntryOk(d) && (mounted(d).Some? ==> EntryOk(mounted(d).value))
  {
    if mounted(d).Some? then SetName(mounted(d).value, Name(d)) else d
  }

  function FixAll(mounted: Mounts, es: seq<Bytes>): (r: seq<Bytes>)
    requires MountsOk(mounted) && AllOk(es)
    ensures |r| == |es|
  {
    if es == [] then [] else FixAll(mounted, es[..|es| - 1]) + [Fix(mounted, es[|es| - 1])]
  }

  function Reverse(es: seq<Bytes>): seq<Bytes> {
    if es == [] then [] else Reverse(es[1..]) + [es[0]]
  }

  /** r is d, or what is mounted there under d's name: the fields before the name and those behind it are those of the
      stat of what is mounted. */
  ghost predicate Shown(mounted: Mounts, d: Bytes, r: Bytes) {
    && EntryOk(d) && EntryOk(r) && Name(r) == Name(d)
    && match mounted(d)
       case None => r == d
       case Some(m) => EntryOk(m) && r[2..NAMEAT] == m[2..NAMEAT] && r[NAMEAT + 2 + |Name(r)|..] == m[NAMEAT + 2 + |Name(m)|..]
  }

  lemma {:induction false} FixedOk(mounted: Mounts, es: seq<Bytes>)
    requires MountsOk(mounted) && AllOk(es)
    ensures AllOk(FixAll(mounted, es))
    ensures forall i :: 0 <= i < |es| ==> Shown(mounted, es[i], FixAll(mounted, es)[i])
    decreases |es|
  {
    if es != [] {
      var n := |es| - 1;
      assert forall e <- es[..n] :: e in es;
      FixedOk(mounted, es[..n]);
      FixOk(mounted, es[n]);
      ShownOn(mounted, es[..n], FixAll(mounted, es[..n]), es[n], Fix(mounted, es[n]));
      assert es == es[..n] + [es[n]];
    }
  }

  lemma ShownOn(mounted: Mounts, es: seq<Bytes>, rs: seq<Bytes>, d: Bytes, r: Bytes)
    requires |rs| == |es| && AllOk(rs) && (forall i :: 0 <= i < |es| ==> Shown(mounted, es[i], rs[i])) && Shown(mounted, d, r)
    ensures AllOk(rs + [r]) && forall i :: 0 <= i < |es| + 1 ==> Shown(mounted, (es + [d])[i], (rs + [r])[i])
  {
  }

  lemma FixOk(mounted: Mounts, d: Bytes)
    requires MountsOk(mounted) && EntryOk(d)
    ensures Shown(mounted, d, Fix(mounted, d))
  {
    if mounted(d).Some? { SetNameOk(mounted(d).value, Name(d)); }
  }

  // ---------- What there is room for ----------

  /** How long the first j entries are when i of them are as the name space shows them. */
  ghost function Length(mounted: Mounts, es: seq<Bytes>, i: nat, j: nat): nat
    requires MountsOk(mounted) && AllOk(es) && i <= j <= |es|
  {
    assert forall d <- es[..i] :: d in es;
    |Flat(FixAll(mounted, es[..i]))| + |Flat(es[i..j])|
  }

  /** They fit, each time one more of the first i has been rewritten. */
  ghost predicate FitsTo(mounted: Mounts, es: seq<Bytes>, maxn: nat, i: nat, j: nat)
    requires MountsOk(mounted) && AllOk(es)
  {
    i <= j <= |es| && forall k :: 0 <= k <= i ==> Length(mounted, es, k, j) <= maxn
  }

  ghost predicate Fits(mounted: Mounts, es: seq<Bytes>, maxn: nat, j: nat)
    requires MountsOk(mounted) && AllOk(es)
  {
    FitsTo(mounted, es, maxn, j, j)
  }

  /** With one more they do not. */
  ghost predicate Full(mounted: Mounts, es: seq<Bytes>, maxn: nat, j: nat)
    requires MountsOk(mounted) && AllOk(es)
  {
    !Fits(mounted, es, maxn, j + 1)
  }

  lemma LengthGrows(mounted: Mounts, es: seq<Bytes>, i: nat, j: nat, j': nat)
    requires MountsOk(mounted) && AllOk(es) && i <= j <= j' <= |es|
    ensures Length(mounted, es, i, j) <= Length(mounted, es, i, j')
  {
    assert es[i..j'] == es[i..j] + es[j..j'];
    FlatJoin(es[i..j], es[j..j']);
  }

  /** Fewer entries fit too, so that there is one greatest number of them. */
  lemma FewerFit(mounted: Mounts, es: seq<Bytes>, maxn: nat, i: nat, j: nat, j': nat)
    requires MountsOk(mounted) && AllOk(es) && i <= j <= j' && FitsTo(mounted, es, maxn, i, j')
    ensures FitsTo(mounted, es, maxn, i, j)
  {
    forall k | 0 <= k <= i ensures Length(mounted, es, k, j) <= maxn {
      LengthGrows(mounted, es, k, j, j');
    }
  }

  lemma OneGreatest(mounted: Mounts, es: seq<Bytes>, maxn: nat, j: nat, j': nat)
    requires MountsOk(mounted) && AllOk(es) && Greatest(mounted, es, maxn, j) && Greatest(mounted, es, maxn, j')
    ensures j == j'
  {
    if j < j' {
      FitFewer(mounted, es, maxn, j + 1, j');
    } else if j' < j {
      FitFewer(mounted, es, maxn, j' + 1, j);
    }
  }

  lemma FitFewer(mounted: Mounts, es: seq<Bytes>, maxn: nat, j: nat, j': nat)
    requires MountsOk(mounted) && AllOk(es) && j <= j' && Fits(mounted, es, maxn, j')
    ensures Fits(mounted, es, maxn, j)
  {
    assert FitsTo(mounted, es, maxn, j, j');
    FewerFit(mounted, es, maxn, j, j, j');
  }

  /** As many entries as fit all the time. */
  ghost predicate Greatest(mounted: Mounts, es: seq<Bytes>, maxn: nat, j: nat)
    requires MountsOk(mounted) && AllOk(es)
  {
    Fits(mounted, es, maxn, j) && (j < |es| ==> Full(mounted, es, maxn, j))
  }

  // ---------- The rock ----------

  class Rock {
    var dirrock: array<byte>
    var nrock: nat

    ghost predicate Valid()
      reads this
    {
      nrock <= dirrock.Length
    }

    function Saved(): Bytes
      requires Valid()
      reads this, dirrock
    {
      dirrock[..nrock]
    }

    constructor ()
      ensures Valid() && Saved() == [] && fresh(dirrock)
    {
      dirrock := new byte[0];
      nrock := 0;
    }

    /** The part of mountrock that saves, growing the buffer by 1024 at a time. */
    method Save(d: Bytes)
      requires Valid()
      modifies this, dirrock
      ensures Valid() && Saved() == old(Saved()) + d && (dirrock == old(dirrock) || fresh(dirrock))
    {
      if nrock + |d| > dirrock.Length { Grow((nrock + |d| + 1023) / 1024 * 1024); }
      ghost var before := dirrock[..nrock];
      forall i | 0 <= i < |d| { dirrock[nrock + i] := d[i]; }
      assert dirrock[..nrock] == before && dirrock[nrock..nrock + |d|] == d;
      nrock := nrock + |d|;
      assert dirrock[..nrock] == before + d;
    }

    method Grow(n: nat)
      requires Valid() && n >= nrock
      modifies this
      ensures Valid() && Saved() == old(Saved()) && nrock == old(nrock) && dirrock.Length == n && fresh(dirrock)
    {
      var r := new byte[n](_ => 0);
      forall i | 0 <= i < nrock { r[i] := dirrock[i]; }
      assert r[..nrock] == dirrock[..nrock];
      dirrock := r;
    }
  }

  // ---------- mountfix ----------

  method Memmove(a: array<byte>, dst: nat, src: nat, n: nat)
    requires dst + n <= a.Length && src + n <= a.Length
    modifies a
    ensures a[..][..dst] == old(a[..])[..dst] && a[..][dst..dst + n] == old(a[..])[src..src + n]
  {
    forall i | 0 <= i < n { a[dst + i] := a[src + i]; }
  }

  /** The bytes before e are done, then todo from p on. */
  ghost predicate Split(buf: Bytes, p: nat, e: nat, done: seq<Bytes>, todo: seq<Bytes>) {
    p <= e <= |buf| && buf[..p] == Flat(done) && buf[p..e] == Flat(todo)
  }

  lemma {:induction false} EntryAt(buf: Bytes, p: nat, e: nat, todo: seq<Bytes>)
    requires p <= e <= |buf| && buf[p..e] == Flat(todo) && todo != [] && EntryOk(todo[0])
    ensures p + |todo[0]| <= e && buf[p..p + |todo[0]|] == todo[0] && Le16(buf, p) == |todo[0]| - 2
    ensures buf[p + |todo[0]|..e] == Flat(todo[1..])
  {
    var d := todo[0];
    assert Flat(todo) == d + Flat(todo[1..]);
    assert buf[p..p + |d|] == buf[p..e][..|d|] && buf[p + |d|..e] == buf[p..e][|d|..];
    assert buf[p] == d[0] && buf[p + 1] == d[1];
  }

  lemma NoBytes(es: seq<Bytes>)
    requires AllOk(es)
    ensures Flat(es) == [] <==> es == []
  {
    if es != [] { assert EntryOk(es[0]); }
  }

  /** How far the search for the last entry has come: before is passed over, rest begins at p. */
  ghost predicate Seeking(buf: Bytes, p0: nat, p: nat, e: nat, before: seq<Bytes>, rest: seq<Bytes>) {
    && p0 <= p <= e <= |buf| && AllOk(rest) && rest != []
    && buf[p0..p] == Flat(before) && buf[p..e] == Flat(rest)
  }

  lemma {:induction false} SeekNext(buf: Bytes, p0: nat, p: nat, e: nat, before: seq<Bytes>, rest: seq<Bytes>)
    requires Seeking(buf, p0, p, e, before, rest)
    ensures |rest[0]| > 2 && p + |rest[0]| <= e && Le16(buf, p) == |rest[0]| - 2 && buf[p..p + |rest[0]|] == rest[0]
    ensures p + |rest[0]| < e ==> Seeking(buf, p0, p + |rest[0]|, e, before + [rest[0]], rest[1..])
    ensures p + |rest[0]| == e ==> rest == [rest[0]]
  {
    var len := |rest[0]|;
    EntryAt(buf, p, e, rest);
    FlatSnoc(before, rest[0]);
    assert buf[p0..p + len] == buf[p0..p] + buf[p..p + len];
    assert forall d <- rest[1..] :: d in rest;
    NoBytes(rest[1..]);
  }

  /** The loop of mountrock: where the last entry begins. */
  method LastEntry(a: array<byte>, p0: nat, e: nat, ghost todo: seq<Bytes>) returns (p: nat, len: nat)
    requires todo != [] && AllOk(todo) && p0 <= e <= a.Length && a[..][p0..e] == Flat(todo)
    ensures p0 <= p && p + len == e && len > 0 && a[..][p0..p] == Flat(todo[..|todo| - 1]) && a[..][p..e] == todo[|todo| - 1]
    ensures p == p0 <==> |todo| == 1
  {
    p := p0;
    ghost var before, rest := [], todo;
    SeekNext(a[..], p0, p, e, before, rest);
    len := 2 + Le16(a[..], p);
    while p + len < e
      invariant Seeking(a[..], p0, p, e, before, rest) && todo == before + rest && len == |rest[0]| && p + len <= e
      decreases |rest|
    {
      SeekNext(a[..], p0, p, e, before, rest);
      assert before + rest == (before + [rest[0]]) + rest[1..];
      before, rest := before + [rest[0]], rest[1..];
      p := p + len;
      SeekNext(a[..], p0, p, e, before, rest);
      len := 2 + Le16(a[..], p);
    }
    SeekNext(a[..], p0, p, e, before, rest);
    assert todo[..|todo| - 1] == before;
    FirstPart(todo, before);
  }

  lemma FirstPart(todo: seq<Bytes>, before: seq<Bytes>)
    requires todo != [] && before == todo[..|todo| - 1] && AllOk(todo)
    ensures Flat(before) == [] <==> |todo| == 1
  {
    assert forall d <- before :: d in todo;
    NoBytes(before);
  }

  /** mountrock: the last entry of those from p on is saved and dropped. */
  method Mountrock(c: Rock, a: array<byte>, p: nat, e: nat, ghost todo: seq<Bytes>) returns (e': nat)
    requires c.Valid() && c.dirrock != a && todo != [] && AllOk(todo) && p <= e <= a.Length && a[..][p..e] == Flat(todo)
    modifies c, c.dirrock
    ensures c.Valid() && (c.dirrock == old(c.dirrock) || fresh(c.dirrock)) && c.dirrock != a
    ensures p <= e' <= e && a[..][p..e'] == Flat(todo[..|todo| - 1]) && (e' == p <==> |todo| == 1)
    ensures c.Saved() == old(c.Saved()) + todo[|todo| - 1]
  {
    var q, len := LastEntry(a, p, e, todo);
    c.Save(a[q..q + len]);
    e' := q;
  }

  lemma {:induction false} FlatSnoc(es: seq<Bytes>, d: Bytes)
    ensures Flat(es + [d]) == Flat(es) + d
  {
    FlatJoin(es, [d]);
    assert Flat([d]) == d + Flat([]);
  }

  /** Room is made for l bytes at p, where an entry of dirlen is: entries are dropped from the end. */
  method MakeRoom(c: Rock, a: array<byte>, p: nat, e0: nat, l: nat, maxn: nat, ghost todo: seq<Bytes>)
    returns (e: nat, ghost k: nat)
    requires c.Valid() && c.dirrock != a && todo != [] && AllOk(todo)
    requires p <= e0 <= a.Length && a[..][p..e0] == Flat(todo) && e0 <= maxn
    modifies c, c.dirrock
    ensures c.Valid() && (c.dirrock == old(c.dirrock) || fresh(c.dirrock)) && c.dirrock != a
    ensures Dropped(a[..], p, e, e0, todo, k, old(c.Saved()), c.Saved())
    ensures e > p ==> e - |todo[0]| + l <= maxn
    ensures k < |todo| ==> p + |Flat(todo[..k + 1])| - |todo[0]| + l > maxn
  {
    e, k := e0, |todo|;
    assert todo[..k] == todo && todo[k..] == [];
    EntryAt(a[..], p, e, todo);
    var dirlen := 2 + Le16(a[..], p);
    ghost var saved0 := c.Saved();
    while e > p && e - dirlen + l > maxn
      invariant c.Valid() && (c.dirrock == old(c.dirrock) || fresh(c.dirrock)) && c.dirrock != a
      invariant Dropped(a[..], p, e, e0, todo, k, saved0, c.Saved())
      invariant k < |todo| ==> p + |Flat(todo[..k + 1])| - |todo[0]| + l > maxn
      decreases k
    {
      DropOne(a[..], p, e, e0, todo, k, saved0, c.Saved());
      e := Mountrock(c, a, p, e, todo[..k]);
      k := k - 1;
    }
  }

  /** k of the entries todo are left, and the others have been saved from the last on. */
  ghost predicate Dropped(buf: Bytes, p: nat, e: nat, e0: nat, todo: seq<Bytes>, k: nat, saved0: Bytes, saved: Bytes) {
    && k <= |todo| && p <= e <= e0 <= |buf| && buf[p..e] == Flat(todo[..k]) && (e == p <==> k == 0)
    && saved == saved0 + Flat(Reverse(todo[k..]))
  }

  lemma DropOne(buf: Bytes, p: nat, e: nat, e0: nat, todo: seq<Bytes>, k: nat, saved0: Bytes, saved: Bytes)
    requires Dropped(buf, p, e, e0, todo, k, saved0, saved) && e > p && AllOk(todo)
    ensures k > 0 && AllOk(todo[..k])
    ensures forall e' :: p <= e' <= e && buf[p..e'] == Flat(todo[..k][..k - 1]) && (e' == p <==> k == 1) ==>
              Dropped(buf, p, e', e0, todo, k - 1, saved0, saved + todo[..k][k - 1])
  {
    assert forall d <- todo[..k] :: d in todo;
    assert todo[..k][..k - 1] == todo[..k - 1] && todo[k - 1..][1..] == todo[k..] && todo[k - 1..][0] == todo[k - 1];
    FlatSnoc(Reverse(todo[k..]), todo[k - 1]);
    assert (saved0 + Flat(Reverse(todo[k..]))) + todo[k - 1] == saved0 + (Flat(Reverse(todo[k..])) + todo[k - 1]);
  }

  /** One entry of dirlen at p is replaced by x, and what follows shifted. */
  method Replace(a: array<byte>, p: nat, dirlen: nat, e: nat, x: Bytes) returns (e': nat)
    requires p + dirlen <= e <= a.Length && e - dirlen + |x| <= a.Length
    modifies a
    ensures e' == e - dirlen + |x| && a[..][..p] == old(a[..])[..p]
    ensures a[..][p..p + |x|] == x && a[..][p + |x|..e'] == old(a[..])[p + dirlen..e]
  {
    var l, rest := |x|, e - (p + dirlen);
    e' := e;
    if l != dirlen {
      Memmove(a, p + l, p + dirlen, rest);
      e' := p + l + rest;
    }
    ghost var mid := a[..];
    assert mid[p + l..e'] == old(a[..])[p + dirlen..e] && mid[..p] == old(a[..])[..p] by {
      assert mid[..p] == mid[..p + l][..p] && old(a[..])[..p] == old(a[..])[..p + l][..p];
    }
    Write(a, p, x);
    assert a[..][p + l..e'] == a[..][p + l..][..rest];
    assert mid[p + l..e'] == mid[p + l..][..rest];
  }

  method Write(a: array<byte>, p: nat, x: Bytes)
    requires p + |x| <= a.Length
    modifies a
    ensures a[..][..p] == old(a[..])[..p] && a[..][p..p + |x|] == x && a[..][p + |x|..] == old(a[..])[p + |x|..]
  {
    forall i | 0 <= i < |x| { a[p + i] := x[i]; }
  }

  // ---------- The whole rewriting ----------

  /** es[..i] are done, es[i..j] are yet to be, and es[j..] have been saved from the last on. */
  ghost predicate Fixing(mounted: Mounts, es: seq<Bytes>, i: nat, j: nat, buf: Bytes, p: nat, e: nat, saved0: Bytes, saved: Bytes)
    requires MountsOk(mounted) && AllOk(es)
  {
    && i <= j <= |es| && p <= e <= |buf| && AllOk(es[..i])
    && buf[..p] == Flat(FixAll(mounted, es[..i])) && buf[p..e] == Flat(es[i..j])
    && saved == saved0 + Flat(Reverse(es[j..]))
  }

  lemma {:induction false} FixSnoc(mounted: Mounts, es: seq<Bytes>, i: nat)
    requires MountsOk(mounted) && AllOk(es) && i < |es|
    ensures AllOk(es[..i]) && AllOk(es[..i + 1]) && EntryOk(es[i])
    ensures Flat(FixAll(mounted, es[..i + 1])) == Flat(FixAll(mounted, es[..i])) + Fix(mounted, es[i])
  {
    assert forall d <- es[..i + 1] :: d in es;
    assert forall d <- es[..i] :: d in es;
    assert es[..i + 1][..i] == es[..i] && es[..i + 1][i] == es[i];
    FlatSnoc(FixAll(mounted, es[..i]), Fix(mounted, es[i]));
  }

  /** The entry at p is the next one. */
  lemma NextEntry(mounted: Mounts, es: seq<Bytes>, i: nat, j: nat, buf: Bytes, p: nat, e: nat, saved0: Bytes, saved: Bytes)
    requires MountsOk(mounted) && AllOk(es) && Fixing(mounted, es, i, j, buf, p, e, saved0, saved) && p < e
    ensures i < j && EntryOk(es[i]) && AllOk(es[i..j]) && p + |es[i]| <= e && buf[p..p + |es[i]|] == es[i] && Le16(buf, p) == |es[i]| - 2
    ensures buf[p + |es[i]|..e] == Flat(es[i + 1..j])
  {
    assert forall d <- es[i..j] :: d in es;
    NoBytes(es[i..j]);
    EntryAt(buf, p, e, es[i..j]);
    assert es[i..j][1..] == es[i + 1..j];
  }

  /** An entry stays as it is. */
  lemma FixingSkips(mounted: Mounts, es: seq<Bytes>, i: nat, j: nat, buf: Bytes, p: nat, e: nat, saved0: Bytes, saved: Bytes)
    requires MountsOk(mounted) && AllOk(es) && Fixing(mounted, es, i, j, buf, p, e, saved0, saved) && p < e
    requires EntryOk(es[i]) && mounted(es[i]) == None
    ensures Fixing(mounted, es, i + 1, j, buf, p + |es[i]|, e, saved0, saved)
  {
    NextEntry(mounted, es, i, j, buf, p, e, saved0, saved);
    FixSnoc(mounted, es, i);
    var q := p + |es[i]|;
    assert buf[..q] == buf[..p] + buf[p..q];
  }

  /** Entries at the end have been dropped. */
  lemma FixingDrops(mounted: Mounts, es: seq<Bytes>, i: nat, j: nat, j': nat, buf: Bytes, p: nat, e: nat, e': nat,
                    saved0: Bytes, saved: Bytes, saved': Bytes)
    requires MountsOk(mounted) && AllOk(es) && Fixing(mounted, es, i, j, buf, p, e, saved0, saved)
    requires i <= j' && Dropped(buf, p, e', e, es[i..j], j' - i, saved, saved')
    ensures Fixing(mounted, es, i, j', buf, p, e', saved0, saved')
  {
    assert es[i..j][..j' - i] == es[i..j'] && es[i..j][j' - i..] == es[j'..j];
    assert es[j'..j] + es[j..] == es[j'..];
    ReverseJoin(es[j'..j], es[j..]);
    FlatJoin(Reverse(es[j..]), Reverse(es[j'..j]));
    assert (saved0 + Flat(Reverse(es[j..]))) + Flat(Reverse(es[j'..j])) == saved0 + (Flat(Reverse(es[j..])) + Flat(Reverse(es[j'..j])));
  }

  lemma {:induction false} ReverseJoin(a: seq<Bytes>, b: seq<Bytes>)
    ensures Reverse(a + b) == Reverse(b) + Reverse(a)
    decreases |a|
  {
    if a == [] {
      assert a + b == b;
    } else {
      assert (a + b)[0] == a[0] && (a + b)[1..] == a[1..] + b;
      ReverseJoin(a[1..], b);
    }
  }

  /** An entry has been replaced. */
  lemma FixingReplaces(mounted: Mounts, es: seq<Bytes>, i: nat, j: nat, buf: Bytes, buf': Bytes, p: nat, e: nat, e': nat,
                       saved0: Bytes, saved: Bytes)
    requires MountsOk(mounted) && AllOk(es) && Fixing(mounted, es, i, j, buf, p, e, saved0, saved) && p < e
    requires EntryOk(es[i]) && e <= |buf| && p + |es[i]| <= e
    requires var x := Fix(mounted, es[i]);
             && e' == e - |es[i]| + |x| && p + |x| <= e' <= |buf'| && buf'[..p] == buf[..p] && buf'[p..p + |x|] == x
             && buf'[p + |x|..e'] == buf[p + |es[i]|..e]
    ensures Fixing(mounted, es, i + 1, j, buf', p + |Fix(mounted, es[i])|, e', saved0, saved)
  {
    NextEntry(mounted, es, i, j, buf, p, e, saved0, saved);
    FixSnoc(mounted, es, i);
    var q := p + |Fix(mounted, es[i])|;
    assert buf'[..q] == buf'[..p] + buf'[p..q];
  }

  /** One turn of mountfix. */
  method FixOne(c: Rock, a: array<byte>, p0: nat, e0: nat, maxn: nat, mounted: Mounts,
                ghost es: seq<Bytes>, ghost i0: nat, ghost j0: nat, ghost saved0: Bytes)
    returns (p: nat, e: nat, ghost i: nat, ghost j: nat)
    requires c.Valid() && c.dirrock != a && p0 + 2 < e0 <= maxn <= a.Length && MountsOk(mounted) && AllOk(es)
    requires Fixing(mounted, es, i0, j0, a[..], p0, e0, saved0, c.Saved())
    modifies c, c.dirrock, a
    ensures c.Valid() && (c.dirrock == old(c.dirrock) || fresh(c.dirrock)) && c.dirrock != a && e <= maxn
    ensures Fixing(mounted, es, i, j, a[..], p, e, saved0, c.Saved()) && j - i < j0 - i0
    ensures i0 <= i <= i0 + 1 && j <= j0 && (j < j0 ==> Full(mounted, es, maxn, j))
  {
    p, e, i, j := p0, e0, i0, j0;
    ghost var todo, saved := es[i..j], c.Saved();
    NextEntry(mounted, es, i, j, a[..], p, e, saved0, saved);
    var dirlen := 2 + Le16(a[..], p);
    var d := a[..][p..p + dirlen];
    assert d == es[i];
    var m := mounted(d);
    if m == None {
      FixingSkips(mounted, es, i, j, a[..], p, e, saved0, saved);
      p, i := p + dirlen, i + 1;
      return;
    }
    p, e, i, j := FixMounted(c, a, p, e, maxn, mounted, SetName(m.value, Name(d)), es, i, j, saved0);
  }

  lemma TooLong(mounted: Mounts, es: seq<Bytes>, i: nat, j: nat, maxn: nat, p: nat, l: nat)
    requires MountsOk(mounted) && AllOk(es) && i < j <= |es| && AllOk(es[..i]) && EntryOk(es[i])
    requires p == |Flat(FixAll(mounted, es[..i]))| && l == |Fix(mounted, es[i])| && p + |Flat(es[i..j])| - |es[i]| + l > maxn
    ensures !Fits(mounted, es, maxn, j)
  {
    FixSnoc(mounted, es, i);
    assert es[i..j][0] == es[i] && es[i..j][1..] == es[i + 1..j];
    assert Length(mounted, es, i + 1, j) > maxn;
  }

  lemma DroppedTooLong(mounted: Mounts, es: seq<Bytes>, i: nat, j0: nat, j: nat, maxn: nat, buf: Bytes, p: nat, e0: nat, saved0: Bytes, saved: Bytes, l: nat)
    requires MountsOk(mounted) && AllOk(es) && Fixing(mounted, es, i, j0, buf, p, e0, saved0, saved) && i <= j <= j0
    requires i < j0 && EntryOk(es[i]) && l == |Fix(mounted, es[i])|
    requires j < j0 ==> p + |Flat(es[i..j0][..j - i + 1])| - |es[i]| + l > maxn
    ensures j < j0 ==> Full(mounted, es, maxn, j)
  {
    if j < j0 {
      assert es[i..j0][..j - i + 1] == es[i..j + 1];
      TooLong(mounted, es, i, j + 1, maxn, p, l);
    }
  }

  /** The part of a turn with something mounted; x is the new entry. */
  method FixMounted(c: Rock, a: array<byte>, p0: nat, e0: nat, maxn: nat, ghost mounted: Mounts, x: Bytes,
                    ghost es: seq<Bytes>, ghost i0: nat, ghost j0: nat, ghost saved0: Bytes)
    returns (p: nat, e: nat, ghost i: nat, ghost j: nat)
    requires c.Valid() && c.dirrock != a && p0 < e0 <= maxn <= a.Length && MountsOk(mounted) && AllOk(es)
    requires Fixing(mounted, es, i0, j0, a[..], p0, e0, saved0, c.Saved())
    requires i0 < j0 && EntryOk(es[i0]) && x == Fix(mounted, es[i0])
    modifies c, c.dirrock, a
    ensures c.Valid() && (c.dirrock == old(c.dirrock) || fresh(c.dirrock)) && c.dirrock != a && e <= maxn
    ensures Fixing(mounted, es, i, j, a[..], p, e, saved0, c.Saved()) && j - i < j0 - i0
    ensures i0 <= i <= i0 + 1 && j <= j0 && (j < j0 ==> Full(mounted, es, maxn, j))
  {
    p, i := p0, i0;
    var dirlen;
    dirlen, e, j := RoomFor(c, a, p, e0, |x|, maxn, mounted, es, i, j0, saved0);
    if e == p { return; }
    e := ReplaceEntry(a, p, dirlen, e, x, mounted, es, i, j, saved0, c.Saved());
    p, i := p + |x|, i + 1;
  }

  method RoomFor(c: Rock, a: array<byte>, p: nat, e0: nat, l: nat, maxn: nat, ghost mounted: Mounts,
                 ghost es: seq<Bytes>, ghost i: nat, ghost j0: nat, ghost saved0: Bytes)
    returns (dirlen: nat, e: nat, ghost j: nat)
    requires c.Valid() && c.dirrock != a && p < e0 <= maxn <= a.Length && MountsOk(mounted) && AllOk(es)
    requires Fixing(mounted, es, i, j0, a[..], p, e0, saved0, c.Saved()) && i < j0 && EntryOk(es[i]) && l == |Fix(mounted, es[i])|
    modifies c, c.dirrock
    ensures c.Valid() && (c.dirrock == old(c.dirrock) || fresh(c.dirrock)) && c.dirrock != a
    ensures Fixing(mounted, es, i, j, a[..], p, e, saved0, c.Saved()) && j <= j0 && e <= e0 && (e == p <==> j == i)
    ensures dirlen == |es[i]| && (e > p ==> e - dirlen + l <= maxn)
    ensures j < j0 ==> Full(mounted, es, maxn, j)
  {
    ghost var saved := c.Saved();
    NextEntry(mounted, es, i, j0, a[..], p, e0, saved0, saved);
    dirlen := 2 + Le16(a[..], p);
    ghost var k;
    e, k := MakeRoom(c, a, p, e0, l, maxn, es[i..j0]);
    j := i + k;
    FixingDrops(mounted, es, i, j0, j, a[..], p, e0, e, saved0, saved, c.Saved());
    DroppedTooLong(mounted, es, i, j0, j, maxn, a[..], p, e0, saved0, saved, l);
  }

  method ReplaceEntry(a: array<byte>, p: nat, dirlen: nat, e: nat, x: Bytes, ghost mounted: Mounts,
                      ghost es: seq<Bytes>, ghost i: nat, ghost j: nat, ghost saved0: Bytes, ghost saved: Bytes)
    returns (e': nat)
    requires MountsOk(mounted) && AllOk(es) && p < e <= a.Length && e - dirlen + |x| <= a.Length
    requires Fixing(mounted, es, i, j, a[..], p, e, saved0, saved)
    requires i < j && EntryOk(es[i]) && x == Fix(mounted, es[i]) && dirlen == |es[i]|
    modifies a
    ensures e' == e - dirlen + |x| && Fixing(mounted, es, i + 1, j, a[..], p + |x|, e', saved0, saved)
  {
    ghost var buf := a[..];
    NextEntry(mounted, es, i, j, buf, p, e, saved0, saved);
    e' := Replace(a, p, dirlen, e, x);
    FixingReplaces(mounted, es, i, j, buf, a[..], p, e, e', saved0, saved);
  }

  /** mountfix: for some number of entries those before it are in the buffer, as the name space shows
      them, and the others, unchanged, have gone to the rock; nothing is lost, the buffer holds whole entries
      and no more than it may, and these are as many as fit all the time. */
  method Mountfix(c: Rock, a: array<byte>, n: nat, maxn: nat, mounted: Mounts, ghost es: seq<Bytes>)
    returns (e: nat, ghost j: nat)
    requires c.Valid() && c.dirrock != a && n <= maxn <= a.Length
    requires MountsOk(mounted) && AllOk(es) && a[..][..n] == Flat(es)
    modifies c, c.dirrock, a
    ensures c.Valid() && e <= maxn && j <= |es| && AllOk(es[..j])
    ensures a[..][..e] == Flat(FixAll(mounted, es[..j])) && c.Saved() == old(c.Saved()) + Flat(Reverse(es[j..]))
    ensures Greatest(mounted, es, maxn, j)
    ensures Fits(mounted, es, maxn, |es|) ==> j == |es| && c.Saved() == old(c.Saved())
  {
    var p: nat := 0;
    e, j := n, |es|;
    ghost var i: nat, saved0 := 0, c.Saved();
    Starts(mounted, es, maxn, a[..], e, saved0);
    while p + 2 < e
      invariant c.Valid() && (c.dirrock == old(c.dirrock) || fresh(c.dirrock)) && c.dirrock != a && e <= maxn
      invariant Going(mounted, es, maxn, i, j, a[..], p, e, saved0, c.Saved())
      decreases j - i
    {
      p, e, i, j := Turn(c, a, p, e, maxn, mounted, es, i, j, saved0);
    }
    Finishes(mounted, es, maxn, i, j, a[..], p, e, saved0, c.Saved());
  }

  /** The entries fit so far, and one more would not have. */
  ghost predicate Going(mounted: Mounts, es: seq<Bytes>, maxn: nat, i: nat, j: nat, buf: Bytes, p: nat, e: nat, saved0: Bytes, saved: Bytes)
    requires MountsOk(mounted) && AllOk(es)
  {
    && Fixing(mounted, es, i, j, buf, p, e, saved0, saved)
    && FitsTo(mounted, es, maxn, i, j) && (j < |es| ==> Full(mounted, es, maxn, j))
  }

  lemma Starts(mounted: Mounts, es: seq<Bytes>, maxn: nat, buf: Bytes, e: nat, saved0: Bytes)
    requires MountsOk(mounted) && AllOk(es) && e <= maxn <= |buf| && buf[..e] == Flat(es)
    ensures Going(mounted, es, maxn, 0, |es|, buf, 0, e, saved0, saved0)
  {
    assert es[..0] == [] && es[0..|es|] == es && es[|es|..] == [];
    assert buf[0..e] == buf[..e];
    assert saved0 + [] == saved0;
  }

  method Turn(c: Rock, a: array<byte>, p0: nat, e0: nat, maxn: nat, mounted: Mounts,
              ghost es: seq<Bytes>, ghost i0: nat, ghost j0: nat, ghost saved0: Bytes)
    returns (p: nat, e: nat, ghost i: nat, ghost j: nat)
    requires c.Valid() && c.dirrock != a && p0 + 2 < e0 <= maxn <= a.Length && MountsOk(mounted) && AllOk(es)
    requires Going(mounted, es, maxn, i0, j0, a[..], p0, e0, saved0, c.Saved())
    modifies c, c.dirrock, a
    ensures c.Valid() && (c.dirrock == old(c.dirrock) || fresh(c.dirrock)) && c.dirrock != a && e <= maxn
    ensures Going(mounted, es, maxn, i, j, a[..], p, e, saved0, c.Saved()) && j - i < j0 - i0
  {
    p, e, i, j := FixOne(c, a, p0, e0, maxn, mounted, es, i0, j0, saved0);
    FitsOn(mounted, es, maxn, i0, i, j0, j, a[..], p, e, saved0, c.Saved());
  }

  lemma Finishes(mounted: Mounts, es: seq<Bytes>, maxn: nat, i: nat, j: nat, buf: Bytes, p: nat, e: nat, saved0: Bytes, saved: Bytes)
    requires MountsOk(mounted) && AllOk(es) && Going(mounted, es, maxn, i, j, buf, p, e, saved0, saved) && e <= p + 2
    ensures j <= |es| && AllOk(es[..j]) && e <= |buf| && buf[..e] == Flat(FixAll(mounted, es[..j])) && saved == saved0 + Flat(Reverse(es[j..]))
    ensures Greatest(mounted, es, maxn, j)
    ensures Fits(mounted, es, maxn, |es|) ==> j == |es| && saved == saved0
  {
    assert forall d <- es[i..j] :: d in es;
    TooShort(es[i..j]);
    assert i == j && p == e;
    if Fits(mounted, es, maxn, |es|) {
      if j < |es| { FitFewer(mounted, es, maxn, j + 1, |es|); }
      assert es[j..] == [] && saved0 + [] == saved0;
    }
  }

  /** After a turn the entries still fit. */
  lemma FitsOn(mounted: Mounts, es: seq<Bytes>, maxn: nat, i0: nat, i: nat, j0: nat, j: nat, buf: Bytes, p: nat, e: nat, saved0: Bytes, saved: Bytes)
    requires MountsOk(mounted) && AllOk(es) && Fixing(mounted, es, i, j, buf, p, e, saved0, saved) && e <= maxn
    requires FitsTo(mounted, es, maxn, i0, j0) && i0 <= i <= i0 + 1 && j <= j0
    ensures FitsTo(mounted, es, maxn, i, j)
  {
    forall k | 0 <= k <= i ensures Length(mounted, es, k, j) <= maxn {
      if k <= i0 {
        LengthGrows(mounted, es, k, j, j0);
      } else {
        assert e == |buf[..p]| + |buf[p..e]|;
      }
    }
  }

  lemma TooShort(es: seq<Bytes>)
    requires AllOk(es)
    ensures es == [] || |Flat(es)| > 2
  {
    if es != [] { assert EntryOk(es[0]); }
  }

  // ---------- Reading the rock ----------

  /** k of the entries es have been copied. */
  ghost predicate Copied(es: seq<Bytes>, k: nat, out: Bytes, left: Bytes) {
    k <= |es| && out == Flat(es[..k]) && left == Flat(es[k..])
  }

  lemma {:induction false} CopyNext(es: seq<Bytes>, k: nat, out: Bytes, left: Bytes)
    requires AllOk(es) && Copied(es, k, out, left) && |left| >= 2
    ensures k < |es| && |es[k]| <= |left| && left[..|es[k]|] == es[k] && Le16(left, 0) == |es[k]| - 2 && |es[k]| > 2
    ensures Copied(es, k + 1, out + es[k], left[|es[k]|..])
  {
    assert es[k..] != [];
    assert EntryOk(es[k]) && es[k..][1..] == es[k + 1..] && es[..k + 1] == es[..k] + [es[k]];
    FlatSnoc(es[..k], es[k]);
    assert left == es[k] + Flat(es[k + 1..]);
  }

  /** The copying loop of mountrockread: whole entries while they fit. */
  method CopyOut(rock: array<byte>, nrock: nat, a: array<byte>, n: nat, ghost es: seq<Bytes>) returns (p: nat, ghost k: nat)
    requires rock != a && nrock <= rock.Length && n <= a.Length && AllOk(es) && rock[..nrock] == Flat(es)
    modifies a
    ensures p <= n && p <= nrock && Copied(es, k, a[..][..p], rock[..nrock][p..]) && (p == 0 <==> k == 0)
    ensures k == |es| || p + |es[k]| > n
  {
    p, k := 0, 0;
    ghost var all := rock[..nrock];
    assert es[..0] == [] && es[0..] == es;
    while p + 2 <= nrock
      invariant p <= n && p <= nrock && rock[..nrock] == all && Copied(es, k, a[..][..p], all[p..]) && (p == 0 <==> k == 0)
      decreases nrock - p
    {
      CopyNext(es, k, a[..][..p], all[p..]);
      assert all[p..][0] == all[p] && all[p..][1] == all[p + 1];
      var dirlen := 2 + Le16(rock[..nrock], p);
      if p + dirlen > n { return; }
      ghost var d := rock[..nrock][p..p + dirlen];
      assert d == all[p..][..dirlen] && all[p..][dirlen..] == all[p + dirlen..];
      Write(a, p, rock[..nrock][p..p + dirlen]);
      assert a[..][..p + dirlen] == a[..][..p] + a[..][p..p + dirlen];
      p, k := p + dirlen, k + 1;
    }
    Leftover(es, k, a[..][..p], all[p..]);
  }

  lemma Leftover(es: seq<Bytes>, k: nat, out: Bytes, left: Bytes)
    requires AllOk(es) && Copied(es, k, out, left) && |left| < 2
    ensures k == |es|
  {
    assert forall d <- es[k..] :: d in es;
    TooShort(es[k..]);
  }

  /** mountrockread: as many whole entries as fit come out in front, and the others stay. */
  method Mountrockread(c: Rock, a: array<byte>, n: nat, ghost es: seq<Bytes>) returns (ok: bool, nn: nat, ghost k: nat)
    requires c.Valid() && c.dirrock != a && n <= a.Length && AllOk(es) && c.Saved() == Flat(es)
    modifies c, c.dirrock, a
    ensures c.Valid() && k <= |es| && nn <= n && c.Saved() == Flat(es[k..]) && (ok <==> k > 0)
    ensures ok ==> a[..][..nn] == Flat(es[..k])
    ensures k == |es| || nn + |es[k]| > n
  {
    nn, k := 0, 0;
    assert es[0..] == es;
    if c.nrock == 0 {
      NoBytes(es);
      return false, 0, 0;
    }
    nn, k := CopyOut(c.dirrock, c.nrock, a, n, es);
    if nn == 0 { return false, 0, 0; }
    ghost var left := c.dirrock[..c.nrock][nn..];
    var rest := c.nrock - nn;
    if rest > 0 { Memmove(c.dirrock, 0, nn, rest); }
    c.nrock := rest;
    assert c.dirrock[..rest] == left;
    ok := true;
  }
}
