/**
 The fids of exportfs: fidhash, getfid, newfid and freefid of exportfs/io.c, with the hash chains and the list of
 free Fids that they link.
 */
module ExportFids {
  import opened Words

  const FHASHSIZE: nat := 64
  const FIDCHUNK: nat := 1000

  /** The remainder that C has, of the sign of a. */
  function Remainder(a: int, b: nat): int
    requires b > 0
  {
    if a >= 0 then a % b else -((-a) % b)
  }

  /** Where fidhash looks. */
  function Bucket(nr: int): int {
    Remainder(nr, FHASHSIZE)
  }

  /** Whether that is in the table. */
  predicate InTable(nr: int) {
    0 <= Bucket(nr) < FHASHSIZE
  }

  lemma InTableIff(nr: int)
    ensures InTable(nr) <==> nr >= 0 || nr % FHASHSIZE == 0
  {
  }

  /** The fid of a message is an unsigned word, and goes to getfid and the others as an int. */
  lemma FidInTableIff(fid: u32)
    ensures InTable(Signed(fid)) <==> fid < TWO31 || fid % FHASHSIZE == 0
  {
    InTableIff(Signed(fid));
    assert TWO32 % FHASHSIZE == 0;
  }

  // ---------- Lists ----------

  /** A struct Fid; f is the file it points at. */
  class Fid<T> {
    var nr: int
    var f: Option<T>
    var next: Fid?<T>

    /** As emallocz leaves it. */
    constructor ()
      ensures nr == 0 && f == None && next == null
    {
      nr, f, next := 0, None, null;
    }
  }

  /** Different Fids s, linked in that order from p, lead to q. */
  ghost predicate Links<T>(p: Fid?<T>, s: seq<Fid<T>>, q: Fid?<T>)
    reads s`next
  {
    if s == [] then p == q else p == s[0] && s[0] !in s[1..] && Links(s[0].next, s[1..], q)
  }

  lemma {:induction false} LinksSplit<T>(p: Fid?<T>, s: seq<Fid<T>>, i: nat, q: Fid?<T>)
    requires Links(p, s, q) && i < |s|
    ensures Links(p, s[..i], s[i]) && Links(s[i].next, s[i + 1..], q) && s[i] !in s[..i] && s[i] !in s[i + 1..]
    ensures forall f <- s[..i] :: f !in s[i + 1..]
  {
    if i > 0 {
      LinksSplit(s[0].next, s[1..], i - 1, q);
      assert s[..i][1..] == s[1..][..i - 1] && s[1..][i..] == s[i + 1..] && s[1..][i - 1] == s[i];
      assert forall f <- s[..i] :: f == s[0] || f in s[1..][..i - 1];
      assert forall f <- s[i + 1..] :: f in s[1..];
    }
  }

  lemma {:induction false} LinksJoin<T>(p: Fid?<T>, a: seq<Fid<T>>, q: Fid?<T>, b: seq<Fid<T>>, r: Fid?<T>)
    requires Links(p, a, q) && Links(q, b, r) && forall f <- a :: f !in b
    ensures Links(p, a + b, r)
  {
    if a == [] {
      assert a + b == b;
    } else {
      LinksJoin(a[0].next, a[1..], q, b, r);
      assert (a + b)[1..] == a[1..] + b;
    }
  }

  ghost function Set<T>(s: seq<Fid<T>>): set<Fid<T>> {
    set f | f in s
  }

  function Drop<A>(s: seq<A>, i: nat): seq<A>
    requires i < |s|
  {
    s[..i] + s[i + 1..]
  }

  lemma DropIn<A>(s: seq<A>, i: nat)
    requires i < |s| && s[i] !in s[..i] && s[i] !in s[i + 1..]
    ensures forall x :: x in Drop(s, i) <==> x in s && x != s[i]
  {
    assert s == s[..i] + [s[i]] + s[i + 1..];
  }

  lemma Around<A>(s: seq<A>, i: nat)
    requires 0 < i < |s|
    ensures s[..i - 1] + ([s[i - 1]] + s[i + 1..]) == Drop(s, i) && ([s[i - 1]] + s[i + 1..])[1..] == s[i + 1..]
    ensures s[i - 1 + 1..] == s[i..] && s[i..][1..] == s[i + 1..] && forall x <- s[i + 1..] :: x in s[i..]
  {
    assert s[..i] == s[..i - 1] + [s[i - 1]];
  }

  /** The Fid behind prev, the one at i, taken out of a list. */
  method Bypass<T>(prev: Fid<T>, f: Fid<T>, ghost p: Fid?<T>, ghost s: seq<Fid<T>>, ghost i: nat)
    requires Links(p, s, null) && 0 < i < |s| && prev == s[i - 1] && f == s[i]
    modifies prev`next
    ensures Links(p, Drop(s, i), null) && prev.next == old(f.next)
  {
    ghost var a, b := s[..i - 1], s[i + 1..];
    LinksSplit(p, s, i - 1, null);
    LinksSplit(f, s[i..], 0, null);
    Around(s, i);
    prev.next := f.next;
    assert Links(prev, [prev] + b, null);
    LinksJoin(p, a, prev, [prev] + b, null);
  }

  // ---------- The table ----------

  /** What looking up a fid comes to; Outside is a place before the table, which the program reads all the same. */
  datatype Found<T> = Found(f: Fid<T>) | NoFid | Outside

  class FidTable<T> {
    const fhash: array<Fid?<T>>
    var fidfree: Fid?<T>
    /** The Fids of every chain, and the free ones. */
    ghost var chain: seq<seq<Fid<T>>>
    ghost var free: seq<Fid<T>>
    /** What the table means. */
    ghost var fids: map<int, Fid<T>>
    /** All Fids there are. */
    ghost var all: set<Fid<T>>

    ghost predicate Sizes()
      reads `chain
    {
      fhash.Length == FHASHSIZE == |chain|
    }

    ghost predicate Linked()
      requires Sizes()
      reads this, fhash, all`next
    {
      && (forall i :: 0 <= i < FHASHSIZE ==> Set(chain[i]) <= all && Links(fhash[i], chain[i], null))
      && Set(free) <= all && Links(fidfree, free, null)
    }

    /** A chain has fids that belong in it. */
    ghost predicate Filed(i: nat)
      requires Sizes() && i < FHASHSIZE
      reads `chain, `fids, `all, all`nr
    {
      forall f <- chain[i] :: f in all && f.nr in fids && fids[f.nr] == f && Bucket(f.nr) == i
    }

    /** A fid is in its chain. */
    ghost predicate Hashed(n: int)
      requires Sizes() && n in fids
      reads `chain, `fids, `all, all`nr
    {
      InTable(n) && fids[n] in all && fids[n].nr == n && fids[n] in chain[Bucket(n)]
    }

    /** A Fid is either in use or free. */
    ghost predicate Used(f: Fid<T>)
      reads `free, `fids, f`nr
    {
      f !in free <==> f.nr in fids && fids[f.nr] == f
    }

    /** All is in order, but that the Fid out is neither in use nor free. */
    ghost predicate Without(out: Fid?<T>)
      reads this, fhash, all`next, all`nr
    {
      && Sizes() && Linked()
      && (forall i :: 0 <= i < FHASHSIZE ==> Filed(i))
      && (forall n <- fids :: Hashed(n))
      && (forall f <- all :: f != out ==> Used(f))
      && (out != null ==> out in all && out !in free && !(out.nr in fids && fids[out.nr] == out))
    }

    ghost predicate Valid()
      reads this, fhash, all`next, all`nr
    {
      Without(null)
    }

    constructor ()
      ensures Valid() && fids == map[] && all == {}
    {
      fhash := new Fid?<T>[FHASHSIZE](i => null);
      fidfree, chain, free, fids, all := null, seq(FHASHSIZE, i => []), [], map[], {};
    }

    /** getfid. */
    method Getfid(nr: int) returns (f: Fid?<T>)
      requires Valid() && InTable(nr)
      ensures f == if nr in fids then fids[nr] else null
    {
      ghost var c, k := chain[Bucket(nr)], 0;
      assert Linked() && Filed(Bucket(nr));
      f := fhash[Bucket(nr)];
      while f != null
        invariant k <= |c| && Links(f, c[k..], null) && forall j :: 0 <= j < k ==> c[j].nr != nr
        decreases |c| - k
      {
        assert c[k..][0] == c[k] && c[k..][1..] == c[k + 1..];
        if f.nr == nr {
          return;
        }
        f := f.next;
        k := k + 1;
      }
      NotThere(nr);
    }

    /** A number that none in its chain has is not in the table. */
    lemma NotThere(nr: int)
      requires Valid() && InTable(nr) && forall f <- chain[Bucket(nr)] :: f.nr != nr
      ensures nr !in fids
    {
    }

    /** The search in newfid and freefid: the Fid, and the one whose link leads to it. */
    method Seek(nr: int) returns (prev: Fid?<T>, f: Fid?<T>, ghost k: nat)
      requires Valid() && InTable(nr)
      ensures nr !in fids ==> f == null
      ensures nr in fids ==> var c := chain[Bucket(nr)];
                             k < |c| && f == c[k] == fids[nr] && prev == if k == 0 then null else c[k - 1]
    {
      ghost var c := chain[Bucket(nr)];
      assert Linked() && Filed(Bucket(nr));
      prev, f, k := null, fhash[Bucket(nr)], 0;
      while f != null
        invariant k <= |c| && Links(f, c[k..], null) && forall j :: 0 <= j < k ==> c[j].nr != nr
        invariant prev == if k == 0 then null else c[k - 1]
        decreases |c| - k
      {
        assert c[k..][0] == c[k] && c[k..][1..] == c[k + 1..];
        if f.nr == nr {
          return;
        }
        prev, f, k := f, f.next, k + 1;
      }
      NotThere(nr);
    }

    /** What a Fid that is neither in use nor free is not linked to. */
    lemma Apart(f: Fid<T>, i: nat)
      requires Sizes() && i < FHASHSIZE && Filed(i) && !(f.nr in fids && fids[f.nr] == f)
      ensures f !in chain[i]
    {
    }

    /** No two lists share a Fid. */
    lemma Disjoint(i: nat, b: nat, f: Fid<T>)
      requires Valid() && i < FHASHSIZE && b < FHASHSIZE && f in chain[b]
      ensures f !in free && (i != b ==> f !in chain[i])
    {
      assert Filed(b) && Filed(i) && Used(f);
    }

    /** *l = f->next, in freefid. */
    method Unlink(b: nat, prev: Fid?<T>, f: Fid<T>, ghost k: nat)
      requires Sizes() && b < FHASHSIZE && Links(fhash[b], chain[b], null)
      requires var c := chain[b]; k < |c| && f == c[k] && prev == if k == 0 then null else c[k - 1]
      modifies fhash, Set(chain[b])`next
      ensures Links(fhash[b], Drop(chain[b], k), null) && f.next == old(f.next)
      ensures forall x :: x in Drop(chain[b], k) <==> x in chain[b] && x != f
      ensures forall i :: 0 <= i < FHASHSIZE && i != b ==> fhash[i] == old(fhash[i])
    {
      LinksSplit(fhash[b], chain[b], k, null);
      DropIn(chain[b], k);
      if prev == null {
        fhash[b] := f.next;
        assert Drop(chain[b], 0) == chain[b][1..];
      } else {
        Bypass(prev, f, fhash[b], chain[b], k);
      }
    }

    /** f goes from its chain. */
    method Unchain(b: nat, prev: Fid?<T>, f: Fid<T>, ghost k: nat)
      requires Valid() && b < FHASHSIZE
      requires var c := chain[b]; k < |c| && f == c[k] && prev == if k == 0 then null else c[k - 1]
      modifies `chain, fhash, all`next
      ensures Sizes() && Linked() && chain == old(chain)[b := Drop(old(chain)[b], k)]
      ensures forall x :: x in chain[b] <==> x in old(chain)[b] && x != f
    {
      forall i, x | 0 <= i < FHASHSIZE && x in chain[b]
        ensures x !in free && (i != b ==> x !in chain[i])
      {
        Disjoint(i, b, x);
      }
      Unlink(b, prev, f, k);
      chain := chain[b := Drop(chain[b], k)];
    }

    /** f goes from its chain, and its number from the table. */
    method Unhash(nr: int, prev: Fid?<T>, f: Fid<T>, ghost k: nat)
      requires Valid() && InTable(nr) && nr in fids && fids[nr] == f
      requires var c := chain[Bucket(nr)]; k < |c| && f == c[k] && prev == if k == 0 then null else c[k - 1]
      modifies `chain, `fids, fhash, all`next
      ensures Without(f) && fids == old(fids) - {nr}
    {
      var b: nat := Bucket(nr);
      assert Filed(b) && Hashed(nr) && Used(f);
      Unchain(b, prev, f, k);
      fids := fids - {nr};
      forall i | 0 <= i < FHASHSIZE
        ensures Filed(i)
      {
        assert old(Filed(i));
      }
      forall n <- fids ensures Hashed(n) {
        assert old(Hashed(n));
      }
      forall x <- all | x != f ensures Used(x) {
        assert old(Used(x));
      }
    }

    /** The last lines of freefid. */
    method Release(f: Fid<T>)
      requires Without(f)
      modifies `fidfree, `free, f`next
      ensures Valid() && free == [f] + old(free)
    {
      forall i | 0 <= i < FHASHSIZE ensures f !in chain[i] {
        Apart(f, i);
      }
      f.next := fidfree;
      fidfree := f;
      free := [f] + free;
      assert free[1..] == old(free);
      forall x <- all ensures Used(x) {
        assert x != f ==> old(Used(x));
      }
    }

    /** The Fid found in freefid. */
    method FreeFound(nr: int, prev: Fid?<T>, f: Fid<T>, ghost k: nat)
      requires Valid() && InTable(nr) && nr in fids && fids[nr] == f
      requires var c := chain[Bucket(nr)]; k < |c| && f == c[k] && prev == if k == 0 then null else c[k - 1]
      modifies this, fhash, all
      ensures Valid() && fids == old(fids) - {nr} && free == [f] + old(free) && all == old(all)
      ensures forall g <- fids :: fids[g].f == old(fids[g].f)
    {
      forall g <- fids | g != nr ensures fids[g] != f {
        assert Hashed(g) && Hashed(nr);
      }
      f.f := None;
      Unhash(nr, prev, f, k);
      Release(f);
    }

    /** freefid; was is the file that freefile is called with. */
    method Freefid(nr: int) returns (ok: bool, was: Option<T>)
      requires Valid() && InTable(nr)
      modifies this, fhash, all
      ensures Valid() && ok == (nr in old(fids)) && fids == old(fids) - {nr}
      ensures ok ==> was == old(fids[nr].f) && free == [old(fids)[nr]] + old(free)
      ensures !ok ==> was == None && free == old(free)
      ensures all == old(all) && forall n <- fids :: fids[n].f == old(fids[n].f)
    {
      var prev, f, k := Seek(nr);
      if f == null {
        assert fids == fids - {nr};
        return false, None;
      }
      ok, was := true, f.f;
      FreeFound(nr, prev, f, k);
    }

    /** emallocz, and the loop that links the new Fids. */
    method Refill()
      requires Valid() && fidfree == null
      modifies `fidfree, `free, `all
      ensures Valid() && |free| == FIDCHUNK && all == old(all) + Set(free) && forall f <- free :: fresh(f)
    {
      for i := FIDCHUNK downto 0
        invariant |free| == FIDCHUNK - i && Links(fidfree, free, null) && all == old(all) && forall f <- free :: fresh(f)
      {
        var f := new Fid<T>();
        f.next := fidfree;
        fidfree := f;
        ghost var rest := free;
        free := [f] + free;
        assert free[1..] == rest;
      }
      all := all + Set(free);
      forall i | 0 <= i < FHASHSIZE
        ensures Filed(i)
      {
        assert old(Filed(i));
      }
      forall n <- fids ensures Hashed(n) {
        assert old(Hashed(n));
      }
      forall f <- all ensures Used(f) {
        assert f in old(all) ==> old(Used(f));
      }
    }

    /** The first free Fid. */
    method Take() returns (f: Fid<T>)
      requires Valid() && free != []
      modifies `fidfree, `free
      ensures Without(f) && f == old(free)[0] && free == old(free)[1..]
    {
      var first: Fid<T> := fidfree;
      f := first;
      fidfree := f.next;
      assert old(Used(f));
      free := free[1..];
      forall x <- all | x != f ensures Used(x) {
        assert old(Used(x));
      }
    }

    /** The Fid written over, and put in front of its chain. */
    method Put(f: Fid<T>, nr: int)
      requires Without(f) && InTable(nr) && nr !in fids
      modifies `chain, fhash, f
      ensures Sizes() && Linked() && f.nr == nr && f.f == None
      ensures chain == old(chain)[Bucket(nr) := [f] + old(chain)[Bucket(nr)]]
    {
      var b: nat := Bucket(nr);
      forall i | 0 <= i < FHASHSIZE ensures f !in chain[i] {
        Apart(f, i);
      }
      f.f, f.next := None, fhash[b];
      fhash[b] := f;
      f.nr := nr;
      ghost var c := chain[b];
      chain := chain[b := [f] + c];
      assert chain[b][1..] == c;
    }

    /** The rest of newfid. */
    method Hash(f: Fid<T>, nr: int)
      requires Without(f) && InTable(nr) && nr !in fids
      modifies `chain, `fids, fhash, f
      ensures Valid() && f.f == None && fids == old(fids)[nr := f]
    {
      forall i | 0 <= i < FHASHSIZE ensures f !in chain[i] {
        Apart(f, i);
      }
      Put(f, nr);
      fids := fids[nr := f];
      forall i | 0 <= i < FHASHSIZE
        ensures Filed(i)
      {
        assert old(Filed(i));
      }
      forall n <- fids ensures Hashed(n) {
        assert n != nr ==> old(Hashed(n));
      }
      forall x <- all ensures Used(x) {
        assert x != f ==> old(Used(x));
      }
    }

    /** A Fid from the free list, which is filled first if it is empty. */
    method MakeFid(nr: int) returns (f: Fid<T>)
      requires Valid() && InTable(nr) && nr !in fids
      modifies this, fhash, all
      ensures Valid() && fids == old(fids)[nr := f] && f.f == None
      ensures old(free) != [] ==> all == old(all) && f == old(free)[0] && free == old(free)[1..]
      ensures old(free) == [] ==> old(all) <= all && |free| == FIDCHUNK - 1 && forall g <- all :: g in old(all) || fresh(g)
      ensures forall n <- old(fids) :: fids[n].f == old(fids[n].f)
    {
      forall n <- fids ensures fids[n] !in free {
        assert Hashed(n) && Used(fids[n]);
      }
      if fidfree == null {
        Refill();
      }
      f := Take();
      Hash(f, nr);
    }

    /** newfid; null if there is one. */
    method Newfid(nr: int) returns (f: Fid?<T>)
      requires Valid() && InTable(nr)
      modifies this, fhash, all
      ensures Valid() && (f == null <==> nr in old(fids))
      ensures f == null ==> fids == old(fids) && free == old(free) && all == old(all)
      ensures f != null ==> fids == old(fids)[nr := f] && f.f == None
      ensures f != null && old(free) != [] ==> all == old(all) && f == old(free)[0] && free == old(free)[1..]
      ensures f != null && old(free) == [] ==> old(all) <= all && |free| == FIDCHUNK - 1 && forall g <- all :: g in old(all) || fresh(g)
      ensures forall n <- old(fids) :: fids[n].f == old(fids[n].f)
    {
      f := Getfid(nr);
      if f != null {
        return null;
      }
      f := MakeFid(nr);
    }

    /** A fid in use is given up and made again.  The errors for inconsistent fids do not occur. */
    method Renew(nr: int) returns (n: Fid<T>, was: Option<T>)
      requires Valid() && InTable(nr) && nr in fids
      modifies this, fhash, all
      ensures Valid() && fids == old(fids)[nr := n] && was == old(fids[nr].f)
      ensures forall m <- old(fids) :: m != nr ==> fids[m].f == old(fids[m].f)
      ensures forall g <- all :: g in old(all) || fresh(g)
    {
      ghost var before := fids;
      var g := Getfid(nr);
      assert g != null;
      var ok;
      ok, was := Freefid(nr);
      var new' := Newfid(nr);
      assert new' != null;
      n := new';
      assert (before - {nr})[nr := n] == before[nr := n];
    }

    /** The fid nr made or renewed. */
    method Claim(nr: int) returns (n: Fid<T>, was: Option<T>)
      requires Valid() && InTable(nr)
      modifies this, fhash, all
      ensures Valid() && fids == old(fids)[nr := n] && was == if nr in old(fids) then old(fids[nr].f) else None
      ensures forall m <- old(fids) :: m != nr ==> fids[m].f == old(fids[m].f)
      ensures forall g <- all :: g in old(all) || fresh(g)
    {
      was := None;
      var new' := Newfid(nr);
      if new' == null {
        n, was := Renew(nr);
      } else {
        n := new';
      }
    }

    /** clonefid of exportfs/exportsrv.c; was is the file that the fid of that number was at, if there was one. */
    method Clonefid(f: Fid<T>, nr: int) returns (n: Fid<T>, was: Option<T>)
      requires Valid() && InTable(nr) && f.nr in fids && fids[f.nr] == f && f.nr != nr
      modifies this, fhash, all
      ensures Valid() && fids == old(fids)[nr := n] && n.f == old(f.f)
      ensures was == if nr in old(fids) then old(fids[nr].f) else None
      ensures forall m <- old(fids) :: m != nr ==> fids[m].f == old(fids[m].f)
    {
      ghost var k := f.nr;
      n, was := Claim(nr);
      assert Hashed(nr);
      forall m <- fids | m != nr
        ensures fids[m] != n
      {
        assert Hashed(m);
      }
      assert fids[k] == f && n in all;
      n.f := f.f;
    }

    /** The first line of the message handlers: getfid of the fid in the message. */
    method Lookup(fid: u32) returns (r: Found<T>)
      requires Valid()
      ensures r.Outside? <==> fid >= TWO31 && fid % FHASHSIZE != 0
      ensures r.NoFid? ==> Signed(fid) !in fids
      ensures r.Found? ==> Signed(fid) in fids && fids[Signed(fid)] == r.f
    {
      FidInTableIff(fid);
      if !InTable(Signed(fid)) {
        return Outside;
      }
      var f := Getfid(Signed(fid));
      r := if f == null then NoFid else Found(f);
    }
  }
}
