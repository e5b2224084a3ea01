/**
 Unique qid paths in exportfs (uniqueqid, freeqid, qidlookup, qidexists of exportfs/io.c): files of several
 devices are shown under one, so that two of them may come with the same path.
 */
module ExportQids {
  import opened Words

  /** What the host says of a file: type, device and the path of its qid. */
  datatype Key = Key(typ: int, dev: int, path: nat)

  const LOW := 0x1_0000_0000_0000
  const WRAP := 0x1_0000

  /** The path with other high bits. */
  function Variant(path: nat, newqid: nat): nat {
    path % LOW + newqid * LOW
  }

  function NextQid(newqid: nat): nat {
    if newqid + 1 >= WRAP then 1 else newqid + 1
  }

  class Qidtab {
    const key: Key
    const uniqpath: nat
    var ref: int

    constructor (key: Key, uniqpath: nat)
      ensures this.key == key && this.uniqpath == uniqpath && ref == 1
    {
      this.key, this.uniqpath, ref := key, uniqpath, 1;
    }
  }

  predicate Used(tab: map<Key, Qidtab>, path: nat) {
    exists k :: k in tab && tab[k].uniqpath == path
  }

  /** There is a path left that uniqueqid can come to. */
  predicate Room(tab: map<Key, Qidtab>, path: nat) {
    !Used(tab, path) || exists r :: 1 <= r < WRAP && !Used(tab, Variant(path, r))
  }

  lemma VariantOfVariant(path: nat, q: nat, r: nat)
    ensures Variant(Variant(path, q), r) == Variant(path, r)
  {
    assert (path % LOW + q * LOW) % LOW == path % LOW;
  }

  /** The path that is tried after k collisions. */
  function Tried(path: nat, newqid: nat, k: nat): (nat, nat)
    decreases k
  {
    if k == 0 then (path, newqid)
    else
      var q := NextQid(newqid);
      Tried(Variant(path, q), q, k - 1)
  }

  /** How many more tries lead to r. */
  function Until(newqid: nat, r: nat): nat
    requires 1 <= r < WRAP && newqid < WRAP
  {
    if newqid < r then r - newqid else WRAP - 1 - newqid + r
  }

  /** The files that use an entry. */
  ghost function Holders(users: map<nat, Key>, k: Key): set<nat> {
    set f | f in users && users[f] == k
  }

  lemma HoldersSet(users: map<nat, Key>, f: nat, d: Key, k: Key)
    ensures |Holders(users[f := d], k)| == |Holders(users, k) - {f}| + if d == k then 1 else 0
  {
    var rest := Holders(users, k) - {f};
    if d == k {
      assert Holders(users[f := d], k) == rest + {f};
    } else {
      assert Holders(users[f := d], k) == rest;
    }
  }

  lemma HoldersDrop(users: map<nat, Key>, f: nat, k: Key)
    requires f in users
    ensures |Holders(users - {f}, k)| == |Holders(users, k)| - if users[f] == k then 1 else 0
  {
    var less := Holders(users - {f}, k);
    if users[f] == k {
      assert Holders(users, k) == less + {f};
    } else {
      assert Holders(users, k) == less;
    }
  }

  class Qids {
    var qidtab: map<Key, Qidtab>
    var newqid: nat
    /** The files, and what their qidt is for. */
    ghost var users: map<nat, Key>

    ghost predicate Valid()
      reads this, qidtab.Values
    {
      && newqid < WRAP
      && (forall k <- qidtab :: qidtab[k].key == k && qidtab[k].ref > 0)
      && (forall k <- qidtab :: forall l <- qidtab :: qidtab[k].uniqpath == qidtab[l].uniqpath ==> k == l)
      && (forall f <- users :: users[f] in qidtab)
      && (forall k <- qidtab :: qidtab[k].ref >= |Holders(users, k)|)
    }

    constructor ()
      ensures Valid() && qidtab == map[] && users == map[]
    {
      qidtab, newqid, users := map[], 0, map[];
    }

    /** qidexists. */
    method Qidexists(path: nat) returns (b: bool)
      ensures b == Used(qidtab, path)
    {
      var left := qidtab.Keys;
      b := false;
      while left != {}
        invariant left <= qidtab.Keys && forall k <- qidtab :: k in left || qidtab[k].uniqpath != path
        decreases |left|
      {
        var k :| k in left;
        if qidtab[k].uniqpath == path {
          return true;
        }
        left := left - {k};
      }
    }

    /** The loop of uniqueqid. */
    method FreshPath(path0: nat) returns (path: nat)
      requires newqid < WRAP && Room(qidtab, path0)
      modifies `newqid
      ensures newqid < WRAP && !Used(qidtab, path) && path % LOW == path0 % LOW
      ensures !Used(qidtab, path0) ==> path == path0
    {
      path := path0;
      var used := Qidexists(path);
      ghost var r: nat := 1;
      if used {
        r :| 1 <= r < WRAP && !Used(qidtab, Variant(path0, r));
      }
      while used
        invariant newqid < WRAP && 1 <= r < WRAP && path % LOW == path0 % LOW && used == Used(qidtab, path)
        invariant used ==> !Used(qidtab, Variant(path0, r))
        invariant !Used(qidtab, path0) ==> path == path0
        decreases used, Until(newqid, r)
      {
        ghost var before := newqid;
        newqid := if newqid + 1 >= WRAP then 1 else newqid + 1;
        path := Variant(path, newqid);
        assert path == Variant(path0, newqid);
        used := Qidexists(path);
      }
    }

    /** uniqueqid finds an entry for what the host says. */
    method Share(ghost f: nat, d: Key) returns (q: Qidtab)
      requires Valid() && d in qidtab
      modifies `users, qidtab[d]
      ensures Valid() && users == old(users)[f := d] && q == qidtab[d] && q.ref == old(qidtab[d].ref) + 1
    {
      UsersSet(users, f, d);
      users := users[f := d];
      q := qidtab[d];
      q.ref := q.ref + 1;
    }

    /** It makes one. */
    method Add(ghost f: nat, d: Key) returns (q: Qidtab)
      requires Valid() && d !in qidtab && Room(qidtab, d.path)
      modifies this
      ensures Valid() && users == old(users)[f := d] && qidtab == old(qidtab)[d := q]
      ensures q.uniqpath % LOW == d.path % LOW && (!Used(old(qidtab), d.path) ==> q.uniqpath == d.path)
    {
      var path := FreshPath(d.path);
      assert forall k <- qidtab :: qidtab[k].uniqpath != path;
      UsersSet(users, f, d);
      OnlyUser(users, f, d);
      users := users[f := d];
      q := new Qidtab(d, path);
      qidtab := qidtab[d := q];
      forall k | k in qidtab
        ensures qidtab[k].ref >= |Holders(users, k)|
      {
        if k != d { assert k in old(qidtab) && qidtab[k] == old(qidtab)[k]; }
      }
    }

    /** uniqueqid, for a file whose qidt becomes the entry. */
    method UniqueQid(ghost f: nat, d: Key) returns (q: Qidtab)
      requires Valid() && (d in qidtab || Room(qidtab, d.path))
      modifies this, if d in qidtab then {qidtab[d]} else {}
      ensures Valid() && users == old(users)[f := d] && qidtab == old(qidtab)[d := q]
      ensures if d in old(qidtab) then q == old(qidtab)[d] && q.ref == old(qidtab[d].ref) + 1
              else q.uniqpath % LOW == d.path % LOW && (!Used(old(qidtab), d.path) ==> q.uniqpath == d.path)
    {
      if d in qidtab {
        q := Share(f, d);
      } else {
        q := Add(f, d);
      }
    }

    /** freeqid, for a file that goes. */
    method FreeQid(q: Qidtab, ghost f: nat)
      requires Valid() && f in users && qidtab[users[f]] == q
      modifies this, q
      ensures Valid() && users == old(users) - {f}
      ensures qidtab == if old(q.ref) == 1 then old(qidtab) - {q.key} else old(qidtab)
    {
      UsersDrop(users, f);
      users := users - {f};
      q.ref := q.ref - 1;
      if q.ref == 0 {
        NoUser(users, q.key);
        qidtab := qidtab - {q.key};
      }
    }
  }

  lemma UsersSet(users: map<nat, Key>, f: nat, d: Key)
    ensures forall k :: |Holders(users[f := d], k)| <= |Holders(users, k)| + if d == k then 1 else 0
  {
    forall k
      ensures |Holders(users[f := d], k)| <= |Holders(users, k)| + if d == k then 1 else 0
    {
      HoldersSet(users, f, d, k);
    }
  }

  lemma UsersDrop(users: map<nat, Key>, f: nat)
    requires f in users
    ensures forall k :: |Holders(users - {f}, k)| == |Holders(users, k)| - if users[f] == k then 1 else 0
  {
    forall k
      ensures |Holders(users - {f}, k)| == |Holders(users, k)| - if users[f] == k then 1 else 0
    {
      HoldersDrop(users, f, k);
    }
  }

  lemma OnlyUser(users: map<nat, Key>, f: nat, d: Key)
    requires d !in users.Values
    ensures |Holders(users[f := d], d)| == 1
  {
    assert Holders(users[f := d], d) == {f};
  }

  lemma NoUser(users: map<nat, Key>, d: Key)
    requires |Holders(users, d)| <= 0
    ensures forall f <- users :: users[f] != d
  {
    assert Holders(users, d) == {};
    assert forall f <- users :: users[f] == d ==> f in Holders(users, d);
  }

  // ---------- When uniqueqid comes to an end ----------

  lemma {:induction false} TriesAreVariants(path: nat, newqid: nat, k: nat)
    requires newqid < WRAP && k > 0
    ensures exists r :: 1 <= r < WRAP && Tried(path, newqid, k).0 == Variant(path, r)
    decreases k
  {
    var q := NextQid(newqid);
    if k == 1 {
      assert Tried(path, newqid, k).0 == Variant(path, q);
    } else {
      TriesAreVariants(Variant(path, q), q, k - 1);
      var r :| 1 <= r < WRAP && Tried(Variant(path, q), q, k - 1).0 == Variant(Variant(path, q), r);
      VariantOfVariant(path, q, r);
    }
  }

  lemma {:induction false} TriedInTime(path: nat, newqid: nat, r: nat)
    requires newqid < WRAP && 1 <= r < WRAP
    ensures Tried(path, newqid, Until(newqid, r)).0 == Variant(path, r)
    decreases Until(newqid, r)
  {
    var q := NextQid(newqid);
    if q != r {
      TriedInTime(Variant(path, q), q, r);
      VariantOfVariant(path, q, r);
    } else {
      assert Until(newqid, r) == 1;
      assert Tried(Variant(path, q), q, 0).0 == Variant(path, q);
    }
  }

  /** It does just when the path or one of its variants is not in use; otherwise it tries for ever. */
  lemma EndsIff(tab: map<Key, Qidtab>, path: nat, newqid: nat)
    requires newqid < WRAP
    ensures (exists k: nat :: !Used(tab, Tried(path, newqid, k).0)) <==> Room(tab, path)
  {
    if k: nat :| !Used(tab, Tried(path, newqid, k).0) {
      if k > 0 {
        TriesAreVariants(path, newqid, k);
      }
    }
    if !Used(tab, path) {
      assert !Used(tab, Tried(path, newqid, 0).0);
    } else if r :| 1 <= r < WRAP && !Used(tab, Variant(path, r)) {
      TriedInTime(path, newqid, r);
    }
  }
}
