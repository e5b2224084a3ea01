/**
 walk of kern/chan.c, with the references it takes and gives up.
 */
module Walking {
  import opened Words
  import opened CleanName
  import opened W = Walk
  import opened Chans

  /** The channel and the mount head that walk holds. */
  function Stand(c: Id, mh: Option<Key>): multiset<Ref> {
    if mh.Some? then multiset{ChanRef(c), HeadRef(mh.value)} else multiset{ChanRef(c)}
  }

  /** A channel of ours: one that others hold too, or a new one. */
  ghost predicate Usable(k: Kernel, z: Snap, c: Id)
    reads k`chan
  {
    c in k.chan && if c in z.mem.chan then ChanRef(c) in z.held else k.chan[c].own.None?
  }

  ghost predicate FirstUnder(k: Kernel, c: Id, mh: Option<Key>) {
    mh.Some? ==> mh.value in k.heads && k.heads[mh.value].mount != [] && c == k.heads[mh.value].mount[0]
  }

  /** What walk holds between its steps, on top of base: a channel, a name, and the mount head that the
      channel is the first of. */
  ghost predicate Place(k: Kernel, z: Snap, c: Id, p: Id, mh: Option<Key>, base: multiset<Ref>)
    reads k
  {
    k.Billed(z, p, base + Stand(c, mh)) && Usable(k, z, c) && FirstUnder(k, c, mh)
  }

  function HeadOf(w: World, mh: Option<Key>): Option<Mhead> {
    if mh.Some? && mh.value in w.table then Some(w.table[mh.value]) else None
  }

  lemma HeadLast(rest: multiset<Ref>, c: Id, mh: Option<Key>)
    requires mh.Some?
    ensures rest + Stand(c, mh) == rest + multiset{HeadRef(mh.value)} + multiset{ChanRef(c)}
    ensures rest + multiset{HeadRef(mh.value)} - multiset{HeadRef(mh.value)} == rest
  {
  }

  /** The references to a channel and its mount head given up; the mount table has one to the head too. */
  method Unstand(k: Kernel, c: Id, mh: Option<Key>, ghost rest: multiset<Ref>)
    requires k.held == rest + Stand(c, mh) && (ChanRef(c) in rest || (c in k.chan && k.chan[c].own.None?))
    modifies k`held
    ensures k.held == rest
  {
    if mh.Some? {
      HeadLast(rest, c, mh);
      CloseShared(k.Mem(), rest + multiset{HeadRef(mh.value)}, c);
      k.Cclose(c);
      k.held := k.held - multiset{HeadRef(mh.value)};
    } else {
      CloseShared(k.Mem(), rest, c);
      k.Cclose(c);
    }
  }

  lemma Across<T>(z: multiset<T>, c: multiset<T>, b: multiset<T>)
    ensures z + c + b == z + b + c
  {
  }

  /** The way out of a failed walk. */
  method GiveUp(k: Kernel, c: Id, p: Id, mh: Option<Key>, ghost z: Snap)
    requires Place(k, z, c, p, mh, z.held)
    modifies k`held
    ensures k.held == z.held
  {
    k.Leave(p, z, z.held + Stand(c, mh));
    Unstand(k, c, mh, z.held);
  }

  /** The end of a round: nc, and the head it is the first of, take the place of c. */
  method MoveTo(k: Kernel, c: Id, p: Id, mh: Option<Key>, nc: Id, nmh: Option<Key>, ghost z: Snap)
    requires Place(k, z, c, p, mh, z.held + Stand(nc, nmh)) && Usable(k, z, nc) && FirstUnder(k, nc, nmh)
    modifies k`held
    ensures Place(k, z, nc, p, nmh, z.held)
  {
    ghost var m, b := Stand(nc, nmh), k.Bill(z, p);
    Across(z.held + m, Stand(c, mh), b);
    Unstand(k, c, mh, z.held + m + b);
  }

  // ---------- A round of names ----------

  /** findmount, of a file that is mounted on: the first channel there and the head. */
  method Findmount(k: Kernel, key: Key, ghost z: Snap) returns (to: Id)
    requires k.Sound(z) && k.Since(z) && key in k.heads && key in k.w.table && k.heads[key].mount != [] && k.w.table[key].mount != []
    modifies k`held
    ensures k.held == old(k.held) + Stand(to, Some(key)) && FirstUnder(k, to, Some(key))
    ensures Usable(k, z, to) && k.chan[to].file == k.w.table[key].mount[0]
  {
    to := k.heads[key].mount[0];
    assert k.TableAt(z, key);
    assert k.InUse(z, k.heads[key].mount[0], k.w.table[key].mount[0]) && k.SameChan(z, to);
    k.held := k.held + multiset{ChanRef(to), HeadRef(key)};
  }

  /** The part of domount that writes the mount point into the name. */
  method Notetop(k: Kernel, p0: Id, from: Id, ghost z: Snap, ghost rest: multiset<Ref>) returns (p: Id)
    requires k.Billed(z, p0, rest) && ChanRef(from) in z.held
    modifies k`held, k`path, k`next
    ensures k.Billed(z, p, rest) && k.Val(z, p) == SetTop(old(k.Val(z, p0)), FileOf(z.mem, Some(from)))
  {
    p := k.Uniquepath(p0, z, rest);
    if |k.path[p].mtpt| > 0 {
      k.Retop(p, Some(from), z, rest);
    }
  }

  lemma Deeper<T>(z: multiset<T>, s: multiset<T>, b: multiset<T>, m: multiset<T>)
    ensures z + s + b + m == z + m + s + b
  {
  }

  lemma NoNames(k: Kernel, z: Snap, c: Id, mh: Option<Key>, nc: Id, nmh: Option<Key>)
    requires k.NoNewName(z, z.held + Stand(c, mh))
    ensures k.NoNewName(z, z.held + Stand(nc, nmh) + Stand(c, mh))
  {
    forall p | PathRef(p) in z.held + Stand(nc, nmh) + Stand(c, mh)
      ensures p in z.mem.path
    {
      assert PathRef(p) in z.held + Stand(c, mh);
    }
  }

  /** A second channel and head taken. */
  lemma PlaceMore(k: Kernel, z: Snap, c: Id, p: Id, mh: Option<Key>, nc: Id, nmh: Option<Key>, held: multiset<Ref>)
    requires k.Since(z) && k.HasName(z, p) && k.NoNewName(z, z.held + Stand(c, mh))
    requires held == z.held + Stand(c, mh) + k.Bill(z, p) && k.held == held + Stand(nc, nmh)
    requires Usable(k, z, c) && FirstUnder(k, c, mh)
    ensures Place(k, z, c, p, mh, z.held + Stand(nc, nmh))
  {
    Deeper(z.held, Stand(c, mh), k.Bill(z, p), Stand(nc, nmh));
    NoNames(k, z, c, mh, nc, nmh);
  }

  /** The crossing itself. */
  method Enterunion(k: Kernel, c0: Id, p: Id, key: Key, ghost z: Snap) returns (c: Id)
    requires k.Sound(z) && Place(k, z, c0, p, None, z.held) && key in k.heads && key in k.w.table && k.heads[key].mount != [] && k.w.table[key].mount != []
    modifies k`held
    ensures Place(k, z, c, p, Some(key), z.held) && k.chan[c].file == k.w.table[key].mount[0]
  {
    ghost var held := k.held;
    c := Findmount(k, key, z);
    PlaceMore(k, z, c0, p, None, c, Some(key), held);
    MoveTo(k, c0, p, None, c, Some(key), z);
  }

  /** domount. */
  method Domount(k: Kernel, c0: Id, p0: Id, key: Key, ghost z: Snap) returns (c: Id, p: Id)
    requires k.Sound(z) && Place(k, z, c0, p0, None, z.held) && key in k.heads && key in k.w.table && k.heads[key].mount != [] && k.w.table[key].mount != []
    modifies k`held, k`path, k`next
    ensures Place(k, z, c, p, Some(key), z.held) && k.chan[c].file == k.w.table[key].mount[0]
    ensures k.Val(z, p) == SetTop(old(k.Val(z, p0)), Some(k.w.table[key].from))
  {
    c := Enterunion(k, c0, p0, key, z);
    assert k.TableAt(z, key) && k.InUse(z, k.heads[key].from, k.w.table[key].from);
    p := Notetop(k, p0, k.heads[key].from, z, z.held + Stand(c, Some(key)));
  }

  /** The files a name is looked up in: those of the union crossed into, or the one directory. */
  function MemberFiles(w: World, f: Chan, mh: Option<Key>): seq<Chan> {
    if mh.Some? && mh.value in w.table then w.table[mh.value].mount else [f]
  }

  /** The top of a round: across a mount point, if that has not been done. */
  method Cross(k: Kernel, c0: Id, p0: Id, mh0: Option<Key>, nomount: bool, ghost names: seq<string>, ghost z: Snap)
    returns (c: Id, p: Id, mh: Option<Key>)
    requires Coherent(k.w) && k.Sound(z) && Place(k, z, c0, p0, mh0, z.held)
    requires k.chan[c0].file.isdir && names != [] && names[0] != ".." && (mh0.Some? ==> !nomount && mh0.value in k.w.table)
    modifies k`held, k`path, k`next
    ensures Place(k, z, c, p, mh, z.held) && (mh.Some? ==> !nomount && mh.value in k.w.table)
    ensures old(Remaining(k.w, k.chan[c0].file, k.Val(z, p0), HeadOf(k.w, mh0), names, nomount))
         == ResolveIn(k.w, MemberFiles(k.w, k.chan[c].file, mh), k.Val(z, p), names, nomount)
  {
    c, p, mh := c0, p0, mh0;
    ghost var st := At(k.chan[c0].file, k.Val(z, p0));
    if mh.None? {
      CrossIn(k.w, st, names, nomount);
      var key := k.chan[c].file.key;
      assert k.TableAt(z, key) && Mountable(k.w, key);
      if !nomount && key in k.heads {
        mh := Some(key);
        c, p := Domount(k, c, p, key, z);
      }
    }
  }

  /** A device has made a channel if it walked all the names, and otherwise nothing. */
  ghost predicate Answered(chan0: map<Id, Channel>, held0: multiset<Ref>, chan: map<Id, Channel>, held: multiset<Ref>,
      qs: seq<Chan>, n: nat, clone: Option<Id>)
  {
    && held == held0 + One(clone)
    && if |qs| == n && qs != [] then clone.Some? && clone.value !in chan0 && chan == chan0[clone.value := Channel(qs[|qs| - 1], None)]
       else clone.None? && chan == chan0
  }

  /** One request to a device. */
  method Ewalk(k: Kernel, f: Chan, names: seq<string>, ghost z: Snap) returns (qs: seq<Chan>, clone: Option<Id>)
    requires k.Since(z) && names != []
    modifies k`held, k`chan, k`next
    ensures k.Since(z) && qs == DevWalk(k.w, f, names)
    ensures Answered(old(k.chan), old(k.held), k.chan, k.held, qs, |names|, clone)
  {
    qs, clone := DevWalk(k.w, f, names), None;
    if |qs| == |names| {
      var c := k.Newchan(qs[|qs| - 1], z);
      clone := Some(c);
    } else {
      assert k.held + One(None) == k.held;
    }
  }

  /** The channels of a union are at the files that names are resolved in. */
  lemma MemberFile(k: Kernel, c: Id, mh: Option<Key>, i: nat, z: Snap)
    requires k.Sound(z) && k.Since(z) && c in k.chan && FirstUnder(k, c, mh) && (mh.Some? ==> mh.value in k.w.table)
    requires mh.Some? ==> i < |k.heads[mh.value].mount|
    ensures mh.None? ==> MemberFiles(k.w, k.chan[c].file, mh) == [k.chan[c].file]
    ensures mh.Some? ==> (var cs, id := MemberFiles(k.w, k.chan[c].file, mh), k.heads[mh.value].mount[i];
                          && |cs| == |k.heads[mh.value].mount| && id in k.chan && k.chan[id].file == cs[i]
                          && k.chan[c].file == cs[0])
  {
    if mh.Some? {
      assert k.TableAt(z, mh.value);
      assert k.InUse(z, k.heads[mh.value].mount[0], k.w.table[mh.value].mount[0]) && k.SameChan(z, c);
      assert k.InUse(z, k.heads[mh.value].mount[i], k.w.table[mh.value].mount[i]) && k.SameChan(z, k.heads[mh.value].mount[i]);
    }
  }

  /** The request tried on the members of a union from the second on, until one walks its first name. */
  method Others(k: Kernel, c: Id, key: Key, names: seq<string>, ghost z: Snap) returns (qs: seq<Chan>, f: Chan, clone: Option<Id>)
    requires k.Sound(z) && k.Since(z) && c in k.chan && FirstUnder(k, c, Some(key)) && key in k.w.table && names != []
    requires DevWalk(k.w, k.chan[c].file, names) == []
    modifies k`held, k`chan, k`next
    ensures k.Since(z) && f in k.w.table[key].mount && qs == DevWalk(k.w, f, names)
    ensures FirstOf(k.w, k.w.table[key].mount, names[0]) == if qs == [] then None else Some(qs[0])
    ensures Answered(old(k.chan), old(k.held), k.chan, k.held, qs, |names|, clone)
  {
    ghost var cs := k.w.table[key].mount;
    MemberFile(k, c, Some(key), 0, z);
    qs, f, clone := [], k.chan[c].file, None;
    assert k.held + One(None) == k.held;
    var i: nat := 1;
    while i < |k.heads[key].mount| && qs == []
      invariant 1 <= i <= |cs| && f in cs && qs == DevWalk(k.w, f, names) && k.Since(z)
      invariant FirstOf(k.w, cs, names[0]) == if qs == [] then FirstOf(k.w, cs[i..], names[0]) else Some(qs[0])
      invariant Answered(old(k.chan), old(k.held), k.chan, k.held, qs, |names|, clone)
    {
      assert k.held == old(k.held);
      MemberFile(k, c, Some(key), i, z);
      f := k.chan[k.heads[key].mount[i]].file;
      qs, clone := Ewalk(k, f, names, z);
      assert cs[i..][1..] == cs[i + 1..];
      i := i + 1;
    }
  }

  /** The request, tried on the other members of a union when its first name fails. */
  method Request(k: Kernel, c: Id, mh: Option<Key>, names: seq<string>, ghost z: Snap)
    returns (qs: seq<Chan>, f: Chan, clone: Option<Id>)
    requires k.Sound(z) && k.Since(z) && c in k.chan && FirstUnder(k, c, mh) && (mh.Some? ==> mh.value in k.w.table) && names != []
    modifies k`held, k`chan, k`next
    ensures var cs := MemberFiles(k.w, old(k.chan[c].file), mh);
            && f in cs && qs == DevWalk(k.w, f, names)
            && FirstOf(k.w, cs, names[0]) == if qs == [] then None else Some(qs[0])
    ensures k.Since(z) && Answered(old(k.chan), old(k.held), k.chan, k.held, qs, |names|, clone)
  {
    f := k.chan[c].file;
    MemberFile(k, c, mh, 0, z);
    qs, clone := Ewalk(k, f, names, z);
    if qs == [] && mh.Some? {
      assert k.held == old(k.held);
      qs, f, clone := Others(k, c, mh.value, names, z);
    }
  }

  /** A channel that was just made is closed again. */
  method Unclone(k: Kernel, clone: Option<Id>, ghost base: multiset<Ref>)
    requires k.held == base + One(clone) && (clone.Some? ==> clone.value in k.chan && k.chan[clone.value].own.None?)
    modifies k`held
    ensures k.held == base
  {
    if clone.Some? {
      CloseShared(k.Mem(), base, clone.value);
      k.Cclose(clone.value);
    } else {
      assert base + One(None) == base;
    }
  }

  lemma CloneStands(c: Id)
    ensures Stand(c, None) == One(Some(c))
  {
  }

  /** A mount point has been found: what the device made is not needed. */
  method Takemount(k: Kernel, key: Key, clone: Option<Id>, ghost z: Snap, ghost base: multiset<Ref>) returns (nc: Id)
    requires k.Sound(z) && k.Since(z) && key in k.heads && key in k.w.table && k.heads[key].mount != [] && k.w.table[key].mount != []
    requires k.held == base + One(clone) && (clone.Some? ==> clone.value in k.chan && k.chan[clone.value].own.None?)
    modifies k`held
    ensures k.held == base + Stand(nc, Some(key)) && FirstUnder(k, nc, Some(key))
    ensures Usable(k, z, nc) && k.chan[nc].file == k.w.table[key].mount[0]
  {
    Unclone(k, clone, base);
    nc := Findmount(k, key, z);
  }

  /** Where a request has led: to the first mount point among the files passed, or else to the channel that
      was made at the last. */
  method Choose(k: Kernel, f: Chan, qs: seq<Chan>, clone: Option<Id>, ntry: nat, nomount: bool, ghost z: Snap, ghost base: multiset<Ref>)
    returns (ok: bool, n: nat, nc: Id, nmh: Option<Key>)
    requires k.Sound(z) && k.Since(z) && Coherent(k.w) && 0 < |qs| <= ntry
    requires forall q <- qs :: q.key.typ == f.key.typ && q.key.dev == f.key.dev
    requires k.held == base + One(clone) && clone.Some? == (|qs| == ntry)
    requires clone.Some? ==> clone.value !in z.mem.chan && clone.value in k.chan && k.chan[clone.value] == Channel(qs[|qs| - 1], None)
    modifies k`held
    ensures k.held == if ok then base + Stand(nc, nmh) else base
    ensures ok ==> 0 < n <= |qs| && Usable(k, z, nc) && FirstUnder(k, nc, nmh)
    ensures forall i :: 0 <= i < (if ok then n - 1 else |qs|) ==> !Mounted(k.w, qs[i], nomount)
    ensures !ok ==> |qs| < ntry
    ensures ok && nmh.None? ==> n == ntry && k.chan[nc].file == qs[n - 1]
    ensures ok && nmh.Some? ==> !nomount && n < ntry && nmh == Some(qs[n - 1].key) && qs[n - 1].key in k.w.table
    ensures ok && nmh.Some? ==> k.w.table[nmh.value].mount != [] && k.chan[nc].file == k.w.table[nmh.value].mount[0]
  {
    n, nc, nmh := 0, 0, None;
    var i, found := FirstMount(k.w, f, qs, ntry, nomount);
    ok := found || clone.Some?;
    if found {
      var key := qs[i].key;
      assert k.TableAt(z, key) && Mountable(k.w, key);
      nc := Takemount(k, key, clone, z, base);
      n, nmh := i + 1, Some(key);
    } else if clone.Some? {
      n, nc := |qs|, clone.value;
      CloneStands(nc);
    } else {
      Unclone(k, clone, base);
    }
  }

  /** The loop that adds the names walked, the mount point under the last. */
  method AddElems(k: Kernel, p0: Id, names: seq<string>, from: Option<Id>, ghost z: Snap, ghost rest: multiset<Ref>) returns (p: Id)
    requires k.Billed(z, p0, rest) && names != [] && PlainNames(names) && names[|names| - 1] != ".."
    requires from.Some? ==> ChanRef(from.value) in z.held && from.value in z.mem.chan
    modifies k`held, k`path, k`next
    ensures k.Billed(z, p, rest)
    ensures k.Val(z, p) == (var all := AddAll(old(k.Val(z, p0)), names); if from == None then all else SetTop(all, FileOf(z.mem, from)))
  {
    p := p0;
    var n := |names|;
    ghost var p1 := k.Val(z, p0);
    for i := 0 to n
      invariant k.Billed(z, p, rest)
      invariant k.Val(z, p) == if i == n && from != None then SetTop(AddAll(p1, names), FileOf(z.mem, from)) else AddAll(p1, names[..i])
    {
      assert names[..i + 1][..i] == names[..i];
      if i == n - 1 {
        assert names[..n] == names;
        TopOfAdded(p1, names, FileOf(z.mem, from));
        p := k.Addelem(p, names[i], from, z, rest);
      } else {
        p := k.Addelem(p, names[i], None, z, rest);
      }
    }
    assert names[..n] == names;
  }

  /** The name after the names of a round, the mount point that ended it under the last. */
  function After(w: World, path: Path, names: seq<string>, mh: Option<Key>): Path {
    if mh.Some? && mh.value in w.table then SetTop(AddAll(path, names), Some(w.table[mh.value].from)) else AddAll(path, names)
  }

  /** The names walked are added, and the references exchanged. */
  method Settle(k: Kernel, c0: Id, p0: Id, mh0: Option<Key>, names: seq<string>, nc: Id, nmh: Option<Key>, ghost z: Snap) returns (p: Id)
    requires k.Sound(z) && Place(k, z, c0, p0, mh0, z.held + Stand(nc, nmh)) && Usable(k, z, nc) && FirstUnder(k, nc, nmh)
    requires names != [] && PlainNames(names) && names[|names| - 1] != ".." && (nmh.Some? ==> nmh.value in k.w.table)
    modifies k`held, k`path, k`next
    ensures Place(k, z, nc, p, nmh, z.held) && k.Val(z, p) == After(k.w, old(k.Val(z, p0)), names, nmh)
  {
    var from: Option<Id> := None;
    if nmh.Some? {
      from := Some(k.heads[nmh.value].from);
      assert k.TableAt(z, nmh.value) && k.InUse(z, k.heads[nmh.value].from, k.w.table[nmh.value].from);
    }
    p := AddElems(k, p0, names, from, z, z.held + Stand(nc, nmh) + Stand(c0, mh0));
    MoveTo(k, c0, p, mh0, nc, nmh, z);
  }

  /** What a round that stops at a mount point is left with. */
  predicate Stopped(w: World, f: Chan, mh: Option<Key>, more: bool, nomount: bool) {
    mh.Some? ==> !nomount && more && mh.value in w.table && w.table[mh.value].mount != [] && f == w.table[mh.value].mount[0]
  }

  /** What the names resolve to once a request has been answered. */
  lemma Reached(w: World, cs: seq<Chan>, f: Chan, path: Path, names: seq<string>, ntry: nat, n: nat, nomount: bool, c: Chan, mh: Option<Key>)
    requires Coherent(w) && 0 < n <= ntry <= |names| && FirstOf(w, cs, names[0]) == w.step(f, names[0])
    requires forall i :: 0 <= i < ntry ==> names[i] != ".."
    requires var qs := DevWalk(w, f, names[..ntry]);
             && n <= |qs| && (forall i :: 0 <= i < n - 1 ==> !Mounted(w, qs[i], nomount))
             && (if mh.None? then n == ntry && c == qs[n - 1] else mh == Some(qs[n - 1].key)) && Stopped(w, c, mh, n < ntry, nomount)
    ensures ResolveIn(w, cs, path, names, nomount) == Remaining(w, c, After(w, path, names[..n], mh), HeadOf(w, mh), names[n..], nomount)
  {
    if mh.None? {
      WholeRequest(w, cs, f, path, names, n, nomount);
    } else {
      ToMountPoint(w, cs, f, path, names, ntry, n, nomount);
    }
  }

  lemma NoFirst(w: World, cs: seq<Chan>, path: Path, names: seq<string>, nomount: bool)
    requires names != [] && FirstOf(w, cs, names[0]) == None
    ensures ResolveIn(w, cs, path, names, nomount) == None
  {
  }

  /** What an answer to a request leads to. */
  method Answer(k: Kernel, f: Chan, ghost cs: seq<Chan>, ghost names: seq<string>, qs: seq<Chan>, clone: Option<Id>, ntry: nat,
                nomount: bool, ghost path: Path, ghost z: Snap, ghost base: multiset<Ref>)
    returns (ok: bool, n: nat, nc: Id, nmh: Option<Key>)
    requires k.Sound(z) && k.Since(z) && Coherent(k.w) && 0 < |qs| <= ntry <= |names| && forall i :: 0 <= i < ntry ==> names[i] != ".."
    requires qs == DevWalk(k.w, f, names[..ntry]) && FirstOf(k.w, cs, names[0]) == k.w.step(f, names[0])
    requires forall q <- qs :: q.key.typ == f.key.typ && q.key.dev == f.key.dev
    requires k.held == base + One(clone) && clone.Some? == (|qs| == ntry)
    requires clone.Some? ==> clone.value !in z.mem.chan && clone.value in k.chan && k.chan[clone.value] == Channel(qs[|qs| - 1], None)
    modifies k`held
    ensures k.held == if ok then base + Stand(nc, nmh) else base
    ensures ok ==> 0 < n <= ntry && Usable(k, z, nc) && FirstUnder(k, nc, nmh) && Stopped(k.w, k.chan[nc].file, nmh, n < ntry, nomount)
    ensures ResolveIn(k.w, cs, path, names, nomount)
         == if ok then Remaining(k.w, k.chan[nc].file, After(k.w, path, names[..n], nmh), HeadOf(k.w, nmh), names[n..], nomount) else None
  {
    ok, n, nc, nmh := Choose(k, f, qs, clone, ntry, nomount, z, base);
    if ok {
      Reached(k.w, cs, f, path, names, ntry, n, nomount, k.chan[nc].file, nmh);
    } else {
      FallsShort(k.w, cs, f, path, names, ntry, nomount);
    }
  }

  /** The request of a round, and what it leads to. */
  method Ask(k: Kernel, c0: Id, mh0: Option<Key>, names: seq<string>, ntry: nat, nomount: bool, ghost path: Path, ghost z: Snap)
    returns (ok: bool, n: nat, c: Id, mh: Option<Key>)
    requires Coherent(k.w) && k.Sound(z) && k.Since(z) && Usable(k, z, c0) && FirstUnder(k, c0, mh0) && (mh0.Some? ==> mh0.value in k.w.table)
    requires 0 < ntry <= |names| && forall i :: 0 <= i < ntry ==> names[i] != ".."
    modifies k`held, k`chan, k`next
    ensures k.Since(z) && Usable(k, z, c0) && k.held == if ok then old(k.held) + Stand(c, mh) else old(k.held)
    ensures ok ==> 0 < n <= ntry && Usable(k, z, c) && FirstUnder(k, c, mh) && Stopped(k.w, k.chan[c].file, mh, n < ntry, nomount)
    ensures ResolveIn(k.w, MemberFiles(k.w, old(k.chan[c0].file), mh0), path, names, nomount)
         == if ok then Remaining(k.w, k.chan[c].file, After(k.w, path, names[..n], mh), HeadOf(k.w, mh), names[n..], nomount) else None
  {
    ghost var held, cs, window := k.held, MemberFiles(k.w, k.chan[c0].file, mh0), names[..ntry];
    assert window[0] == names[0];
    ok, n, c, mh := false, 0, c0, None;
    var qs, f, clone := Request(k, c0, mh0, names[..ntry], z);
    if qs == [] {
      NoFirst(k.w, cs, path, names, nomount);
      return;
    }
    DevWalkSameDevice(k.w, f, window);
    assert clone.Some? ==> old(k.SameChan(z, clone.value));
    ok, n, c, mh := Answer(k, f, cs, names, qs, clone, ntry, nomount, path, z, held);
  }

  method Arrive(k: Kernel, c0: Id, p0: Id, mh0: Option<Key>, names: seq<string>, nc: Id, nmh: Option<Key>, ghost held: multiset<Ref>, ghost z: Snap)
    returns (p: Id)
    requires k.Sound(z) && k.Since(z) && k.HasName(z, p0) && k.NoNewName(z, z.held + Stand(c0, mh0))
    requires held == z.held + Stand(c0, mh0) + k.Bill(z, p0) && k.held == held + Stand(nc, nmh)
    requires Usable(k, z, c0) && FirstUnder(k, c0, mh0) && Usable(k, z, nc) && FirstUnder(k, nc, nmh)
    requires names != [] && PlainNames(names) && names[|names| - 1] != ".." && (nmh.Some? ==> nmh.value in k.w.table)
    modifies k`held, k`path, k`next
    ensures Place(k, z, nc, p, nmh, z.held) && k.Val(z, p) == After(k.w, old(k.Val(z, p0)), names, nmh)
  {
    PlaceMore(k, z, c0, p0, mh0, nc, nmh, held);
    p := Settle(k, c0, p0, mh0, names, nc, nmh, z);
  }

  /** From the directory crossed into as far as one request goes. */
  method Advance(k: Kernel, c0: Id, p0: Id, mh0: Option<Key>, names: seq<string>, ntry: nat, nomount: bool, ghost z: Snap)
    returns (ok: bool, n: nat, c: Id, p: Id, mh: Option<Key>)
    requires Coherent(k.w) && k.Sound(z) && Place(k, z, c0, p0, mh0, z.held) && (mh0.Some? ==> mh0.value in k.w.table)
    requires 0 < ntry <= |names| && PlainNames(names) && forall i :: 0 <= i < ntry ==> names[i] != ".."
    modifies k`held, k`chan, k`path, k`next
    ensures k.Since(z) && if ok then Place(k, z, c, p, mh, z.held) else k.held == z.held
    ensures ok ==> 0 < n <= ntry && Stopped(k.w, k.chan[c].file, mh, n < ntry, nomount)
    ensures old(ResolveIn(k.w, MemberFiles(k.w, k.chan[c0].file, mh0), k.Val(z, p0), names, nomount))
         == if ok then Remaining(k.w, k.chan[c].file, k.Val(z, p), HeadOf(k.w, mh), names[n..], nomount) else None
  {
    ghost var held := k.held;
    p := p0;
    ok, n, c, mh := Ask(k, c0, mh0, names, ntry, nomount, k.Val(z, p0), z);
    if !ok {
      GiveUp(k, c0, p0, mh0, z);
      return;
    }
    p := Arrive(k, c0, p0, mh0, names[..n], c, mh, held, z);
  }

  /** A round of names: across a mount point if there is one, then as far as one request goes. */
  method NameRound(k: Kernel, c0: Id, p0: Id, mh0: Option<Key>, names: seq<string>, ntry: nat, nomount: bool, ghost z: Snap)
    returns (ok: bool, n: nat, c: Id, p: Id, mh: Option<Key>)
    requires Coherent(k.w) && k.Sound(z) && Place(k, z, c0, p0, mh0, z.held) && k.chan[c0].file.isdir
    requires mh0.Some? ==> !nomount && mh0.value in k.w.table
    requires 0 < ntry <= |names| && PlainNames(names) && forall i :: 0 <= i < ntry ==> names[i] != ".."
    modifies k`held, k`chan, k`path, k`next
    ensures k.Since(z) && if ok then Place(k, z, c, p, mh, z.held) else k.held == z.held
    ensures ok ==> 0 < n <= ntry && Stopped(k.w, k.chan[c].file, mh, n < ntry, nomount)
    ensures old(Remaining(k.w, k.chan[c0].file, k.Val(z, p0), HeadOf(k.w, mh0), names, nomount))
         == if ok then Remaining(k.w, k.chan[c].file, k.Val(z, p), HeadOf(k.w, mh), names[n..], nomount) else None
  {
    var c1, p1, mh1 := Cross(k, c0, p0, mh0, nomount, names, z);
    ok, n, c, p, mh := Advance(k, c1, p1, mh1, names, ntry, nomount, z);
  }

  // ---------- A round of ".." ----------

  lemma Instead<T>(z: multiset<T>, s: multiset<T>, n: multiset<T>)
    ensures z + s + n == z + n + s
  {
  }

  lemma FileInUse(k: Kernel, z: Snap, c: Id)
    requires k.Sound(z) && k.Since(z) && ChanRef(c) in z.held
    ensures Usable(k, z, c) && FileOf(z.mem, Some(c)) == Some(k.chan[c].file)
  {
    assert k.ChanAt(z, c) && k.SameChan(z, c);
  }

  /** The channel that was made is closed again. */
  method DropClone(k: Kernel, c0: Id, clone: Id, p: Id, ghost z: Snap)
    requires Place(k, z, c0, p, None, z.held + Stand(clone, None)) && Usable(k, z, clone)
    modifies k`held
    ensures k.Billed(z, p, z.held + Stand(c0, None)) && Usable(k, z, c0)
  {
    ghost var s := Stand(c0, None);
    LastOut(z.held, Stand(clone, None), s, k.Bill(z, p));
    Unstand(k, clone, None, z.held + s + k.Bill(z, p));
  }

  /** The channel mounted on in place of the one that was made. */
  method Uncross(k: Kernel, c0: Id, clone: Id, p: Id, ghost z: Snap) returns (c: Id)
    requires k.Sound(z) && Place(k, z, c0, p, None, z.held + Stand(clone, None)) && p !in z.mem.path && Usable(k, z, clone)
    requires var ms := k.path[p].mtpt; ms != [] && ms[|ms| - 1].Some?
    modifies k`held, k`path
    ensures Place(k, z, c0, p, None, z.held + Stand(c, None)) && Usable(k, z, c)
    ensures k.Val(z, p) == SetTop(old(k.Val(z, p)), None)
    ensures var fs := old(k.Val(z, p)).mtpt; fs != [] && fs[|fs| - 1] == Some(k.chan[c].file)
  {
    ghost var s := Stand(c0, None);
    DropClone(k, c0, clone, p, z);
    assert k.path[p] == old(k.path[p]);
    c := k.Untop(p, z, z.held + s);
    Instead(z.held, s, multiset{ChanRef(c)});
    FileInUse(k, z, c);
  }

  /** undomount. */
  method Undomount(k: Kernel, c0: Id, clone: Id, p: Id, ghost z: Snap) returns (c: Id)
    requires k.Sound(z) && Place(k, z, c0, p, None, z.held + Stand(clone, None)) && p !in z.mem.path && Usable(k, z, clone)
    modifies k`held, k`path
    ensures Place(k, z, c0, p, None, z.held + Stand(c, None)) && Usable(k, z, c)
    ensures At(k.chan[c].file, k.Val(z, p)) == W.Undomount(old(k.chan[clone].file), old(k.Val(z, p)))
  {
    c := clone;
    var n := |k.path[p].mtpt|;
    LastFile(z.mem, k.path[p].mtpt);
    if n > 0 && k.path[p].mtpt[n - 1].Some? {
      c := Uncross(k, c0, clone, p, z);
    }
  }

  lemma LastOut<T>(z: multiset<T>, c: multiset<T>, s: multiset<T>, b: multiset<T>)
    ensures z + c + s + b == z + s + b + c
  {
  }

  lemma LastFile(s: Store, ms: seq<Option<Id>>)
    ensures ms != [] ==> var fs := FilesOf(s, ms); fs[|fs| - 1] == FileOf(s, ms[|ms| - 1])
  {
  }

  /** The round on a channel that the device has made at the parent. */
  method Parent(k: Kernel, c0: Id, p0: Id, clone: Id, ghost held: multiset<Ref>, ghost z: Snap) returns (c: Id, p: Id)
    requires k.Sound(z) && k.Since(z) && k.HasName(z, p0) && k.NoNewName(z, z.held + Stand(c0, None))
    requires held == z.held + Stand(c0, None) + k.Bill(z, p0) && k.held == held + Stand(clone, None)
    requires Usable(k, z, c0) && Usable(k, z, clone)
    modifies k`held, k`path, k`next
    ensures Place(k, z, c, p, None, z.held)
    ensures At(k.chan[c].file, k.Val(z, p)) == W.Undomount(old(k.chan[clone].file), AddElem(old(k.Val(z, p0)), "..", None))
  {
    PlaceMore(k, z, c0, p0, None, clone, None, held);
    p := k.Addelem(p0, "..", None, z, z.held + Stand(clone, None) + Stand(c0, None));
    c := Undomount(k, c0, clone, p, z);
    MoveTo(k, c0, p, None, c, None, z);
  }

  /** ".." walks the device and then leaves the mount point recorded under the parent. */
  method DotDotRound(k: Kernel, c0: Id, p0: Id, nomount: bool, ghost names: seq<string>, ghost z: Snap) returns (ok: bool, c: Id, p: Id)
    requires k.Sound(z) && Place(k, z, c0, p0, None, z.held) && k.chan[c0].file.isdir && names != [] && names[0] == ".."
    modifies k`held, k`chan, k`path, k`next
    ensures k.Since(z) && if ok then Place(k, z, c, p, None, z.held) else k.held == z.held
    ensures old(Remaining(k.w, k.chan[c0].file, k.Val(z, p0), None, names, nomount))
         == if ok then Resolve(k.w, At(k.chan[c].file, k.Val(z, p)), names[1..], nomount) else None
  {
    ghost var held := k.held;
    c, p := c0, p0;
    var qs, clone := Ewalk(k, k.chan[c0].file, [".."], z);
    ok := clone.Some?;
    if ok {
      assert old(k.SameChan(z, clone.value));
      CloneStands(clone.value);
      c, p := Parent(k, c0, p0, clone.value, held, z);
    } else {
      GiveUp(k, c0, p0, None, z);
    }
  }

  // ---------- The walk ----------

  /** What holds at the top of the loop: names[nhave..] remain. */
  ghost predicate OnTheWay(k: Kernel, z: Snap, cp: State, names: seq<string>, nomount: bool, nhave: nat, c: Id, p: Id, mh: Option<Key>)
    reads k
  {
    && Place(k, z, c, p, mh, z.held) && (mh.Some? ==> mh.value in k.w.table)
    && Standing(k.w, cp, names, nomount, nhave, k.chan[c].file, k.Val(z, p), HeadOf(k.w, mh))
  }

  /** The names still to do after a round. */
  lemma RoundDone(w: World, cp: State, names: seq<string>, nomount: bool, nhave: nat, f0: Chan, p0: Path, mh0: Option<Key>,
                  ntry: nat, n: nat, f: Chan, p: Path, mh: Option<Key>, nhave': nat)
    requires Standing(w, cp, names, nomount, nhave, f0, p0, HeadOf(w, mh0)) && 0 < n <= ntry <= |names| - nhave && nhave' == nhave + n
    requires Stopped(w, f, mh, n < ntry, nomount) && forall i :: nhave <= i < nhave + ntry ==> names[i] != ".."
    requires Remaining(w, f0, p0, HeadOf(w, mh0), names[nhave..], nomount) == Remaining(w, f, p, HeadOf(w, mh), names[nhave..][n..], nomount)
    ensures Standing(w, cp, names, nomount, nhave', f, p, HeadOf(w, mh))
  {
    StandsOn(w, cp, names, nomount, nhave, f0, p0, HeadOf(w, mh0), n, f, p, HeadOf(w, mh));
  }

  /** One turn of the loop on a request without "..". */
  method NameTurn(k: Kernel, ghost cp: State, names: seq<string>, nomount: bool, nhave0: nat, ntry: nat, c0: Id, p0: Id, mh0: Option<Key>, ghost z: Snap)
    returns (ok: bool, nhave: nat, c: Id, p: Id, mh: Option<Key>)
    requires Coherent(k.w) && k.Sound(z) && PlainNames(names) && OnTheWay(k, z, cp, names, nomount, nhave0, c0, p0, mh0)
    requires k.chan[c0].file.isdir && 0 < ntry <= |names| - nhave0 && forall i :: nhave0 <= i < nhave0 + ntry ==> names[i] != ".."
    modifies k`held, k`chan, k`path, k`next
    ensures k.Since(z) && if ok then nhave0 < nhave && OnTheWay(k, z, cp, names, nomount, nhave, c, p, mh)
                          else k.held == z.held && Resolve(k.w, cp, names, nomount) == None
  {
    ghost var f0, path0 := k.chan[c0].file, k.Val(z, p0);
    ghost var rest := names[nhave0..];
    assert forall i :: 0 <= i < ntry ==> rest[i] == names[nhave0 + i];
    var n;
    ok, n, c, p, mh := NameRound(k, c0, p0, mh0, names[nhave0..], ntry, nomount, z);
    nhave := nhave0 + n;
    if ok {
      RoundDone(k.w, cp, names, nomount, nhave0, f0, path0, mh0, ntry, n, k.chan[c].file, k.Val(z, p), mh, nhave);
    }
  }

  /** One turn of the loop on a "..". */
  method DotDotTurn(k: Kernel, ghost cp: State, names: seq<string>, nomount: bool, nhave: nat, c0: Id, p0: Id, ghost z: Snap)
    returns (ok: bool, c: Id, p: Id)
    requires k.Sound(z) && OnTheWay(k, z, cp, names, nomount, nhave, c0, p0, None)
    requires k.chan[c0].file.isdir && nhave < |names| && names[nhave] == ".."
    modifies k`held, k`chan, k`path, k`next
    ensures k.Since(z) && if ok then OnTheWay(k, z, cp, names, nomount, nhave + 1, c, p, None)
                          else k.held == z.held && Resolve(k.w, cp, names, nomount) == None
  {
    ghost var f0, path0 := k.chan[c0].file, k.Val(z, p0);
    ok, c, p := DotDotRound(k, c0, p0, nomount, names[nhave..], z);
    if ok {
      StandsOn(k.w, cp, names, nomount, nhave, f0, path0, None, 1, k.chan[c].file, k.Val(z, p), None);
    }
  }

  /** Only a directory has names. */
  lemma NotDirectory(k: Kernel, z: Snap, cp: State, names: seq<string>, nomount: bool, nhave: nat, c: Id, p: Id, mh: Option<Key>)
    requires OnTheWay(k, z, cp, names, nomount, nhave, c, p, mh) && nhave < |names| && !k.chan[c].file.isdir
    ensures Resolve(k.w, cp, names, nomount) == None
  {
  }

  /** One turn of the loop. */
  method Turn(k: Kernel, ghost cp: State, names: seq<string>, nomount: bool, nhave0: nat, c0: Id, p0: Id, mh0: Option<Key>, ghost z: Snap)
    returns (ok: bool, nhave: nat, c: Id, p: Id, mh: Option<Key>)
    requires Coherent(k.w) && k.Sound(z) && PlainNames(names) && OnTheWay(k, z, cp, names, nomount, nhave0, c0, p0, mh0) && nhave0 < |names|
    modifies k`held, k`chan, k`path, k`next
    ensures k.Since(z) && if ok then nhave0 < nhave && OnTheWay(k, z, cp, names, nomount, nhave, c, p, mh)
                          else k.held == z.held && Resolve(k.w, cp, names, nomount) == None
  {
    ok, nhave, c, p, mh := false, nhave0, c0, p0, mh0;
    if !k.chan[c].file.isdir {
      NotDirectory(k, z, cp, names, nomount, nhave, c, p, mh);
      GiveUp(k, c, p, mh, z);
      return;
    }
    var ntry, dotdot := Window(names, nhave);
    if dotdot {
      ok, c, p := DotDotTurn(k, cp, names, nomount, nhave, c, p, z);
      mh, nhave := None, nhave + 1;
    } else {
      ok, nhave, c, p, mh := NameTurn(k, cp, names, nomount, nhave, ntry, c, p, mh, z);
    }
  }

  // ---------- The end ----------

  lemma OwnLast<T>(z: multiset<T>, c: multiset<T>, b: multiset<T>, o: multiset<T>, n: multiset<T>)
    ensures z + c + b + n + o == z + n + b + o + c
  {
  }

  /** cclone, by which the copy gets the name that c has; and c given up. */
  method Copychan(k: Kernel, c: Id, p: Id, ghost z: Snap) returns (nc: Id)
    requires k.Sound(z) && Place(k, z, c, p, None, z.held)
    modifies k`held, k`chan, k`next
    ensures k.Since(z) && nc !in z.mem.chan && nc in k.chan && k.chan[nc] == old(k.chan[c])
    ensures p in k.path && k.held == z.held + multiset{ChanRef(nc)} + k.Bill(z, p) + OwnRefs(k.chan[nc].own)
    ensures k.chan[nc].own.Some? ==> PathRef(k.chan[nc].own.value) in z.held
  {
    ghost var b := k.Bill(z, p);
    var own := k.chan[c].own;
    assert k.SameChan(z, c) && k.ChanAt(z, c);
    nc := k.Newchan(k.chan[c].file, z);
    assert old(k.SameChan(z, nc));
    if own.Some? {
      k.held := k.held + multiset{PathRef(own.value)};
    }
    SetOwn(k, nc, own, z);
    OwnLast(z.held, multiset{ChanRef(c)}, b, OwnRefs(own), multiset{ChanRef(nc)});
    Unstand(k, c, None, z.held + multiset{ChanRef(nc)} + b + OwnRefs(own));
  }

  /** A name given to a channel of ours. */
  method SetOwn(k: Kernel, c: Id, own: Option<Id>, ghost z: Snap)
    requires k.Since(z) && c in k.chan && c !in z.mem.chan
    modifies k`chan
    ensures k.Since(z) && k.chan == old(k.chan)[c := Channel(old(k.chan[c].file), own)]
  {
    k.chan := k.chan[c := Channel(k.chan[c].file, own)];
    forall x
      ensures k.SameChan(z, x)
    {
      assert old(k.SameChan(z, x));
    }
  }

  lemma SeveralHold(k: Kernel, c: Id, p: Id, z: Snap)
    requires Place(k, z, c, p, None, z.held) && c in z.mem.chan
    ensures k.held[ChanRef(c)] > 1
  {
  }

  /** cunique. */
  method Cunique(k: Kernel, c: Id, p: Id, ghost z: Snap) returns (nc: Id)
    requires k.Sound(z) && Place(k, z, c, p, None, z.held)
    modifies k`held, k`chan, k`next
    ensures k.Since(z) && nc !in z.mem.chan && nc in k.chan && k.chan[nc] == old(k.chan[c])
    ensures p in k.path && k.held == z.held + multiset{ChanRef(nc)} + k.Bill(z, p) + OwnRefs(k.chan[nc].own)
    ensures k.chan[nc].own.Some? ==> PathRef(k.chan[nc].own.value) in z.held
  {
    nc := c;
    if k.held[ChanRef(c)] != 1 {
      nc := Copychan(k, c, p, z);
    } else {
      if c in z.mem.chan {
        SeveralHold(k, c, p, z);
      }
      assert k.held + multiset{} == k.held;
    }
  }

  /** The name that a channel had given up; others have it too. */
  method Disown(k: Kernel, own: Option<Id>, ghost rest: multiset<Ref>)
    requires k.held == rest + OwnRefs(own) && (own.Some? ==> PathRef(own.value) in rest)
    modifies k`held
    ensures k.held == rest
  {
    if own.Some? {
      ClosePathShared(k.Mem(), rest, own.value);
      k.Pathclose(own.value);
    } else {
      assert rest + multiset{} == rest;
    }
  }

  /** The channel found is made our own, and given the name of the way there. */
  method Finish(k: Kernel, c: Id, p: Id, ghost z: Snap) returns (nc: Id)
    requires k.Sound(z) && Place(k, z, c, p, None, z.held)
    modifies k`held, k`chan, k`next
    ensures k.Since(z) && nc !in z.mem.chan && nc in k.chan && k.chan[nc] == Channel(old(k.chan[c].file), Some(p))
    ensures p in k.path && k.held == z.held + multiset{ChanRef(nc)} + k.Bill(z, p)
  {
    nc := Cunique(k, c, p, z);
    Disown(k, k.chan[nc].own, z.held + multiset{ChanRef(nc)} + k.Bill(z, p));
    SetOwn(k, nc, Some(p), z);
  }

  /** What the walk starts with. */
  method Begin(k: Kernel, cp: Id, p: Id, ghost z: Snap)
    requires z == k.Now() && k.Sound(z) && k.Since(z) && ChanRef(cp) in k.held && cp in k.chan && k.chan[cp].own == Some(p)
    modifies k`held
    ensures Place(k, z, cp, p, None, z.held)
  {
    assert k.ChanAt(z, cp) && k.NameAt(z, p);
    k.held := k.held + multiset{ChanRef(cp)} + multiset{PathRef(p)};
    forall q | PathRef(q) in z.held + Stand(cp, None)
      ensures q in z.mem.path
    {
      assert k.NameAt(z, q);
    }
  }

  /** The loop of walk. */
  method Rounds(k: Kernel, ghost start: State, names: seq<string>, nomount: bool, c0: Id, p0: Id, ghost z: Snap) returns (ok: bool, c: Id, p: Id)
    requires Coherent(k.w) && PlainNames(names) && k.Sound(z) && Place(k, z, c0, p0, None, z.held)
    requires start == At(k.chan[c0].file, k.Val(z, p0))
    modifies k
    ensures k.Since(z) && if ok then Place(k, z, c, p, None, z.held) else k.held == z.held
    ensures Resolve(k.w, start, names, nomount) == if ok then Some(At(k.chan[c].file, k.Val(z, p))) else None
  {
    ok, c, p := true, c0, p0;
    var mh: Option<Key> := None;   // set just when the last round stopped at a mount point
    var nhave := 0;
    assert names[0..] == names;
    while nhave < |names|
      invariant OnTheWay(k, z, start, names, nomount, nhave, c, p, mh)
      decreases |names| - nhave
    {
      ok, nhave, c, p, mh := Turn(k, start, names, nomount, nhave, c, p, mh, z);
      if !ok {
        return;
      }
    }
    ok := true;
  }

  /** The last lines of walk. */
  method Exchange(k: Kernel, cp: Id, c: Id, p: Id, ghost z: Snap) returns (nc: Id)
    requires k.Sound(z) && Place(k, z, c, p, None, z.held)
    modifies k`held, k`chan, k`next
    ensures k.Since(z) && nc !in z.mem.chan && nc in k.chan && k.chan[nc] == Channel(old(k.chan[c].file), Some(p)) && k.HasName(z, p)
    ensures k.held == CloseChan(k.Mem(), z.held + multiset{ChanRef(nc)} + k.Bill(z, p), cp)
  {
    nc := Finish(k, c, p, z);
    k.Cclose(cp);
  }

  /** walk, counting what it takes and gives up. */
  method Follow(k: Kernel, cp: Id, names: seq<string>, nomount: bool) returns (r: Option<Id>)
    requires Coherent(k.w) && PlainNames(names) && k.Sound(k.Now()) && k.Since(k.Now())
    requires ChanRef(cp) in k.held && cp in k.chan && k.chan[cp].own.Some? && k.chan[cp].own.value in k.path
    modifies k
    ensures k.Since(old(k.Now()))
    ensures r.None? ==> k.held == old(k.held)
    ensures r.Some? ==> r.value !in old(k.chan) && r.value in k.chan && k.chan[r.value].own.Some? && k.HasName(old(k.Now()), k.chan[r.value].own.value)
    ensures r.Some? ==> k.held == CloseChan(k.Mem(), old(k.held) + multiset{ChanRef(r.value)} + k.Bill(old(k.Now()), k.chan[r.value].own.value), cp)
    ensures Resolve(k.w, At(old(k.chan[cp].file), old(k.Val(k.Now(), k.chan[cp].own.value))), names, nomount)
         == if r.None? then None else Some(At(k.chan[r.value].file, k.Val(old(k.Now()), k.chan[r.value].own.value)))
  {
    ghost var z := k.Now();
    var p0 := k.chan[cp].own.value;
    Begin(k, cp, p0, z);
    var ok, c, p := Rounds(k, At(z.mem.chan[cp].file, k.Val(z, p0)), names, nomount, cp, p0, z);
    if !ok {
      return None;
    }
    var nc := Exchange(k, cp, c, p, z);
    r := Some(nc);
  }

  /** The accounts after a walk that succeeds. */
  lemma {:induction false} WalkBalanced(k: Kernel, z: Snap, ours: multiset<Ref>, table: multiset<Ref>, n: nat, m: nat, cp: Id, r: Id, p: Id)
    requires k.Balanced(z, ours, table, n) && n <= m && k.next <= m && k.Since(z) && k.HasName(z, p) && ChanRef(cp) in ours
    requires r !in z.mem.chan && r in k.chan && k.chan[r].own == Some(p)
    requires k.held == CloseChan(k.Mem(), z.held + multiset{ChanRef(r)} + k.Bill(z, p), cp)
    ensures k.Balanced(k.Now(), ours - multiset{ChanRef(cp)} + multiset{ChanRef(r)}, table, m)
  {
    k.StillBalanced(z, ours, table, n, m);
    Exchanged(k.Mem(), z.held, ours, table, r, p, k.Bill(z, p), cp, m);
  }

  lemma WalkAccounts(k: Kernel, z: Snap, ours: multiset<Ref>, table: multiset<Ref>, cp: Id, r: Id, p: Id)
    requires k.Accounts(z, ours, table) && k.Since(z) && k.HasName(z, p) && ChanRef(cp) in ours
    requires r !in z.mem.chan && r in k.chan && k.chan[r].own == Some(p)
    requires k.held == CloseChan(k.Mem(), z.held + multiset{ChanRef(r)} + k.Bill(z, p), cp)
    ensures k.Accounts(k.Now(), ours - multiset{ChanRef(cp)} + multiset{ChanRef(r)}, table)
  {
    var n: nat :| k.Balanced(z, ours, table, n);
    var m := n + k.next;
    WalkBalanced(k, z, ours, table, n, m, cp, r, p);
  }

  /** A walk that fails leaves only objects that nobody refers to. */
  lemma StillAccounts(k: Kernel, z: Snap, ours: multiset<Ref>, table: multiset<Ref>)
    requires k.Accounts(z, ours, table) && k.Since(z) && k.held == z.held
    ensures k.Accounts(k.Now(), ours, table)
  {
    var n: nat :| k.Balanced(z, ours, table, n);
    var m := n + k.next;
    k.StillBalanced(z, ours, table, n, m);
    assert k.Balanced(k.Now(), ours, table, m);
  }

  /** walk: batches of names lead to what resolving one name at a time leads to, or fail when that does.
      No channel and no name that was there is written to. A failure leaves every reference count as it was; after
      a success the caller's reference to cp has become one to a new channel, and every other reference belongs to
      the mount table or to an object that is still in use. */
  method Walk(k: Kernel, cp: Id, names: seq<string>, nomount: bool, ghost ours: multiset<Ref>, ghost table: multiset<Ref>)
    returns (r: Option<Id>)
    requires Coherent(k.w) && PlainNames(names) && k.Since(k.Now()) && k.Accounts(k.Now(), ours, table)
    requires ChanRef(cp) in ours && cp in k.chan && k.chan[cp].own.Some? && k.chan[cp].own.value in k.path
    modifies k
    ensures k.Since(old(k.Now()))
    ensures r.None? ==> k.held == old(k.held) && k.Accounts(k.Now(), ours, table)
    ensures r.Some? ==> r.value !in old(k.chan) && r.value in k.chan && k.chan[r.value].own.Some? && k.chan[r.value].own.value in k.path
    ensures r.Some? ==> k.Accounts(k.Now(), ours - multiset{ChanRef(cp)} + multiset{ChanRef(r.value)}, table)
    ensures Resolve(k.w, At(old(k.chan[cp].file), old(k.Val(k.Now(), k.chan[cp].own.value))), names, nomount)
         == if r.None? then None else Some(At(k.chan[r.value].file, k.Val(old(k.Now()), k.chan[r.value].own.value)))
    ensures ComesTo(k.w, At(old(k.chan[cp].file), old(k.Val(k.Now(), k.chan[cp].own.value))), names, nomount,
                    if r.None? then None else Some(At(k.chan[r.value].file, k.Val(old(k.Now()), k.chan[r.value].own.value))))
  {
    ghost var z := k.Now();
    ResolveComesTo(k.w, At(k.chan[cp].file, k.Val(z, k.chan[cp].own.value)), names, nomount);
    k.AccountsSound(z, ours, table);
    r := Follow(k, cp, names, nomount);
    if r.None? {
      StillAccounts(k, z, ours, table);
    } else {
      WalkAccounts(k, z, ours, table, cp, r.value, k.chan[r.value].own.value);
    }
  }
}
