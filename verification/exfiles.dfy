/**
 The files of exportfs: newfid, getfid, freefid, file and freefile of exportfs/io.c, and the messages of
 exportfs/exportsrv.c that move fids about: Xattach, Xwalk, Xclunk, Xcreate, Xremove.
 */
module ExportFiles {
  import opened Words

  type Path = seq<string>

  const MAXWELEM := 16

  // ---------- What the messages mean ----------

  /** Where a walk comes to and how many names it takes. The i'th lookup finds what fs says. */
  datatype Walked = Walked(path: Path, count: nat)

  predicate CanStep(path: Path, name: string, there: bool) {
    if name == ".." then path != [] else there
  }

  function Stepped(path: Path, name: string): Path
    requires CanStep(path, name, name != "..")
  {
    if name == ".." then path[..|path| - 1] else path + [name]
  }

  function WalkFrom(fs: (nat, Path) -> bool, path: Path, names: seq<string>, i: nat): (w: Walked)
    requires i <= |names|
    ensures i <= w.count <= |names|
    decreases |names| - i
  {
    if i == |names| || i == MAXWELEM || !CanStep(path, names[i], fs(i, path + [names[i]])) then Walked(path, i)
    else WalkFrom(fs, Stepped(path, names[i]), names, i + 1)
  }

  type Fids = map<i32, Path>

  function Walk(m: Fids, n: i32, newn: i32, names: seq<string>, fs: (nat, Path) -> bool): Fids
    requires n in m
  {
    var w := WalkFrom(fs, m[n], names, 0);
    if newn == n then m[n := w.path]
    else if w.count == |names| then m[newn := w.path]
    else m - {newn}
  }

  /** Where names lead from a path, going by the names alone. */
  function Follow(path: Path, names: seq<string>): Path
    decreases |names|
  {
    if names == [] then path
    else Follow(if names[0] != ".." then path + [names[0]] else if path == [] then path else path[..|path| - 1], names[1..])
  }

  /** The i'th name can be taken when those before it were: there is something above, or the lookup finds it. */
  predicate CanTake(fs: (nat, Path) -> bool, path: Path, names: seq<string>, i: nat)
    requires i < |names|
  {
    var at := Follow(path, names[..i]);
    if names[i] == ".." then at != [] else fs(i, at + [names[i]])
  }

  /** Just the first i of the names are taken: all, or as many as a message may have, or up to one that cannot be. */
  ghost predicate Took(fs: (nat, Path) -> bool, path: Path, names: seq<string>, i: nat) {
    && i <= |names| && i <= MAXWELEM && (forall k :: 0 <= k < i ==> CanTake(fs, path, names, k))
    && (i == |names| || i == MAXWELEM || !CanTake(fs, path, names, i))
  }

  /** The fids after that: one that is walked to itself has moved by the names taken. A new one is where all names
      lead, or if not all were taken is no fid any more; and no other has moved. */
  ghost predicate FidsAfter(m: Fids, m': Fids, n: i32, newn: i32, names: seq<string>, i: nat)
    requires n in m && i <= |names|
  {
    && (forall k :: k != newn ==> (k in m <==> k in m') && (k in m ==> m'[k] == m[k]))
    && if newn == n then n in m' && m'[n] == Follow(m[n], names[..i])
       else if i == |names| then newn in m' && m'[newn] == Follow(m[n], names)
       else newn !in m'
  }

  // ---------- The tree ----------

  class File {
    const name: string
    const parent: File?
    /** What makepath makes of the names up to the root. */
    const path: Path
    var ref: int
    var child: seq<File>
    /** The fids that point at it. */
    ghost var at: set<i32>

    constructor (name: string, parent: File?)
      ensures this.name == name && this.parent == parent && ref == 0 && child == [] && at == {}
      ensures path == if parent == null then [] else parent.path + [name]
    {
      this.name, this.parent, ref, child, at := name, parent, 0, [], {};
      path := if parent == null then [] else parent.path + [name];
    }
  }

  function Paths(fids: map<i32, File>): Fids {
    map n | n in fids :: fids[n].path
  }

  lemma PathsSet(fids: map<i32, File>, n: i32, f: File)
    ensures Paths(fids[n := f]) == Paths(fids)[n := f.path]
    ensures Paths(fids - {n}) == Paths(fids) - {n}
  {
  }

  ghost predicate Siblings(fs: seq<File>) {
    forall i, j :: 0 <= i < j < |fs| ==> fs[i].name != fs[j].name
  }

  class Server {
    const root: File
    var fids: map<i32, File>
    /** The files that are allocated. */
    ghost var live: set<File>

    ghost predicate Shape()
      reads `live, live`child
    {
      && root in live && root.parent == null && root.path == []
      && (forall f <- live :: f.parent == null ==> f == root)
      && (forall f <- live :: f.parent != null ==> f.parent in live && f in f.parent.child && f.path == f.parent.path + [f.name])
      && (forall f <- live :: Siblings(f.child))
      && (forall f <- live :: forall c <- f.child :: c in live && c.parent == f)
    }

    ghost predicate Pointed()
      reads `fids, `live, live`at
    {
      && (forall n <- fids :: fids[n] in live && n in fids[n].at)
      && (forall f <- live :: forall n <- f.at :: n in fids && fids[n] == f)
    }

    ghost predicate Tree()
      reads this, live`child, live`at
    {
      Shape() && Pointed()
    }

    ghost function Refs(f: File): int
      reads f`at, f`child
    {
      |f.at| + |f.child| + if f == root then 1 else 0
    }

    /** Every file counts the fids that point at it, its children, and one for the root; and extra has one
        reference more, which is just being moved. */
    ghost predicate Counted(extra: File?)
      reads `live, live
    {
      (forall f <- live :: f.ref == Refs(f) + if f == extra then 1 else 0) && (extra == null || extra in live)
    }

    /** No file but that one is without references. */
    ghost predicate Wanted(but: File?)
      reads `live, live`ref
    {
      forall f <- live :: f == but || f.ref > 0
    }

    ghost predicate Valid()
      reads this, live
    {
      Tree() && Counted(null) && Wanted(null)
    }

    ghost function View(): Fids
      reads this
    {
      Paths(fids)
    }

    /** Files are only taken from the allocator. */
    twostate predicate Grown()
      reads `live
    {
      forall f <- live :: f in old(live) || fresh(f)
    }

    constructor ()
      ensures Valid() && View() == map[]
    {
      var r := new File(".", null);
      root := r;
      fids := map[];
      live := {r};
      new;
      root.ref := 1;
    }

    /** The file taken out of its parent's children. */
    method RemoveChild(parent: File, f: File)
      requires f in parent.child && Siblings(parent.child)
      modifies parent`child
      ensures Siblings(parent.child) && |parent.child| == |old(parent.child)| - 1
      ensures forall c :: c in parent.child <==> c in old(parent.child) && c != f
    {
      var i := 0;
      while parent.child[i] != f
        invariant 0 <= i < |parent.child| && f in parent.child[i..]
        decreases |parent.child| - i
      {
        i := i + 1;
      }
      DropOne(parent.child, i);
      parent.child := parent.child[..i] + parent.child[i + 1..];
    }

    /** A file without children and fids taken out of the tree. */
    method Detach(f: File) returns (parent: File)
      requires Tree() && f in live && f.child == [] && f != root && f.at == {}
      modifies `live, live`child
      ensures Tree() && live == old(live) - {f} && parent in live && |parent.path| < |f.path|
      ensures forall g <- live :: g != parent ==> g.child == old(g.child)
      ensures |parent.child| == |old(parent.child)| - 1
    {
      parent := f.parent;
      RemoveChild(parent, f);
      live := live - {f};
    }

    method DropRef(f: File)
      requires Tree() && Counted(f) && Wanted(null) && f in live
      modifies f`ref
      ensures Counted(null) && Wanted(f) && f.ref >= 0
    {
      f.ref := f.ref - 1;
    }

    /** A file without references goes; that to its parent is then still to be dropped. */
    method Release(f: File) returns (parent: File)
      requires Tree() && Counted(null) && Wanted(f) && f in live && f.ref == 0
      modifies `live, live`child
      ensures Tree() && Counted(parent) && Wanted(null) && parent in live
      ensures live == old(live) - {f} && |parent.path| < |f.path|
    {
      assert f.child == [] && f.at == {};
      parent := Detach(f);
    }

    /** All is in order but that f may be without references. */
    ghost predicate Loose(f: File)
      reads this, live
    {
      Tree() && Counted(null) && Wanted(f) && f in live && f.ref >= 0
    }

    /** One round of freefile. */
    method FreeOne(f: File) returns (parent: File)
      requires Loose(f) && f.ref == 0
      modifies `live, live
      ensures Loose(parent) && |parent.path| < |f.path| && live <= old(live)
    {
      parent := Release(f);
      DropRef(parent);
    }

    /** freefile. */
    method FreeFile(f0: File)
      requires Tree() && Counted(f0) && Wanted(null) && f0 in live
      modifies `live, live
      ensures Tree() && Counted(null) && Wanted(null) && live <= old(live)
    {
      var f := f0;
      DropRef(f);
      while f.ref == 0
        invariant Loose(f) && live <= old(live)
        decreases |f.path|
      {
        f := FreeOne(f);
      }
    }

    /** The child of that name, if there is one. */
    method Child(parent: File, name: string) returns (f: File?)
      ensures f == null <==> forall c <- parent.child :: c.name != name
      ensures f != null ==> f in parent.child && f.name == name
    {
      var i := 0;
      while i < |parent.child|
        invariant 0 <= i <= |parent.child| && forall j :: 0 <= j < i ==> parent.child[j].name != name
      {
        if parent.child[i].name == name {
          return parent.child[i];
        }
        i := i + 1;
      }
      f := null;
    }

    method TakeRef(f: File)
      requires Loose(f)
      modifies f`ref
      ensures Counted(f) && Wanted(null)
    {
      f.ref := f.ref + 1;
    }

    method Link(parent: File, f: File)
      requires Shape() && parent in live && f !in live && f.child == [] && f.parent == parent && f.path == parent.path + [f.name]
      requires forall c <- parent.child :: c.name != f.name
      modifies `live, parent`child
      ensures Shape() && live == old(live) + {f} && parent.child == [f] + old(parent.child)
    {
      parent.child := [f] + parent.child;
      live := live + {f};
    }

    /** A reference to parent becomes that of its new child. */
    method AddChild(parent: File, f: File)
      requires Tree() && Counted(parent) && Wanted(null) && parent in live
      requires f !in live && f.child == [] && f.at == {} && f.parent == parent && f.path == parent.path + [f.name] && f.ref == 0
      requires forall c <- parent.child :: c.name != f.name
      modifies `live, parent`child
      ensures live == old(live) + {f} && Loose(f)
    {
      Link(parent, f);
    }

    /** A new file under its parent, which counts it; nothing else counts it yet. */
    method NewChild(parent: File, name: string) returns (f: File)
      requires Tree() && Counted(null) && Wanted(null) && parent in live && forall c <- parent.child :: c.name != name
      modifies `live, parent
      ensures fresh(f) && live == old(live) + {f} && f.parent == parent && f.name == name
      ensures Loose(f)
    {
      f := new File(name, parent);
      TakeRef(parent);
      AddChild(parent, f);
    }

    /** The child of that name, made if need be. */
    method HaveChild(parent: File, name: string) returns (f: File)
      requires Tree() && Counted(null) && Wanted(null) && parent in live
      modifies `live, parent
      ensures Loose(f) && f.parent == parent && f.name == name
      ensures old(live) <= live && Grown()
    {
      var c := Child(parent, name);
      if c != null {
        return c;
      }
      f := NewChild(parent, name);
    }

    /** file: the child of that name with one more reference, or nothing when the host has no such file. */
    method GetFile(parent: File, name: string, there: bool) returns (f: File?)
      requires Tree() && Counted(null) && Wanted(null) && parent in live
      modifies `live, live
      ensures there == (f != null)
      ensures f == null ==> Counted(null)
      ensures f != null ==> f in live && f.path == parent.path + [name] && Counted(f)
      ensures Tree() && Wanted(null) && old(live) <= live && Grown()
    {
      if !there {
        return null;
      }
      f := HaveChild(parent, name);
      TakeRef(f);
    }

    method Aim(n: i32, f: File)
      requires Pointed() && n !in fids && f in live
      modifies `fids, f`at
      ensures Pointed() && fids == old(fids)[n := f] && |f.at| == |old(f.at)| + 1
    {
      assert n !in f.at;
      fids := fids[n := f];
      f.at := f.at + {n};
    }

    method Unaim(n: i32, ghost was: File)
      requires Pointed() && n in fids && fids[n] == was
      modifies `fids, was`at
      ensures Pointed() && fids == old(fids) - {n} && |was.at| == |old(was.at)| - 1
    {
      fids := fids - {n};
      was.at := was.at - {n};
    }

    method Turn(n: i32, ghost was: File, f: File)
      requires Pointed() && n in fids && fids[n] == was && f in live
      modifies `fids, was`at, f`at
      ensures Pointed() && fids == old(fids)[n := f]
      ensures if was == f then f.at == old(f.at) else |was.at| == |old(was.at)| - 1 && |f.at| == |old(f.at)| + 1
    {
      was.at := was.at - {n};
      fids := fids[n := f];
      f.at := f.at + {n};
    }

    /** A new fid gets the reference that was taken for it. */
    method NewFid(n: i32, f: File)
      requires Tree() && Counted(f) && Wanted(null) && n !in fids && f in live
      modifies `fids, f`at
      ensures fids == old(fids)[n := f] && Tree() && Wanted(null) && Counted(null)
    {
      Aim(n, f);
    }

    /** A fid that is no more leaves its reference behind. */
    method LoseFid(n: i32, ghost was: File)
      requires Tree() && Counted(null) && Wanted(null) && n in fids && fids[n] == was
      modifies `fids, was`at
      ensures fids == old(fids) - {n} && Tree() && Wanted(null) && Counted(was)
    {
      Unaim(n, was);
      assert was.ref == Refs(was) + 1;
    }

    /** A fid made to point at f with the reference that was taken for it; what it pointed at before has one too
        many then. */
    method MoveFid(n: i32, ghost was: File, f: File)
      requires Tree() && Counted(f) && Wanted(null) && n in fids && fids[n] == was && f in live
      modifies `fids, was`at, f`at
      ensures fids == old(fids)[n := f] && Tree() && Wanted(null) && Counted(was)
    {
      Turn(n, was, f);
      assert was != f ==> was.ref == Refs(was) + 1 && f.ref == Refs(f);
    }

    /** freefid. */
    method FreeFid(n: i32)
      requires Valid() && n in fids
      modifies `fids, `live, live
      ensures Valid() && fids == old(fids) - {n} && live <= old(live)
    {
      var f := fids[n];
      LoseFid(n, f);
      FreeFile(f);
    }

    /** A new fid for a file. */
    method Point(n: i32, f: File)
      requires Valid() && n !in fids && f in live
      modifies `fids, f
      ensures Valid() && fids == old(fids)[n := f]
    {
      TakeRef(f);
      NewFid(n, f);
    }

    /** Xattach. */
    method Xattach(n: i32) returns (ok: bool)
      requires Valid()
      modifies `fids, root
      ensures Valid() && ok == (n !in old(fids)) && fids == if ok then old(fids)[n := root] else old(fids)
    {
      ok := n !in fids;
      if ok {
        Point(n, root);
      }
    }

    method ClearFid(n: i32)
      requires Valid()
      modifies `fids, `live, live
      ensures Valid() && fids == old(fids) - {n} && live <= old(live)
    {
      if n in fids {
        FreeFid(n);
      } else {
        assert fids == fids - {n};
      }
    }

    /** clonefid; a fid that newn was is gone. */
    method CloneFid(n: i32, newn: i32)
      requires Valid() && n in fids && newn != n
      modifies `fids, `live, live
      ensures Valid() && fids == old(fids)[newn := old(fids)[n]] && live <= old(live)
    {
      ghost var was := fids;
      ClearFid(newn);
      var f := fids[n];
      Point(newn, f);
      PutBack(was, newn, f);
    }

    /** The fid goes on to a file a reference was taken to, and lets go of the one it was at. */
    method MoveOn(n: i32, wf: File)
      requires Tree() && Counted(wf) && Wanted(null) && n in fids && wf in live
      modifies `fids, `live, live
      ensures Valid() && fids == old(fids)[n := wf] && live <= old(live)
    {
      var was := fids[n];
      MoveFid(n, was, wf);
      FreeFile(was);
    }

    /** The file one name further on, with a reference to it; or nothing. */
    method Reach(f: File, name: string, there: bool) returns (wf: File?)
      requires Valid() && f in live
      modifies `live, live
      ensures Tree() && Wanted(null) && old(live) <= live && Grown()
      ensures (wf != null) == CanStep(f.path, name, there)
      ensures wf == null ==> Counted(null)
      ensures wf != null ==> wf in live && Counted(wf)
      ensures wf != null ==> wf.path == Stepped(f.path, name)
    {
      if name == ".." {
        wf := f.parent;
        if wf != null {
          TakeRef(wf);
          assert f.path == wf.path + [f.name];
        }
      } else {
        wf := GetFile(f, name, there);
      }
      if wf != null {
      }
    }

    /** One name of a walk. */
    method WalkOne(n: i32, name: string, there: bool) returns (ok: bool)
      requires Valid() && n in fids
      modifies `fids, `live, live
      ensures Valid() && Grown() && n in fids && fids == old(fids)[n := fids[n]]
      ensures ok == CanStep(old(fids)[n].path, name, there)
      ensures fids[n].path == if ok then Stepped(old(fids)[n].path, name) else old(fids)[n].path
    {
      var f := fids[n];
      var wf := Reach(f, name, there);
      ok := wf != null;
      if ok {
        MoveOn(n, wf);
      } else {
        assert fids == fids[n := f];
      }
    }

    /** Every fid but k is where it was. */
    twostate predicate Others(k: i32)
      reads `fids
    {
      fids.Keys == old(fids).Keys && forall m <- fids :: m != k ==> fids[m] == old(fids)[m]
    }

    /** The loop of Xwalk, and one round of it. */
    method WalkNext(k: i32, names: seq<string>, fs: (nat, Path) -> bool, i: nat, ghost all: Walked) returns (ok: bool)
      requires Valid() && k in fids && i < |names| && i != MAXWELEM && WalkFrom(fs, fids[k].path, names, i) == all
      modifies `fids, `live, live
      ensures Valid() && Grown() && k in fids && Others(k)
      ensures if ok then WalkFrom(fs, fids[k].path, names, i + 1) == all else all == Walked(fids[k].path, i)
    {
      WalkFromNext(fs, fids[k].path, names, i);
      ok := WalkOne(k, names[i], fs(i, fids[k].path + [names[i]]));
    }

    method WalkNames(k: i32, names: seq<string>, fs: (nat, Path) -> bool) returns (i: nat)
      requires Valid() && k in fids
      modifies `fids, `live, live
      ensures Valid() && Grown() && k in fids && Others(k)
      ensures WalkFrom(fs, old(fids)[k].path, names, 0) == Walked(fids[k].path, i)
    {
      i := 0;
      ghost var all := WalkFrom(fs, fids[k].path, names, 0);
      var ok := true;
      while ok && i < |names| && i != MAXWELEM
        invariant i <= |names| && Valid() && Grown() && k in fids && Others(k)
        invariant if ok then WalkFrom(fs, fids[k].path, names, i) == all else all == Walked(fids[k].path, i)
        decreases ok, |names| - i
      {
        ok := WalkNext(k, names, fs, i, all);
        i := if ok then i + 1 else i;
      }
    }

    /** A fid cloned and walked; it is gone again unless all names were taken. */
    method WalkClone(n: i32, newn: i32, names: seq<string>, fs: (nat, Path) -> bool) returns (i: nat)
      requires Valid() && n in fids && newn != n
      modifies `fids, `live, live
      ensures Valid() && i == WalkFrom(fs, old(View())[n], names, 0).count
      ensures View() == Walk(old(View()), n, newn, names, fs)
    {
      ghost var start, f := fids, fids[n];
      CloneFid(n, newn);
      ghost var cloned := fids;
      i := WalkNames(newn, names, fs);
      SameBut(cloned, fids, newn);
      ghost var g := fids[newn];
      Overwrite(start, newn, f, g);
      PathsSet(start, newn, g);
      if i != |names| {
        FreeFid(newn);
        Overwrite(start, newn, g, g);
      }
    }

    method Xwalk(n: i32, newn: i32, names: seq<string>, fs: (nat, Path) -> bool) returns (r: Option<nat>)
      requires Valid()
      modifies `fids, `live, live
      ensures Valid()
      ensures n !in old(View()) ==> r == None && View() == old(View())
      ensures n in old(View()) ==> View() == Walk(old(View()), n, newn, names, fs)
      ensures n in old(View()) ==> var i := WalkFrom(fs, old(View())[n], names, 0).count; r == if i == 0 && names != [] then None else Some(i)
      ensures n in old(View()) ==> var m := old(View());
              exists i: nat :: Took(fs, m[n], names, i) && FidsAfter(m, View(), n, newn, names, i) && r == if i == 0 && names != [] then None else Some(i)
    {
      if n !in fids {
        return None;
      }
      WalkMeans(View(), n, newn, names, fs);
      var i;
      if newn != n {
        i := WalkClone(n, newn, names, fs);
      } else {
        ghost var start := fids;
        i := WalkNames(n, names, fs);
        SameBut(start, fids, n);
        PathsSet(start, n, fids[n]);
      }
      r := if i > 0 || names == [] then Some(i) else None;
    }

    method Xclunk(n: i32) returns (ok: bool)
      requires Valid()
      modifies `fids, `live, live
      ensures Valid() && ok == (n in old(View())) && View() == old(View()) - {n}
    {
      ok := n in fids;
      PathsSet(fids, n, root);
      ClearFid(n);
    }

    /** Xcreate; made tells whether the host made the file, there whether it can then be looked up. */
    method Xcreate(n: i32, name: string, made: bool, there: bool) returns (ok: bool)
      requires Valid()
      modifies `fids, `live, live
      ensures Valid() && ok == (n in old(View()) && made && there)
      ensures View() == if ok then old(View())[n := old(View())[n] + [name]] else old(View())
    {
      ok := false;
      if n !in fids || !made {
        return;
      }
      var nf := GetFile(fids[n], name, there);
      if nf == null {
        return;
      }
      PathsSet(fids, n, nf);
      MoveOn(n, nf);
      ok := true;
    }

    // ---------- What the counts are for ----------

    /** No file that a fid is at, nor any above it, is ever freed: there is one for every part of its path. */
    lemma {:induction false} Above(f: File, j: nat) returns (g: File)
      requires Valid() && f in live && j <= |f.path|
      ensures g in live && g.ref > 0 && g.path == f.path[..j]
      decreases |f.path|
    {
      if j == |f.path| {
        g := f;
      } else {
        assert f.path == f.parent.path + [f.name];
        g := Above(f.parent, j);
      }
    }

    /** And every file that is kept, but the root, has a fid at it or beneath it. */
    lemma {:induction false} Beneath(f: File, left: set<File>) returns (n: i32)
      requires Valid() && f in live && f != root
      requires left <= live && forall g <- live :: |g.path| >= |f.path| ==> g in left
      ensures n in fids && f.path <= fids[n].path
      decreases |left|
    {
      if f.at != {} {
        n :| n in f.at;
      } else {
        assert f.ref == |f.child|;
        var c := f.child[0];
        assert c in f.child && c.path == f.path + [c.name];
        n := Beneath(c, left - {f});
      }
    }

    lemma NoneForgotten(f: File)
      requires Valid() && f in live && f != root
      ensures exists n :: n in fids && f.path <= fids[n].path
    {
      var n := Beneath(f, live);
    }

    /** There is one file for a path. */
    lemma {:induction false} OneFile(f: File, g: File)
      requires Tree() && f in live && g in live && f.path == g.path
      ensures f == g
      decreases |f.path|
    {
      if f.parent == null {
        assert g.parent == null;
      } else {
        assert f.path == f.parent.path + [f.name] && g.path == g.parent.path + [g.name];
        assert f.parent.path == f.path[..|f.path| - 1] == g.parent.path;
        OneFile(f.parent, g.parent);
        var i :| 0 <= i < |f.parent.child| && f.parent.child[i] == f;
        var j :| 0 <= j < |f.parent.child| && f.parent.child[j] == g;
        assert f.name == f.path[|f.path| - 1] == g.name;
      }
    }
  }

  lemma {:induction false} WalkFromNext(fs: (nat, Path) -> bool, path: Path, names: seq<string>, i: nat)
    requires i < |names| && i != MAXWELEM
    ensures WalkFrom(fs, path, names, i) == if CanStep(path, names[i], fs(i, path + [names[i]]))
                                            then WalkFrom(fs, Stepped(path, names[i]), names, i + 1) else Walked(path, i)
  {
  }

  // ---------- Walks that stop half-way ----------

  lemma {:induction false} FollowJoin(path: Path, a: seq<string>, b: seq<string>)
    ensures Follow(path, a + b) == Follow(Follow(path, a), b)
    decreases |a|
  {
    if a == [] {
      assert a + b == b;
    } else {
      assert (a + b)[0] == a[0] && (a + b)[1..] == a[1..] + b;
      FollowJoin(if a[0] != ".." then path + [a[0]] else if path == [] then path else path[..|path| - 1], a[1..], b);
    }
  }

  /** A name and then ".." lead back. */
  lemma FollowBack(path: Path, name: string)
    requires name != ".."
    ensures Follow(path, [name, ".."]) == path
  {
    assert [name, ".."][1..] == [".."] && [".."][1..] == [];
    assert (path + [name])[..|path|] == path;
  }

  lemma {:induction false} FollowNext(path: Path, names: seq<string>, i: nat)
    requires i < |names|
    ensures var at := Follow(path, names[..i]);
            Follow(path, names[..i + 1]) == if names[i] != ".." then at + [names[i]] else if at == [] then at else at[..|at| - 1]
  {
    assert names[..i + 1] == names[..i] + [names[i]];
    FollowJoin(path, names[..i], [names[i]]);
    assert [names[i]][1..] == [];
  }

  lemma {:induction false} WalkTakes(fs: (nat, Path) -> bool, path: Path, names: seq<string>, i: nat)
    requires i <= |names| && i <= MAXWELEM && forall k :: 0 <= k < i ==> CanTake(fs, path, names, k)
    ensures var w := WalkFrom(fs, Follow(path, names[..i]), names, i);
            Took(fs, path, names, w.count) && w.path == Follow(path, names[..w.count])
    decreases |names| - i
  {
    var at := Follow(path, names[..i]);
    if i < |names| && i != MAXWELEM && CanStep(at, names[i], fs(i, at + [names[i]])) {
      FollowNext(path, names, i);
      WalkTakes(fs, path, names, i + 1);
    }
  }

  lemma WalkFollows(fs: (nat, Path) -> bool, path: Path, names: seq<string>)
    ensures var w := WalkFrom(fs, path, names, 0); Took(fs, path, names, w.count) && w.path == Follow(path, names[..w.count])
  {
    assert names[..0] == [];
    WalkTakes(fs, path, names, 0);
  }

  /** There is just one such number of names. */
  lemma TookOnce(fs: (nat, Path) -> bool, path: Path, names: seq<string>, i: nat, j: nat)
    requires Took(fs, path, names, i) && Took(fs, path, names, j)
    ensures i == j
  {
  }

  /** What the fids come to, said without Walk. */
  lemma WalkMeans(m: Fids, n: i32, newn: i32, names: seq<string>, fs: (nat, Path) -> bool)
    requires n in m
    ensures var i := WalkFrom(fs, m[n], names, 0).count;
            Took(fs, m[n], names, i) && FidsAfter(m, Walk(m, n, newn, names, fs), n, newn, names, i)
  {
    WalkFollows(fs, m[n], names);
    var i := WalkFrom(fs, m[n], names, 0).count;
    assert i == |names| ==> names[..i] == names;
  }

  lemma {:induction false} PlainFollow(path: Path, names: seq<string>)
    requires ".." !in names
    ensures Follow(path, names) == path + names
    decreases |names|
  {
    if names == [] {
      assert path + names == path;
    } else {
      PlainFollow(path + [names[0]], names[1..]);
      assert path + [names[0]] + names[1..] == path + names;
    }
  }

  /** walk(5) of the manual wants a fid left alone by a walk of it to itself that does not take all names.
      That is so just when the names taken lead back to where it was. */
  lemma PartialWalk(m: Fids, n: i32, names: seq<string>, fs: (nat, Path) -> bool)
    requires n in m && WalkFrom(fs, m[n], names, 0).count < |names|
    ensures Walk(m, n, n, names, fs) == m <==> Follow(m[n], names[..WalkFrom(fs, m[n], names, 0).count]) == m[n]
  {
    var w := WalkFrom(fs, m[n], names, 0);
    WalkFollows(fs, m[n], names);
    if w.path == m[n] {
      assert m[n := w.path] == m;
    } else {
      assert Walk(m, n, n, names, fs)[n] == w.path;
    }
  }

  /** Without ".." among the names, just when the first of them cannot be taken. */
  lemma PlainPartialWalk(m: Fids, n: i32, names: seq<string>, fs: (nat, Path) -> bool)
    requires n in m && ".." !in names && WalkFrom(fs, m[n], names, 0).count < |names|
    ensures Walk(m, n, n, names, fs) == m <==> !fs(0, m[n] + [names[0]])
  {
    var w := WalkFrom(fs, m[n], names, 0);
    PartialWalk(m, n, names, fs);
    PlainFollow(m[n], names[..w.count]);
    assert names[0] in names;
    assert w.count == 0 <==> !fs(0, m[n] + [names[0]]);
    if m[n] + names[..w.count] == m[n] {
      assert |names[..w.count]| == 0;
    }
  }

  /** One that goes up and down again, and then fails, has not. */
  lemma FidComesBack()
    ensures var fs := (i: nat, p: Path) => p == ["a"];
            && WalkFrom(fs, ["a"], ["..", "a", "b"], 0).count == 2
            && Walk(map[1 := ["a"]], 1, 1, ["..", "a", "b"], fs) == map[1 := ["a"]]
  {
    var fs := (i: nat, p: Path) => p == ["a"];
    var names, a: Path, top: Path := ["..", "a", "b"], ["a"], [];
    assert Stepped(a, "..") == top && top + ["a"] == a && Stepped(top, "a") == a;
    assert a + ["b"] != a;
    assert WalkFrom(fs, a, names, 2) == Walked(a, 2);
    assert WalkFrom(fs, top, names, 1) == Walked(a, 2);
    assert WalkFrom(fs, a, names, 0) == Walked(a, 2);
  }

  /** One that fails on its second name has moved the fid. */
  lemma FidMoves()
    ensures var fs := (i: nat, p: Path) => p == ["a"];
            Walk(map[1 := []], 1, 1, ["a", "b"], fs) == map[1 := ["a"]]
  {
    var fs := (i: nat, p: Path) => p == ["a"];
    var p: Path := [];
    var names := ["a", "b"];
    assert p + ["a"] == ["a"];
    assert CanStep(p, "a", fs(0, p + ["a"])) && Stepped(p, "a") == ["a"];
    assert !CanStep(["a"], "b", fs(1, ["a"] + ["b"]));
    assert WalkFrom(fs, ["a"], names, 1) == Walked(["a"], 1);
    assert WalkFrom(fs, p, names, 0) == Walked(["a"], 1);
  }

  lemma SameBut<V>(m: map<i32, V>, m': map<i32, V>, k: i32)
    requires k in m' && m'.Keys == m.Keys && forall n <- m' :: n != k ==> m'[n] == m[n]
    ensures m' == m[k := m'[k]]
  {
  }

  lemma Overwrite<V>(m: map<i32, V>, k: i32, a: V, b: V)
    ensures m[k := a][k := b] == m[k := b]
    ensures m[k := a] - {k} == m - {k}
  {
  }

  lemma PutBack<V>(m: map<i32, V>, k: i32, v: V)
    ensures (m - {k})[k := v] == m[k := v]
  {
  }

  lemma DropOne(fs: seq<File>, i: nat)
    requires i < |fs| && Siblings(fs)
    ensures var d := fs[..i] + fs[i + 1..];
            && Siblings(d) && |d| == |fs| - 1 && forall c :: c in d <==> c in fs && c != fs[i]
  {
    var d := fs[..i] + fs[i + 1..];
    assert forall j :: 0 <= j < |d| ==> d[j] == fs[if j < i then j else j + 1];
    assert fs == fs[..i] + [fs[i]] + fs[i + 1..];
    forall j | 0 <= j < |d|
      ensures d[j] != fs[i]
    {
      assert d[j].name != fs[i].name;
    }
  }
}
