/**
 The names that go with a walk: what parsename hands to walk, the path string kept in step with
 the mount-point history, and ".." seen lexically through mounts and unions.
 */
module WalkNames {
  import opened Words
  import opened CleanName
  import opened Walk

  // ---------- parsename ----------

  /** The elements of a name without its "." elements. */
  function WithoutDots(es: seq<string>): seq<string> {
    if es == [] then [] else (if es[0] == "." then [] else [es[0]]) + WithoutDots(es[1..])
  }

  lemma WithoutDotsPlain(es: seq<string>)
    ensures PlainNames(WithoutDots(es)) && forall e <- WithoutDots(es) :: e in es
  {
  }

  /** skipslash: leading slashes and "." elements are passed over. */
  method SkipSlash(s: string) returns (n: nat)
    ensures n <= |s|
    ensures WithoutDots(Split(s)) == WithoutDots(Split(s[n..])) && (Dirlike(s) <==> Dirlike(s[n..]))
    ensures n < |s| ==> s[n] != '/' && !StartsWithDot(s[n..])
  {
    n := 0;
    assert s[0..] == s;
    while n < |s| && (s[n] == '/' || (s[n] == '.' && (n + 1 == |s| || s[n + 1] == '/')))
      invariant n <= |s| && WithoutDots(Split(s)) == WithoutDots(Split(s[n..])) && (Dirlike(s) <==> Dirlike(s[n..]))
    {
      SkipOne(s[n..]);
      assert s[n..][1..] == s[n + 1..];
      n := n + 1;
    }
  }

  /** A name that ends in a slash, or in a "." by itself, or is empty. */
  predicate Dirlike(s: string) {
    s == "" || s[|s| - 1] == '/' || s == "." || (|s| > 1 && s[|s| - 1] == '.' && s[|s| - 2] == '/')
  }

  lemma SkipOne(t: string)
    requires t != "" && (t[0] == '/' || StartsWithDot(t))
    ensures WithoutDots(Split(t)) == WithoutDots(Split(t[1..])) && (Dirlike(t) <==> Dirlike(t[1..]))
  {
    if t[0] != '/' {
      assert ElemLen(t[1..]) == 0;
      assert ElemLen(t) == 1 && t[..1] == ".";
      assert Split(t)[1..] == Split(t[1..]);
    }
  }

  /** parsename: the elements, none of them "."; mustbedir when the name ends in "/" or "/.". */
  method ParseName(aname: string) returns (elems: seq<string>, mustbedir: bool)
    ensures elems == WithoutDots(Split(aname)) && PlainNames(elems) && (mustbedir <==> Dirlike(aname))
  {
    elems, mustbedir := [], true;
    var name := aname;
    WithoutDotsPlain(Split(aname));
    while true
      invariant elems + WithoutDots(Split(name)) == WithoutDots(Split(aname)) && mustbedir && (Dirlike(name) <==> Dirlike(aname))
      decreases |name|
    {
      var n := SkipSlash(name);
      name := name[n..];
      if name == "" {
        return;
      }
      var e, rest := NextElem(name);
      Reassociated(elems, e, WithoutDots(Split(rest)));
      elems := elems + [e];
      if rest == "" {
        mustbedir := false;
        return;
      }
      name := rest[1..];
    }
  }

  lemma Reassociated(es: seq<string>, e: string, fs: seq<string>)
    ensures es + ([e] + fs) == es + [e] + fs
  {
  }

  /** The element at the front of a name, and what follows it. */
  method NextElem(name: string) returns (e: string, rest: string)
    requires name != "" && name[0] != '/' && !StartsWithDot(name)
    ensures |rest| < |name| && WithoutDots(Split(name)) == [e] + WithoutDots(Split(rest))
    ensures rest != "" ==> Split(rest) == Split(rest[1..])
    ensures if rest == "" then !Dirlike(name) else (Dirlike(rest[1..]) <==> Dirlike(name))
  {
    var k := ElemLen(name);
    FirstElem(name);
    e, rest := name[..k], name[k..];
  }

  lemma FirstElem(t: string)
    requires t != "" && t[0] != '/' && !StartsWithDot(t)
    ensures var k := ElemLen(t);
            && k > 0
            && WithoutDots(Split(t)) == [t[..k]] + WithoutDots(Split(t[k..]))
            && (k < |t| ==> Split(t[k..]) == Split(t[k..][1..]))
  {
    var k := ElemLen(t);
    assert k > 0;
    FirstNotDot(t, k);
    assert Split(t) == [t[..k]] + Split(t[k..]);
    WithoutDotsFirst(t[..k], Split(t[k..]));
  }

  lemma FirstNotDot(t: string, k: nat)
    requires t != "" && !StartsWithDot(t) && 0 < k <= |t| && (k < |t| ==> t[k] == '/')
    ensures t[..k] != "."
  {
    assert |t[..k]| == k && t[..k][0] == t[0];
  }

  lemma WithoutDotsFirst(e: string, es: seq<string>)
    requires e != "."
    ensures WithoutDots([e] + es) == [e] + WithoutDots(es)
  {
    assert ([e] + es)[1..] == es;
  }

  // ---------- The path string and the mount-point history ----------

  /** Roots of path names: "/", "#/" and device names such as "#c". */
  ghost predicate RootName(root: string) {
    root == "/" || root == "#/" || (|root| >= 2 && root[0] == '#' && '/' !in root)
  }

  ghost predicate Component(e: string) {
    Element(e) && e != ".."
  }

  /** The root without its slash. */
  function Prefix(root: string): string {
    if root == "/" then "" else if root == "#/" then "#" else root
  }

  function NameOf(root: string, comps: seq<string>): string {
    if comps == [] then root else Prefix(root) + ("/" + Join(comps))
  }

  /** The path string is that of the components, and mlen is one more than their number. */
  ghost predicate PathIs(p: Path, root: string, comps: seq<string>) {
    && RootName(root) && (forall e <- comps :: Component(e))
    && p.s == NameOf(root, comps)
    && |p.mtpt| == |comps| + 1
  }

  function DropLast(comps: seq<string>): seq<string> {
    if comps == [] then [] else comps[..|comps| - 1]
  }

  function Up(comps: seq<string>, name: string): seq<string> {
    if name == ".." then DropLast(comps) else comps + [name]
  }

  /** What names do to the components, ".." being stuck at the root. */
  function Climb(comps: seq<string>, names: seq<string>): seq<string>
    decreases |names|
  {
    if names == [] then comps else Climb(Up(comps, names[0]), names[1..])
  }

  lemma ComponentsNeat(comps: seq<string>)
    requires forall e <- comps :: Component(e)
    ensures Neat(true, comps)
  {
    forall i | 0 <= i < |comps| ensures comps[i] != ".." {
      assert comps[i] in comps;
    }
  }

  lemma ReduceUp(comps: seq<string>)
    requires Neat(true, comps)
    ensures Reduce(true, Reduced([], false), comps + [".."]) == Reduced(DropLast(comps), false)
  {
    ReduceJoin(true, Reduced([], false), comps, [".."]);
    assert comps[..0] == [] && comps[0..] == comps;
    ReduceNeatStack(true, comps, 0, false);
    assert [".."][1..] == [];
  }

  lemma ReduceJoinUp(comps: seq<string>)
    requires forall e <- comps :: Component(e)
    ensures Clean("/" + Join(comps + [".."])) == "/" + Join(DropLast(comps))
  {
    var up := comps + [".."];
    assert forall e <- up :: e in comps || e == "..";
    SplitJoin(up);
    ComponentsNeat(comps);
    ReduceUp(comps);
    assert FinalStack("/" + Join(up)) == Reduced(DropLast(comps), false);
  }

  lemma {:induction false} ReduceJoin(rooted: bool, r: Reduced, es: seq<string>, fs: seq<string>)
    ensures Reduce(rooted, r, es + fs) == Reduce(rooted, Reduce(rooted, r, es), fs)
    decreases |es|
  {
    if es == [] {
      assert es + fs == fs;
    } else {
      assert (es + fs)[1..] == es[1..] + fs;
      ReduceJoin(rooted, Push(rooted, r, es[0]), es[1..], fs);
    }
  }

  lemma JoinLast(comps: seq<string>)
    requires comps != [] && forall e <- comps :: Component(e)
    ensures Join(comps) != "" && Join(comps)[|Join(comps)| - 1] != '/'
  {
    var n := |comps| - 1;
    var e := comps[n];
    assert e in comps;
    assert e[|e| - 1] in e;
  }

  lemma NameAddFirst(root: string, e: string)
    requires RootName(root) && Element(e)
    ensures AddName(root, e) == Prefix(root) + ("/" + e)
  {
    assert e[0] in e;
    if root != "/" && root != "#/" { assert root[|root| - 1] in root; }
  }

  lemma NameAddMore(s: string, j: string, e: string)
    requires |s| >= |j| > 0 && s[|s| - 1] == j[|j| - 1] != '/' && Element(e)
    ensures AddName(s, e) == s + ("/" + e)
  {
    assert e[0] in e;
  }

  lemma NameAdd(root: string, comps: seq<string>, e: string)
    requires RootName(root) && (forall f <- comps :: Component(f)) && Element(e)
    ensures AddName(NameOf(root, comps), e) == Prefix(root) + ("/" + Join(comps + [e]))
  {
    if comps == [] {
      assert comps + [e] == [e];
      NameAddFirst(root, e);
    } else {
      var s, j := NameOf(root, comps), Join(comps);
      JoinLast(comps);
      JoinAppend(comps, e);
      NameAddMore(s, j, e);
      Reassociate(Prefix(root), j, e);
    }
  }

  lemma Reassociate(a: string, b: string, c: string)
    ensures (a + ("/" + b)) + ("/" + c) == a + ("/" + (b + "/" + c))
  {
  }

  /** fixdotdotname cleans from the first slash on and drops a slash left alone behind a device. */
  lemma FixAt(root: string, tail: string)
    requires RootName(root) && tail != "" && tail[0] == '/'
    ensures var s := Prefix(root) + tail;
            FixDotDotName(s) == if root != "/" && root != "#/" && Clean(tail) == "/" then root else Prefix(root) + Clean(tail)
  {
    var r := Prefix(root);
    var s := r + tail;
    ElemLenWhole(r, tail);
    assert s[..|r|] == r && s[|r|..] == tail;
    if root == "/" { assert s == tail; }
    if root != "/" && root != "#/" { assert s[1] == root[1] && root[1] in root; }
  }

  /** Adding ".." and cleaning the string takes the last component off. */
  lemma NameUp(root: string, comps: seq<string>)
    requires RootName(root) && forall f <- comps :: Component(f)
    ensures FixDotDotName(AddName(NameOf(root, comps), "..")) == NameOf(root, DropLast(comps))
  {
    NameAdd(root, comps, "..");
    ReduceJoinUp(comps);
    FixAt(root, "/" + Join(comps + [".."]));
    var rest := DropLast(comps);
    if rest != [] {
      assert forall f <- rest :: f in comps;
      JoinLast(rest);
    }
  }

  lemma ElemLenWhole(r: string, tail: string)
    requires '/' !in r && tail != "" && tail[0] == '/'
    ensures ElemLen(r + tail) == |r|
  {
    ElemLenPrefix(r, tail);
    assert ElemLen(r) == |r|;
  }

  lemma AddElemKeeps(p: Path, root: string, comps: seq<string>, name: string, from: Option<Chan>)
    requires PathIs(p, root, comps) && Element(name)
    ensures PathIs(AddElem(p, name, from), root, Up(comps, name))
  {
    if name == ".." {
      NameUp(root, comps);
      assert forall f <- DropLast(comps) :: f in comps;
    } else {
      NameAdd(root, comps, name);
    }
  }

  lemma Resolve1Keeps(w: World, st: State, name: string, nomount: bool, root: string, comps: seq<string>)
    requires PathIs(st.path, root, comps) && Element(name) && Resolve1(w, st, name, nomount).Some?
    ensures PathIs(Resolve1(w, st, name, nomount).value.path, root, Up(comps, name))
  {
    var p := if name != ".." && Mounted(w, st.c, nomount)
             then SetTop(st.path, Some(w.table[st.c.key].from)) else st.path;
    AddElemKeeps(p, root, comps, name, None);
  }

  /** After any walk the string is that of the components and mlen - 1 is their number. */
  lemma {:induction false} PathInStep(w: World, st: State, names: seq<string>, nomount: bool, root: string, comps: seq<string>)
    requires PathIs(st.path, root, comps) && (forall e <- names :: Element(e)) && Resolve(w, st, names, nomount).Some?
    ensures PathIs(Resolve(w, st, names, nomount).value.path, root, Climb(comps, names))
    decreases |names|
  {
    if names != [] {
      assert names[0] in names && forall e <- names[1..] :: e in names;
      Resolve1Keeps(w, st, names[0], nomount, root, comps);
      PathInStep(w, Resolve1(w, st, names[0], nomount).value, names[1..], nomount, root, Up(comps, names[0]));
    }
  }

  // ---------- ".." is lexical ----------

  /** Equal up to the version of the file. */
  ghost predicate Same(a: State, b: State) {
    a.path == b.path && a.c.key == b.c.key && a.c.isdir == b.c.isdir
  }

  /** A device looks at the file alone, and ".." leads back to where a name was found. */
  ghost predicate LawfulDevices(w: World) {
    && (forall c: Chan, d: Chan, n: string :: c.key == d.key && c.isdir == d.isdir ==> w.step(c, n) == w.step(d, n))
    && (forall c: Chan, n: string :: n != "." && n != ".." && w.step(c, n).Some? && w.step(w.step(c, n).value, "..").Some? ==>
          var up := w.step(w.step(c, n).value, "..").value;
          up.key == c.key && up.isdir == c.isdir)
  }

  /** A place on the near side of any mount point, as walk's starting points are. */
  ghost predicate Near(w: World, st: State) {
    && (st.c.key in w.table ==> st.c.isdir == w.table[st.c.key].from.isdir)
    && st.path.mtpt != [] && st.path.mtpt[|st.path.mtpt| - 1] == None
  }

  lemma SameResolve(w: World, a: State, b: State, names: seq<string>, nomount: bool)
    requires LawfulDevices(w) && Same(a, b)
    ensures Resolve(w, a, names, nomount).Some? <==> Resolve(w, b, names, nomount).Some?
    ensures Resolve(w, a, names, nomount).Some? ==>
              Same(Resolve(w, a, names, nomount).value, Resolve(w, b, names, nomount).value)
  {
    if names != [] {
      assert w.step(a.c, names[0]) == w.step(b.c, names[0]) && w.step(a.c, "..") == w.step(b.c, "..");
      FirstOfOne(w, a.c, names[0]);
      FirstOfOne(w, b.c, names[0]);
      assert Resolve1(w, a, names[0], nomount) == Resolve1(w, b, names[0], nomount);
    }
  }

  lemma FirstOfOne(w: World, c: Chan, name: string)
    ensures FirstOf(w, [c], name) == w.step(c, name)
  {
    assert [c][1..] == [];
  }

  lemma {:induction false} ResolveAppend(w: World, st: State, a: seq<string>, b: seq<string>, nomount: bool)
    ensures Resolve(w, st, a + b, nomount)
         == match Resolve(w, st, a, nomount) case None => None case Some(mid) => Resolve(w, mid, b, nomount)
    decreases |a|
  {
    if a == [] {
      assert a + b == b;
    } else {
      assert (a + b)[1..] == a[1..] + b && (a + b)[0] == a[0];
      match Resolve1(w, st, a[0], nomount)
      case None =>
      case Some(st') => ResolveAppend(w, st', a[1..], b, nomount);
    }
  }

  /** A name leads to the near side of whatever is mounted there. */
  lemma NameStaysNear(w: World, st: State, name: string, nomount: bool)
    requires Coherent(w) && name != "." && name != ".." && Resolve1(w, st, name, nomount).Some?
    ensures Near(w, Resolve1(w, st, name, nomount).value)
  {
    var cs := if Mounted(w, st.c, nomount) then w.table[st.c.key].mount else [st.c];
    FirstOfFound(w, cs, name);
    var c :| c in cs && FirstOf(w, cs, name) == w.step(c, name);
    assert Steps(w, c, name);
  }

  lemma FirstOfFound(w: World, cs: seq<Chan>, name: string)
    ensures FirstOf(w, cs, name).Some? ==> exists c <- cs :: FirstOf(w, cs, name) == w.step(c, name)
  {
    if cs != [] && w.step(cs[0], name).None? {
      FirstOfFound(w, cs[1..], name);
    }
  }

  /** A name and then ".." end where they started, whether or not the directory is a mount point
      or a union, and whichever member of it had the name. */
  lemma ThereAndBack(w: World, st: State, name: string, nomount: bool, root: string, comps: seq<string>)
    requires Coherent(w) && LawfulDevices(w) && Near(w, st) && PathIs(st.path, root, comps) && Component(name)
    requires Resolve1(w, st, name, nomount).Some?
    requires Resolve1(w, Resolve1(w, st, name, nomount).value, "..", nomount).Some?
    ensures Same(Resolve1(w, Resolve1(w, st, name, nomount).value, "..", nomount).value, st)
  {
    var mounted := Mounted(w, st.c, nomount);
    var p := if mounted then SetTop(st.path, Some(w.table[st.c.key].from)) else st.path;
    var there := Resolve1(w, st, name, nomount).value;
    assert there.path == AddElem(p, name, None);
    DownAndUp(p, name, root, comps);
    assert AddElem(there.path, "..", None) == p;
    if mounted {
      assert Mountable(w, st.c.key) && SetTop(p, None) == st.path;
    } else {
      FirstOfOne(w, st.c, name);
    }
  }

  /** A name added to a path and taken off again. */
  lemma DownAndUp(p: Path, name: string, root: string, comps: seq<string>)
    requires PathIs(p, root, comps) && Component(name)
    ensures AddElem(AddElem(p, name, None), "..", None) == p
  {
    var there := AddElem(p, name, None);
    AddElemKeeps(p, root, comps, name, None);
    NameUp(root, comps + [name]);
    assert DropLast(comps + [name]) == comps;
    var back := AddElem(there, "..", None);
    assert back.s == p.s && back.mtpt == p.mtpt;
  }

  /** Each ".." cancels the name before it. */
  function Cancel(kept: seq<string>, names: seq<string>): seq<string>
    decreases |names|
  {
    if names == [] then kept
    else Cancel(if names[0] == ".." && kept != [] then kept[..|kept| - 1] else kept + [names[0]], names[1..])
  }

  ghost predicate NeverClimbsAbove(depth: nat, names: seq<string>)
    decreases |names|
  {
    names == [] ||
    (if names[0] == ".." then depth > 0 && NeverClimbsAbove(depth - 1, names[1..])
     else NeverClimbsAbove(depth + 1, names[1..]))
  }

  /** Names without "..": the path string gains them, and the end is on the near side. */
  lemma {:induction false} DownStaysNear(w: World, st: State, names: seq<string>, nomount: bool, root: string, comps: seq<string>)
    requires Coherent(w) && Near(w, st) && PathIs(st.path, root, comps) && (forall e <- names :: Component(e))
    requires Resolve(w, st, names, nomount).Some?
    ensures Near(w, Resolve(w, st, names, nomount).value)
    ensures PathIs(Resolve(w, st, names, nomount).value.path, root, Climb(comps, names))
    decreases |names|
  {
    if names != [] {
      assert names[0] in names && forall e <- names[1..] :: e in names;
      NameStaysNear(w, st, names[0], nomount);
      Resolve1Keeps(w, st, names[0], nomount, root, comps);
      DownStaysNear(w, Resolve1(w, st, names[0], nomount).value, names[1..], nomount, root, Up(comps, names[0]));
    }
  }

  /** A name list that never climbs above its start ends where the list ends from which each name
      followed by ".." has been taken out: same file, same path, same mount-point history. */
  lemma {:induction false} DotDotIsLexical(w: World, st: State, kept: seq<string>, names: seq<string>, nomount: bool,
                                           root: string, comps: seq<string>)
    requires Coherent(w) && LawfulDevices(w) && Near(w, st) && PathIs(st.path, root, comps)
    requires (forall e <- kept :: Component(e)) && (forall e <- names :: Element(e))
    requires NeverClimbsAbove(|kept|, names)
    requires Resolve(w, st, kept + names, nomount).Some?
    ensures Resolve(w, st, Cancel(kept, names), nomount).Some?
    ensures Same(Resolve(w, st, kept + names, nomount).value, Resolve(w, st, Cancel(kept, names), nomount).value)
    decreases |names|
  {
    if names == [] {
      assert kept + names == kept;
    } else {
      assert names[0] in names && forall e <- names[1..] :: e in names;
      var rest := names[1..];
      if names[0] != ".." {
        assert kept + names == kept + [names[0]] + rest;
        DotDotIsLexical(w, st, kept + [names[0]], rest, nomount, root, comps);
      } else {
        var less := kept[..|kept| - 1];
        assert names == [".."] + rest;
        CancelLast(w, st, kept, rest, nomount, root, comps);
        assert forall f <- less :: f in kept;
        DotDotIsLexical(w, st, less, rest, nomount, root, comps);
      }
    }
  }

  lemma CancelLast(w: World, st: State, kept: seq<string>, rest: seq<string>, nomount: bool, root: string, comps: seq<string>)
    requires Coherent(w) && LawfulDevices(w) && Near(w, st) && PathIs(st.path, root, comps)
    requires kept != [] && forall e <- kept :: Component(e)
    requires Resolve(w, st, kept + ([".."] + rest), nomount).Some?
    ensures Resolve(w, st, kept[..|kept| - 1] + rest, nomount).Some?
    ensures Same(Resolve(w, st, kept + ([".."] + rest), nomount).value,
                 Resolve(w, st, kept[..|kept| - 1] + rest, nomount).value)
  {
    var n := |kept| - 1;
    var less, e := kept[..n], kept[n];
    assert e in kept && forall f <- less :: f in kept;
    assert kept + ([".."] + rest) == less + ([e, ".."] + rest);
    CancelOne(w, st, less, e, rest, nomount, root, comps);
  }

  /** Taking out one name and the ".." behind it. */
  lemma CancelOne(w: World, st: State, a: seq<string>, e: string, b: seq<string>, nomount: bool, root: string, comps: seq<string>)
    requires Coherent(w) && LawfulDevices(w) && Near(w, st) && PathIs(st.path, root, comps)
    requires (forall f <- a :: Component(f)) && Component(e)
    requires Resolve(w, st, a + ([e, ".."] + b), nomount).Some?
    ensures Resolve(w, st, a + b, nomount).Some?
    ensures Same(Resolve(w, st, a + ([e, ".."] + b), nomount).value, Resolve(w, st, a + b, nomount).value)
  {
    ResolveAppend(w, st, a, [e, ".."] + b, nomount);
    ResolveAppend(w, st, a, b, nomount);
    var mid := Resolve(w, st, a, nomount).value;
    DownStaysNear(w, st, a, nomount, root, comps);
    var l := [e, ".."] + b;
    assert l[1..][0] == ".." && l[1..][1..] == b;
    ThereAndBack(w, mid, e, nomount, root, Climb(comps, a));
    SameResolve(w, Resolve1(w, Resolve1(w, mid, e, nomount).value, "..", nomount).value, mid, b, nomount);
  }

  /** Why "." must not reach walk: with it the mount point found there is not recorded in the path,
      unless it was recorded already. */
  lemma DotLosesMountPoint(p: Path, names: seq<string>, from: Option<Chan>)
    requires names != [] && names[|names| - 1] == "." && AddAll(p, names).mtpt != []
    ensures AddElem(AddAll(p, names[..|names| - 1]), ".", from) == SetTop(AddAll(p, names), from)
        <==> AddAll(p, names).mtpt[|AddAll(p, names).mtpt| - 1] == from
  {
    var q := AddAll(p, names);
    assert AddElem(AddAll(p, names[..|names| - 1]), ".", from) == q;
    assert SetTop(q, from).mtpt[|q.mtpt| - 1] == from;
  }
}
