/**
 Name resolution in kern/chan.c: walk sends up to MAXWELEM names to a device at once and then
 looks for the first mount point among the files passed.  The reference resolves one name at a
 time.
 */
module Walk {
  import opened Words
  import opened CleanName

  const MAXWELEM := 16

  /** What eqchan compares when versions are skipped. */
  datatype Key = Key(typ: nat, dev: nat, path: nat)

  datatype Chan = Chan(key: Key, vers: nat, isdir: bool)

  /** The name of a channel and the mount points crossed under each of its elements. */
  datatype Path = Path(s: string, mtpt: seq<Option<Chan>>)

  datatype Mhead = Mhead(from: Chan, mount: seq<Chan>)

  /** The devices, one name at a time, and the mount table. */
  datatype World = World(step: (Chan, string) -> Option<Chan>, table: map<Key, Mhead>)

  // ---------- Paths ----------

  function FixDotDotName(s: string): string {
    if s != "" && s[0] == '#' then
      var r := ElemLen(s);
      if r == |s| then s
      else
        var t := Clean(s[r..]);
        if t == "/" && 1 < |s| && s[1] != '/' then s[..r] else s[..r] + t
    else Clean(s)
  }

  function AddName(s: string, name: string): string {
    if s != "" && s[|s| - 1] != '/' && name != "" && name[0] != '/' then s + ("/" + name) else s + name
  }

  function AddElem(p: Path, name: string, from: Option<Chan>): Path {
    if name == "." then p
    else if name == ".." then
      Path(FixDotDotName(AddName(p.s, name)), if |p.mtpt| > 1 then p.mtpt[..|p.mtpt| - 1] else p.mtpt)
    else Path(AddName(p.s, name), p.mtpt + [from])
  }

  /** The part of domount that records the mount point in the path. */
  function SetTop(p: Path, from: Option<Chan>): Path {
    if p.mtpt == [] then p else p.(mtpt := p.mtpt[|p.mtpt| - 1 := from])
  }

  // ---------- One name at a time ----------

  datatype State = At(c: Chan, path: Path)

  function Undomount(c: Chan, p: Path): State {
    if p.mtpt != [] && p.mtpt[|p.mtpt| - 1].Some?
    then At(p.mtpt[|p.mtpt| - 1].value, SetTop(p, None)) else At(c, p)
  }

  /** The first member of a union that has the name. */
  function FirstOf(w: World, cs: seq<Chan>, name: string): Option<Chan> {
    if cs == [] then None
    else if w.step(cs[0], name).Some? then w.step(cs[0], name)
    else FirstOf(w, cs[1..], name)
  }

  function Enter(w: World, cs: seq<Chan>, p: Path, name: string): Option<State> {
    match FirstOf(w, cs, name)
    case None => None
    case Some(d) => Some(At(d, AddElem(p, name, None)))
  }

  predicate Mounted(w: World, c: Chan, nomount: bool) {
    !nomount && c.key in w.table
  }

  function Resolve1(w: World, st: State, name: string, nomount: bool): Option<State> {
    if !st.c.isdir then None
    else if name == ".." then
      match w.step(st.c, "..")
      case None => None
      case Some(d) => Some(Undomount(d, AddElem(st.path, "..", None)))
    else if Mounted(w, st.c, nomount) then
      Enter(w, w.table[st.c.key].mount, SetTop(st.path, Some(w.table[st.c.key].from)), name)
    else Enter(w, [st.c], st.path, name)
  }

  function Resolve(w: World, st: State, names: seq<string>, nomount: bool): Option<State>
    decreases |names|
  {
    if names == [] then Some(st)
    else
      match Resolve1(w, st, names[0], nomount)
      case None => None
      case Some(st') => Resolve(w, st', names[1..], nomount)
  }

  // ---------- What that means ----------

  /** The i'th member is the first that has the name. */
  ghost predicate FirstAt(w: World, cs: seq<Chan>, name: string, i: nat) {
    i < |cs| && w.step(cs[i], name).Some? && forall j :: 0 <= j < i ==> w.step(cs[j], name).None?
  }

  ghost predicate HasIt(w: World, cs: seq<Chan>, name: string) {
    exists c <- cs :: w.step(c, name).Some?
  }

  lemma {:induction false} FirstOfIs(w: World, cs: seq<Chan>, name: string) returns (i: nat)
    ensures FirstOf(w, cs, name).Some? <==> HasIt(w, cs, name)
    ensures HasIt(w, cs, name) ==> FirstAt(w, cs, name, i) && FirstOf(w, cs, name) == w.step(cs[i], name)
    decreases |cs|
  {
    i := 0;
    if cs != [] {
      assert cs[0] in cs && forall c <- cs :: c == cs[0] || c in cs[1..];
      if w.step(cs[0], name).None? {
        assert HasIt(w, cs, name) <==> HasIt(w, cs[1..], name);
        var k := FirstOfIs(w, cs[1..], name);
        i := k + 1;
        forall j | 0 <= j < i && HasIt(w, cs, name) ensures w.step(cs[j], name).None? {
          assert j > 0 ==> cs[1..][j - 1] == cs[j];
        }
      }
    }
  }

  lemma {:induction false} FirstOfOnce(w: World, cs: seq<Chan>, name: string, d: Chan)
    ensures FirstOf(w, cs, name) == Some(d) <==> exists i: nat :: FirstAt(w, cs, name, i) && w.step(cs[i], name) == Some(d)
  {
    var i := FirstOfIs(w, cs, name);
    if k: nat :| FirstAt(w, cs, name, k) && w.step(cs[k], name) == Some(d) {
      assert cs[k] in cs;
      assert k == i;
    }
  }

  /** One name, from a directory: ".." goes to the device's parent and to what was mounted on there; on a mount point
      the first member of the union that has the name gives the file; elsewhere the device does. */
  ghost predicate Moves(w: World, s: State, name: string, nomount: bool, t: State) {
    s.c.isdir &&
    if name == ".." then w.step(s.c, "..").Some? && t == Undomount(w.step(s.c, "..").value, AddElem(s.path, "..", None))
    else if !nomount && s.c.key in w.table then
      var m := w.table[s.c.key];
      t.path == AddElem(SetTop(s.path, Some(m.from)), name, None)
      && exists i: nat :: FirstAt(w, m.mount, name, i) && w.step(m.mount[i], name) == Some(t.c)
    else t.path == AddElem(s.path, name, None) && w.step(s.c, name) == Some(t.c)
  }

  lemma {:induction false} MovesIs(w: World, s: State, name: string, nomount: bool, t: State)
    ensures Resolve1(w, s, name, nomount) == Some(t) <==> Moves(w, s, name, nomount, t)
  {
    if s.c.isdir && name != ".." {
      if !nomount && s.c.key in w.table {
        FirstOfOnce(w, w.table[s.c.key].mount, name, t.c);
      } else {
        assert [s.c][1..] == [];
        assert FirstOf(w, [s.c], name) == w.step(s.c, name);
      }
    }
  }

  /** The files and paths passed on the way. */
  ghost predicate Trail(w: World, ss: seq<State>, names: seq<string>, nomount: bool) {
    |ss| == |names| + 1 && forall i :: 0 <= i < |names| ==> Moves(w, ss[i], names[i], nomount, ss[i + 1])
  }

  ghost predicate LeadsTo(w: World, st: State, names: seq<string>, nomount: bool, t: State) {
    exists ss :: Trail(w, ss, names, nomount) && ss[0] == st && ss[|names|] == t
  }

  lemma {:induction false} ResolveTrail(w: World, st: State, names: seq<string>, nomount: bool) returns (ss: seq<State>)
    requires Resolve(w, st, names, nomount).Some?
    ensures Trail(w, ss, names, nomount) && ss[0] == st && Some(ss[|names|]) == Resolve(w, st, names, nomount)
    decreases |names|
  {
    ss := [st];
    if names != [] {
      var st' := Resolve1(w, st, names[0], nomount).value;
      MovesIs(w, st, names[0], nomount, st');
      var rest := ResolveTrail(w, st', names[1..], nomount);
      ss := [st] + rest;
      forall i | 0 <= i < |names| ensures Moves(w, ss[i], names[i], nomount, ss[i + 1]) {
        if i > 0 { assert Moves(w, rest[i - 1], names[1..][i - 1], nomount, rest[i]); }
      }
    }
  }

  lemma {:induction false} TrailResolves(w: World, ss: seq<State>, names: seq<string>, nomount: bool)
    requires Trail(w, ss, names, nomount)
    ensures Resolve(w, ss[0], names, nomount) == Some(ss[|names|])
    decreases |names|
  {
    if names != [] {
      assert Moves(w, ss[0], names[0], nomount, ss[1]);
      MovesIs(w, ss[0], names[0], nomount, ss[1]);
      forall i | 0 <= i < |names[1..]| ensures Moves(w, ss[1..][i], names[1..][i], nomount, ss[1..][i + 1]) {
        assert Moves(w, ss[i + 1], names[i + 1], nomount, ss[i + 2]);
      }
      TrailResolves(w, ss[1..], names[1..], nomount);
    }
  }

  /** Resolving comes to t if and only if there is a way to t, one name after the other. */
  lemma {:induction false} ResolveIs(w: World, st: State, names: seq<string>, nomount: bool, t: State)
    ensures Resolve(w, st, names, nomount) == Some(t) <==> LeadsTo(w, st, names, nomount, t)
  {
    if Resolve(w, st, names, nomount) == Some(t) {
      var ss := ResolveTrail(w, st, names, nomount);
    }
    if LeadsTo(w, st, names, nomount, t) {
      var ss :| Trail(w, ss, names, nomount) && ss[0] == st && ss[|names|] == t;
      TrailResolves(w, ss, names, nomount);
    }
  }

  /** There is a way along the names, and it leads to r; or there is none. */
  ghost predicate ComesTo(w: World, st: State, names: seq<string>, nomount: bool, r: Option<State>) {
    forall t :: LeadsTo(w, st, names, nomount, t) <==> r == Some(t)
  }

  lemma {:induction false} ResolveComesTo(w: World, st: State, names: seq<string>, nomount: bool)
    ensures ComesTo(w, st, names, nomount, Resolve(w, st, names, nomount))
  {
    forall t ensures LeadsTo(w, st, names, nomount, t) <==> Resolve(w, st, names, nomount) == Some(t) {
      ResolveIs(w, st, names, nomount, t);
    }
  }

  /** The last name looked up in a union: it is found if and only if some member has it, and then the file is that of the
      first such member. */
  lemma {:induction false} FoundInUnion(w: World, st: State, names: seq<string>, name: string, nomount: bool, at: State)
    requires name != ".." && LeadsTo(w, st, names, nomount, at) && at.c.isdir && !nomount && at.c.key in w.table
    ensures Resolve(w, st, names + [name], nomount).Some? <==> HasIt(w, w.table[at.c.key].mount, name)
    ensures Resolve(w, st, names + [name], nomount).Some? ==>
              exists i: nat :: FirstAt(w, w.table[at.c.key].mount, name, i)
                               && w.step(w.table[at.c.key].mount[i], name) == Some(Resolve(w, st, names + [name], nomount).value.c)
  {
    ResolveIs(w, st, names, nomount, at);
    ResolveLast(w, st, names, name, nomount);
    var i := FirstOfIs(w, w.table[at.c.key].mount, name);
  }

  lemma {:induction false} ResolveLast(w: World, st: State, names: seq<string>, name: string, nomount: bool)
    requires Resolve(w, st, names, nomount).Some?
    ensures Resolve(w, st, names + [name], nomount) == Resolve1(w, Resolve(w, st, names, nomount).value, name, nomount)
    decreases |names|
  {
    var all := names + [name];
    if names == [] {
      assert all[1..] == [];
    } else {
      assert all[0] == names[0] && all[1..] == names[1..] + [name];
      ResolveLast(w, Resolve1(w, st, names[0], nomount).value, names[1..], name, nomount);
    }
  }

  /** What devices and the mount table promise. */
  ghost predicate Coherent(w: World) {
    (forall key :: Mountable(w, key)) && (forall c: Chan, n: string :: Steps(w, c, n))
  }

  ghost predicate Mountable(w: World, key: Key) {
    key in w.table ==>
      var m := w.table[key];
      m.mount != [] && m.from.key == key && forall c <- m.mount :: c.isdir == m.from.isdir
  }

  ghost predicate Steps(w: World, c: Chan, n: string) {
    w.step(c, n).Some? ==>
      var d := w.step(c, n).value;
      c.isdir && d.key.typ == c.key.typ && d.key.dev == c.key.dev
      && (d.key in w.table ==> d.isdir == w.table[d.key].from.isdir)
  }

  // ---------- The batched walk ----------

  /** A walk request of several names: the files passed, the longest prefix that exists. */
  function DevWalk(w: World, c: Chan, names: seq<string>): (qs: seq<Chan>)
    ensures |qs| <= |names|
    ensures names != [] ==> (qs == [] <==> w.step(c, names[0]).None?)
    decreases |names|
  {
    if names == [] || w.step(c, names[0]).None? then []
    else [w.step(c, names[0]).value] + DevWalk(w, w.step(c, names[0]).value, names[1..])
  }

  /** How many names go into one request, and whether it is a lone "..". */
  method Window(names: seq<string>, nhave: nat) returns (ntry: nat, dotdot: bool)
    requires nhave < |names|
    ensures 0 < ntry <= MAXWELEM && nhave + ntry <= |names|
    ensures dotdot <==> names[nhave] == ".."
    ensures dotdot ==> ntry == 1
    ensures !dotdot ==> forall i :: nhave <= i < nhave + ntry ==> names[i] != ".."
    ensures !dotdot ==> ntry == MAXWELEM || nhave + ntry == |names| || names[nhave + ntry] == ".."
  {
    ntry := |names| - nhave;
    if ntry > MAXWELEM {
      ntry := MAXWELEM;
    }
    dotdot := false;
    var i := 0;
    while i < ntry
      invariant i <= ntry && forall j :: nhave <= j < nhave + i ==> names[j] != ".."
    {
      if names[nhave + i] == ".." {
        if i == 0 {
          dotdot := true;
          ntry := 1;
        } else {
          ntry := i;
        }
        break;
      }
      i := i + 1;
    }
  }

  // ---------- What a request does, name by name ----------

  function AddAll(p: Path, names: seq<string>): Path {
    if names == [] then p
    else AddElem(AddAll(p, names[..|names| - 1]), names[|names| - 1], None)
  }

  /** Resolving names whose first is looked up in cs, the directory having been crossed into. */
  function ResolveIn(w: World, cs: seq<Chan>, p: Path, names: seq<string>, nomount: bool): Option<State>
    requires names != []
  {
    match Enter(w, cs, p, names[0])
    case None => None
    case Some(st) => Resolve(w, st, names[1..], nomount)
  }

  ghost predicate PlainNames(names: seq<string>) {
    forall i :: 0 <= i < |names| ==> names[i] != "."
  }

  /** After k files of a request, none of them but possibly the last a mount point, resolving
      name by name stands at the k-th file. */
  lemma {:induction false} Along(w: World, cs: seq<Chan>, f: Chan, p: Path, names: seq<string>, k: nat, nomount: bool)
    requires Coherent(w) && names != [] && FirstOf(w, cs, names[0]) == w.step(f, names[0])
    requires 0 < k <= |DevWalk(w, f, names)|
    requires forall i :: 0 <= i < k ==> names[i] != ".."
    requires forall i :: 0 <= i < k - 1 ==> !Mounted(w, DevWalk(w, f, names)[i], nomount)
    ensures ResolveIn(w, cs, p, names, nomount)
         == Resolve(w, At(DevWalk(w, f, names)[k - 1], AddAll(p, names[..k])), names[k..], nomount)
    decreases k
  {
    var qs := DevWalk(w, f, names);
    if k == 1 {
      assert names[..1] == [names[0]];
      assert AddAll(p, [names[0]]) == AddElem(AddAll(p, []), names[0], None) by {
        assert [names[0]][..0] == [];
      }
    } else {
      Along(w, cs, f, p, names, k - 1, nomount);
      DevWalkStep(w, f, names, k - 1);
      var st := At(qs[k - 2], AddAll(p, names[..k - 1]));
      assert names[k - 1..] != [] && names[k - 1..][0] == names[k - 1] && names[k - 1..][1..] == names[k..];
      assert names[..k][..k - 1] == names[..k - 1];
      OneFile(w, st, names[k - 1], nomount);
    }
  }

  /** Away from mount points a name is looked up in the file alone. */
  lemma OneFile(w: World, st: State, name: string, nomount: bool)
    requires Coherent(w) && !Mounted(w, st.c, nomount) && name != ".."
    ensures Resolve1(w, st, name, nomount)
         == if w.step(st.c, name).Some? then Some(At(w.step(st.c, name).value, AddElem(st.path, name, None))) else None
  {
    assert Steps(w, st.c, name);
    assert FirstOf(w, [st.c], name) == w.step(st.c, name) by {
      assert [st.c][1..] == [];
    }
  }

  lemma {:induction false} DevWalkStep(w: World, c: Chan, names: seq<string>, k: nat)
    requires 0 < k <= |DevWalk(w, c, names)| && k < |names|
    ensures k < |DevWalk(w, c, names)| <==> w.step(DevWalk(w, c, names)[k - 1], names[k]).Some?
    ensures k < |DevWalk(w, c, names)| ==> w.step(DevWalk(w, c, names)[k - 1], names[k]).value == DevWalk(w, c, names)[k]
    decreases k
  {
    var d := w.step(c, names[0]).value;
    if k > 1 {
      DevWalkStep(w, d, names[1..], k - 1);
    } else {
      assert DevWalk(w, d, names[1..]) == DevWalk(w, c, names)[1..];
    }
  }

  lemma {:induction false} DevWalkSameDevice(w: World, c: Chan, names: seq<string>)
    requires Coherent(w)
    ensures forall q <- DevWalk(w, c, names) ::
              q.key.typ == c.key.typ && q.key.dev == c.key.dev
              && (q.key in w.table ==> q.isdir == w.table[q.key].from.isdir)
    decreases |names|
  {
    if names != [] && w.step(c, names[0]).Some? {
      assert Steps(w, c, names[0]);
      DevWalkSameDevice(w, w.step(c, names[0]).value, names[1..]);
    }
  }

  /** A request cut short with no mount point among its files: the walk fails. */
  lemma FallsShort(w: World, cs: seq<Chan>, f: Chan, p: Path, names: seq<string>, n: nat, nomount: bool)
    requires Coherent(w) && 0 < n <= |names| && FirstOf(w, cs, names[0]) == w.step(f, names[0])
    requires forall i :: 0 <= i < n ==> names[i] != ".."
    requires 0 < |DevWalk(w, f, names[..n])| < n
    requires forall q <- DevWalk(w, f, names[..n]) :: !Mounted(w, q, nomount)
    ensures ResolveIn(w, cs, p, names, nomount) == None
  {
    var qs := DevWalk(w, f, names[..n]);
    var k := |qs|;
    DevWalkPrefix(w, f, names, n);
    DevWalkStep(w, f, names[..n], k);
    Along(w, cs, f, p, names, k, nomount);
    OneFile(w, At(qs[k - 1], AddAll(p, names[..k])), names[k], nomount);
    assert names[k..][0] == names[k];
  }

  lemma {:induction false} DevWalkPrefix(w: World, c: Chan, names: seq<string>, n: nat)
    requires n <= |names|
    ensures DevWalk(w, c, names[..n]) <= DevWalk(w, c, names)
    ensures |DevWalk(w, c, names[..n])| < n ==> DevWalk(w, c, names[..n]) == DevWalk(w, c, names)
    decreases n
  {
    if n > 0 && w.step(c, names[0]).Some? {
      assert names[..n][1..] == names[1..][..n - 1];
      DevWalkPrefix(w, w.step(c, names[0]).value, names[1..], n - 1);
    }
  }

  /** Standing at a file that is a mount point: the next name is looked up in what is mounted. */
  lemma CrossIn(w: World, st: State, names: seq<string>, nomount: bool)
    requires names != [] && names[0] != ".." && st.c.isdir
    ensures Resolve(w, st, names, nomount)
         == if Mounted(w, st.c, nomount)
            then ResolveIn(w, w.table[st.c.key].mount, SetTop(st.path, Some(w.table[st.c.key].from)), names, nomount)
            else ResolveIn(w, [st.c], st.path, names, nomount)
  {
  }

  /** Recording the mount point while adding the element, or when crossing later, is the same. */
  lemma TopOfAdded(p: Path, names: seq<string>, from: Option<Chan>)
    requires names != [] && names[|names| - 1] != "." && names[|names| - 1] != ".."
    ensures AddElem(AddAll(p, names[..|names| - 1]), names[|names| - 1], from) == SetTop(AddAll(p, names), from)
  {
  }

  // ---------- Pieces of the program ----------

  /** findmount on the files passed, except the last of the request. */
  method FirstMount(w: World, f: Chan, qs: seq<Chan>, ntry: nat, nomount: bool) returns (i: nat, found: bool)
    requires 0 < ntry && forall q <- qs :: q.key.typ == f.key.typ && q.key.dev == f.key.dev
    ensures found ==> !nomount && i < |qs| && i < ntry - 1 && qs[i].key in w.table
    ensures forall j :: 0 <= j < i && j < |qs| ==> !Mounted(w, qs[j], nomount)
    ensures !found ==> forall j :: 0 <= j < |qs| && j < ntry - 1 ==> !Mounted(w, qs[j], nomount)
  {
    i, found := 0, false;
    if !nomount {
      while i < |qs| && i < ntry - 1
        invariant forall j :: 0 <= j < i && j < |qs| ==> !Mounted(w, qs[j], nomount)
      {
        assert qs[i] in qs;
        if Key(f.key.typ, f.key.dev, qs[i].key.path) in w.table {
          found := true;
          return;
        }
        i := i + 1;
      }
    }
  }

  /** No mount point before the last file of a request that succeeded. */
  lemma WholeRequest(w: World, cs: seq<Chan>, f: Chan, p: Path, names: seq<string>, n: nat, nomount: bool)
    requires Coherent(w) && 0 < n <= |names| && FirstOf(w, cs, names[0]) == w.step(f, names[0])
    requires forall i :: 0 <= i < n ==> names[i] != ".."
    requires var qs := DevWalk(w, f, names[..n]);
             |qs| == n && forall i :: 0 <= i < n - 1 ==> !Mounted(w, qs[i], nomount)
    ensures ResolveIn(w, cs, p, names, nomount)
         == Resolve(w, At(DevWalk(w, f, names[..n])[n - 1], AddAll(p, names[..n])), names[n..], nomount)
  {
    DevWalkPrefix(w, f, names, n);
    Along(w, cs, f, p, names, n, nomount);
  }

  /** The n-th file of a request is the first mount point, and not its last file. */
  lemma ToMountPoint(w: World, cs: seq<Chan>, f: Chan, p: Path, names: seq<string>, ntry: nat, n: nat, nomount: bool)
    requires Coherent(w) && 0 < n < ntry <= |names| && FirstOf(w, cs, names[0]) == w.step(f, names[0])
    requires forall i :: 0 <= i < ntry ==> names[i] != ".."
    requires var qs := DevWalk(w, f, names[..ntry]);
             n <= |qs| && Mounted(w, qs[n - 1], nomount) && forall i :: 0 <= i < n - 1 ==> !Mounted(w, qs[i], nomount)
    ensures var m := w.table[DevWalk(w, f, names[..ntry])[n - 1].key];
            && m.mount != []
            && ResolveIn(w, cs, p, names, nomount)
               == if m.mount[0].isdir
                  then ResolveIn(w, m.mount, SetTop(AddAll(p, names[..n]), Some(m.from)), names[n..], nomount) else None
  {
    var qs := DevWalk(w, f, names[..ntry]);
    DevWalkPrefix(w, f, names, ntry);
    DevWalkSameDevice(w, f, names[..ntry]);
    assert qs[n - 1] in qs && Mountable(w, qs[n - 1].key);
    Along(w, cs, f, p, names, n, nomount);
    StopAtMount(w, At(qs[n - 1], AddAll(p, names[..n])), names[n..], nomount);
  }

  lemma StopAtMount(w: World, st: State, names: seq<string>, nomount: bool)
    requires Coherent(w) && names != [] && names[0] != ".." && Mounted(w, st.c, nomount)
    requires w.table[st.c.key].mount != [] && st.c.isdir == w.table[st.c.key].from.isdir
    ensures var m := w.table[st.c.key];
            Resolve(w, st, names, nomount)
            == if m.mount[0].isdir then ResolveIn(w, m.mount, SetTop(st.path, Some(m.from)), names, nomount) else None
  {
    var m := w.table[st.c.key];
    assert Mountable(w, st.c.key) && m.mount[0] in m.mount;
    if st.c.isdir { CrossIn(w, st, names, nomount); }
  }

  /** What a name list still to do resolves to, from either side of a mount point. */
  function Remaining(w: World, c: Chan, p: Path, mh: Option<Mhead>, names: seq<string>, nomount: bool): Option<State>
    requires mh.Some? ==> names != []
  {
    if mh.None? then Resolve(w, At(c, p), names, nomount)
    else if !c.isdir then None
    else ResolveIn(w, mh.value.mount, p, names, nomount)
  }

  /** What holds at the top of the loop: names[nhave..] remain, from c. */
  ghost predicate Standing(w: World, cp: State, names: seq<string>, nomount: bool, nhave: nat, c: Chan, p: Path, mh: Option<Mhead>) {
    && nhave <= |names|
    && (mh.Some? ==> !nomount && nhave < |names| && names[nhave] != ".."
                     && mh.value.mount != [] && c == mh.value.mount[0])
    && Resolve(w, cp, names, nomount) == Remaining(w, c, p, mh, names[nhave..], nomount)
  }

  lemma StandsOn(w: World, cp: State, names: seq<string>, nomount: bool, nhave: nat, c: Chan, p: Path, mh: Option<Mhead>,
                 n: nat, c': Chan, p': Path, mh': Option<Mhead>)
    requires Standing(w, cp, names, nomount, nhave, c, p, mh) && n <= |names| - nhave
    requires mh'.Some? ==> !nomount && n < |names| - nhave && names[nhave + n] != ".."
                           && mh'.value.mount != [] && c' == mh'.value.mount[0]
    requires Remaining(w, c, p, mh, names[nhave..], nomount) == Remaining(w, c', p', mh', names[nhave..][n..], nomount)
    ensures Standing(w, cp, names, nomount, nhave + n, c', p', mh')
  {
    assert names[nhave..][n..] == names[nhave + n..];
  }
}
