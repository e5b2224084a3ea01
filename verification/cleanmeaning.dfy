/**
 What a cleaned name means: the place that its elements lead to, counted as levels up and names down, without the
 stack that cleanname reduces on.
 */
module CleanMeaning {
  import opened CleanName

  /** So many levels up from the start, then down. */
  datatype Place = Place(ups: nat, down: seq<string>)

  const HERE := Place(0, [])

  function Go(rooted: bool, p: Place, e: string): Place {
    if e == "." then p
    else if e != ".." then Place(p.ups, p.down + [e])
    else if p.down != [] then Place(p.ups, p.down[..|p.down| - 1])
    else if rooted then p
    else Place(p.ups + 1, [])
  }

  function GoAll(rooted: bool, p: Place, es: seq<string>): Place
    decreases |es|
  {
    if es == [] then p else GoAll(rooted, Go(rooted, p, es[0]), es[1..])
  }

  /** The shortest way there. */
  function Way(p: Place): seq<string> {
    seq(p.ups, _ => "..") + p.down
  }

  /** Going down is by names, and from the root there is no up. */
  ghost predicate PlaceOk(rooted: bool, p: Place) {
    (rooted ==> p.ups == 0) && forall e <- p.down :: Element(e) && e != ".."
  }

  /** The j'th element has taken back all before it. */
  ghost predicate Emptied(rooted: bool, p: Place, es: seq<string>, j: nat) {
    0 < j <= |es| && GoAll(rooted, p, es[..j]) == HERE && GoAll(rooted, p, es[..j - 1]) != HERE
  }

  lemma GoOk(rooted: bool, p: Place, e: string)
    requires PlaceOk(rooted, p) && e != "" && '/' !in e
    ensures PlaceOk(rooted, Go(rooted, p, e))
  {
  }

  /** The way, one name longer or shorter. */
  lemma WayDown(p: Place, e: string)
    ensures Way(p) + [e] == Way(Place(p.ups, p.down + [e])) && (Way(p) == [] <==> p == HERE)
  {
  }

  lemma WayUp(ups: nat)
    ensures Way(Place(ups, [])) + [".."] == Way(Place(ups + 1, [])) && |Way(Place(ups, []))| == ups
    ensures ups > 0 ==> Way(Place(ups, []))[ups - 1] == ".."
  {
  }

  lemma WayBack(p: Place)
    requires p.down != []
    ensures var n, w := |p.down| - 1, Way(p);
            w != [] && w[|w| - 1] == p.down[n] && p.down[n] in p.down && w[..|w| - 1] == Way(Place(p.ups, p.down[..n]))
  {
  }

  /** One element on the stack. */
  lemma PushGoes(rooted: bool, r: Reduced, p: Place, e: string)
    requires PlaceOk(rooted, p) && r.stack == Way(p)
    ensures var q := Go(rooted, p, e);
            Push(rooted, r, e).stack == Way(q) && (Push(rooted, r, e).erased <==> r.erased || (!rooted && q == HERE && p != HERE))
  {
    if e == ".." {
      if p.down == [] { PushUp(rooted, r, p.ups); } else { PushBack(rooted, r, p); }
    } else {
      WayDown(p, e);
    }
  }

  lemma PushUp(rooted: bool, r: Reduced, ups: nat)
    requires (rooted ==> ups == 0) && r.stack == Way(Place(ups, []))
    ensures Push(rooted, r, "..") == if rooted then r else Reduced(Way(Place(ups + 1, [])), r.erased)
  {
    WayUp(ups);
  }

  lemma PushBack(rooted: bool, r: Reduced, p: Place)
    requires PlaceOk(rooted, p) && r.stack == Way(p) && p.down != []
    ensures var q := Place(p.ups, p.down[..|p.down| - 1]); Push(rooted, r, "..") == Reduced(Way(q), r.erased || (!rooted && q == HERE))
  {
    var q := Place(p.ups, p.down[..|p.down| - 1]);
    WayBack(p);
    WayDown(q, "");
  }

  lemma {:induction false} GoNext(rooted: bool, p: Place, es: seq<string>, j: nat)
    requires 0 < j <= |es|
    ensures GoAll(rooted, p, es[..j]) == GoAll(rooted, Go(rooted, p, es[0]), es[1..][..j - 1])
  {
    assert es[..j][0] == es[0] && es[..j][1..] == es[1..][..j - 1];
  }

  lemma {:induction false} EmptiedNext(rooted: bool, p: Place, es: seq<string>)
    requires es != []
    ensures Emptied(rooted, p, es, 1) <==> Go(rooted, p, es[0]) == HERE && p != HERE
    ensures forall j: nat :: 0 < j < |es| ==> (Emptied(rooted, p, es, j + 1) <==> Emptied(rooted, Go(rooted, p, es[0]), es[1..], j))
  {
    GoNext(rooted, p, es, 1);
    assert es[..0] == [] && es[1..][..0] == [];
    forall j: nat | 0 < j < |es|
      ensures Emptied(rooted, p, es, j + 1) <==> Emptied(rooted, Go(rooted, p, es[0]), es[1..], j)
    {
      GoNext(rooted, p, es, j + 1);
      GoNext(rooted, p, es, j);
    }
  }

  /** The whole reduction: its stack is the way to the place, and it tells whether all was taken back at some point. */
  lemma {:induction false} ReduceGoes(rooted: bool, r: Reduced, p: Place, es: seq<string>)
    requires PlaceOk(rooted, p) && r.stack == Way(p) && forall e <- es :: e != "" && '/' !in e
    ensures PlaceOk(rooted, GoAll(rooted, p, es)) && Reduce(rooted, r, es).stack == Way(GoAll(rooted, p, es))
    ensures Reduce(rooted, r, es).erased <==> r.erased || (!rooted && exists j: nat :: Emptied(rooted, p, es, j))
    decreases |es|
  {
    if es != [] {
      var q := Go(rooted, p, es[0]);
      assert es[0] in es && forall e <- es[1..] :: e in es;
      GoOk(rooted, p, es[0]);
      PushGoes(rooted, r, p, es[0]);
      ReduceGoes(rooted, Push(rooted, r, es[0]), q, es[1..]);
      EmptiedNext(rooted, p, es);
      if j: nat :| Emptied(rooted, p, es, j) {
        if j > 1 { assert Emptied(rooted, q, es[1..], j - 1); }
      }
      if j: nat :| Emptied(rooted, q, es[1..], j) { assert Emptied(rooted, p, es, j + 1); }
    }
  }

  /** Where a name leads. */
  function Meant(s: string): Place {
    GoAll(Rooted(s), HERE, Split(s))
  }

  /** What a name begins with is not what is left of it at the front: that was a ".", or some ".." has taken back all
      before it. */
  ghost predicate FrontGone(s: string) {
    StartsWithDot(s) || (!Rooted(s) && exists j: nat :: Emptied(Rooted(s), HERE, Split(s), j))
  }

  lemma FinalIs(s: string)
    ensures FinalStack(s).stack == Way(Meant(s)) && (FinalStack(s).erased <==> FrontGone(s))
  {
    SplitElements(s);
    ReduceGoes(Rooted(s), Reduced([], StartsWithDot(s)), HERE, Split(s));
  }

  /** A clean name is the shortest way to where the name leads, from the root if that begins there, and "." for no way at all;
      it gets a "./" at its front if it would begin with '#' and that was not at the front before. */
  lemma CleanMeans(s: string)
    ensures var text := (if Rooted(s) then "/" else "") + Join(Way(Meant(s)));
            Clean(s) == if text == "" then "." else if text[0] == '#' && FrontGone(s) then "./" + text else text
  {
    FinalIs(s);
  }

  lemma OneWay(p: Place, q: Place, rooted: bool)
    requires PlaceOk(rooted, p) && PlaceOk(rooted, q) && Way(p) == Way(q)
    ensures p == q
  {
    UpsOf(p, q);
    UpsOf(q, p);
    assert p.down == Way(p)[p.ups..] && q.down == Way(q)[q.ups..];
  }

  lemma UpsOf(p: Place, q: Place)
    requires (forall e <- p.down :: e != "..") && Way(p) == Way(q)
    ensures p.ups >= q.ups
  {
    assert forall i :: 0 <= i < q.ups ==> Way(q)[i] == "..";
    assert p.down != [] ==> Way(p)[p.ups] == p.down[0] && p.down[0] in p.down;
  }

  /** So the clean name leads to the same place. */
  lemma SamePlace(s: string)
    ensures Meant(Clean(s)) == Meant(s) && Rooted(Clean(s)) == Rooted(s)
  {
    FinalNeat(s);
    FinalIs(s);
    var rooted, stack := Rooted(s), FinalStack(s).stack;
    RenderEmpty(rooted, stack);
    if !rooted && stack == [] {
      FinalIs(".");
      CleanDot();
      SplitOne(".");
    } else if Clean(s) == Plain(s) {
      PrintedBack(rooted, stack);
      FinalIs(Clean(s));
      MeantOk(s);
      MeantOk(Clean(s));
      OneWay(Meant(Clean(s)), Meant(s), rooted);
    } else {
      assert Plain(s) == Join(stack);
      GuardedBack(stack);
      FinalIs(Clean(s));
      MeantOk(s);
      MeantOk(Clean(s));
      OneWay(Meant(Clean(s)), Meant(s), rooted);
    }
  }

  lemma {:induction false} MeantOk(s: string)
    ensures PlaceOk(Rooted(s), Meant(s))
  {
    SplitElements(s);
    ReduceGoes(Rooted(s), Reduced([], StartsWithDot(s)), HERE, Split(s));
  }

  // ---------- The elements ----------

  /** Together with SplitOne, and nothing in the empty string, this says what Split is. */
  lemma {:induction false} SplitBoth(x: string, y: string)
    ensures Split(x + ("/" + y)) == Split(x) + Split(y)
    decreases |x|
  {
    var z := x + ("/" + y);
    if x == "" {
      assert z == "/" + y && z[1..] == y;
    } else if x[0] == '/' {
      assert z[0] == '/' && z[1..] == x[1..] + ("/" + y);
      SplitBoth(x[1..], y);
    } else {
      var n := ElemLen(x);
      FirstElement(x, "/" + y);
      SplitBoth(x[n..], y);
      Assoc(x[..n], Split(x[n..]), Split(y));
    }
  }

  lemma FirstElement(x: string, t: string)
    requires x != "" && x[0] != '/' && t != "" && t[0] == '/'
    ensures var n := ElemLen(x); Split(x + t) == [x[..n]] + Split(x[n..] + t)
  {
    ElemLenPrefix(x, t);
    Halves(x, t, ElemLen(x));
    assert (x + t)[0] == x[0];
  }

  lemma Halves(x: string, t: string, n: nat)
    requires n <= |x|
    ensures (x + t)[..n] == x[..n] && (x + t)[n..] == x[n..] + t
  {
  }

  lemma Assoc(e: string, a: seq<string>, b: seq<string>)
    ensures [e] + (a + b) == ([e] + a) + b
  {
  }
}
