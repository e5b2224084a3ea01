/** libc/cleanname.c: the in-place cleaner of path names, and what it computes. */
module CleanName {

  // ---------- The reference: components reduced on a stack ----------

  /** Length of the element at the front: up to the first slash. */
  function ElemLen(s: string): (n: nat)
    ensures n <= |s|
    ensures '/' !in s[..n]
    ensures n < |s| ==> s[n] == '/'
  {
    if s == "" || s[0] == '/' then 0 else 1 + ElemLen(s[1..])
  }

  /** The non-empty elements between slashes. */
  function Split(s: string): seq<string>
    decreases |s|
  {
    if s == "" then []
    else if s[0] == '/' then Split(s[1..])
    else [s[..ElemLen(s)]] + Split(s[ElemLen(s)..])
  }

  function Join(es: seq<string>): string {
    if es == [] then ""
    else if |es| == 1 then es[0]
    else Join(es[..|es| - 1]) + "/" + es[|es| - 1]
  }

  /** Elements kept so far, and whether the front of a relative name has been erased. */
  datatype Reduced = Reduced(stack: seq<string>, erased: bool)

  function Push(rooted: bool, r: Reduced, e: string): Reduced {
    if e == "." then r
    else if e == ".." then
      if r.stack != [] && r.stack[|r.stack| - 1] != ".."
      then var rest := r.stack[..|r.stack| - 1]; Reduced(rest, r.erased || (rest == [] && !rooted))
      else if rooted then r
      else Reduced(r.stack + [".."], r.erased)
    else Reduced(r.stack + [e], r.erased)
  }

  function Reduce(rooted: bool, r: Reduced, es: seq<string>): Reduced
    decreases |es|
  {
    if es == [] then r else Reduce(rooted, Push(rooted, r, es[0]), es[1..])
  }

  predicate Rooted(s: string) {
    s != "" && s[0] == '/'
  }

  predicate StartsWithDot(s: string) {
    s != "" && s[0] == '.' && (|s| == 1 || s[1] == '/')
  }

  function Render(rooted: bool, stack: seq<string>): string {
    (if rooted then "/" else "") + Join(stack)
  }

  function FinalStack(s: string): Reduced {
    Reduce(Rooted(s), Reduced([], StartsWithDot(s)), Split(s))
  }

  /** The reduced name before the guard against a device name at its front. */
  function Plain(s: string): (r: string)
    ensures r != ""
  {
    var r := Render(Rooted(s), FinalStack(s).stack);
    if r == "" then "." else r
  }

  function Clean(s: string): string {
    if FinalStack(s).erased && Plain(s)[0] == '#' then "./" + Plain(s) else Plain(s)
  }

  // ---------- Shape of reduced stacks ----------

  ghost predicate Element(e: string) {
    e != "" && '/' !in e && e != "."
  }

  /** Elements, with ".." only at the front and not at all in a rooted name. */
  ghost predicate Neat(rooted: bool, stack: seq<string>) {
    && (forall e <- stack :: Element(e))
    && (forall i :: 0 <= i < |stack| && stack[i] == ".." ==>
          !rooted && forall j :: 0 <= j < i ==> stack[j] == "..")
  }

  lemma SplitElements(s: string)
    ensures forall e <- Split(s) :: e != "" && '/' !in e
    decreases |s|
  {
    if s != "" {
      SplitElements(if s[0] == '/' then s[1..] else s[ElemLen(s)..]);
    }
  }

  lemma PushNeat(rooted: bool, r: Reduced, e: string)
    requires Neat(rooted, r.stack) && e != "" && '/' !in e
    ensures Neat(rooted, Push(rooted, r, e).stack)
  {
    var n := |r.stack|;
    if e == ".." && n > 0 && r.stack[n - 1] == ".." {
      assert forall j :: 0 <= j < n - 1 ==> r.stack[j] == "..";
    }
  }

  lemma {:induction false} ReduceNeat(rooted: bool, r: Reduced, es: seq<string>)
    requires Neat(rooted, r.stack) && forall e <- es :: e != "" && '/' !in e
    ensures Neat(rooted, Reduce(rooted, r, es).stack)
    decreases |es|
  {
    if es != [] {
      assert es[0] in es && forall e <- es[1..] :: e in es;
      PushNeat(rooted, r, es[0]);
      ReduceNeat(rooted, Push(rooted, r, es[0]), es[1..]);
    }
  }

  lemma {:induction false} JoinAppend(es: seq<string>, e: string)
    requires es != []
    ensures Join(es + [e]) == Join(es) + "/" + e
  {
    assert (es + [e])[..|es|] == es;
  }

  /** How the rendered name grows by one element. */
  lemma RenderPush(rooted: bool, stack: seq<string>, e: string)
    ensures Render(rooted, stack + [e]) == Render(rooted, stack) + (if stack == [] then "" else "/") + e
  {
    if stack != [] {
      JoinAppend(stack, e);
    }
  }

  lemma RenderEmpty(rooted: bool, stack: seq<string>)
    requires Neat(rooted, stack)
    ensures |Render(rooted, stack)| >= (if rooted then 1 else 0)
    ensures |Render(rooted, stack)| == (if rooted then 1 else 0) <==> stack == []
  {
    if stack != [] {
      var n := |stack| - 1;
      assert stack[n] in stack;
      assert stack == stack[..n] + [stack[n]];
      RenderPush(rooted, stack[..n], stack[n]);
    }
  }

  /** Number of ".." at the front of a stack. */
  function Lead(stack: seq<string>): (n: nat)
    ensures n <= |stack|
    ensures forall i :: 0 <= i < n ==> stack[i] == ".."
    ensures n < |stack| ==> stack[n] != ".."
  {
    if stack == [] || stack[0] != ".." then 0 else 1 + Lead(stack[1..])
  }

  lemma LeadUnique(stack: seq<string>, n: nat)
    requires n <= |stack| && (forall i :: 0 <= i < n ==> stack[i] == "..") && (n < |stack| ==> stack[n] != "..")
    ensures Lead(stack) == n
  {
  }

  lemma LeadOfNeat(rooted: bool, stack: seq<string>)
    requires Neat(rooted, stack)
    ensures Lead(stack) == |stack| <==> stack == [] || stack[|stack| - 1] == ".."
    ensures rooted ==> Lead(stack) == 0
  {
  }

  // ---------- Idempotence ----------

  lemma {:induction false} SplitSnoc(x: string, e: string)
    requires e != "" && '/' !in e
    ensures Split(x + ("/" + e)) == Split(x) + [e]
    decreases |x|
  {
    var y := x + ("/" + e);
    SplitOne(e);
    if x == "" {
      assert y == "/" + e && y[1..] == e;
    } else if x[0] == '/' {
      assert y[0] == '/' && y[1..] == x[1..] + ("/" + e);
      SplitSnoc(x[1..], e);
    } else {
      ElemLenPrefix(x, "/" + e);
      var n := ElemLen(x);
      assert y[0] != '/' && y[n..] == x[n..] + ("/" + e) && y[..n] == x[..n];
      SplitSnoc(x[n..], e);
      assert Split(y) == [x[..n]] + Split(y[n..]);
    }
  }

  lemma SplitOne(e: string)
    requires e != "" && '/' !in e
    ensures Split(e) == [e]
  {
    assert ElemLen(e) == |e|;
    assert e[..|e|] == e && e[|e|..] == "";
  }

  lemma ElemLenPrefix(x: string, y: string)
    requires y != "" && y[0] == '/'
    ensures ElemLen(x + y) == ElemLen(x)
  {
    if x == "" || x[0] == '/' {
    } else {
      assert (x + y)[1..] == x[1..] + y;
      ElemLenPrefix(x[1..], y);
    }
  }

  /** e is the first element of s. */
  ghost predicate Fronts(e: string, s: string) {
    e <= s && (|e| < |s| ==> s[|e|] == '/')
  }

  lemma FrontsAppend(e: string, s: string, t: string)
    requires Fronts(e, s) && t != "" && t[0] == '/'
    ensures Fronts(e, s + t)
  {
  }

  lemma {:induction false} SplitJoin(stack: seq<string>)
    requires forall e <- stack :: Element(e)
    ensures Split(Join(stack)) == stack
    ensures Split("/" + Join(stack)) == stack
    ensures stack != [] ==> Join(stack) != "" && Fronts(stack[0], Join(stack))
    decreases |stack|
  {
    var s := Join(stack);
    assert ("/" + s)[1..] == s;
    if |stack| == 1 {
      assert stack[0] in stack;
      SplitOne(stack[0]);
      assert [stack[0]] == stack;
    } else if stack != [] {
      var n := |stack| - 1;
      var rest, e := stack[..n], stack[n];
      assert rest + [e] == stack && e in stack;
      assert forall f <- rest :: f in stack;
      SplitJoin(rest);
      SplitSnoc(Join(rest), e);
      assert s == Join(rest) + ("/" + e);
      FrontsAppend(stack[0], Join(rest), "/" + e);
    }
  }

  lemma {:induction false} ReduceNeatStack(rooted: bool, stack: seq<string>, k: nat, erased: bool)
    requires Neat(rooted, stack) && k <= |stack|
    ensures Reduce(rooted, Reduced(stack[..k], erased), stack[k..]) == Reduced(stack, erased)
    decreases |stack| - k
  {
    if k == |stack| {
      assert stack[..k] == stack;
    } else {
      assert stack[k] in stack;
      assert stack[..k] + [stack[k]] == stack[..k + 1];
      assert stack[k..][1..] == stack[k + 1..];
      ReduceNeatStack(rooted, stack, k + 1, erased);
    }
  }

  lemma FinalNeat(s: string)
    ensures Neat(Rooted(s), FinalStack(s).stack)
  {
    SplitElements(s);
    ReduceNeat(Rooted(s), Reduced([], StartsWithDot(s)), Split(s));
  }

  /** A neat relative stack, printed, starts with its first element. */
  lemma PrintedFront(stack: seq<string>)
    requires Neat(false, stack) && stack != []
    ensures Join(stack) != "" && !Rooted(Join(stack)) && !StartsWithDot(Join(stack))
  {
    SplitJoin(stack);
    assert Element(stack[0]) by { assert stack[0] in stack; }
    var e, s := stack[0], Join(stack);
    assert e[0] == s[0];
    if |e| > 1 { assert e[1] == s[1]; }
  }

  /** A neat stack comes back from its printed form. */
  lemma PrintedBack(rooted: bool, stack: seq<string>)
    requires Neat(rooted, stack) && (rooted || stack != [])
    ensures FinalStack(Render(rooted, stack)) == Reduced(stack, false)
    ensures Rooted(Render(rooted, stack)) == rooted
  {
    SplitJoin(stack);
    assert stack[..0] == [] && stack[0..] == stack;
    ReduceNeatStack(rooted, stack, 0, false);
    var c := Render(rooted, stack);
    if rooted {
      assert Split(c) == stack && Rooted(c) && !StartsWithDot(c);
    } else {
      PrintedFront(stack);
      assert c == Join(stack);
    }
  }

  /** The same behind the guard. */
  lemma GuardedBack(stack: seq<string>)
    requires Neat(false, stack) && stack != []
    ensures FinalStack("./" + Join(stack)) == Reduced(stack, true)
  {
    var c := "./" + Join(stack);
    SplitJoin(stack);
    assert c[1..] == "/" + Join(stack);
    assert ElemLen(c) == 1 by { assert ElemLen(c[1..]) == 0; }
    assert c[..1] == ".";
    assert Split(c) == ["."] + stack;
    assert (["."] + stack)[1..] == stack;
    assert stack[..0] == [] && stack[0..] == stack;
    ReduceNeatStack(false, stack, 0, true);
  }

  lemma CleanDot()
    ensures Clean(".") == "."
  {
    SplitOne(".");
    assert FinalStack(".") == Reduced([], true);
  }

  lemma CleanPrinted(rooted: bool, stack: seq<string>)
    requires Neat(rooted, stack) && (rooted || stack != [])
    ensures Clean(Render(rooted, stack)) == Render(rooted, stack)
  {
    RenderEmpty(rooted, stack);
    PrintedBack(rooted, stack);
  }

  lemma CleanGuarded(stack: seq<string>)
    requires Neat(false, stack) && stack != [] && Join(stack) != "" && Join(stack)[0] == '#'
    ensures Clean("./" + Join(stack)) == "./" + Join(stack)
  {
    GuardedBack(stack);
    assert Render(false, stack) == Join(stack);
  }

  /** Cleaning a clean name changes nothing. */
  lemma CleanIdempotent(s: string)
    ensures Clean(Clean(s)) == Clean(s)
  {
    FinalNeat(s);
    var rooted, stack := Rooted(s), FinalStack(s).stack;
    RenderEmpty(rooted, stack);
    if !rooted && stack == [] {
      assert Plain(s) == ".";
      CleanDot();
    } else if Clean(s) == Plain(s) {
      CleanPrinted(rooted, stack);
    } else {
      assert Plain(s) == Join(stack);
      CleanGuarded(stack);
    }
  }

  // ---------- The in-place pass ----------

  /** buf holds the string s with its terminating zero. */
  ghost predicate Holds(buf: seq<char>, s: string) {
    |s| < |buf| && s <= buf && buf[|s|] == '\0'
  }

  /** Length of the part of a rendered stack that ".." cannot erase. */
  ghost function Fence(rooted: bool, stack: seq<string>): nat {
    |Render(rooted, stack[..Lead(stack)])|
  }

  /** What is known when the reader stands at p and the writer at q: r is the reduction so far. */
  ghost predicate Progress(s: string, p: nat, q: nat, dotdot: nat, erased: bool, r: Reduced) {
    var rooted := Rooted(s);
    var slack := if r.erased then 2 else 0;
    && p <= |s| && (rooted ==> p > 0)
    && Neat(rooted, r.stack)
    && Reduce(rooted, r, Split(s[p..])) == FinalStack(s)
    && q == |Render(rooted, r.stack)| && dotdot == Fence(rooted, r.stack)
    && erased == (r.erased && p > 0)
    && q <= p
    && (r.stack == [] && r.erased && p > 0 ==> p >= 2 || p == |s| || s[p] == '/')
    && (r.stack != [] ==> q + slack <= p && (q + slack < p || p == |s| || s[p] == '/'))
    && (rooted ==> !r.erased)
    && (p == 0 ==> r == Reduced([], StartsWithDot(s)))
  }

  lemma Start(s: string)
    ensures var k := if Rooted(s) then 1 else 0;
            Progress(s, k, k, k, false, Reduced([], StartsWithDot(s)))
  {
    if Rooted(s) {
      assert Split(s) == Split(s[1..]);
    } else {
      assert s[0..] == s;
    }
  }

  lemma AtSlash(s: string, p: nat, q: nat, dotdot: nat, erased: bool, r: Reduced)
    requires Progress(s, p, q, dotdot, erased, r) && p < |s| && s[p] == '/'
    ensures Progress(s, p + 1, q, dotdot, erased, r)
  {
    assert s[p..][1..] == s[p + 1..];
  }

  /** The element at p. */
  function Elem(s: string, p: nat): string
    requires p <= |s|
  {
    s[p..][..ElemLen(s[p..])]
  }

  lemma ElemStep(s: string, p: nat, r: Reduced)
    requires p < |s| && s[p] != '/'
    ensures var e := Elem(s, p);
            && e != "" && '/' !in e && p + |e| <= |s| && e == s[p..p + |e|]
            && (p + |e| < |s| ==> s[p + |e|] == '/')
            && Reduce(Rooted(s), r, Split(s[p..])) == Reduce(Rooted(s), Push(Rooted(s), r, e), Split(s[p + |e|..]))
  {
    var t, e := s[p..], Elem(s, p);
    assert t[|e|..] == s[p + |e|..];
    assert Split(t) == [e] + Split(t[|e|..]);
    assert ([e] + Split(t[|e|..]))[1..] == Split(t[|e|..]);
  }

  /** The element is "." or ".." exactly when the program's character tests say so. */
  lemma DotTests(s: string, p: nat)
    requires p < |s| && s[p] != '/'
    ensures Elem(s, p) == "." <==> s[p] == '.' && (p + 1 == |s| || s[p + 1] == '/')
    ensures Elem(s, p) == ".." <==>
            s[p] == '.' && p + 1 < |s| && s[p + 1] == '.' && (p + 2 == |s| || s[p + 2] == '/')
  {
    var e := Elem(s, p);
    ElemStep(s, p, Reduced([], false));
    assert e[0] == s[p];
    assert |e| > 1 ==> e[1] == s[p + 1];
    assert forall i :: 0 <= i < |e| ==> e[i] == s[p + i];
    if |e| == 1 { assert e == [s[p]]; }
    if |e| == 2 { assert e == [s[p], s[p + 1]]; }
  }

  lemma AtDot(s: string, p: nat, q: nat, dotdot: nat, erased: bool, r: Reduced)
    requires Progress(s, p, q, dotdot, erased, r) && p < |s| && s[p] != '/' && Elem(s, p) == "."
    ensures Progress(s, p + 1, q, dotdot, erased || p == 0, r)
  {
    ElemStep(s, p, r);
    DotTests(s, p);
  }

  /** A real element stays out of what ".." cannot erase. */
  lemma PushFence(rooted: bool, stack: seq<string>, e: string)
    requires e != ".."
    ensures Fence(rooted, stack + [e]) == Fence(rooted, stack)
  {
    var more := stack + [e];
    assert forall i :: 0 <= i < |stack| ==> more[i] == stack[i];
    LeadUnique(more, Lead(stack));
    assert more[..Lead(stack)] == stack[..Lead(stack)];
  }

  lemma AtName(s: string, p: nat, q: nat, dotdot: nat, erased: bool, r: Reduced)
    requires Progress(s, p, q, dotdot, erased, r) && p < |s| && s[p] != '/'
    requires Elem(s, p) != "." && Elem(s, p) != ".."
    ensures var e := Elem(s, p); var sep := if r.stack == [] then 0 else 1;
            && Progress(s, p + |e|, q + sep + |e|, dotdot, erased, Push(Rooted(s), r, e))
            && q + sep <= p
            && Render(Rooted(s), Push(Rooted(s), r, e).stack)
               == Render(Rooted(s), r.stack) + (if r.stack == [] then "" else "/") + e
  {
    var e := Elem(s, p);
    ElemStep(s, p, r);
    PushNeat(Rooted(s), r, e);
    RenderPush(Rooted(s), r.stack, e);
    DotTests(s, p);
    PushFence(Rooted(s), r.stack, e);
    RenderEmpty(Rooted(s), r.stack);
  }

  /** Erasing the last element of a stack, seen in the rendered name. */
  lemma PopShape(rooted: bool, stack: seq<string>)
    requires Neat(rooted, stack) && stack != [] && stack[|stack| - 1] != ".."
    ensures var out := Render(rooted, stack); var rest := stack[..|stack| - 1];
            var q := |Render(rooted, rest)|;
            && Fence(rooted, rest) == Fence(rooted, stack) <= q < |out|
            && (rest != [] ==> out[q] == '/')
            && (rest == [] ==> q == Fence(rooted, stack))
            && (forall i :: q < i < |out| ==> out[i] != '/')
            && out[..q] == Render(rooted, rest)
  {
    var n := |stack| - 1;
    var rest, e := stack[..n], stack[n];
    assert stack == rest + [e] && Element(e) by { assert e in stack; }
    RenderPush(rooted, rest, e);
    LeadOfNeat(rooted, stack);
    LeadUnique(rest, Lead(stack));
    assert rest[..Lead(stack)] == stack[..Lead(stack)];
    FenceBelow(rooted, rest);
  }

  /** "..": the writer may back up exactly when the last element kept is not "..". */
  lemma MayBackUp(rooted: bool, stack: seq<string>)
    requires Neat(rooted, stack)
    ensures |Render(rooted, stack)| > Fence(rooted, stack) <==> stack != [] && stack[|stack| - 1] != ".."
  {
    LeadOfNeat(rooted, stack);
    if stack != [] && stack[|stack| - 1] != ".." {
      PopShape(rooted, stack);
    } else {
      assert stack[..Lead(stack)] == stack;
    }
  }

  lemma AtDotDotPop(s: string, p: nat, q: nat, dotdot: nat, erased: bool, r: Reduced)
    requires Progress(s, p, q, dotdot, erased, r) && p < |s| && s[p] != '/' && Elem(s, p) == ".."
    requires r.stack != [] && r.stack[|r.stack| - 1] != ".."
    ensures var q' := |Render(Rooted(s), r.stack[..|r.stack| - 1])|;
            Progress(s, p + 2, q', dotdot, erased || q' == 0, Push(Rooted(s), r, ".."))
  {
    ElemStep(s, p, r);
    DotTests(s, p);
    PushNeat(Rooted(s), r, "..");
    PopShape(Rooted(s), r.stack);
    RenderEmpty(Rooted(s), r.stack[..|r.stack| - 1]);
  }

  /** The fence is at most the whole, and equal only when nothing but ".." is there. */
  lemma FenceBelow(rooted: bool, stack: seq<string>)
    requires Neat(rooted, stack)
    ensures Fence(rooted, stack) <= |Render(rooted, stack)|
    ensures Lead(stack) == |stack| ==> Fence(rooted, stack) == |Render(rooted, stack)|
    decreases |stack|
  {
    if Lead(stack) == |stack| {
      assert stack[..|stack|] == stack;
    } else {
      var n := |stack| - 1;
      var rest := stack[..n];
      assert stack == rest + [stack[n]];
      RenderPush(rooted, rest, stack[n]);
      LeadUnique(rest, Lead(stack));
      assert rest[..Lead(stack)] == stack[..Lead(stack)];
      FenceBelow(rooted, rest);
    }
  }

  lemma AtDotDotRoot(s: string, p: nat, q: nat, dotdot: nat, erased: bool, r: Reduced)
    requires Progress(s, p, q, dotdot, erased, r) && p < |s| && s[p] != '/' && Elem(s, p) == ".."
    requires q <= dotdot && Rooted(s)
    ensures Progress(s, p + 2, q, dotdot, erased, r) && q > 0
  {
    MayBackUp(Rooted(s), r.stack);
    ElemStep(s, p, r);
    DotTests(s, p);
    RenderEmpty(true, r.stack);
  }

  lemma AtDotDotKeep(s: string, p: nat, q: nat, dotdot: nat, erased: bool, r: Reduced)
    requires Progress(s, p, q, dotdot, erased, r) && p < |s| && s[p] != '/' && Elem(s, p) == ".."
    requires q <= dotdot && !Rooted(s)
    ensures var sep := if q != 0 then 1 else 0;
            var r' := Push(false, r, "..");
            && q + sep + 2 <= p + 2
            && Progress(s, p + 2, q + sep + 2, q + sep + 2, erased, r')
            && Render(false, r'.stack) == Render(false, r.stack) + (if q != 0 then "/" else "") + ".."
  {
    MayBackUp(Rooted(s), r.stack);
    ElemStep(s, p, r);
    DotTests(s, p);
    PushNeat(false, r, "..");
    RenderPush(false, r.stack, "..");
    RenderEmpty(false, r.stack);
    var stack' := r.stack + [".."];
    LeadOfNeat(false, stack');
    assert stack'[..Lead(stack')] == stack';
  }

  lemma AtEnd(s: string, q: nat, dotdot: nat, erased: bool, r: Reduced)
    requires Progress(s, |s|, q, dotdot, erased, r)
    ensures r == FinalStack(s)
    ensures q == 0 <==> Render(Rooted(s), r.stack) == ""
    ensures Plain(s) == if q == 0 then "." else Render(Rooted(s), r.stack)
    ensures (erased && Plain(s)[0] == '#') <==> Clean(s) != Plain(s)
    ensures Clean(s) != Plain(s) ==> Clean(s) == "./" + Plain(s) && q != 0 && q + 2 <= |s|
  {
    assert s[|s|..] == "";
    if s == "" { assert Plain(s) == "."; }
    if r.stack == [] { assert Render(Rooted(s), r.stack) == if Rooted(s) then "/" else ""; }
  }

  // ---------- The program ----------

  /** buf holds the output up to q and still the whole unread input from p on. */
  ghost predicate View(buf: seq<char>, s: string, p: nat, out: string) {
    && |out| <= p <= |s| < |buf|
    && out == buf[..|out|]
    && (forall k :: p <= k < |s| ==> buf[k] == s[k])
    && buf[|s|] == '\0'
  }

  ghost predicate SameFrom(buf': seq<char>, buf: seq<char>, n: nat) {
    |buf'| == |buf| && forall k :: n <= k < |buf| ==> buf'[k] == buf[k]
  }

  lemma ViewLater(buf: seq<char>, buf': seq<char>, s: string, p: nat, p': nat, out: string, out': string)
    requires View(buf, s, p, out) && |buf'| == |buf| && p <= p' <= |s| && |out'| <= p'
    requires buf'[..|out'|] == out' && SameFrom(buf', buf, |out'|)
    ensures View(buf', s, p', out') && SameFrom(buf', buf, |s|)
  {
  }

  /** The inner loop of a real element: copy up to and including the separator, without
      moving past it. */
  method CopyElem(a: array<char>, p0: nat, q0: nat, ghost e: string) returns (p: nat, q: nat)
    requires q0 <= p0 && p0 + |e| < a.Length && (forall k :: 0 <= k < |e| ==> e[k] == a[p0 + k])
    requires (forall k :: 0 <= k < |e| ==> e[k] != '/' && e[k] != '\0') && (a[p0 + |e|] == '/' || a[p0 + |e|] == '\0')
    modifies a
    ensures p == p0 + |e| && q == q0 + |e|
    ensures a[..q] == old(a[..q0]) + e
    ensures SameFrom(a[..], old(a[..])[q := old(a[p])], q)
  {
    p, q := p0, q0;
    ghost var b := a[..];
    assert forall k :: 0 <= k < |e| ==> e[k] == b[p0 + k];
    a[q] := a[p];
    while a[q] != '/' && a[q] != '\0'
      invariant p0 <= p <= p0 + |e| && q == q0 + (p - p0)
      invariant forall k :: 0 <= k < q0 ==> a[k] == b[k]
      invariant forall k :: 0 <= k < p - p0 ==> a[q0 + k] == e[k]
      invariant forall k :: q < k < a.Length ==> a[k] == b[k]
      invariant a[q] == b[p] && (p < p0 + |e| ==> a[q] == e[p - p0])
      decreases p0 + |e| - p
    {
      p, q := p + 1, q + 1;
      a[q] := a[p];
      assert p < p0 + |e| ==> e[p - p0] == b[p0 + (p - p0)];
    }
    assert a[..q] == b[..q0] + e;
  }

  /** The inner loop of "..": back to the last slash or to the fence. */
  method BackUp(a: array<char>, q0: nat, dotdot: nat) returns (q: nat)
    requires dotdot < q0 <= a.Length
    ensures dotdot <= q < q0 && (q == dotdot || a[q] == '/')
    ensures forall i :: q < i < q0 ==> a[i] != '/'
  {
    q := q0 - 1;
    while q > dotdot && a[q] != '/'
      invariant dotdot <= q < q0
      invariant forall i :: q < i < q0 ==> a[i] != '/'
    {
      q := q - 1;
    }
  }

  /** A slash, unless the writer stands at first. */
  method Slash(a: array<char>, q0: nat, first: nat) returns (q: nat)
    requires q0 < a.Length
    modifies a
    ensures q == (if q0 == first then q0 else q0 + 1)
    ensures a[..q] == old(a[..q0]) + (if q0 == first then "" else "/")
    ensures SameFrom(a[..], old(a[..]), q)
  {
    q := q0;
    if q != first {
      a[q] := '/';
      q := q + 1;
    }
  }

  /** Backing up over the last element of what was written. */
  method BackOver(a: array<char>, q0: nat, dotdot: nat, rooted: bool, ghost stack: seq<string>) returns (q: nat)
    requires Neat(rooted, stack) && q0 <= a.Length && a[..q0] == Render(rooted, stack)
    requires dotdot == Fence(rooted, stack) < q0
    ensures stack != [] && stack[|stack| - 1] != ".."
    ensures q <= q0 && a[..q] == Render(rooted, stack[..|stack| - 1])
  {
    MayBackUp(rooted, stack);
    PopShape(rooted, stack);
    q := BackUp(a, q0, dotdot);
    ghost var out := a[..q0];
    assert forall i :: 0 <= i < q0 ==> a[i] == out[i];
    assert q == |Render(rooted, stack[..|stack| - 1])|;
    assert out[..q] == a[..q];
  }

  /** What a ".." leaves of the elements kept. */
  function UpStack(rooted: bool, stack: seq<string>): seq<string> {
    Push(rooted, Reduced(stack, false), "..").stack
  }

  lemma UpRendered(rooted: bool, stack: seq<string>)
    requires Neat(rooted, stack)
    ensures var out := Render(rooted, stack);
            if |out| > Fence(rooted, stack) then
              stack != [] && stack[|stack| - 1] != ".." && UpStack(rooted, stack) == stack[..|stack| - 1]
            else if rooted then UpStack(rooted, stack) == stack
            else Render(rooted, UpStack(rooted, stack)) == out + (if |out| == 0 then "" else "/") + ".."
  {
    MayBackUp(rooted, stack);
    RenderPush(rooted, stack, "..");
    RenderEmpty(rooted, stack);
  }

  /** "/.." or ".." behind what was written. */
  method KeepDotDot(a: array<char>, q0: nat) returns (q: nat)
    requires q0 + (if q0 == 0 then 2 else 3) <= a.Length
    modifies a
    ensures q == q0 + (if q0 == 0 then 2 else 3)
    ensures a[..q] == old(a[..q0]) + (if q0 == 0 then "" else "/") + ".."
    ensures SameFrom(a[..], old(a[..]), q)
  {
    q := Slash(a, q0, 0);
    ghost var c := a[..q];
    a[q], a[q + 1] := '.', '.';
    q := q + 2;
    assert a[..q] == c + "..";
  }

  /** The ".." branch: the elements kept change as Push says. */
  method DotDot(a: array<char>, p: nat, q0: nat, dotdot0: nat, rooted: bool, ghost s: string, ghost stack: seq<string>)
    returns (q: nat, dotdot: nat)
    requires Neat(rooted, stack) && dotdot0 == Fence(rooted, stack) && q0 == |Render(rooted, stack)|
    requires View(a[..], s, p, Render(rooted, stack)) && p + 2 <= |s|
    requires q0 <= dotdot0 && !rooted ==> q0 + (if q0 == 0 then 0 else 1) <= p
    modifies a
    ensures q == |Render(rooted, UpStack(rooted, stack))|
    ensures dotdot == if q0 <= dotdot0 && !rooted then q else dotdot0
    ensures View(a[..], s, p + 2, Render(rooted, UpStack(rooted, stack)))
    ensures SameFrom(a[..], old(a[..]), |s|)
  {
    q, dotdot := q0, dotdot0;
    ghost var b, out := a[..], Render(rooted, stack);
    UpRendered(rooted, stack);
    assert a[..q0] == out;
    if q > dotdot {
      q := BackOver(a, q, dotdot, rooted, stack);
    } else if !rooted {
      q := KeepDotDot(a, q);
      dotdot := q;
    }
    assert a[..q] == Render(rooted, UpStack(rooted, stack));
    ViewLater(b, a[..], s, p, p + 2, out, a[..q]);
  }

  /** Where the ".." branch leaves the writer, the fence and the flag. */
  lemma DotDotProgress(s: string, p: nat, q0: nat, dotdot0: nat, erased0: bool, r: Reduced)
    requires Progress(s, p, q0, dotdot0, erased0, r) && p < |s| && s[p] != '/' && Elem(s, p) == ".."
    ensures var rooted := Rooted(s);
            var q := |Render(rooted, Push(rooted, r, "..").stack)|;
            Progress(s, p + 2, q, if q0 <= dotdot0 && !rooted then q else dotdot0, erased0 || q == 0, Push(rooted, r, ".."))
  {
    MayBackUp(Rooted(s), r.stack);
    if q0 > dotdot0 {
      AtDotDotPop(s, p, q0, dotdot0, erased0, r);
    } else if Rooted(s) {
      AtDotDotRoot(s, p, q0, dotdot0, erased0, r);
    } else {
      AtDotDotKeep(s, p, q0, dotdot0, erased0, r);
    }
  }

  /** The ".." branch writes only where input has been read. */
  lemma DotDotRoom(s: string, p: nat, q0: nat, dotdot0: nat, erased0: bool, r: Reduced)
    requires Progress(s, p, q0, dotdot0, erased0, r) && p < |s| && s[p] != '/' && Elem(s, p) == ".."
    ensures p + 2 <= |s|
    ensures q0 <= dotdot0 && !Rooted(s) ==> q0 + (if q0 == 0 then 0 else 1) <= p
    ensures Push(Rooted(s), r, "..").stack == UpStack(Rooted(s), r.stack)
  {
    DotTests(s, p);
    if q0 <= dotdot0 && !Rooted(s) {
      AtDotDotKeep(s, p, q0, dotdot0, erased0, r);
    }
  }

  /** The branch of a real element. */
  method Name(a: array<char>, p0: nat, q0: nat, rooted: bool, ghost s: string, ghost stack: seq<string>)
    returns (p: nat, q: nat)
    requires Neat(rooted, stack) && q0 == |Render(rooted, stack)| && '\0' !in s
    requires View(a[..], s, p0, Render(rooted, stack)) && p0 < |s| && s[p0] != '/'
    requires q0 + (if stack == [] then 0 else 1) <= p0
    modifies a
    ensures p == p0 + |Elem(s, p0)| && q == |Render(rooted, stack + [Elem(s, p0)])|
    ensures View(a[..], s, p, Render(rooted, stack + [Elem(s, p0)]))
    ensures SameFrom(a[..], old(a[..]), |s|)
  {
    ghost var e, b, out := Elem(s, p0), a[..], Render(rooted, stack);
    ghost var mid := out + (if stack == [] then "" else "/");
    RenderEmpty(rooted, stack);
    RenderPush(rooted, stack, e);
    ElemStep(s, p0, Reduced([], false));
    assert a[..q0] == out;
    q := Slash(a, q0, if rooted then 1 else 0);
    assert a[..q] == mid;
    ghost var c := a[..];
    ViewLater(b, c, s, p0, p0, out, mid);
    ElemInView(c, s, p0, mid);
    p, q := CopyElem(a, p0, q, e);
    NameView(c, a[..], s, p0, p, mid, mid + e);
  }

  lemma ElemInView(buf: seq<char>, s: string, p: nat, out: string)
    requires View(buf, s, p, out) && p < |s| && s[p] != '/' && '\0' !in s
    ensures var e := Elem(s, p); && p + |e| < |buf| && (forall k :: 0 <= k < |e| ==> e[k] == buf[p + k]) 
                                 && (forall k :: 0 <= k < |e| ==> e[k] != '/' && e[k] != '\0')
                                 && (buf[p + |e|] == '/' || buf[p + |e|] == '\0')
  {
    ElemStep(s, p, Reduced([], false));
    assert forall c <- Elem(s, p) :: c in s;
  }

  lemma NameView(buf: seq<char>, buf': seq<char>, s: string, p: nat, p': nat, out: string, out': string)
    requires View(buf, s, p, out) && p <= p' <= |s| && |out'| <= p' && |buf'| == |buf|
    requires buf'[..|out'|] == out' && SameFrom(buf', buf[|out'| := buf[p']], |out'|)
    ensures View(buf', s, p', out') && SameFrom(buf', buf, |s|)
  {
  }

  function Max(a: nat, b: nat): nat {
    if a >= b then a else b
  }

  /** What the character tests at p see of the element e, and that there is room for what they lead to. */
  ghost predicate Facts(buf: seq<char>, p: nat, q: nat, dotdot: nat, rooted: bool, stack: seq<string>, e: string) {
    && p + 1 < |buf|
    && (buf[p] == '.' && (buf[p + 1] == '/' || buf[p + 1] == '\0') <==> e == ".")
    && (buf[p] == '.' && buf[p + 1] == '.' ==> p + 2 < |buf|)
    && (buf[p] == '.' && buf[p + 1] == '.' && (buf[p + 2] == '/' || buf[p + 2] == '\0') <==> e == "..")
    && Neat(rooted, stack) && dotdot == Fence(rooted, stack) && q == |Render(rooted, stack)|
    && (e == ".." && q <= dotdot && !rooted ==> q + (if q == 0 then 0 else 1) <= p)
    && (e != "." && e != ".." ==> q + (if stack == [] then 0 else 1) <= p)
  }

  lemma ElemFacts(buf: seq<char>, s: string, p: nat, q: nat, dotdot: nat, erased: bool, r: Reduced)
    requires Progress(s, p, q, dotdot, erased, r) && '\0' !in s && p < |s| && s[p] != '/'
    requires View(buf, s, p, Render(Rooted(s), r.stack))
    ensures Facts(buf, p, q, dotdot, Rooted(s), r.stack, Elem(s, p))
    ensures Elem(s, p) == ".." ==> p + 2 <= |s|
  {
    DotTests(s, p);
    NextChars(buf, s, p, Render(Rooted(s), r.stack));
    ElemStep(s, p, r);
    if Elem(s, p) == ".." {
      DotDotRoom(s, p, q, dotdot, erased, r);
    } else if Elem(s, p) != "." {
      AtName(s, p, q, dotdot, erased, r);
    }
  }

  /** Where one element takes the reader, the writer, the fence and the flag. */
  lemma ElemProgress(s: string, p: nat, q: nat, dotdot: nat, erased: bool, r: Reduced)
    requires Progress(s, p, q, dotdot, erased, r) && p < |s| && s[p] != '/'
    ensures var e := Elem(s, p); var r' := Push(Rooted(s), r, e); var q' := |Render(Rooted(s), r'.stack)|;
            Progress(s, p + |e|, q', Fenced(dotdot, q, Rooted(s), e, q'), Erased(erased, p, e, q'), r')
  {
    ElemStep(s, p, r);
    if Elem(s, p) == "." {
      AtDot(s, p, q, dotdot, erased, r);
    } else if Elem(s, p) == ".." {
      DotDotProgress(s, p, q, dotdot, erased, r);
    } else {
      AtName(s, p, q, dotdot, erased, r);
    }
  }

  /** The elements kept, the fence and the flag after an element e. */
  function Kept(rooted: bool, stack: seq<string>, e: string): seq<string> {
    if e == "." then stack else if e == ".." then UpStack(rooted, stack) else stack + [e]
  }

  function Fenced(dotdot: nat, q0: nat, rooted: bool, e: string, q: nat): nat {
    if e == ".." && q0 <= dotdot && !rooted then q else dotdot
  }

  predicate Erased(erased: bool, p: nat, e: string, q: nat) {
    erased || (e == "." && p == 0) || (e == ".." && q == 0)
  }

  /** The branches of one element e, after which the elements kept make out. */
  method OneElem(name: array<char>, p0: nat, q0: nat, dotdot0: nat, erased0: bool, rooted: bool,
                 ghost s: string, ghost stack: seq<string>, ghost e: string, ghost out: string)
    returns (p: nat, q: nat, dotdot: nat, erased: bool)
    requires Facts(name[..], p0, q0, dotdot0, rooted, stack, e) && '\0' !in s && p0 < |s| && s[p0] != '/'
    requires e == Elem(s, p0) && (e == ".." ==> p0 + 2 <= |s|)
    requires out == Render(rooted, Kept(rooted, stack, e))
    requires View(name[..], s, p0, Render(rooted, stack))
    modifies name
    ensures p == p0 + |e| && q == |out| && dotdot == Fenced(dotdot0, q0, rooted, e, q) && erased == Erased(erased0, p0, e, q)
    ensures View(name[..], s, p, out) && SameFrom(name[..], old(name[..]), |s|)
  {
    p, q, dotdot, erased := p0, q0, dotdot0, erased0;
    if name[p] == '.' && (name[p + 1] == '/' || name[p + 1] == '\0') {
      if p == 0 {
        erased := true;
      }
      p := p + 1;
    } else if name[p] == '.' && name[p + 1] == '.' && (name[p + 2] == '/' || name[p + 2] == '\0') {
      q, dotdot := DotDot(name, p, q, dotdot, rooted, s, stack);
      p := p + 2;
      if q == 0 {
        erased := true;
      }
    } else {
      p, q := Name(name, p, q, rooted, s, stack);
    }
  }

  /** The same with what it means for the whole reduction. */
  method ElemRound(name: array<char>, p0: nat, q0: nat, dotdot0: nat, erased0: bool, rooted: bool, ghost s: string, ghost r0: Reduced)
    returns (p: nat, q: nat, dotdot: nat, erased: bool, ghost r: Reduced)
    requires rooted == Rooted(s) && Progress(s, p0, q0, dotdot0, erased0, r0) && '\0' !in s && p0 < |s| && s[p0] != '/'
    requires View(name[..], s, p0, Render(rooted, r0.stack))
    modifies name
    ensures p0 < p && Progress(s, p, q, dotdot, erased, r)
    ensures View(name[..], s, p, Render(rooted, r.stack))
    ensures SameFrom(name[..], old(name[..]), |s|)
  {
    ghost var e, out;
    ElemFacts(name[..], s, p0, q0, dotdot0, erased0, r0);
    r, e, out := Turned(s, p0, q0, dotdot0, erased0, r0);
    p, q, dotdot, erased := OneElem(name, p0, q0, dotdot0, erased0, rooted, s, r0.stack, e, out);
  }

  /** What one element leaves, and where that takes the reader, the writer, the fence and the flag. */
  lemma Turned(s: string, p: nat, q: nat, dotdot: nat, erased: bool, r0: Reduced) returns (r: Reduced, e: string, out: string)
    requires Progress(s, p, q, dotdot, erased, r0) && p < |s| && s[p] != '/'
    ensures e == Elem(s, p) && e != "" && out == Render(Rooted(s), r.stack)
    ensures r.stack == Kept(Rooted(s), r0.stack, e)
    ensures Progress(s, p + |e|, |out|, Fenced(dotdot, q, Rooted(s), e, |out|), Erased(erased, p, e, |out|), r)
  {
    e := Elem(s, p);
    r := Push(Rooted(s), r0, e);
    out := Render(Rooted(s), r.stack);
    assert e != "" by {
      ElemStep(s, p, r0);
    }
    ElemProgress(s, p, q, dotdot, erased, r0);
  }

  lemma NextChars(buf: seq<char>, s: string, p: nat, out: string)
    requires View(buf, s, p, out) && p < |s| && '\0' !in s
    ensures p + 1 < |buf| && buf[p + 1] == (if p + 1 < |s| then s[p + 1] else '\0')
    ensures p + 1 < |s| ==> p + 2 < |buf| && s[p + 1] != '\0' && buf[p + 2] == (if p + 2 < |s| then s[p + 2] else '\0')
    ensures p + 2 < |s| ==> s[p + 2] != '\0'
  {
    assert p + 1 < |s| ==> s[p + 1] in s;
    assert p + 2 < |s| ==> s[p + 2] in s;
  }

  /** One turn of the scan. */
  method ScanTurn(name: array<char>, p0: nat, q0: nat, dotdot0: nat, erased0: bool, rooted: bool, ghost s: string, ghost r0: Reduced)
    returns (p: nat, q: nat, dotdot: nat, erased: bool, ghost r: Reduced)
    requires rooted == Rooted(s) && Progress(s, p0, q0, dotdot0, erased0, r0) && '\0' !in s && p0 < |s|
    requires View(name[..], s, p0, Render(rooted, r0.stack))
    modifies name
    ensures p0 < p && Progress(s, p, q, dotdot, erased, r)
    ensures View(name[..], s, p, Render(rooted, r.stack))
    ensures SameFrom(name[..], old(name[..]), |s|)
  {
    assert name[..][p0] == s[p0];
    if name[p0] == '/' {
      AtSlash(s, p0, q0, dotdot0, erased0, r0);
      p, q, dotdot, erased, r := p0 + 1, q0, dotdot0, erased0, r0;
    } else {
      p, q, dotdot, erased, r := ElemRound(name, p0, q0, dotdot0, erased0, rooted, s, r0);
    }
  }

  /** The scan: everything up to the last few lines of cleanname. */
  method Scan(name: array<char>, rooted: bool, ghost s: string) returns (q: nat, erasedprefix: bool)
    requires View(name[..], s, 0, "") && '\0' !in s && rooted == Rooted(s)
    modifies name
    ensures q <= |s| < name.Length
    ensures Plain(s) == if q == 0 then "." else name[..q]
    ensures (erasedprefix && Plain(s)[0] == '#') <==> Clean(s) != Plain(s)
    ensures Clean(s) != Plain(s) ==> Clean(s) == "./" + Plain(s) && q != 0 && q + 2 <= |s|
    ensures SameFrom(name[..], old(name[..]), |s|)
  {
    erasedprefix := false;
    var p: nat := if rooted then 1 else 0;
    q := p;
    var dotdot: nat := p;
    ghost var r := Reduced([], StartsWithDot(s));
    Start(s);
    assert name[..q] == Render(rooted, []);
    while name[p] != '\0'
      invariant Progress(s, p, q, dotdot, erasedprefix, r)
      invariant View(name[..], s, p, Render(rooted, r.stack))
      invariant SameFrom(name[..], old(name[..]), |s|)
      decreases |s| - p
    {
      p, q, dotdot, erasedprefix, r := ScanTurn(name, p, q, dotdot, erasedprefix, rooted, s, r);
    }
    AtEnd(s, q, dotdot, erasedprefix, r);
    assert name[..q] == name[..][..q];
  }

  /** cleanname: the result replaces the argument in its own buffer, never reaching past the
      larger of its length and one character. */
  method Cleanname(name: array<char>, ghost s: string)
    requires Holds(name[..], s) && '\0' !in s && name.Length >= 2
    modifies name
    ensures Holds(name[..], Clean(s)) && |Clean(s)| <= Max(|s|, 1)
    ensures SameFrom(name[..], old(name[..]), Max(|s|, 1) + 1)
  {
    var rooted := name[0] == '/';
    HoldsView(name[..], s);
    var q, erasedprefix := Scan(name, rooted, s);
    Finish(name, q, erasedprefix, Plain(s), |s|);
  }

  lemma HoldsView(buf: seq<char>, s: string)
    requires Holds(buf, s) && '\0' !in s
    ensures View(buf, s, 0, "") && (buf[0] == '/' <==> Rooted(s))
  {
    assert forall k :: 0 <= k < |s| ==> buf[k] == s[k];
  }

  /** The last lines of cleanname: the empty name, the terminator, the guard. */
  method Finish(name: array<char>, q0: nat, erasedprefix: bool, ghost plain: string, ghost n: nat)
    requires plain != "" && plain == (if q0 == 0 then "." else if q0 <= name.Length then name[..q0] else "")
    requires 2 <= name.Length && q0 <= n < name.Length
    requires erasedprefix && plain[0] == '#' ==> q0 != 0 && q0 + 2 <= n
    modifies name
    ensures Holds(name[..], if erasedprefix && plain[0] == '#' then "./" + plain else plain)
    ensures SameFrom(name[..], old(name[..]), Max(n, 1) + 1)
  {
    var q := q0;
    if q == 0 {
      name[q] := '.';
      q := q + 1;
    }
    name[q] := '\0';
    assert name[..q] == plain;
    assert name[0] == plain[0];
    if erasedprefix && name[0] == '#' {
      ShiftRight(name, q);
      name[0], name[1] := '.', '/';
      assert name[2..q + 2] == plain;
      assert name[..q + 2] == "./" + plain;
    }
  }

  /** memmove of the first n + 1 characters by two. */
  method ShiftRight(a: array<char>, n: nat)
    requires n + 2 < a.Length
    modifies a
    ensures a[2..n + 3] == old(a[..n + 1]) && SameFrom(a[..], old(a[..]), n + 3)
  {
    forall i | 0 <= i <= n {
      a[i + 2] := a[i];
    }
  }
}
