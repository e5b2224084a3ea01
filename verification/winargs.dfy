/** qarg, args and the join of wcmdline in kern/win32.c: command lines quoted and taken apart. */
module WinArgs {
  import opened Words

  // ---------- Quoting ----------

  predicate Special(c: char) {
    c == ' ' || c == '\t' || c == '\n' || c == '\r' || c == '"'
  }

  predicate Plain(a: string) {
    a != "" && forall c <- a :: !Special(c)
  }

  function Slashes(n: nat): (s: string)
    ensures |s| == n && forall k :: 0 <= k < n ==> s[k] == '\\'
  {
    if n == 0 then "" else Slashes(n - 1) + ['\\']
  }

  /** Between the quotes, n backslashes copied last: as many again go in front of a quote or the end,
      and one more in front of a quote. */
  function Escape(s: string, n: nat): (r: string)
    ensures |r| <= 2 * |s| + n
  {
    if s == "" then Slashes(n)
    else if s[0] == '\\' then ['\\'] + Escape(s[1..], n + 1)
    else if s[0] == '"' then Slashes(n + 1) + (['"'] + Escape(s[1..], 0))
    else [s[0]] + Escape(s[1..], 0)
  }

  function Quoted(a: string): (r: string)
    ensures |r| <= 2 * |a| + 2
  {
    if Plain(a) then a else ['"'] + Escape(a, 0) + ['"']
  }

  /** wcmdline: the arguments quoted, with a space between them. */
  function CommandLine(argv: seq<string>): string {
    if argv == [] then ""
    else if |argv| == 1 then Quoted(argv[0])
    else Quoted(argv[0]) + [' '] + CommandLine(argv[1..])
  }

  // ---------- Taking apart ----------

  predicate Blank(c: char) {
    c == ' ' || c == '\t'
  }

  /** A word read and what follows it; or the end passed over. */
  datatype Read = Word(word: string, rest: string) | Overrun

  /** The inner loop of args, n backslashes counted last. Backslashes at the very end are followed by
      the terminator, which is copied like any other character and passed over. */
  function ReadWord(s: string, quote: bool, n: nat, word: string): Read
    decreases |s|
  {
    if s == "" then (if n == 0 then Word(word, s) else Overrun)
    else if s[0] == '\\' then ReadWord(s[1..], quote, n + 1, word)
    else if n == 0 && !quote && Blank(s[0]) then Word(word, s)
    else if s[0] != '"' then ReadWord(s[1..], quote, 0, word + Slashes(n) + [s[0]])
    else if n % 2 == 1 then ReadWord(s[1..], quote, 0, word + Slashes(n / 2) + [s[0]])
    else ReadWord(s[1..], !quote, 0, word + Slashes(n / 2))
  }

  lemma {:induction false} ReadWordRest(s: string, quote: bool, n: nat, word: string)
    ensures var r := ReadWord(s, quote, n, word); r.Word? ==> |r.rest| <= |s| && word <= r.word
    decreases |s|
  {
    if s != "" {
      if s[0] == '\\' {
        ReadWordRest(s[1..], quote, n + 1, word);
      } else if !(n == 0 && !quote && Blank(s[0])) {
        if s[0] != '"' {
          ReadWordRest(s[1..], quote, 0, word + Slashes(n) + [s[0]]);
        } else if n % 2 == 1 {
          ReadWordRest(s[1..], quote, 0, word + Slashes(n / 2) + [s[0]]);
        } else {
          ReadWordRest(s[1..], !quote, 0, word + Slashes(n / 2));
        }
      }
    }
  }

  function SkipBlanks(s: string): string {
    if s != "" && Blank(s[0]) then SkipBlanks(s[1..]) else s
  }

  /** args, with room for most words; None when it runs past the end. */
  function Parse(s: string, most: nat): Option<seq<string>>
    decreases most
  {
    if s == "" || most == 0 then Some([])
    else
      match ReadWord(SkipBlanks(s), false, 0, "")
      case Overrun => None
      case Word(w, rest) =>
        match Parse(if rest == "" then "" else rest[1..], most - 1)
        case None => None
        case Some(ws) => Some([w] + ws)
  }

  // ---------- Parsing undoes quoting ----------

  /** An argument that goes unquoted and ends in a backslash. */
  predicate Bare(a: string) {
    Plain(a) && a[|a| - 1] == '\\'
  }

  /** One character read. */
  lemma ReadOver(c: char, t: string, quote: bool, n: nat, word: string)
    ensures ReadWord([c] + t, quote, n, word)
         == if c == '\\' then ReadWord(t, quote, n + 1, word)
            else if n == 0 && !quote && Blank(c) then Word(word, [c] + t)
            else if c != '"' then ReadWord(t, quote, 0, word + Slashes(n) + [c])
            else if n % 2 == 1 then ReadWord(t, quote, 0, word + Slashes(n / 2) + [c])
            else ReadWord(t, !quote, 0, word + Slashes(n / 2))
  {
    var s := [c] + t;
    assert s[0] == c && s[1..] == t;
  }

  lemma {:induction false} ReadSlashes(m: nat, t: string, quote: bool, n: nat, word: string)
    ensures ReadWord(Slashes(m) + t, quote, n, word) == ReadWord(t, quote, n + m, word)
  {
    if m == 0 {
      assert Slashes(m) + t == t;
    } else {
      assert Slashes(m) + t == Slashes(m - 1) + (['\\'] + t);
      ReadSlashes(m - 1, ['\\'] + t, quote, n, word);
      ReadOver('\\', t, quote, n + m - 1, word);
    }
  }

  /** A word written so far, the backslashes counted, a character, and more. */
  lemma WordGrows(word: string, n: nat, c: char, t: string)
    ensures (word + Slashes(n) + [c]) + Slashes(0) + t == word + Slashes(n) + ([c] + t)
    ensures word + Slashes(n) + (['\\'] + t) == word + Slashes(n + 1) + t
  {
    assert Slashes(n + 1) == Slashes(n) + ['\\'];
  }

  lemma Cons(a: string)
    requires a != ""
    ensures a == [a[0]] + a[1..]
  {
  }

  lemma Assoc(a: string, b: string, c: string)
    ensures (a + b) + c == a + (b + c)
  {
  }

  /** A quote that was escaped is read back as a quote. */
  lemma ReadQuote(n: nat, more: string, word: string)
    ensures ReadWord(Slashes(n + 1) + (['"'] + more), true, n, word) == ReadWord(more, true, 0, word + Slashes(n) + ['"'])
  {
    ReadSlashes(n + 1, ['"'] + more, true, n, word);
    var m := 2 * n + 1;
    assert m % 2 == 1 && m / 2 == n;
    ReadOver('"', more, true, m, word);
  }

  /** The closing quote, with the backslashes in front of it doubled. */
  lemma ReadEnd(n: nat, rest: string, word: string)
    ensures ReadWord(Slashes(n) + (['"'] + rest), true, n, word) == ReadWord(rest, false, 0, word + Slashes(n))
  {
    ReadSlashes(n, ['"'] + rest, true, n, word);
    var m := 2 * n;
    assert m % 2 == 0 && m / 2 == n;
    ReadOver('"', rest, true, m, word);
  }

  /** The text between the quotes is read back, and the closing quote with it. */
  lemma {:induction false} ReadEscaped(a: string, n: nat, rest: string, word: string)
    ensures ReadWord(Escape(a, n) + (['"'] + rest), true, n, word) == ReadWord(rest, false, 0, word + Slashes(n) + a)
    decreases |a|
  {
    var end := ['"'] + rest;
    if a == "" {
      ReadEnd(n, rest, word);
      assert word + Slashes(n) + a == word + Slashes(n);
    } else {
      var c, t := a[0], a[1..];
      Cons(a);
      WordGrows(word, n, c, t);
      if c == '\\' {
        var e := Escape(t, n + 1);
        Assoc(['\\'], e, end);
        ReadOver(c, e + end, true, n, word);
        ReadEscaped(t, n + 1, rest, word);
      } else {
        var e := Escape(t, 0);
        ReadEscaped(t, 0, rest, word + Slashes(n) + [c]);
        if c == '"' {
          Assoc(Slashes(n + 1), ['"'] + e, end);
          Assoc(['"'], e, end);
          ReadQuote(n, e + end, word);
        } else {
          Assoc([c], e, end);
          ReadOver(c, e + end, true, n, word);
        }
      }
    }
  }

  predicate NoneSpecial(a: string) {
    forall c <- a :: !Special(c)
  }

  lemma NoneSpecialRest(a: string)
    requires a != "" && NoneSpecial(a)
    ensures !Special(a[0]) && NoneSpecial(a[1..])
  {
    assert forall c <- a[1..] :: c in a;
  }

  /** Ends in a backslash, after n of them. */
  predicate EndsBack(a: string, n: nat) {
    if a == "" then n > 0 else a[|a| - 1] == '\\'
  }

  lemma EndsBackRest(a: string, n: nat)
    requires a != ""
    ensures EndsBack(a, n) == EndsBack(a[1..], if a[0] == '\\' then n + 1 else 0)
  {
  }

  /** Unquoted text that does not end in a backslash is read back. */
  lemma {:induction false} ReadPlain(a: string, n: nat, rest: string, word: string)
    requires NoneSpecial(a) && !EndsBack(a, n) && (rest == "" || Blank(rest[0]))
    ensures ReadWord(a + rest, false, n, word) == Word(word + Slashes(n) + a, rest)
    decreases |a|
  {
    if a == "" {
      assert a + rest == rest && word + Slashes(0) + a == word;
    } else {
      var c, t := a[0], a[1..];
      Cons(a);
      Assoc([c], t, rest);
      NoneSpecialRest(a);
      EndsBackRest(a, n);
      WordGrows(word, n, c, t);
      ReadOver(c, t + rest, false, n, word);
      if c == '\\' {
        ReadPlain(t, n + 1, rest, word);
      } else {
        ReadPlain(t, 0, rest, word + Slashes(n) + [c]);
      }
    }
  }

  /** Unquoted text that ends in a backslash takes what follows with it. */
  lemma {:induction false} ReadBare(a: string, n: nat, rest: string, word: string)
    requires NoneSpecial(a) && EndsBack(a, n) && (rest == "" || Blank(rest[0]))
    ensures var r := ReadWord(a + rest, false, n, word);
            if rest == "" then r == Overrun else r.Word? ==> word + Slashes(n) + a + [rest[0]] <= r.word
    decreases |a|
  {
    if a == "" {
      assert a + rest == rest && word + Slashes(n) + a == word + Slashes(n);
      if rest != "" {
        Cons(rest);
        ReadOver(rest[0], rest[1..], false, n, word);
        ReadWordRest(rest[1..], false, 0, word + Slashes(n) + [rest[0]]);
      }
    } else {
      var c, t := a[0], a[1..];
      Cons(a);
      Assoc([c], t, rest);
      NoneSpecialRest(a);
      EndsBackRest(a, n);
      WordGrows(word, n, c, t);
      ReadOver(c, t + rest, false, n, word);
      if c == '\\' {
        ReadBare(t, n + 1, rest, word);
      } else {
        ReadBare(t, 0, rest, word + Slashes(n) + [c]);
      }
    }
  }

  lemma Starts(a: string, rest: string)
    ensures Quoted(a) + rest != "" && !Blank((Quoted(a) + rest)[0])
    ensures SkipBlanks(Quoted(a) + rest) == Quoted(a) + rest
  {
    assert Plain(a) ==> a[0] in a;
  }

  lemma QuotedReads(a: string, rest: string)
    requires !Bare(a) && (rest == "" || Blank(rest[0]))
    ensures ReadWord(Quoted(a) + rest, false, 0, "") == Word(a, rest)
  {
    assert "" + Slashes(0) + a == a;
    if Plain(a) {
      ReadPlain(a, 0, rest, "");
    } else {
      var e := Escape(a, 0);
      assert Quoted(a) + rest == ['"'] + (e + (['"'] + rest));
      ReadOver('"', e + (['"'] + rest), false, 0, "");
      assert "" + Slashes(0) == "";
      ReadEscaped(a, 0, rest, "");
      ReadNothing(a, rest);
    }
  }

  lemma ReadNothing(a: string, rest: string)
    requires rest == "" || Blank(rest[0])
    ensures ReadWord(rest, false, 0, a) == Word(a, rest)
  {
  }

  lemma BareReads(a: string, rest: string)
    requires Bare(a) && (rest == "" || Blank(rest[0]))
    ensures var r := ReadWord(Quoted(a) + rest, false, 0, "");
            if rest == "" then r == Overrun else r.Word? ==> r.word != a
  {
    ReadBare(a, 0, rest, "");
    if rest != "" {
      assert "" + Slashes(0) + a + [rest[0]] == a + [rest[0]];
    }
  }

  /** The rest of a command line after its first argument. */
  function Tail(argv: seq<string>): string
    requires argv != []
  {
    if |argv| == 1 then "" else [' '] + CommandLine(argv[1..])
  }

  lemma Parts(argv: seq<string>)
    requires argv != []
    ensures CommandLine(argv) == Quoted(argv[0]) + Tail(argv)
    ensures CommandLine(argv[1..]) == if Tail(argv) == "" then "" else Tail(argv)[1..]
  {
    assert |argv| == 1 ==> Quoted(argv[0]) + "" == Quoted(argv[0]);
  }

  /** How a line is taken apart once its first word is known. */
  lemma ParseFirst(s: string, most: nat)
    requires s != "" && most > 0 && SkipBlanks(s) == s
    ensures Parse(s, most)
         == match ReadWord(s, false, 0, "")
            case Overrun => None
            case Word(w, rest) =>
              match Parse(if rest == "" then "" else rest[1..], most - 1)
              case None => None
              case Some(ws) => Some([w] + ws)
  {
  }

  lemma ConsSame(w: string, ws: seq<string>, argv: seq<string>)
    requires argv != []
    ensures [w] + ws == argv <==> w == argv[0] && ws == argv[1..]
  {
    assert argv == [argv[0]] + argv[1..];
    assert ([w] + ws)[0] == w && ([w] + ws)[1..] == ws;
  }

  ghost predicate ReadsBack(argv: seq<string>, most: nat) {
    Parse(CommandLine(argv), most) == Some(argv)
  }

  lemma FirstDecides(argv: seq<string>, most: nat)
    requires argv != [] && most > 0
    ensures ReadsBack(argv, most) <==> !Bare(argv[0]) && ReadsBack(argv[1..], most - 1)
  {
    var a, rest := argv[0], Tail(argv);
    Parts(argv);
    Starts(a, rest);
    ParseFirst(Quoted(a) + rest, most);
    if Bare(a) {
      BareReads(a, rest);
    } else {
      QuotedReads(a, rest);
    }
    var r := ReadWord(Quoted(a) + rest, false, 0, "");
    if r.Word? {
      var q := Parse(if r.rest == "" then "" else r.rest[1..], most - 1);
      if q.Some? {
        ConsSame(r.word, q.value, argv);
      }
    }
  }

  predicate NoneBare(argv: seq<string>) {
    forall a <- argv :: !Bare(a)
  }

  lemma NoneBareSplit(argv: seq<string>)
    requires argv != []
    ensures NoneBare(argv) <==> !Bare(argv[0]) && NoneBare(argv[1..])
  {
    assert forall a :: a in argv <==> a == argv[0] || a in argv[1..];
  }

  ghost predicate Decides(good: (seq<string>, nat) -> bool, argv: seq<string>, most: nat)
    requires argv != [] && most > 0
  {
    good(argv, most) <==> !Bare(argv[0]) && good(argv[1..], most - 1)
  }

  lemma {:induction false} FirstAfterFirst(good: (seq<string>, nat) -> bool, argv: seq<string>, most: nat)
    requires most >= |argv| && forall m: nat :: good([], m)
    requires forall a: seq<string>, m: nat :: a != [] && m > 0 ==> Decides(good, a, m)
    ensures good(argv, most) <==> NoneBare(argv)
    decreases |argv|
  {
    if argv == [] {
      assert good([], most);
    } else {
      assert Decides(good, argv, most);
      NoneBareSplit(argv);
      FirstAfterFirst(good, argv[1..], most - 1);
    }
  }

  lemma EachDecides(good: (seq<string>, nat) -> bool)
    requires forall argv, most :: good(argv, most) == ReadsBack(argv, most)
    ensures forall a: seq<string>, m: nat :: a != [] && m > 0 ==> Decides(good, a, m)
    ensures forall m: nat :: good([], m)
  {
    forall a: seq<string>, m: nat | a != [] && m > 0
      ensures Decides(good, a, m)
    {
      FirstDecides(a, m);
    }
  }

  /** Joining the quoted arguments and taking the line apart gives the arguments back exactly when
      none of them goes unquoted with a backslash at its end. */
  lemma ParseUndoesQuoting(argv: seq<string>, most: nat)
    requires most >= |argv|
    ensures Parse(CommandLine(argv), most) == Some(argv) <==> NoneBare(argv)
  {
    var good := (a: seq<string>, m: nat) => ReadsBack(a, m);
    EachDecides(good);
    FirstAfterFirst(good, argv, most);
    assert good(argv, most) == ReadsBack(argv, most);
  }

  /** WinMain's guess at the number of arguments. */
  function Guess(s: string): nat {
    if s == "" then 4 else (if Blank(s[0]) then 1 else 0) + Guess(s[1..])
  }

  lemma {:induction false} GuessJoin(s: string, t: string)
    ensures Guess(s + t) == Guess(s) + Guess(t) - 4 && Guess(s) >= 4
  {
    if s == "" {
      assert s + t == t;
    } else {
      GuessJoin(s[1..], t);
      assert (s + t)[1..] == s[1..] + t;
    }
  }

  /** It leaves room for every argument and the nil that ends the list. */
  lemma {:induction false} GuessIsEnough(argv: seq<string>)
    ensures Guess(CommandLine(argv)) >= |argv| + 3
  {
    if |argv| == 1 {
      GuessJoin(Quoted(argv[0]), "");
    } else if |argv| > 1 {
      var rest := CommandLine(argv[1..]);
      GuessIsEnough(argv[1..]);
      GuessJoin(Quoted(argv[0]) + [' '], rest);
      GuessJoin(Quoted(argv[0]), [' ']);
    }
  }

  // ---------- args, in place ----------

  /** A C string lies in buf from start on, its terminator at end. */
  ghost predicate Ended(buf: array<char>, start: nat, end: nat)
    reads buf
  {
    start <= end < buf.Length && buf[end] == '\0' && forall k :: start <= k < end ==> buf[k] != '\0'
  }

  ghost predicate Holds(buf: array<char>, off: int, w: string)
    reads buf
  {
    0 <= off && Ended(buf, off, off + |w|) && buf[off..off + |w|] == w
  }

  method Fill(buf: array<char>, at: nat, m: nat)
    requires at + m <= buf.Length
    modifies buf
    ensures buf[at..at + m] == Slashes(m) && forall k :: at <= k < at + m ==> buf[k] == '\\'
    ensures forall k :: 0 <= k < at || at + m <= k < buf.Length ==> buf[k] == old(buf[k])
  {
    for j := 0 to m
      invariant forall k :: at <= k < at + j ==> buf[k] == '\\'
      invariant forall k :: 0 <= k < at || at + m <= k < buf.Length ==> buf[k] == old(buf[k])
    {
      buf[at + j] := '\\';
    }
  }

  /** The word after backslashes and the character behind them, and whether that turns the quoting. */
  function Copied(word: string, n: nat, c: char): string {
    if c != '"' then word + Slashes(n) + [c]
    else if n % 2 == 1 then word + Slashes(n / 2) + [c]
    else word + Slashes(n / 2)
  }

  predicate Turns(n: nat, c: char) {
    c == '"' && n % 2 == 0
  }

  lemma ReadCopied(c: char, t: string, quote: bool, n: nat, word: string)
    requires c != '\\' && (n > 0 || quote || !Blank(c))
    ensures ReadWord([c] + t, quote, n, word) == ReadWord(t, quote != Turns(n, c), 0, Copied(word, n, c))
  {
    ReadOver(c, t, quote, n, word);
  }

  lemma FirstOf(buf: array<char>, p: nat, end: nat)
    requires p < end <= buf.Length
    ensures buf[p..end] == [buf[p]] + buf[p + 1..end]
  {
  }

  lemma Glue(buf: array<char>, i: nat, j: nat, k: nat)
    requires i <= j <= k <= buf.Length
    ensures buf[i..k] == buf[i..j] + buf[j..k]
  {
  }

  method CountSlashes(buf: array<char>, p0: nat, ghost end: nat, ghost quote: bool, ghost word: string) returns (p: nat)
    requires Ended(buf, p0, end)
    ensures p0 <= p <= end && buf[p] != '\\'
    ensures p == p0 || buf[p0] == '\\'
    ensures ReadWord(buf[p0..end], quote, 0, word) == ReadWord(buf[p..end], quote, p - p0, word)
  {
    p := p0;
    ghost var n: nat, was := 0, ReadWord(buf[p0..end], quote, 0, word);
    while buf[p] == '\\'
      invariant p0 <= p <= end && n == p - p0 && (p == p0 || buf[p0] == '\\')
      invariant ReadWord(buf[p..end], quote, n, word) == was
      decreases end - p
    {
      SlashCounted(buf, p, end, quote, n, word);
      p, n := p + 1, n + 1;
    }
  }

  lemma SlashCounted(buf: array<char>, p: nat, end: nat, quote: bool, n: nat, word: string)
    requires Ended(buf, p, end) && buf[p] == '\\'
    ensures p < end && ReadWord(buf[p..end], quote, n, word) == ReadWord(buf[p + 1..end], quote, n + 1, word)
  {
    FirstOf(buf, p, end);
    ReadOver('\\', buf[p + 1..end], quote, n, word);
  }

  method WriteGroup(buf: array<char>, start: nat, at: nat, nbs: nat, c: char) returns (p2: nat)
    requires start <= at && at + nbs < buf.Length
    modifies buf
    ensures at <= p2 <= at + nbs + 1 && buf[start..p2] == Copied(old(buf[start..at]), nbs, c)
    ensures c != '\0' ==> forall k :: at <= k < p2 ==> buf[k] != '\0'
    ensures forall k :: 0 <= k < at || at + nbs < k < buf.Length ==> buf[k] == old(buf[k])
  {
    ghost var word := buf[start..at];
    var m := if c == '"' then nbs / 2 else nbs;
    Fill(buf, at, m);
    p2 := at + m;
    Glue(buf, start, at, p2);
    assert buf[start..at] == word;
    if c != '"' || nbs % 2 == 1 {
      ghost var most := buf[start..p2];
      buf[p2] := c;
      assert buf[start..p2] == most;
      p2 := p2 + 1;
      assert buf[start..p2] == most + [c];
    }
  }

  /** What args does once the backslashes are counted. The word written from start on and the text from
      p on leave the same to be read. */
  method TakeNext(buf: array<char>, start: nat, at: nat, p: nat, nbs: nat, quote: bool, ghost end: nat) returns (p2: nat, inside: bool, overrun: bool)
    requires start <= at && at + nbs <= p && Ended(buf, p, end) && buf[p] != '\\'
    requires if p < end then nbs > 0 || quote || !Blank(buf[p]) else nbs > 0
    modifies buf
    ensures at <= p2 <= p + 1 && overrun == (p == end)
    ensures p < end ==> forall k :: at <= k < p2 ==> buf[k] != '\0'
    ensures forall k :: 0 <= k < at || p < k < buf.Length ==> buf[k] == old(buf[k])
    ensures var was := ReadWord(old(buf[p..end]), quote, nbs, old(buf[start..at]));
            if p == end then was == Overrun else ReadWord(buf[p + 1..end], inside, 0, buf[start..p2]) == was
  {
    var c := buf[p];
    ghost var rest := if p < end then buf[p + 1..end] else "";
    if p < end {
      FirstOf(buf, p, end);
      ReadCopied(c, rest, quote, nbs, buf[start..at]);
    }
    p2 := WriteGroup(buf, start, at, nbs, c);
    overrun := c == '\0';
    inside := quote;
    if c == '"' && nbs % 2 == 0 {
      inside := !quote;
    }
    if p < end {
      assert buf[p + 1..end] == rest;
    }
  }

  /** One round of args' inner loop: backslashes and what follows them. */
  method Round(buf: array<char>, start: nat, at: nat, p0: nat, quote: bool, ghost end: nat) returns (p: nat, p2: nat, inside: bool, overrun: bool)
    requires start <= at <= p0 && Ended(buf, p0, end) && p0 < end && (quote || !Blank(buf[p0]))
    modifies buf
    ensures p0 < p && at <= p2 <= p <= buf.Length
    ensures !overrun ==> forall k :: at <= k < p2 ==> buf[k] != '\0'
    ensures forall k :: 0 <= k < at || p <= k < buf.Length ==> buf[k] == old(buf[k])
    ensures var was := ReadWord(old(buf[p0..end]), quote, 0, old(buf[start..at]));
            if overrun then was == Overrun else p <= end && ReadWord(buf[p..end], inside, 0, buf[start..p2]) == was
  {
    p := CountSlashes(buf, p0, end, quote, buf[start..at]);
    p2, inside, overrun := TakeNext(buf, start, at, p, p - p0, quote, end);
    p := p + 1;
  }

  /** The inner loop of args: one word read from start on, and written there. */
  method ReadOne(buf: array<char>, start: nat, ghost end: nat) returns (p: nat, p2: nat, overrun: bool)
    requires Ended(buf, start, end)
    modifies buf
    ensures start <= p2 <= p <= buf.Length
    ensures !overrun ==> forall k :: start <= k < p2 ==> buf[k] != '\0'
    ensures forall k :: 0 <= k < start || p <= k < buf.Length ==> buf[k] == old(buf[k])
    ensures match ReadWord(old(buf[start..end]), false, 0, "")
            case Overrun => overrun
            case Word(w, rest) => !overrun && p <= end && w == buf[start..p2] && rest == buf[p..end]
  {
    var quote := false;
    p, p2, overrun := start, start, false;
    ghost var all := ReadWord(buf[start..end], false, 0, "");
    assert buf[start..p2] == "";
    while buf[p] != '\0' && (quote || !Blank(buf[p]))
      invariant start <= p2 <= p <= end && Ended(buf, p, end) && forall k :: start <= k < p2 ==> buf[k] != '\0'
      invariant forall k :: 0 <= k < start || p <= k < buf.Length ==> buf[k] == old(buf[k])
      invariant ReadWord(buf[p..end], quote, 0, buf[start..p2]) == all
      decreases end - p
    {
      p, p2, quote, overrun := Round(buf, start, p2, p, quote, end);
      if overrun {
        return;
      }
    }
  }

  method Skip(buf: array<char>, p0: nat, ghost end: nat) returns (p: nat)
    requires Ended(buf, p0, end)
    ensures p0 <= p <= end && buf[p..end] == SkipBlanks(buf[p0..end])
  {
    p := p0;
    while buf[p] == ' ' || buf[p] == '\t'
      invariant p0 <= p <= end && SkipBlanks(buf[p..end]) == SkipBlanks(buf[p0..end])
      decreases end - p
    {
      assert buf[p..end][1..] == buf[p + 1..end];
      p := p + 1;
    }
  }

  /** What is left after the blank that ended a word. */
  function Past(rest: string): string {
    if rest == "" then "" else rest[1..]
  }

  /** The end of args' outer loop: past the blank, and a NUL behind the word. */
  method EndWord(buf: array<char>, start: nat, p0: nat, p2: nat, ghost end: nat) returns (p: nat)
    requires start <= p2 <= p0 && Ended(buf, p0, end) && forall k :: start <= k < p2 ==> buf[k] != '\0'
    modifies buf
    ensures p0 <= p && (p == p0 ==> p0 == end) && Ended(buf, p, end) && (p == end || p2 < p)
    ensures buf[p..end] == Past(old(buf[p0..end])) && Holds(buf, start, old(buf[start..p2]))
    ensures forall k :: 0 <= k < start ==> buf[k] == old(buf[k])
  {
    p := p0;
    if buf[p] != '\0' {
      p := p + 1;
    }
    buf[p2] := '\0';
    assert buf[start..p2] == old(buf[start..p2]);
    assert buf[p..end] == Past(old(buf[p0..end]));
  }

  /** One round of args' outer loop. */
  method Next(buf: array<char>, p0: nat, ghost end: nat) returns (start: nat, p: nat, overrun: bool, ghost word: string)
    requires Ended(buf, p0, end) && p0 < end
    modifies buf
    ensures match ReadWord(SkipBlanks(old(buf[p0..end])), false, 0, "")
            case Overrun => overrun
            case Word(w, rest) =>
              !overrun && word == w && p0 <= start && Ended(buf, p, end) && p0 < p
              && Holds(buf, start, w) && (p == end || start + |w| < p) && buf[p..end] == Past(rest)
              && forall k :: 0 <= k < p0 ==> buf[k] == old(buf[k])
  {
    start := Skip(buf, p0, end);
    var p2;
    p, p2, overrun := ReadOne(buf, start, end);
    word := "";
    if !overrun {
      word := buf[start..p2];
      p := EndWord(buf, start, p, p2, end);
    }
  }

  /** The words so far lie in front of p, where argv says. */
  ghost predicate Placed(buf: array<char>, argv: seq<int>, ws: seq<string>, p: nat, end: nat)
    reads buf
  {
    |ws| <= |argv| && forall k :: 0 <= k < |ws| ==> Holds(buf, argv[k], ws[k]) && (p == end || argv[k] + |ws[k]| < p)
  }

  function Append(ws: seq<string>, q: Option<seq<string>>): Option<seq<string>> {
    match q case None => None case Some(more) => Some(ws + more)
  }

  lemma ParseNext(s: string, most: nat, ws: seq<string>)
    requires s != "" && most > 0
    ensures Append(ws, Parse(s, most))
         == match ReadWord(SkipBlanks(s), false, 0, "")
            case Overrun => None
            case Word(w, rest) => Append(ws + [w], Parse(Past(rest), most - 1))
  {
    match ReadWord(SkipBlanks(s), false, 0, "")
    case Overrun =>
    case Word(w, rest) =>
      var q := Parse(Past(rest), most - 1);
      if q.Some? {
        assert ws + ([w] + q.value) == ws + [w] + q.value;
      }
  }

  lemma OnePlaced(buf: array<char>, argv: seq<int>, ws: seq<string>, p: nat, end: nat, start: nat, word: string)
    requires Placed(buf, argv, ws, p, end) && |ws| < |argv| && Holds(buf, start, word) && (p == end || start + |word| < p)
    ensures Placed(buf, argv[|ws| := start], ws + [word], p, end)
  {
  }

  /** What args has done by the time it is at p: the words so far are in place, and the rest of the text is
      still to be taken apart. */
  ghost predicate Upto(buf: array<char>, argv: array<int>, n: nat, ws: seq<string>, p: nat, end: nat, all: Option<seq<string>>)
    reads buf, argv
  {
    && p <= end && Ended(buf, p, end) && |ws| < n <= argv.Length
    && Placed(buf, argv[..], ws, p, end)
    && Append(ws, Parse(buf[p..end], n - 1 - |ws|)) == all
  }

  /** One more word. */
  method OneMore(argv: array<int>, n: nat, buf: array<char>, ghost end: nat, p: nat, i: nat, ghost ws: seq<string>, ghost all: Option<seq<string>>)
    returns (next: nat, overrun: bool, ghost word: string)
    requires Upto(buf, argv, n, ws, p, end, all) && i == |ws| < n - 1 && p < end
    modifies argv, buf
    ensures if overrun then all == None else p < next && Upto(buf, argv, n, ws + [word], next, end, all)
  {
    ParseNext(buf[p..end], n - 1 - i, ws);
    ghost var slots := argv[..];
    var start;
    start, next, overrun, word := Next(buf, p, end);
    if !overrun {
      forall k | 0 <= k < |ws|
        ensures Holds(buf, slots[k], ws[k]) && slots[k] + |ws[k]| < next
      {
        assert old(Holds(buf, slots[k], ws[k]));
        assert buf[slots[k]..slots[k] + |ws[k]|] == old(buf[slots[k]..slots[k] + |ws[k]|]);
      }
      OnePlaced(buf, slots, ws, next, end, start, word);
      argv[i] := start;
      assert argv[..] == slots[i := start];
    }
  }

  lemma AppendNothing(q: Option<seq<string>>, ws: seq<string>)
    ensures Append([], q) == q && Append(ws, Some([])) == Some(ws)
  {
    assert q.Some? ==> [] + q.value == q.value;
    assert ws + [] == ws;
  }

  /** args: the words of the command line, each a C string inside the buffer it was read from. */
  method Args(argv: array<int>, n: nat, buf: array<char>, ghost end: nat) returns (i: nat, overrun: bool)
    requires 1 <= n <= argv.Length && Ended(buf, 0, end)
    modifies argv, buf
    ensures match Parse(old(buf[..end]), n - 1)
            case None => overrun
            case Some(ws) => !overrun && i == |ws| < n && argv[i] == -1 && forall k :: 0 <= k < i ==> Holds(buf, argv[k], ws[k])
  {
    var p: nat := 0;
    i, overrun := 0, false;
    ghost var ws, all := [], Parse(buf[..end], n - 1);
    assert buf[0..end] == buf[..end];
    AppendNothing(all, ws);
    while i < n - 1 && buf[p] != '\0'
      invariant Upto(buf, argv, n, ws, p, end, all) && i == |ws|
      decreases end - p
    {
      ghost var word;
      p, overrun, word := OneMore(argv, n, buf, end, p, i, ws, all);
      if overrun {
        return;
      }
      i, ws := i + 1, ws + [word];
    }
    AppendNothing(all, ws);
    argv[i] := -1;
  }

  // ---------- qarg, into its buffer ----------

  /** What is still to be written when s is read up to i, and nothing once its end has been seen. */
  /** What has yet to be written from the i'th character on, after n backslashes. */
  function Behind(s: string, i: nat, n: nat): string
    requires i <= |s|
  {
    Escape(s[i..], n)
  }

  function Left(s: string, i: nat): string {
    if i <= |s| then Behind(s, i, 0) else ""
  }

  /** The first p characters of the buffer are done: behind the quote, the front of whole. */
  ghost predicate Matches(d: array<char>, p: nat, whole: string)
    reads d
  {
    1 <= p <= d.Length && p - 1 <= |whole| && forall k :: 1 <= k < p ==> d[k] == whole[k - 1]
  }

  lemma TakeOff(whole: string, q: nat, c: char, rest: string)
    requires q <= |whole| && whole[q..] == [c] + rest
    ensures q < |whole| && whole[q] == c && whole[q + 1..] == rest
  {
    assert whole[q..][0] == c && whole[q..][1..] == rest;
  }

  lemma TakeSlashes(whole: string, q: nat, n: nat, rest: string)
    requires q <= |whole| && whole[q..] == Slashes(n) + rest
    ensures q + n <= |whole| && whole[q + n..] == rest && forall k :: q <= k < q + n ==> whole[k] == '\\'
  {
    assert whole[q..][n..] == rest;
    assert forall k :: q <= k < q + n ==> whole[k] == whole[q..][k - q];
  }

  method AppendSlashes(d: array<char>, p: nat, n: nat, ghost whole: string)
    requires Matches(d, p, whole) && p + n <= d.Length && p - 1 + n <= |whole| && forall k :: p - 1 <= k < p - 1 + n ==> whole[k] == '\\'
    modifies d
    ensures Matches(d, p + n, whole) && d[0] == old(d[0])
  {
    Fill(d, p, n);
  }

  lemma EscapeSlash(s: string, i: nat, n: nat)
    requires i < |s| && s[i] == '\\'
    ensures Behind(s, i, n) == ['\\'] + Behind(s, i + 1, n + 1)
  {
    assert s[i..][0] == s[i] && s[i..][1..] == s[i + 1..];
  }

  lemma EscapeOther(s: string, i: nat, n: nat)
    requires i < |s| && s[i] != '\\'
    ensures Behind(s, i, n) == Slashes(if s[i] == '"' then n + 1 else 0) + ([s[i]] + Left(s, i + 1))
  {
    assert s[i..][0] == s[i] && s[i..][1..] == s[i + 1..];
    assert Slashes(0) + ([s[i]] + Left(s, i + 1)) == [s[i]] + Left(s, i + 1);
  }

  /** Backslashes copied and counted. */
  method CopySlashes(d: array<char>, at: nat, s: string, i0: nat, ghost whole: string) returns (n: nat)
    requires i0 <= |s| && at + |s| - i0 <= d.Length && Matches(d, at, whole) && Left(s, i0) == whole[at - 1..]
    modifies d
    ensures i0 + n <= |s| && (i0 + n < |s| ==> s[i0 + n] != '\\') && d[0] == old(d[0])
    ensures Matches(d, at + n, whole) && Behind(s, i0 + n, n) == whole[at + n - 1..]
  {
    n := 0;
    var p, i := at, i0;
    while i < |s| && s[i] == '\\'
      invariant p == at + n && i == i0 + n && i <= |s| && d[0] == old(d[0])
      invariant Matches(d, p, whole) && Behind(s, i, n) == whole[p - 1..]
    {
      EscapeSlash(s, i, n);
      TakeOff(whole, p - 1, '\\', Behind(s, i + 1, n + 1));
      d[p] := '\\';
      p, i, n := p + 1, i + 1, n + 1;
    }
  }

  /** What comes after n copied backslashes: as many more when a quote or the end follows and one more
      for the quote, then the character itself. */
  method CopyNext(d: array<char>, at: nat, s: string, i: nat, n: nat, ghost whole: string) returns (p: nat, next: nat)
    requires i <= |s| && (i < |s| ==> s[i] != '\\') && at + n + 2 <= d.Length
    requires Matches(d, at, whole) && Behind(s, i, n) == whole[at - 1..]
    modifies d
    ensures at <= p <= at + n + (if i < |s| then 2 else 0) && d[0] == old(d[0])
    ensures next == i + 1 && Matches(d, p, whole) && Left(s, next) == whole[p - 1..]
  {
    p, next := at, i + 1;
    NextParts(s, i, n, whole, at - 1);
    if i == |s| {
      AppendSlashes(d, p, n, whole);
      p := p + n;
    } else {
      if s[i] == '"' {
        AppendSlashes(d, p, n + 1, whole);
        p := p + n + 1;
      }
      d[p] := s[i];
      p := p + 1;
    }
  }

  /** What whole has there. */
  lemma NextParts(s: string, i: nat, n: nat, whole: string, q: nat)
    requires i <= |s| && (i < |s| ==> s[i] != '\\') && q <= |whole| && Behind(s, i, n) == whole[q..]
    ensures var m := if i == |s| then n else if s[i] == '"' then n + 1 else 0;
            && q + m <= |whole| && (forall k :: q <= k < q + m ==> whole[k] == '\\')
            && if i == |s| then Left(s, i + 1) == whole[q + m..]
               else q + m < |whole| && whole[q + m] == s[i] && Left(s, i + 1) == whole[q + m + 1..]
  {
    var m := if i == |s| then n else if s[i] == '"' then n + 1 else 0;
    BehindIs(s, i, n);
    if i == |s| {
      TakeSlashes(whole, q, m, "");
    } else {
      TakeSlashes(whole, q, m, [s[i]] + Left(s, i + 1));
      TakeOff(whole, q + m, s[i], Left(s, i + 1));
    }
  }

  lemma BehindIs(s: string, i: nat, n: nat)
    requires i <= |s| && (i < |s| ==> s[i] != '\\')
    ensures Behind(s, i, n) == if i == |s| then Slashes(n) + "" else Slashes(if s[i] == '"' then n + 1 else 0) + ([s[i]] + Left(s, i + 1))
  {
    if i < |s| {
      EscapeOther(s, i, n);
    } else {
      assert Slashes(n) + "" == Slashes(n);
    }
  }

  lemma AllLeft(s: string)
    ensures Left(s, 0) == Escape(s, 0) == Escape(s, 0)[0..] && Left(s, |s| + 1) == ""
  {
    assert s[0..] == s;
  }

  /** The loop of qarg. */
  method QuoteAll(d: array<char>, s: string) returns (p: nat)
    requires d.Length == 2 * |s| + 3
    modifies d
    ensures 1 <= p <= 2 * |s| + 1 && d[1..p] == Escape(s, 0) && d[0] == old(d[0])
  {
    var i: nat := 0;
    p := 1;
    ghost var whole := Escape(s, 0);
    AllLeft(s);
    while i <= |s|
      invariant i <= |s| + 1 && p + (if i <= |s| then 2 * (|s| - i) else 0) <= 2 * |s| + 1 && d[0] == old(d[0])
      invariant Matches(d, p, whole) && Left(s, i) == whole[p - 1..]
    {
      var n := CopySlashes(d, p, s, i, whole);
      p, i := CopyNext(d, p + n, s, i + n, n, whole);
    }
    assert p - 1 == |whole|;
  }

  /** qarg: the argument as it goes on a command line, in a buffer of 2n+3 bytes. */
  method Qarg(s: string) returns (d: array<char>, p: nat)
    ensures fresh(d) && d.Length == 2 * |s| + 3
    ensures p < d.Length && d[..p] == Quoted(s) && d[p] == '\0'
  {
    d := new char[2 * |s| + 3];
    var i: nat := 0;
    while i < |s| && !Special(s[i])
      invariant i <= |s| && forall k :: 0 <= k < i ==> !Special(s[k])
    {
      i := i + 1;
    }
    assert (i == |s| && i != 0) == Plain(s) by {
      assert i < |s| ==> s[i] in s;
    }
    if i == |s| && i != 0 {
      forall k | 0 <= k < |s| {
        d[k] := s[k];
      }
      p := |s|;
    } else {
      d[0] := '"';
      p := QuoteAll(d, s);
      d[p] := '"';
      p := p + 1;
      assert d[1..p - 1] == Escape(s, 0);
      assert d[..p] == [d[0]] + d[1..p - 1] + [d[p - 1]];
    }
    d[p] := '\0';
  }
}
