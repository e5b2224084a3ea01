/** What args of kern/win32.c makes of any command line, also of those that it did not quote itself. */
module WinLines {
  import opened Words
  import opened WinArgs

  /** An argument can be written in pieces: as it is, between quotes, or a quote (and n backslashes before it) by itself. */
  datatype Piece = AsIs(x: string) | InQuotes(x: string) | AQuote(n: nat)

  function Piecewise(p: Piece): string {
    match p
    case AsIs(x) => x
    case InQuotes(x) => ['"'] + Escape(x, 0) + ['"']
    case AQuote(n) => Slashes(2 * n + 1) + ['"']
  }

  function Meant(p: Piece): string {
    match p
    case AsIs(x) => x
    case InQuotes(x) => x
    case AQuote(n) => Slashes(n) + ['"']
  }

  /** What is written as it is has no blank or quote, and does not end in a backslash. */
  predicate PieceOk(p: Piece) {
    p.AsIs? ==> NoneSpecial(p.x) && !EndsBack(p.x, 0)
  }

  function Text(ps: seq<Piece>): string {
    if ps == [] then "" else Piecewise(ps[0]) + Text(ps[1..])
  }

  function Value(ps: seq<Piece>): string {
    if ps == [] then "" else Meant(ps[0]) + Value(ps[1..])
  }

  lemma {:induction false} ReadAsIs(a: string, n: nat, rest: string, word: string)
    requires NoneSpecial(a) && !EndsBack(a, n)
    ensures ReadWord(a + rest, false, n, word) == ReadWord(rest, false, 0, word + Slashes(n) + a)
    decreases |a|
  {
    if a == "" {
      assert a + rest == rest && word + Slashes(0) + a == word;
    } else {
      var c, t := a[0], a[1..];
      Cons(a);
      Assoc([c], t, rest);
      NoneSpecialRest(a);
      EndsBackRest(a, n);
      WordGrows(word, n, c, t);
      ReadOver(c, t + rest, false, n, word);
      if c == '\\' {
        ReadAsIs(t, n + 1, rest, word);
      } else {
        ReadAsIs(t, 0, rest, word + Slashes(n) + [c]);
      }
    }
  }

  lemma ReadInQuotes(x: string, rest: string, word: string)
    ensures ReadWord((['"'] + Escape(x, 0) + ['"']) + rest, false, 0, word) == ReadWord(rest, false, 0, word + x)
  {
    var e := Escape(x, 0);
    Assoc(['"'] + e, ['"'], rest);
    Assoc(['"'], e, ['"'] + rest);
    NoSlashes(word, x);
    ReadOver('"', e + (['"'] + rest), false, 0, word);
    ReadEscaped(x, 0, rest, word);
  }

  lemma NoSlashes(word: string, x: string)
    ensures word + Slashes(0) == word && word + Slashes(0) + x == word + x
  {
  }

  lemma ReadAQuote(n: nat, rest: string, word: string)
    ensures ReadWord((Slashes(2 * n + 1) + ['"']) + rest, false, 0, word) == ReadWord(rest, false, 0, word + (Slashes(n) + ['"']))
  {
    var m := 2 * n + 1;
    Assoc(Slashes(m), ['"'], rest);
    ReadSlashes(m, ['"'] + rest, false, 0, word);
    assert m % 2 == 1 && m / 2 == n;
    ReadOver('"', rest, false, m, word);
    Assoc(word, Slashes(n), ['"']);
  }

  lemma ReadPiece(p: Piece, rest: string, word: string)
    requires PieceOk(p)
    ensures ReadWord(Piecewise(p) + rest, false, 0, word) == ReadWord(rest, false, 0, word + Meant(p))
  {
    match p
    case AsIs(x) =>
      NoSlashes(word, x);
      ReadAsIs(x, 0, rest, word);
    case InQuotes(x) => ReadInQuotes(x, rest, word);
    case AQuote(n) => ReadAQuote(n, rest, word);
  }

  lemma {:induction false} ReadPieces(ps: seq<Piece>, rest: string, word: string)
    requires (forall p <- ps :: PieceOk(p)) && (rest == "" || Blank(rest[0]))
    ensures ReadWord(Text(ps) + rest, false, 0, word) == Word(word + Value(ps), rest)
    decreases |ps|
  {
    if ps == [] {
      assert Text(ps) + rest == rest && word + Value(ps) == word;
      ReadNothing(word, rest);
    } else {
      Assoc(Piecewise(ps[0]), Text(ps[1..]), rest);
      ReadPiece(ps[0], Text(ps[1..]) + rest, word);
      ReadPieces(ps[1..], rest, word + Meant(ps[0]));
      Assoc(word, Meant(ps[0]), Value(ps[1..]));
    }
  }

  /** A command line: blanks before each argument, and behind the last. */
  datatype Line = End(tail: string) | Arg(gap: string, ps: seq<Piece>, more: Line)

  predicate Blanks(s: string) {
    forall c <- s :: Blank(c)
  }

  predicate LineOk(l: Line) {
    match l
    case End(tail) => Blanks(tail)
    case Arg(gap, ps, more) =>
      Blanks(gap) && (forall p <- ps :: PieceOk(p)) && Text(ps) != "" && LineOk(more) && (more.Arg? ==> more.gap != "")
  }

  function Written(l: Line): string {
    match l
    case End(tail) => tail
    case Arg(gap, ps, more) => gap + (Text(ps) + Written(more))
  }

  function Values(l: Line): seq<string> {
    if l.End? then [] else [Value(l.ps)] + Values(l.more)
  }

  function TailOf(l: Line): string {
    if l.End? then l.tail else TailOf(l.more)
  }

  lemma {:induction false} SkipsBlanks(gap: string, t: string)
    requires Blanks(gap) && (t == "" || !Blank(t[0]))
    ensures SkipBlanks(gap + t) == t
    decreases |gap|
  {
    if gap == "" {
      assert gap + t == t;
    } else {
      assert (gap + t)[0] == gap[0] && (gap + t)[1..] == gap[1..] + t;
      SkipsBlanks(gap[1..], t);
    }
  }

  lemma PieceStarts(p: Piece)
    requires PieceOk(p) && Piecewise(p) != ""
    ensures !Blank(Piecewise(p)[0])
  {
    if p.AsIs? { assert p.x[0] in p.x; }
  }

  lemma {:induction false} TextStarts(ps: seq<Piece>)
    requires (forall p <- ps :: PieceOk(p)) && Text(ps) != ""
    ensures !Blank(Text(ps)[0])
    decreases |ps|
  {
    var x := Piecewise(ps[0]);
    if x == "" {
      assert Text(ps) == Text(ps[1..]);
      TextStarts(ps[1..]);
    } else {
      assert Text(ps)[0] == x[0];
      PieceStarts(ps[0]);
    }
  }

  /** Without the first blank of a line. */
  function Chopped(l: Line): Line {
    match l
    case End(tail) => End(if tail == "" then "" else tail[1..])
    case Arg(gap, ps, more) => Arg(if gap == "" then "" else gap[1..], ps, more)
  }

  lemma {:induction false} ChoppedIs(l: Line)
    requires LineOk(l) && (l.Arg? ==> l.gap != "")
    ensures LineOk(Chopped(l)) && Written(Chopped(l)) == (if Written(l) == "" then "" else Written(l)[1..])
    ensures Values(Chopped(l)) == Values(l) && (Written(l) == "" || Blank(Written(l)[0]))
    ensures TailOf(Chopped(l)) == if l.End? && l.tail != "" then l.tail[1..] else TailOf(l)
  {
    if l.Arg? {
      assert l.gap[0] in l.gap;
      assert Written(l)[1..] == l.gap[1..] + (Text(l.ps) + Written(l.more));
    }
  }

  /** Two or more blanks at the end of a line, or any when it has no arguments, come out as one more argument. */
  function Extra(l: Line): seq<string> {
    if |TailOf(l)| > (if l.End? then 0 else 1) then [""] else []
  }

  lemma ChoppedExtra(l: Line)
    requires LineOk(l) && l.Arg?
    ensures Extra(Chopped(l.more)) == Extra(l) && Values(Chopped(l.more)) == Values(l.more)
  {
    ChoppedIs(l.more);
    assert TailOf(l) == TailOf(l.more);
    if l.more.End? { assert TailOf(l.more) == l.more.tail; }
  }

  lemma FirstOfAll(w: string, ws: seq<string>, more: seq<string>)
    ensures [w] + (ws + more) == ([w] + ws) + more && [] + more == more
  {
  }

  /** Every line comes apart into its arguments, whatever the number of blanks between them and however they are
      written, and the extra one. */
  lemma {:induction false} ParseWritten(l: Line, most: nat)
    requires LineOk(l) && most > |Values(l)|
    ensures Parse(Written(l), most) == Some(Values(l) + Extra(l))
    decreases |Values(l)|
  {
    match l
    case End(tail) =>
      ParseEnd(tail, most);
      FirstOfAll("", [], Extra(l));
    case Arg(gap, ps, more) =>
      ParseArg(gap, ps, more, most);
      ChoppedIs(more);
      ChoppedExtra(l);
      ParseWritten(Chopped(more), most - 1);
      FirstOfAll(Value(ps), Values(more), Extra(l));
  }

  lemma ParseEnd(tail: string, most: nat)
    requires Blanks(tail) && most > 0
    ensures Parse(tail, most) == Some(if tail == "" then [] else [""])
  {
    if tail != "" {
      SkipsBlanks(tail, "");
      assert tail + "" == tail;
      ParseSkips(tail, "", most);
      assert [""] + [] == [""];
    }
  }

  /** The first argument is read, and a blank behind it passed over. */
  lemma ParseArg(gap: string, ps: seq<Piece>, more: Line, most: nat)
    requires LineOk(Arg(gap, ps, more)) && most > 0
    ensures Parse(Written(Arg(gap, ps, more)), most)
         == match Parse(Written(Chopped(more)), most - 1)
            case None => None
            case Some(ws) => Some([Value(ps)] + ws)
  {
    var s, rest := Text(ps) + Written(more), Written(more);
    ChoppedIs(more);
    TextStarts(ps);
    SkipsBlanks(gap, s);
    ReadPieces(ps, rest, "");
    assert "" + Value(ps) == Value(ps);
    ParseSkips(gap, s, most);
  }

  lemma ParseSkips(gap: string, s: string, most: nat)
    requires gap + s != "" && most > 0 && SkipBlanks(gap + s) == s
    ensures Parse(gap + s, most)
         == match ReadWord(s, false, 0, "")
            case Overrun => None
            case Word(w, rest) =>
              match Parse(if rest == "" then "" else rest[1..], most - 1)
              case None => None
              case Some(ws) => Some([w] + ws)
  {
  }
}
