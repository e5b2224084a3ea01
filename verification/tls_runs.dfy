/**
 Two ends of the record layer of kern/devtls.c joined by a channel that keeps bytes in order: any
 number of writes, reads and changes of cipher, in any interleaving.
 */
module TlsRuns {
  import opened Words
  import opened Blocks
  import opened Tls
  import opened TlsIo

  /** What the two ends have agreed on: keys(k) is the secret of the k-th change of cipher. */
  datatype Deal = Deal(c: Crypto, version: nat, keys: nat -> Secret)

  ghost predicate DealOk(d: Deal) {
    Ideal(d.c) && d.version < 0x1_0000 && forall k :: SecretOk(d.keys(k))
  }

  /** A record not yet read. */
  datatype Rec1 = Rec1(ty: byte, data: Bytes)

  /** A side between records: the cipher in use, the records counted, the changes so far. */
  datatype Pos = Pos(sec: Option<Secret>, n: nat, k: nat)

  datatype Cause = NoCipher | NotOpened | BadRecord

  /** outk and ink count the changes of cipher, and asked the changecipher commands that have found a new cipher
      and have still to write; pending is what the records on the channel are, which the program does not keep. */
  datatype Link = Link(out: Way, outk: nat, asked: nat, inn: Way, ink: nat, wire: Bytes, pending: seq<Rec1>, ready: bool,
                       written: Bytes, hwritten: Bytes, delivered: Bytes, hdelivered: Bytes, dead: Option<Cause>)

  ghost predicate Init(l: Link) {
    l == Link(Way(None, 0, None), 0, 0, Way(None, 0, None), 0, [], [], false, [], [], [], [], None)
  }

  function Recs(ty: byte, fs: seq<Bytes>): seq<Rec1> {
    seq(|fs|, i requires 0 <= i < |fs| => Rec1(ty, fs[i]))
  }

  // ---------- Steps ----------

  /** What the processes at the writing end may do: how many may be in a changecipher command at once, and whether
      a secret command may fail while one is. */
  datatype Rules = Rules(most: nat, meanwhile: bool)

  /** The secret command, at the writing and at the reading end. */
  ghost predicate NewOut(d: Deal, l: Link, m: Link) {
    m == l.(out := l.out.(next := Some(d.keys(l.outk))))
  }

  ghost predicate NewIn(d: Deal, l: Link, m: Link) {
    m == l.(inn := l.inn.(next := Some(d.keys(l.ink))))
  }

  ghost predicate Opened(l: Link, m: Link) {
    l.inn.sec.Some? && m == l.(ready := true)
  }

  ghost predicate Write(d: Deal, l: Link, m: Link, ty: byte, data: Bytes) {
    && (ty == APPLICATION || ty == HANDSHAKE) && data != [] && WayOk(l.out)
    && var r := WriteAll(d.c, d.version, l.out, ty, Fragments(data));
    && m == l.(out := r.way, wire := l.wire + r.wire, pending := l.pending + Recs(ty, Fragments(data)),
               written := if ty == APPLICATION then l.written + data else l.written,
               hwritten := if ty == HANDSHAKE then l.hwritten + data else l.hwritten)
  }

  /** A secret command that fails has let go of the new cipher that was there. */
  ghost predicate ForgetOut(l: Link, m: Link, rules: Rules) {
    (rules.meanwhile || l.asked == 0) && m == l.(out := l.out.(next := None))
  }

  ghost predicate ForgetIn(l: Link, m: Link) {
    m == l.(inn := l.inn.(next := None))
  }

  /** The changecipher command first sees that there is a new cipher, and lets others go on. */
  ghost predicate Ask(l: Link, m: Link, rules: Rules) {
    l.out.next.Some? && l.asked < rules.most && m == l.(asked := l.asked + 1)
  }

  /** Then it writes. */
  ghost predicate Change(d: Deal, l: Link, m: Link) {
    && l.asked > 0 && WayOk(l.out)
    && var r := WriteAll(d.c, d.version, l.out, CHANGECIPHER, Fragments([1]));
    && m == if r.ok then l.(asked := l.asked - 1, out := r.way, outk := l.outk + 1, wire := l.wire + r.wire,
                            pending := l.pending + [Rec1(CHANGECIPHER, [1])])
            else l.(asked := l.asked - 1, out := r.way)
  }

  /** tlsrecread, when there is a whole record. */
  ghost predicate Read(d: Deal, l: Link, m: Link)
    requires Ideal(d.c)
  {
    && l.dead == None
    && match Parse(d.c, d.version, l.inn, l.wire)
       case NeedMore => false
       case Bad => m == l.(dead := Some(BadRecord))
       case Rec(ty, data, rest) =>
         var l1 := l.(inn := Counted(l.inn), wire := rest, pending := if l.pending == [] then [] else l.pending[1..]);
         m == if ty == CHANGECIPHER then
                if data == [1] && l.inn.next.Some? then l1.(inn := Way(l.inn.next, 0, None), ink := l.ink + 1)
                else l1.(dead := Some(NoCipher))
              else if ty == HANDSHAKE then l1.(hdelivered := l.hdelivered + data)
              else if ty == APPLICATION then
                if l.ready then l1.(delivered := l.delivered + data) else l1.(dead := Some(NotOpened))
              else l1.(dead := Some(BadRecord))
  }

  ghost predicate Step(d: Deal, l: Link, m: Link, rules: Rules)
    requires Ideal(d.c)
  {
    || NewOut(d, l, m) || NewIn(d, l, m) || Opened(l, m) || ForgetOut(l, m, rules) || ForgetIn(l, m)
    || Ask(l, m, rules) || Change(d, l, m) || Read(d, l, m)
    || (exists ty, data :: Write(d, l, m, ty, data))
  }

  ghost predicate StepAt(d: Deal, run: seq<Link>, i: nat, rules: Rules)
    requires Ideal(d.c) && i < |run| - 1
  {
    Step(d, run[i], run[i + 1], rules)
  }

  ghost predicate Run(d: Deal, run: seq<Link>, rules: Rules)
    requires Ideal(d.c)
  {
    && run != [] && Init(run[0])
    && forall i :: 0 <= i < |run| - 1 ==> StepAt(d, run, i, rules)
  }

  /** At most one changecipher command at a time, and no secret command that fails meanwhile. */
  predicate Apart(rules: Rules) {
    rules.most == 0 || (rules.most == 1 && !rules.meanwhile)
  }

  // ---------- Records under their ciphers ----------

  function NextPos(d: Deal, p: Pos, ty: byte): Pos {
    if ty == CHANGECIPHER then Pos(Some(d.keys(p.k)), 0, p.k + 1)
    else if p.sec.Some? then p.(n := p.n + 1) else p
  }

  ghost predicate PosOk(p: Pos) {
    p.sec.Some? ==> SecretOk(p.sec.value)
  }

  /** Records from position p on, each under the cipher and count that it finds. */
  function Encode(d: Deal, p: Pos, rs: seq<Rec1>): Bytes
    requires (p.sec.Some? ==> p.sec.value.block <= 256) && forall k :: SecretOk(d.keys(k))
    decreases |rs|
  {
    assert SecretOk(d.keys(p.k));
    if rs == [] then []
    else Record(d.c, d.version, Way(p.sec, p.n, None), rs[0].ty, rs[0].data) + Encode(d, NextPos(d, p, rs[0].ty), rs[1..])
  }

  function Final(d: Deal, p: Pos, rs: seq<Rec1>): Pos
    decreases |rs|
  {
    if rs == [] then p else Final(d, NextPos(d, p, rs[0].ty), rs[1..])
  }

  lemma {:induction false} FinalJoin(d: Deal, p: Pos, rs: seq<Rec1>, ts: seq<Rec1>)
    requires DealOk(d) && PosOk(p)
    ensures PosOk(Final(d, p, rs)) && Final(d, p, rs + ts) == Final(d, Final(d, p, rs), ts)
    decreases |rs|
  {
    if rs == [] {
      assert rs + ts == ts;
    } else {
      assert (rs + ts)[0] == rs[0] && (rs + ts)[1..] == rs[1..] + ts;
      FinalJoin(d, NextPos(d, p, rs[0].ty), rs[1..], ts);
    }
  }

  lemma Assoc(a: Bytes, b: Bytes, c: Bytes)
    ensures a + (b + c) == (a + b) + c
  {
  }

  lemma {:induction false} EncodeJoin(d: Deal, p: Pos, rs: seq<Rec1>, ts: seq<Rec1>)
    requires DealOk(d) && PosOk(p)
    ensures PosOk(Final(d, p, rs)) && Final(d, p, rs + ts) == Final(d, Final(d, p, rs), ts)
    ensures Encode(d, p, rs + ts) == Encode(d, p, rs) + Encode(d, Final(d, p, rs), ts)
    decreases |rs|
  {
    FinalJoin(d, p, rs, ts);
    if rs == [] {
      assert rs + ts == ts;
    } else {
      assert (rs + ts)[0] == rs[0] && (rs + ts)[1..] == rs[1..] + ts;
      var q := NextPos(d, p, rs[0].ty);
      EncodeJoin(d, q, rs[1..], ts);
      Assoc(Record(d.c, d.version, Way(p.sec, p.n, None), rs[0].ty, rs[0].data), Encode(d, q, rs[1..]), Encode(d, Final(d, q, rs[1..]), ts));
    }
  }

  /** Where a side stands. */
  function At(w: Way, k: nat): Pos {
    Pos(w.sec, w.n, k)
  }

  lemma {:induction false} WriteIsEncode(d: Deal, w: Way, k: nat, ty: byte, fs: seq<Bytes>)
    requires DealOk(d) && WayOk(w) && ty != CHANGECIPHER
    ensures var r := WriteAll(d.c, d.version, w, ty, fs);
            && r.ok && r.wire == Encode(d, At(w, k), Recs(ty, fs)) && r.way.next == w.next
            && At(r.way, k) == Final(d, At(w, k), Recs(ty, fs))
    decreases |fs|
  {
    if fs != [] {
      assert Recs(ty, fs) == [Rec1(ty, fs[0])] + Recs(ty, fs[1..]);
      EncodeCons(d, w, k, Rec1(ty, fs[0]), Recs(ty, fs[1..]));
      WriteIsEncode(d, After(w, ty), k, ty, fs[1..]);
    }
  }

  lemma EncodeCons(d: Deal, w: Way, k: nat, r: Rec1, rs: seq<Rec1>)
    requires DealOk(d) && WayOk(w) && r.ty != CHANGECIPHER
    ensures NextPos(d, At(w, k), r.ty) == At(After(w, r.ty), k) && WayOk(After(w, r.ty))
    ensures Encode(d, At(w, k), [r] + rs) == Record(d.c, d.version, w, r.ty, r.data) + Encode(d, At(After(w, r.ty), k), rs)
    ensures Final(d, At(w, k), [r] + rs) == Final(d, At(After(w, r.ty), k), rs)
  {
    assert ([r] + rs)[1..] == rs;
    assert Record(d.c, d.version, w, r.ty, r.data) == Record(d.c, d.version, Way(w.sec, w.n, None), r.ty, r.data);
  }

  lemma ChangeIsEncode(d: Deal, w: Way, k: nat)
    requires DealOk(d) && WayOk(w) && w.next == Some(d.keys(k))
    ensures var r := WriteAll(d.c, d.version, w, CHANGECIPHER, Fragments([1]));
            && r.ok && r.wire == Encode(d, At(w, k), [Rec1(CHANGECIPHER, [1])]) && r.way.next == None
            && At(r.way, k + 1) == Final(d, At(w, k), [Rec1(CHANGECIPHER, [1])])
  {
    var one: Bytes := [1];
    FirstFragment(one);
    var fs := Fragments(one);
    assert fs == [one] + fs[1..];
    var rs := [Rec1(CHANGECIPHER, one)];
    assert rs[1..] == [] && fs[1..] == [];
    assert Record(d.c, d.version, w, CHANGECIPHER, one) == Record(d.c, d.version, Way(w.sec, w.n, None), CHANGECIPHER, one);
    assert WriteAll(d.c, d.version, After(w, CHANGECIPHER), CHANGECIPHER, fs[1..]) == Written([], After(w, CHANGECIPHER), true);
  }

  // ---------- Reading a record back ----------

  /** Records that the writing end makes: never empty, never too long. */
  ghost predicate RecOk(r: Rec1) {
    && r.data != [] && |r.data| <= MAXREC && (r.ty == CHANGECIPHER ==> r.data == [1])
    && (r.ty == CHANGECIPHER || r.ty == HANDSHAKE || r.ty == APPLICATION)
  }

  lemma RecordLayout(d: Deal, p: Pos, r: Rec1, rest: Bytes, body: Bytes)
    requires DealOk(d) && PosOk(p)
    requires body == if p.sec.Some? then Seal(d.c, p.sec.value, d.version, p.n, r.ty, r.data) else r.data
    requires |body| < 0x1_0000
    ensures var all := Record(d.c, d.version, Way(p.sec, p.n, None), r.ty, r.data) + rest;
            && |all| >= HDR + |body| && all[0] == r.ty && Get16(all[1..]) == d.version && Get16(all[3..]) == |body|
            && all[HDR..HDR + |body|] == body && all[HDR + |body|..] == rest
  {
    var h := Header(r.ty, d.version, |body|);
    var all := Record(d.c, d.version, Way(p.sec, p.n, None), r.ty, r.data) + rest;
    assert all == h + (body + rest);
    GetPut16(d.version);
    GetPut16(|body|);
    assert h[1..3] == Be16(d.version) && h[3..5] == Be16(|body|);
    assert all[1] == h[1] && all[2] == h[2] && all[3] == h[3] && all[4] == h[4];
  }

  /** What tlsrecread makes of a record written at the position where it stands. */
  lemma ReadBack(d: Deal, w: Way, k: nat, r: Rec1, rest: Bytes)
    requires DealOk(d) && WayOk(w) && RecOk(r)
    ensures Parse(d.c, d.version, w, Record(d.c, d.version, Way(w.sec, w.n, None), r.ty, r.data) + rest) == Rec(r.ty, r.data, rest)
  {
    var p := At(w, k);
    var body := if w.sec.Some? then Seal(d.c, w.sec.value, d.version, w.n, r.ty, r.data) else r.data;
    if w.sec.Some? { OpenSeal(d.c, w.sec.value, d.version, w.n, r.ty, r.data); }
    RecordLayout(d, p, r, rest, body);
  }

  // ---------- The invariant ----------

  /** The bytes of one kind in the records not yet read. */
  function Data(rs: seq<Rec1>, ty: byte): Bytes {
    if rs == [] then [] else (if rs[0].ty == ty then rs[0].data else []) + Data(rs[1..], ty)
  }

  ghost predicate SidesOk(d: Deal, l: Link) {
    && WayOk(l.out) && WayOk(l.inn)
    && (l.out.next.Some? ==> l.out.next == Some(d.keys(l.outk)))
    && (l.inn.next.Some? ==> l.inn.next == Some(d.keys(l.ink)))
  }

  /** What is on the channel is the pending records, read from where the reader stands, and past them
      the two ends stand at the same place. */
  ghost predicate InStep(d: Deal, l: Link)
    requires DealOk(d) && WayOk(l.inn)
  {
    l.wire == Encode(d, At(l.inn, l.ink), l.pending) && Final(d, At(l.inn, l.ink), l.pending) == At(l.out, l.outk)
  }

  /** Whoever is in a changecipher command will find a new cipher. */
  ghost predicate Served(l: Link, rules: Rules) {
    l.asked <= rules.most && (l.asked > 0 ==> l.out.next.Some?)
  }

  ghost predicate Inv(d: Deal, l: Link)
    requires DealOk(d)
  {
    && SidesOk(d, l) && (forall r <- l.pending :: RecOk(r))
    && (l.dead == None ==> InStep(d, l) && l.delivered + Data(l.pending, APPLICATION) == l.written
                           && l.hdelivered + Data(l.pending, HANDSHAKE) == l.hwritten)
    && l.delivered <= l.written && l.hdelivered <= l.hwritten && l.dead != Some(BadRecord)
  }

  lemma {:induction false} DataJoin(rs: seq<Rec1>, ts: seq<Rec1>, ty: byte)
    ensures Data(rs + ts, ty) == Data(rs, ty) + Data(ts, ty)
    decreases |rs|
  {
    if rs == [] {
      assert rs + ts == ts;
    } else {
      assert (rs + ts)[0] == rs[0] && (rs + ts)[1..] == rs[1..] + ts;
      DataJoin(rs[1..], ts, ty);
    }
  }

  lemma {:induction false} DataOf(ty: byte, fs: seq<Bytes>, ty': byte)
    ensures Data(Recs(ty, fs), ty') == if ty == ty' then Flat(fs) else []
    decreases |fs|
  {
    if fs != [] {
      assert Recs(ty, fs)[1..] == Recs(ty, fs[1..]) && Recs(ty, fs)[0] == Rec1(ty, fs[0]);
      DataOf(ty, fs[1..], ty');
    }
  }

  /** A stream with records added to those not yet read. */
  lemma StreamGrows(delivered: Bytes, pending: seq<Rec1>, rs: seq<Rec1>, ty: byte, written: Bytes)
    requires delivered + Data(pending, ty) == written
    ensures delivered + Data(pending + rs, ty) == written + Data(rs, ty)
  {
    DataJoin(pending, rs, ty);
    assert delivered + (Data(pending, ty) + Data(rs, ty)) == (delivered + Data(pending, ty)) + Data(rs, ty);
  }

  lemma WriteStreams(l: Link, ty: byte, fs: seq<Bytes>)
    requires l.delivered + Data(l.pending, APPLICATION) == l.written && l.hdelivered + Data(l.pending, HANDSHAKE) == l.hwritten
    ensures l.delivered + Data(l.pending + Recs(ty, fs), APPLICATION) == if ty == APPLICATION then l.written + Flat(fs) else l.written
    ensures l.hdelivered + Data(l.pending + Recs(ty, fs), HANDSHAKE) == if ty == HANDSHAKE then l.hwritten + Flat(fs) else l.hwritten
  {
    StreamGrows(l.delivered, l.pending, Recs(ty, fs), APPLICATION, l.written);
    StreamGrows(l.hdelivered, l.pending, Recs(ty, fs), HANDSHAKE, l.hwritten);
    DataOf(ty, fs, APPLICATION);
    DataOf(ty, fs, HANDSHAKE);
    assert l.written + [] == l.written && l.hwritten + [] == l.hwritten;
  }

  lemma WriteKeeps(d: Deal, l: Link, m: Link, ty: byte, data: Bytes)
    requires DealOk(d) && Inv(d, l) && Write(d, l, m, ty, data)
    ensures Inv(d, m)
  {
    var fs := Fragments(data);
    var rs := Recs(ty, fs);
    WriteIsEncode(d, l.out, l.outk, ty, fs);
    forall r <- m.pending ensures RecOk(r) {
      if r !in l.pending {
        var i :| 0 <= i < |rs| && rs[i] == r;
        assert fs[i] in fs;
      }
    }
    if l.dead == None {
      EncodeJoin(d, At(l.inn, l.ink), l.pending, rs);
      WriteStreams(l, ty, fs);
    }
  }

  lemma ChangeKeeps(d: Deal, l: Link, m: Link)
    requires DealOk(d) && Inv(d, l) && Change(d, l, m) && l.out.next.Some?
    ensures Inv(d, m)
  {
    var rs := [Rec1(CHANGECIPHER, [1])];
    ChangeIsEncode(d, l.out, l.outk);
    if l.dead == None {
      EncodeJoin(d, At(l.inn, l.ink), l.pending, rs);
      assert rs == Recs(CHANGECIPHER, [[1]]);
      WriteStreams(l, CHANGECIPHER, [[1]]);
    }
  }

  /** The record that the reader finds is the first of those pending, and the rest stay in step. */
  lemma ReadIs(d: Deal, l: Link)
    requires DealOk(d) && SidesOk(d, l) && InStep(d, l) && forall r <- l.pending :: RecOk(r)
    ensures if l.pending == [] then Parse(d.c, d.version, l.inn, l.wire) == NeedMore
            else var r := l.pending[0]; var q := NextPos(d, At(l.inn, l.ink), r.ty);
                 && RecOk(r) && PosOk(q)
                 && Parse(d.c, d.version, l.inn, l.wire) == Rec(r.ty, r.data, Encode(d, q, l.pending[1..]))
                 && Final(d, q, l.pending[1..]) == At(l.out, l.outk)
  {
    if l.pending != [] {
      var r := l.pending[0];
      assert RecOk(r);
      ReadBack(d, l.inn, l.ink, r, Encode(d, NextPos(d, At(l.inn, l.ink), r.ty), l.pending[1..]));
    }
  }

  /** The reader finds the first of the pending records. */
  ghost predicate Finds(d: Deal, l: Link, r: Rec1, rest: Bytes)
    requires Ideal(d.c)
  {
    l.pending != [] && r == l.pending[0] && RecOk(r) && Parse(d.c, d.version, l.inn, l.wire) == Rec(r.ty, r.data, rest)
  }

  lemma ReadSides(d: Deal, l: Link, m: Link, r: Rec1, rest: Bytes)
    requires DealOk(d) && SidesOk(d, l) && Read(d, l, m) && Finds(d, l, r, rest)
    ensures SidesOk(d, m) && m.pending == l.pending[1..] && m.dead != Some(BadRecord)
    ensures m.dead == None ==> At(m.inn, m.ink) == NextPos(d, At(l.inn, l.ink), r.ty) && m.wire == rest && m.out == l.out && m.outk == l.outk
  {
  }

  lemma ReadKeeps(d: Deal, l: Link, m: Link)
    requires DealOk(d) && Inv(d, l) && Read(d, l, m)
    ensures Inv(d, m)
  {
    ReadIs(d, l);
    var r := l.pending[0];
    var rest := Encode(d, NextPos(d, At(l.inn, l.ink), r.ty), l.pending[1..]);
    ReadSides(d, l, m, r, rest);
    ReadStreams(d, l, m, r, rest);
    assert forall x <- m.pending :: x in l.pending;
  }

  lemma ReadStreams(d: Deal, l: Link, m: Link, r: Rec1, rest: Bytes)
    requires DealOk(d) && Read(d, l, m) && Finds(d, l, r, rest)
    requires l.delivered + Data(l.pending, APPLICATION) == l.written && l.hdelivered + Data(l.pending, HANDSHAKE) == l.hwritten
    ensures m.dead == None ==> m.delivered + Data(m.pending, APPLICATION) == m.written
                               && m.hdelivered + Data(m.pending, HANDSHAKE) == m.hwritten
    ensures m.delivered <= m.written && m.hdelivered <= m.hwritten
  {
    ReadData(l, r);
  }

  lemma ReadData(l: Link, r: Rec1)
    requires l.pending != [] && r == l.pending[0]
    requires l.delivered + Data(l.pending, APPLICATION) == l.written && l.hdelivered + Data(l.pending, HANDSHAKE) == l.hwritten
    ensures (if r.ty == APPLICATION then l.delivered + r.data else l.delivered) + Data(l.pending[1..], APPLICATION) == l.written
    ensures (if r.ty == HANDSHAKE then l.hdelivered + r.data else l.hdelivered) + Data(l.pending[1..], HANDSHAKE) == l.hwritten
  {
    assert l.delivered + (r.data + Data(l.pending[1..], APPLICATION)) == (l.delivered + r.data) + Data(l.pending[1..], APPLICATION);
    assert l.hdelivered + (r.data + Data(l.pending[1..], HANDSHAKE)) == (l.hdelivered + r.data) + Data(l.pending[1..], HANDSHAKE);
  }

  /** The commands that write and read nothing. */
  lemma CommandKeeps(d: Deal, l: Link, m: Link, rules: Rules)
    requires DealOk(d) && Inv(d, l)
    requires NewOut(d, l, m) || NewIn(d, l, m) || Opened(l, m) || ForgetOut(l, m, rules) || ForgetIn(l, m) || Ask(l, m, rules)
    ensures Inv(d, m)
  {
  }

  lemma WriteLeaves(d: Deal, l: Link, m: Link, ty: byte, data: Bytes)
    requires DealOk(d) && Write(d, l, m, ty, data)
    ensures m.asked == l.asked && m.out.next == l.out.next
  {
    WriteIsEncode(d, l.out, l.outk, ty, Fragments(data));
  }

  lemma StepServes(d: Deal, l: Link, m: Link, rules: Rules)
    requires DealOk(d) && Served(l, rules) && Step(d, l, m, rules) && Apart(rules)
    ensures Served(m, rules)
  {
    if ty, data :| Write(d, l, m, ty, data) {
      WriteLeaves(d, l, m, ty, data);
    }
  }

  lemma StepKeeps(d: Deal, l: Link, m: Link, rules: Rules)
    requires DealOk(d) && Inv(d, l) && Served(l, rules) && Step(d, l, m, rules)
    ensures Inv(d, m)
  {
    if Change(d, l, m) {
      ChangeKeeps(d, l, m);
    } else if Read(d, l, m) {
      ReadKeeps(d, l, m);
    } else if ty, data :| Write(d, l, m, ty, data) {
      WriteKeeps(d, l, m, ty, data);
    } else {
      CommandKeeps(d, l, m, rules);
    }
  }

  lemma StartOk(d: Deal, l: Link, rules: Rules)
    requires DealOk(d) && Init(l)
    ensures Inv(d, l) && Served(l, rules)
  {
  }

  lemma StepAtKeeps(d: Deal, run: seq<Link>, i: nat, rules: Rules)
    requires DealOk(d) && Apart(rules) && i < |run| - 1 && StepAt(d, run, i, rules)
    requires Inv(d, run[i]) && Served(run[i], rules)
    ensures Inv(d, run[i + 1]) && Served(run[i + 1], rules)
  {
    StepKeeps(d, run[i], run[i + 1], rules);
    StepServes(d, run[i], run[i + 1], rules);
  }

  lemma {:induction false} RunKeeps(d: Deal, run: seq<Link>, i: nat, rules: Rules)
    requires DealOk(d) && Run(d, run, rules) && Apart(rules) && i < |run|
    ensures Inv(d, run[i]) && Served(run[i], rules)
  {
    if i == 0 {
      StartOk(d, run[0], rules);
    } else {
      RunKeeps(d, run, i - 1, rules);
      StepAtKeeps(d, run, i - 1, rules);
    }
  }

  /** The application and the handshake bytes read are a prefix of those written; no record was found bad; and a
      reader that has caught up has delivered everything and is at the same cipher and the same count as the
      writer. */
  ghost predicate Agrees(l: Link) {
    && l.delivered <= l.written && l.hdelivered <= l.hwritten && l.dead != Some(BadRecord)
    && (l.dead == None && l.wire == [] ==>
          l.delivered == l.written && l.hdelivered == l.hwritten && l.inn.sec == l.out.sec
          && l.inn.n == l.out.n && l.ink == l.outk)
  }

  /** So it is in every run, after any number of changes of cipher, if these are kept apart. */
  lemma StreamsInStep(d: Deal, run: seq<Link>, i: nat, rules: Rules)
    requires DealOk(d) && Run(d, run, rules) && Apart(rules) && i < |run|
    ensures Agrees(run[i])
  {
    RunKeeps(d, run, i, rules);
    NothingPending(d, At(run[i].inn, run[i].ink), run[i].pending);
  }

  lemma NothingPending(d: Deal, p: Pos, rs: seq<Rec1>)
    requires DealOk(d) && PosOk(p)
    ensures Encode(d, p, rs) == [] <==> rs == []
  {
  }

  // ---------- Commands that overlap ----------

  /** The change of cipher that finds none has already been counted, though no record goes out: then
      the next record is sealed under a count that the reader does not have.  It does not happen
      exactly when a new cipher is there or none was in use. */
  lemma FailedChangeCounts(c: Crypto, version: nat, w: Way)
    requires WayOk(w)
    ensures var r := WriteAll(c, version, w, CHANGECIPHER, Fragments([1]));
            (!r.ok ==> r.wire == []) && (r.ok || r.way == w <==> w.next.Some? || w.sec == None)
  {
  }

  lemma OneRecord(c: Crypto, version: nat, w: Way, ty: byte)
    requires WayOk(w)
    ensures WriteAll(c, version, w, ty, Fragments([1]))
         == if ty == CHANGECIPHER && w.next == None then Written([], After(w, ty), false)
            else Written(Record(c, version, w, ty, [1]), After(w, ty), true)
  {
    var one: Bytes := [1];
    FirstFragment(one);
    var wire := Record(c, version, w, ty, one);
    assert wire + [] == wire;
    assert WriteAll(c, version, After(w, ty), ty, []) == Written([], After(w, ty), true);
  }

  lemma Longer(d: Deal, run: seq<Link>, m: Link, rules: Rules)
    requires DealOk(d) && Run(d, run, rules) && Step(d, run[|run| - 1], m, rules)
    ensures Run(d, run + [m], rules)
  {
    var more := run + [m];
    forall i | 0 <= i < |more| - 1
      ensures StepAt(d, more, i, rules)
    {
      assert i < |run| - 1 ==> StepAt(d, run, i, rules);
    }
  }

  const IDLE := Way(None, 0, None)

  function Plain(out: Way, outk: nat, asked: nat, inn: Way, ink: nat, wire: Bytes, pending: seq<Rec1>): Link {
    Link(out, outk, asked, inn, ink, wire, pending, false, [], [], [], [], None)
  }

  function FirstChange(d: Deal): Bytes {
    Record(d.c, d.version, IDLE, CHANGECIPHER, [1])
  }

  /** The writer after its first change of cipher, which the reader has yet to read. */
  function Changed(d: Deal, n: nat, asked: nat): Link {
    Plain(Way(Some(d.keys(0)), n, None), 1, asked, IDLE, 0, FirstChange(d), [Rec1(CHANGECIPHER, [1])])
  }

  lemma ChangeFirst(d: Deal, asked: nat)
    requires DealOk(d) && asked > 0
    ensures Change(d, Plain(Way(None, 0, Some(d.keys(0))), 0, asked, IDLE, 0, [], []), Changed(d, 0, asked - 1))
  {
    var w := Way(None, 0, Some(d.keys(0)));
    assert SecretOk(d.keys(0));
    OneRecord(d.c, d.version, w, CHANGECIPHER);
    var wire: Bytes := [];
    assert wire + FirstChange(d) == FirstChange(d) == Record(d.c, d.version, w, CHANGECIPHER, [1]);
  }

  lemma ChangeFails(d: Deal, asked: nat)
    requires DealOk(d) && asked > 0
    ensures Change(d, Changed(d, 0, asked), Changed(d, 1, asked - 1))
  {
    assert SecretOk(d.keys(0));
    OneRecord(d.c, d.version, Way(Some(d.keys(0)), 0, None), CHANGECIPHER);
  }

  /** Two commands that both find the one new cipher. */
  lemma TwoAtOnce(d: Deal, rules: Rules) returns (run: seq<Link>)
    requires DealOk(d) && rules.most >= 2
    ensures Run(d, run, rules) && run[|run| - 1] == Changed(d, 1, 0)
  {
    var next := Way(None, 0, Some(d.keys(0)));
    var l := Plain(IDLE, 0, 0, IDLE, 0, [], []);
    run := [l];
    var m := Plain(next, 0, 0, IDLE, 0, [], []);
    assert NewOut(d, l, m);
    Longer(d, run, m, rules);
    run, l, m := run + [m], m, Plain(next, 0, 1, IDLE, 0, [], []);
    assert Ask(l, m, rules);
    Longer(d, run, m, rules);
    run, l, m := run + [m], m, Plain(next, 0, 2, IDLE, 0, [], []);
    assert Ask(l, m, rules);
    Longer(d, run, m, rules);
    run, l, m := run + [m], m, Changed(d, 0, 1);
    ChangeFirst(d, 2);
    Longer(d, run, m, rules);
    run, l, m := run + [m], m, Changed(d, 1, 0);
    ChangeFails(d, 1);
    Longer(d, run, m, rules);
    run := run + [m];
  }

  /** A command whose new cipher a failing secret command takes away. */
  lemma TakenAway(d: Deal, rules: Rules) returns (run: seq<Link>)
    requires DealOk(d) && rules.most >= 1 && rules.meanwhile
    ensures Run(d, run, rules) && run[|run| - 1] == Changed(d, 1, 0)
  {
    var next := Way(None, 0, Some(d.keys(0)));
    var l := Plain(IDLE, 0, 0, IDLE, 0, [], []);
    run := [l];
    var m := Plain(next, 0, 0, IDLE, 0, [], []);
    assert NewOut(d, l, m);
    Longer(d, run, m, rules);
    run, l, m := run + [m], m, Plain(next, 0, 1, IDLE, 0, [], []);
    assert Ask(l, m, rules);
    Longer(d, run, m, rules);
    run, l, m := run + [m], m, Changed(d, 0, 0);
    ChangeFirst(d, 1);
    Longer(d, run, m, rules);
    var again := Changed(d, 0, 0).(out := Way(Some(d.keys(0)), 0, Some(d.keys(1))));
    run, l, m := run + [m], m, again;
    assert NewOut(d, l, m);
    Longer(d, run, m, rules);
    run, l, m := run + [m], m, again.(asked := 1);
    assert Ask(l, m, rules);
    Longer(d, run, m, rules);
    run, l, m := run + [m], m, Changed(d, 0, 1);
    assert ForgetOut(l, m, rules);
    Longer(d, run, m, rules);
    run, l, m := run + [m], m, Changed(d, 1, 0);
    ChangeFails(d, 1);
    Longer(d, run, m, rules);
    run := run + [m];
  }

  /** The reader follows the first change, and has caught up; but the writer has counted one more. */
  function Behind(d: Deal): Link {
    Plain(Way(Some(d.keys(0)), 1, None), 1, 0, Way(Some(d.keys(0)), 0, None), 1, [], [])
  }

  lemma ReadFirst(d: Deal)
    requires DealOk(d)
    ensures Read(d, Changed(d, 1, 0).(inn := Way(None, 0, Some(d.keys(0)))), Behind(d))
  {
    var l := Changed(d, 1, 0).(inn := Way(None, 0, Some(d.keys(0))));
    assert SecretOk(d.keys(0));
    ReadBack(d, l.inn, 0, Rec1(CHANGECIPHER, [1]), []);
    assert FirstChange(d) + [] == FirstChange(d) == Record(d.c, d.version, Way(l.inn.sec, l.inn.n, None), CHANGECIPHER, [1]);
  }

  lemma FallsBehind(d: Deal, rules: Rules) returns (run: seq<Link>)
    requires DealOk(d) && !Apart(rules)
    ensures Run(d, run, rules) && run[|run| - 1] == Behind(d)
  {
    if rules.most >= 2 {
      run := TwoAtOnce(d, rules);
    } else {
      run := TakenAway(d, rules);
    }
    var l, m := Changed(d, 1, 0), Changed(d, 1, 0).(inn := Way(None, 0, Some(d.keys(0))));
    assert NewIn(d, l, m);
    Longer(d, run, m, rules);
    run := run + [m];
    ReadFirst(d);
    Longer(d, run, Behind(d), rules);
    run := run + [Behind(d)];
  }

  /** The two ends agree in all runs if and only if commands are kept apart. */
  lemma AgreeIffApart(d: Deal, rules: Rules)
    requires DealOk(d)
    ensures (forall run :: Run(d, run, rules) ==> forall l <- run :: Agrees(l)) <==> Apart(rules)
  {
    if Apart(rules) {
      forall run | Run(d, run, rules)
        ensures forall l <- run :: Agrees(l)
      {
        forall i | 0 <= i < |run|
          ensures Agrees(run[i])
        {
          StreamsInStep(d, run, i, rules);
        }
      }
    } else {
      var run := FallsBehind(d, rules);
      assert run[|run| - 1] in run && !Agrees(Behind(d));
    }
  }

  /** The cipher does not open, under one count, what was sealed under the next. */
  ghost predicate TellsApart(d: Deal)
    requires DealOk(d)
  {
    assert SecretOk(d.keys(0));
    var body := Seal(d.c, d.keys(0), d.version, 1, HANDSHAKE, [1]);
    body != [] && Open(d.c, d.keys(0), d.version, 0, HANDSHAKE, d.version, body) == None
  }

  lemma NextIsBad(d: Deal)
    requires DealOk(d) && TellsApart(d)
    ensures SecretOk(d.keys(0))
    ensures Parse(d.c, d.version, Behind(d).inn, Record(d.c, d.version, Behind(d).out, HANDSHAKE, [1])) == Bad
  {
    var k: Secret := d.keys(0);
    assert SecretOk(k);
    var body := Seal(d.c, k, d.version, 1, HANDSHAKE, [1]);
    var all := Record(d.c, d.version, Behind(d).out, HANDSHAKE, [1]);
    SealLength(d.c, k, d.version, 1, HANDSHAKE, [1]);
    RecordLayout(d, Pos(Some(k), 1, 1), Rec1(HANDSHAKE, [1]), [], body);
    assert all + [] == all == Record(d.c, d.version, Way(Some(k), 1, None), HANDSHAKE, [1]);
  }

  /** The next record has been written. */
  function Sent(d: Deal): Link
    requires forall k :: SecretOk(d.keys(k))
  {
    var l := Behind(d);
    assert SecretOk(d.keys(0));
    l.(out := After(l.out, HANDSHAKE), wire := Record(d.c, d.version, l.out, HANDSHAKE, [1]),
       pending := [Rec1(HANDSHAKE, [1])], hwritten := [1])
  }

  lemma WritesNext(d: Deal)
    requires DealOk(d)
    ensures Write(d, Behind(d), Sent(d), HANDSHAKE, [1])
  {
    var l, m := Behind(d), Sent(d);
    assert SecretOk(d.keys(0));
    OneRecord(d.c, d.version, l.out, HANDSHAKE);
    FirstFragment([1]);
    assert l.wire + m.wire == m.wire && l.hwritten + [1] == [1];
    assert Recs(HANDSHAKE, Fragments([1])) == [Rec1(HANDSHAKE, [1])];
  }

  /** Where commands are not kept apart, there is a run in which the next record is found bad. */
  lemma FoundBad(d: Deal, rules: Rules) returns (run: seq<Link>)
    requires DealOk(d) && TellsApart(d) && !Apart(rules)
    ensures Run(d, run, rules) && run[|run| - 1].dead == Some(BadRecord)
  {
    run := FallsBehind(d, rules);
    WritesNext(d);
    Longer(d, run, Sent(d), rules);
    run := run + [Sent(d)];
    NextIsBad(d);
    var bad := Sent(d).(dead := Some(BadRecord));
    assert Read(d, Sent(d), bad);
    Longer(d, run, bad, rules);
    run := run + [bad];
  }

  function Fill(n: nat, x: byte): (b: Bytes)
    ensures |b| == n && forall i :: 0 <= i < n ==> b[i] == x
  {
    seq(n, _ => x)
  }

  /** A MAC that looks at no more than the last byte of the count already does. */
  function LastByte(): Crypto {
    Crypto((s: Secret, n: nat, b: Bytes) => b, (s: Secret, n: nat, b: Bytes) => b,
           (s: Secret, b: Bytes) => Fill(s.maclen, if |b| > 7 then b[7] else 0),
           (s: Secret, n: nat) => Fill(s.block, 0), (s: Secret, a: Bytes) => Fill(s.recivlen, 0),
           (s: Secret, a: Bytes, b: Bytes) => b + Fill(s.maclen, 0),
           (s: Secret, a: Bytes, v: Bytes, b: Bytes) => if |b| >= s.maclen then Some(b[..|b| - s.maclen]) else None)
  }

  lemma LastByteIdeal()
    ensures Ideal(LastByte())
  {
    var c := LastByte();
    forall s: Secret, a: Bytes, b: Bytes
      ensures c.open(s, a, c.reciv(s, a), c.seal(s, a, b)) == Some(b)
    {
      assert (b + Fill(s.maclen, 0))[..|b|] == b;
    }
  }

  lemma SomeDeal() returns (d: Deal)
    ensures DealOk(d) && TellsApart(d)
  {
    var c, k := LastByte(), Secret(0, false, 0, 1, 0);
    d := Deal(c, TLS11, (i: nat) => k);
    LastByteIdeal();
    var one: Bytes := [1];
    CountInMac(0);
    CountInMac(1);
    var body := Seal(c, k, TLS11, 1, HANDSHAKE, one);
    assert body == [] + one + c.mac(k, Aad(TLS11, 1, Header(HANDSHAKE, TLS11, 1)) + one);
    assert body[0..] == body && body[..1] == one && body[1..2] == [1];
  }

  lemma CountInMac(n: byte)
    ensures LastByte().mac(Secret(0, false, 0, 1, 0), Aad(TLS11, n, Header(HANDSHAKE, TLS11, 1)) + [1]) == [n]
  {
    var a := Aad(TLS11, n, Header(HANDSHAKE, TLS11, 1));
    assert Be64(n)[7] == Be16(n)[1] == n;
    assert (a + [1])[7] == Be64(n)[7];
  }
}
