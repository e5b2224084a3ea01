/**
 One record of kern/devtls.c: padding, sealing and opening, with ideal ciphers and MACs.
 */
module Tls {
  import opened Words
  import opened Blocks

  const MAXREC: nat := 0x4000
  const MAXCIPHER: nat := MAXREC + 2048
  const HDR: nat := 5
  const SSL3 := 0x0300
  const TLS11 := 0x0302

  const CHANGECIPHER: byte := 20
  const HANDSHAKE: byte := 22
  const APPLICATION: byte := 23

  // ---------- Numbers ----------

  function Be16(x: nat): (b: Bytes)
    ensures |b| == 2
  {
    [x / 0x100 % 0x100, x % 0x100]
  }

  /** get16. */
  function Get16(b: Bytes): nat
    requires |b| >= 2
  {
    var hi: int, lo: int := b[0], b[1];
    hi * 0x100 + lo
  }

  lemma GetPut16(x: nat)
    requires x < 0x1_0000
    ensures Get16(Be16(x)) == x
  {
  }

  /** put64. */
  function Be64(x: nat): (b: Bytes)
    ensures |b| == 8
  {
    Be16(x / 0x1_0000_0000_0000) + Be16(x / 0x1_0000_0000) + Be16(x / 0x1_0000) + Be16(x)
  }

  // ---------- Padding ----------

  lemma AtLeastOnce(b: nat, k: int)
    requires k >= 1
    ensures b * k >= b
  {
    assert b * k == b * (k - 1) + b;
  }

  lemma SameRemainder(b: nat, q: int, r: int, q': int, r': int)
    requires 0 <= r < b && 0 <= r' < b && b * q + r == b * q' + r'
    ensures r == r'
  {
    assert b * (q - q') == r' - r && b * (q' - q) == r - r';
    if q > q' { AtLeastOnce(b, q - q'); }
    if q < q' { AtLeastOnce(b, q' - q); }
  }

  lemma ModShift(m: nat, b: nat)
    requires b > 0
    ensures (m + b) % b == m % b
  {
    var q, q' := m / b + 1, (m + b) / b;
    assert b * q == b * (m / b) + b;
    SameRemainder(b, q, m % b, q', (m + b) % b);
  }

  lemma {:induction false} RoundDownMod(x: nat, b: nat)
    requires b > 0
    ensures (x - x % b) % b == 0 && x % b <= x
    decreases x
  {
    if x >= b {
      RoundDownMod(x - b, b);
      ModShift(x - b, b);
      ModShift(x - b - (x - b) % b, b);
    }
  }

  /** Where padding ends. */
  function PadEnd(n: nat, block: nat): (nn: nat)
    requires block > 0
    ensures nn % block == 0 && n < nn <= n + block
  {
    RoundDownMod(n + block, block);
    n + block - (n + block) % block
  }

  /** blockpad: to the next multiple of the block, at least one byte; each says how many follow. */
  function Pad(buf: Bytes, block: nat): (r: Bytes)
    requires 0 < block <= 256
    ensures |r| % block == 0 && |buf| < |r| <= |buf| + block
  {
    var nn := PadEnd(|buf|, block);
    buf + seq(nn - |buf|, _ => nn - |buf| - 1)
  }

  /** tlsunpad and sslunpad: how much is left, or -1; only the first looks at the padding itself. */
  function Unpad(buf: Bytes, block: nat, ssl: bool): (r: int)
    requires buf != [] && block > 0
    ensures r < |buf|
  {
    var n := |buf|;
    var pad: int := buf[n - 1];
    var nn := n - 1 - pad;
    if nn <= 0 || n % block != 0 then -1
    else if !ssl && !(forall i :: nn <= i < n - 1 ==> buf[i] == pad) then -1
    else nn
  }

  /** Unpadding undoes padding exactly when there was something to pad. */
  lemma PadUnpad(buf: Bytes, block: nat, ssl: bool)
    requires 0 < block <= 256
    ensures Unpad(Pad(buf, block), block, ssl) == |buf| <==> buf != []
    ensures buf == [] ==> Unpad(Pad(buf, block), block, ssl) == -1
  {
    var r := Pad(buf, block);
    assert forall i :: |buf| <= i < |r| ==> r[i] == |r| - |buf| - 1;
  }

  /** From m on there is padding that tells its own length: in the last byte, and but for SSL3 in every one. */
  predicate PaddedFrom(buf: Bytes, block: nat, ssl: bool, m: nat)
    requires block > 0
  {
    && 0 < m < |buf| && |buf| % block == 0 && buf[|buf| - 1] == |buf| - 1 - m
    && (ssl || forall i :: m <= i < |buf| ==> buf[i] == |buf| - 1 - m)
  }

  lemma UnpadFinds(buf: Bytes, block: nat, ssl: bool)
    requires buf != [] && block > 0
    ensures forall m: nat :: Unpad(buf, block, ssl) == m <==> PaddedFrom(buf, block, ssl, m)
    ensures Unpad(buf, block, ssl) >= -1
  {
  }

  method Blockpad(buf: array<byte>, n0: nat, block: nat) returns (nn: nat)
    requires 0 < block <= 256 && n0 + block <= buf.Length
    modifies buf
    ensures nn <= buf.Length && buf[..nn] == Pad(old(buf[..n0]), block)
    ensures buf[nn..] == old(buf[nn..])
    ensures n0 < nn <= n0 + block && nn % block == 0 && buf[..n0] == old(buf[..n0]) && forall i :: n0 <= i < nn ==> buf[i] == nn - n0 - 1
  {
    var n := n0;
    nn := n + block;
    nn := nn - nn % block;
    assert nn == PadEnd(n0, block);
    var pad := nn - (n + 1);
    while n < nn
      invariant n0 <= n <= nn
      invariant forall i :: 0 <= i < n0 ==> buf[i] == old(buf[i])
      invariant forall i :: n0 <= i < n ==> buf[i] == pad
      invariant forall i :: nn <= i < buf.Length ==> buf[i] == old(buf[i])
    {
      buf[n] := pad;
      n := n + 1;
    }
  }

  method Tlsunpad(buf: array<byte>, n0: nat, block: nat) returns (r: int)
    requires 0 < n0 <= buf.Length && block > 0
    ensures r == Unpad(buf[..n0], block, false)
    ensures forall m: nat :: r == m <==> PaddedFrom(buf[..n0], block, false, m)
  {
    UnpadFinds(buf[..n0], block, false);
    var n: int := n0;
    var pad: int := buf[n - 1];
    var nn := n - 1 - pad;
    if nn <= 0 || n % block != 0 { return -1; }
    n := n - 1;
    while n > nn
      invariant nn <= n < n0
      invariant forall i :: n <= i < n0 - 1 ==> buf[i] == pad
    {
      if pad != buf[n - 1] {
        assert buf[..n0][n - 1] != pad;
        return -1;
      }
      n := n - 1;
    }
    return nn;
  }

  // ---------- Secrets and the ideal cipher ----------

  /** block is 0 for a stream cipher or none; an AEAD cipher has no block and its tag is maclen. */
  datatype Secret = Secret(key: nat, aead: bool, block: nat, maclen: nat, recivlen: nat)

  predicate SecretOk(s: Secret) {
    && (s.block == 0 || s.block == 8 || s.block == 16) && s.maclen <= 32
    && (if s.aead then s.block == 0 && s.maclen == 16 && s.recivlen <= 8 else s.recivlen == 0)
  }

  function Ivlen(s: Secret, version: nat): nat {
    if version >= TLS11 && s.recivlen == 0 then s.block else s.recivlen
  }

  /** enc and dec may depend on how many records came before, as the stateful ciphers do.  prng is
      what the random generator gave for the initial vector of that record. */
  datatype Crypto = Crypto(enc: (Secret, nat, Bytes) -> Bytes, dec: (Secret, nat, Bytes) -> Bytes,
                           mac: (Secret, Bytes) -> Bytes, prng: (Secret, nat) -> Bytes,
                           reciv: (Secret, Bytes) -> Bytes, seal: (Secret, Bytes, Bytes) -> Bytes,
                           open: (Secret, Bytes, Bytes, Bytes) -> Option<Bytes>)

  ghost predicate Ideal(c: Crypto) {
    && (forall s, n, b :: |c.enc(s, n, b)| == |b| && c.dec(s, n, c.enc(s, n, b)) == b)
    && (forall s, n, b :: |c.dec(s, n, b)| == |b|)
    && (forall s, b :: |c.mac(s, b)| == s.maclen)
    && (forall s, n :: |c.prng(s, n)| == s.block)
    && (forall s, a :: |c.reciv(s, a)| == s.recivlen)
    && (forall s, a, d :: |c.seal(s, a, d)| == |d| + s.maclen && c.open(s, a, c.reciv(s, a), c.seal(s, a, d)) == Some(d))
  }

  function Header(ty: byte, version: nat, len: nat): (h: Bytes)
    ensures |h| == HDR
  {
    [ty] + Be16(version) + Be16(len)
  }

  /** packAAD. */
  function Aad(version: nat, n: nat, header: Bytes): Bytes
    requires |header| == HDR
  {
    Be64(n) + (if version == SSL3 then [header[0], header[3], header[4]] else header)
  }

  // ---------- Sealing ----------

  function Padded(b: Bytes, block: nat): Bytes
    requires block <= 256
  {
    if block == 0 then b else Pad(b, block)
  }

  /** What a block or stream cipher encrypts, before the padding. */
  function Clear(c: Crypto, s: Secret, version: nat, n: nat, ty: byte, data: Bytes): Bytes {
    var iv := if Ivlen(s, version) > 0 then c.prng(s, n) else [];
    iv + data + c.mac(s, Aad(version, n, Header(ty, version, |data|)) + data)
  }

  /** The body that tlsrecwrite makes of one record's data. */
  function Seal(c: Crypto, s: Secret, version: nat, n: nat, ty: byte, data: Bytes): Bytes
    requires s.block <= 256
  {
    var aad := Aad(version, n, Header(ty, version, |data|));
    if s.aead then c.reciv(s, aad) + c.seal(s, aad, data)
    else c.enc(s, n, Padded(Clear(c, s, version, n, ty, data), s.block))
  }

  /** What is made of the bytes that a block or stream cipher has decrypted, unpad0 of them before the padding. */
  function Checked(c: Crypto, s: Secret, version: nat, n: nat, ty: byte, ver: nat, buf: Bytes, unpad0: int): Option<Bytes>
    requires unpad0 <= |buf|
  {
    var i := Ivlen(s, version);
    if |buf| < i || unpad0 - i < s.maclen then None
    else
      var p, len := buf[i..], unpad0 - i - s.maclen;
      if c.mac(s, Aad(version, n, Header(ty, ver, len)) + p[..len]) == p[len..len + s.maclen] then Some(p[..len]) else None
  }

  /** Where tlsrecread finds that the padding begins. */
  function Unpadded(buf: Bytes, block: nat, ssl: bool): (r: int)
    requires buf != []
    ensures r <= |buf|
  {
    if block == 0 then |buf| else Unpad(buf, block, ssl)
  }

  /** What tlsrecread makes of a body; None when it finds an error. */
  function Open(c: Crypto, s: Secret, version: nat, n: nat, ty: byte, ver: nat, body: Bytes): Option<Bytes>
    requires body != [] && Ideal(c)
  {
    if s.aead then
      var i := Ivlen(s, version);
      if |body| < i + s.maclen then None
      else c.open(s, Aad(version, n, Header(ty, ver, |body| - i - s.maclen)), body[..i], body[i..])
    else
      var buf := c.dec(s, n, body);
      assert |buf| == |body|;
      Checked(c, s, version, n, ty, ver, buf, Unpadded(buf, s.block, version == SSL3))
  }

  /** The body is right for the data d: under the cipher lie the initial vector, d, its MAC, and padding that tells its length; or
      it is what the AEAD cipher opens. */
  ghost predicate Carries(c: Crypto, s: Secret, version: nat, n: nat, ty: byte, ver: nat, body: Bytes, d: Bytes) {
    var i := Ivlen(s, version);
    if s.aead then
      i + s.maclen <= |body| && c.open(s, Aad(version, n, Header(ty, ver, |body| - i - s.maclen)), body[..i], body[i..]) == Some(d)
    else
      var buf, e := c.dec(s, n, body), i + |d| + s.maclen;
      && e <= |buf| && buf[i..i + |d|] == d && buf[i + |d|..e] == c.mac(s, Aad(version, n, Header(ty, ver, |d|)) + d)
      && if s.block == 0 then e == |buf| else PaddedFrom(buf, s.block, version == SSL3, e)
  }

  /** The data is what lies between the initial vector and the MAC, if that is right. */
  lemma CheckedIff(c: Crypto, s: Secret, version: nat, n: nat, ty: byte, ver: nat, buf: Bytes, unpad0: int, d: Bytes)
    requires unpad0 <= |buf|
    ensures var i := Ivlen(s, version); var e := i + |d| + s.maclen;
            Checked(c, s, version, n, ty, ver, buf, unpad0) == Some(d) <==>
              && unpad0 == e && buf[i..i + |d|] == d
              && buf[i + |d|..e] == c.mac(s, Aad(version, n, Header(ty, ver, |d|)) + d)
  {
    var i := Ivlen(s, version);
    var len := unpad0 - i - s.maclen;
    if 0 <= len {
      assert buf[i..][..len] == buf[i..i + len];
      assert buf[i..][len..len + s.maclen] == buf[i + len..i + len + s.maclen];
    }
  }

  /** A body is accepted, with the data d, if and only if it is right for d. */
  lemma OpenIff(c: Crypto, s: Secret, version: nat, n: nat, ty: byte, ver: nat, body: Bytes, d: Bytes)
    requires body != [] && Ideal(c) && SecretOk(s)
    ensures Open(c, s, version, n, ty, ver, body) == Some(d) <==> Carries(c, s, version, n, ty, ver, body, d)
  {
    if s.aead {
      OpenAeadIff(c, s, version, n, ty, ver, body, d);
    } else {
      OpenBlockIff(c, s, version, n, ty, ver, body, d);
    }
  }

  lemma OpenAeadIff(c: Crypto, s: Secret, version: nat, n: nat, ty: byte, ver: nat, body: Bytes, d: Bytes)
    requires body != [] && Ideal(c) && SecretOk(s) && s.aead
    ensures Open(c, s, version, n, ty, ver, body) == Some(d) <==> Carries(c, s, version, n, ty, ver, body, d)
  {
    var i := Ivlen(s, version);
    if i + s.maclen <= |body| { assert body[i..][..|body| - i] == body[i..]; }
  }

  lemma OpenBlockIff(c: Crypto, s: Secret, version: nat, n: nat, ty: byte, ver: nat, body: Bytes, d: Bytes)
    requires body != [] && Ideal(c) && SecretOk(s) && !s.aead
    ensures Open(c, s, version, n, ty, ver, body) == Some(d) <==> Carries(c, s, version, n, ty, ver, body, d)
  {
    var buf := c.dec(s, n, body);
    var e := Ivlen(s, version) + |d| + s.maclen;
    assert |buf| == |body|;
    CheckedIff(c, s, version, n, ty, ver, buf, Unpadded(buf, s.block, version == SSL3), d);
    UnpaddedIs(buf, s.block, version == SSL3, e);
  }

  lemma UnpaddedIs(buf: Bytes, block: nat, ssl: bool, e: nat)
    requires buf != []
    ensures Unpadded(buf, block, ssl) == e <==> if block == 0 then e == |buf| else PaddedFrom(buf, block, ssl, e)
  {
    if block > 0 { UnpadFinds(buf, block, ssl); }
  }

  /** All that a record adds to its data, but for block padding. */
  function Extra(s: Secret, version: nat): nat {
    Ivlen(s, version) + s.maclen
  }

  lemma SealLength(c: Crypto, s: Secret, version: nat, n: nat, ty: byte, data: Bytes)
    requires Ideal(c) && SecretOk(s) && |data| <= MAXREC
    ensures var b := Seal(c, s, version, n, ty, data);
            Extra(s, version) + |data| <= |b| <= MAXCIPHER && (b == [] <==> s.block == 0 && Extra(s, version) + |data| == 0)
  {
    if !s.aead { ClearLength(c, s, version, n, ty, data); }
  }

  lemma ClearLength(c: Crypto, s: Secret, version: nat, n: nat, ty: byte, data: Bytes)
    requires Ideal(c) && SecretOk(s) && !s.aead
    ensures var b := Clear(c, s, version, n, ty, data); var i := Ivlen(s, version);
            |b| == i + |data| + s.maclen && b[i..i + |data|] == data
            && b[i + |data|..] == c.mac(s, Aad(version, n, Header(ty, version, |data|)) + data)
  {
    var i := Ivlen(s, version);
    var iv := if i > 0 then c.prng(s, n) else [];
    assert |iv| == i;
    var m := c.mac(s, Aad(version, n, Header(ty, version, |data|)) + data);
    assert iv + data + m == iv + (data + m);
  }

  lemma OpenAead(c: Crypto, s: Secret, version: nat, n: nat, ty: byte, data: Bytes)
    requires Ideal(c) && SecretOk(s) && s.aead
    ensures Open(c, s, version, n, ty, version, Seal(c, s, version, n, ty, data)) == Some(data)
  {
    var aad := Aad(version, n, Header(ty, version, |data|));
    var body := Seal(c, s, version, n, ty, data);
    var i := Ivlen(s, version);
    assert body[..i] == c.reciv(s, aad) && body[i..] == c.seal(s, aad, data);
    assert body[i..][..|data| + s.maclen] == c.seal(s, aad, data);
  }

  lemma UnpadIs(b: Bytes, block: nat, ssl: bool)
    requires block <= 256 && Padded(b, block) != []
    ensures b <= Padded(b, block)
    ensures Unpadded(Padded(b, block), block, ssl) == if b == [] then -1 else |b|
  {
    if block > 0 { PadUnpad(b, block, ssl); }
  }

  lemma PartOf(b: Bytes, buf: Bytes, i: nat, j: nat)
    requires b <= buf && i <= j <= |b|
    ensures buf[i..][..j - i] == b[i..j] && buf[i..][j - i..|b| - i] == b[j..]
  {
  }

  lemma CheckedIs(c: Crypto, s: Secret, version: nat, n: nat, ty: byte, data: Bytes, buf: Bytes)
    requires Ideal(c) && SecretOk(s) && !s.aead && Clear(c, s, version, n, ty, data) <= buf
    ensures Checked(c, s, version, n, ty, version, buf, Ivlen(s, version) + |data| + s.maclen) == Some(data)
  {
    var b, i := Clear(c, s, version, n, ty, data), Ivlen(s, version);
    ClearLength(c, s, version, n, ty, data);
    PartOf(b, buf, i, i + |data|);
  }

  lemma OpenBlock(c: Crypto, s: Secret, version: nat, n: nat, ty: byte, data: Bytes)
    requires Ideal(c) && SecretOk(s) && !s.aead && Seal(c, s, version, n, ty, data) != []
    ensures Open(c, s, version, n, ty, version, Seal(c, s, version, n, ty, data))
         == if Extra(s, version) + |data| > 0 then Some(data) else None
  {
    var b := Clear(c, s, version, n, ty, data);
    ClearLength(c, s, version, n, ty, data);
    UnpadIs(b, s.block, version == SSL3);
    if b != [] {
      CheckedIs(c, s, version, n, ty, data, Padded(b, s.block));
    }
  }

  /** With the same secret, in step, and after the length test, the reader gets back the data written
      exactly when the record is not wholly empty. */
  lemma OpenSeal(c: Crypto, s: Secret, version: nat, n: nat, ty: byte, data: Bytes)
    requires Ideal(c) && SecretOk(s) && |data| <= MAXREC
    ensures var b := Seal(c, s, version, n, ty, data);
            (0 < |b| <= MAXCIPHER && Open(c, s, version, n, ty, version, b) == Some(data)) <==> Extra(s, version) + |data| > 0
  {
    SealLength(c, s, version, n, ty, data);
    if Seal(c, s, version, n, ty, data) != [] {
      if s.aead { OpenAead(c, s, version, n, ty, data); } else { OpenBlock(c, s, version, n, ty, data); }
    }
  }
}
