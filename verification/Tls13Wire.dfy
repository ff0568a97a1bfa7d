/**
 The hello messages byte by byte (RFC 8446 sections 4.1.2, 4.1.3 and 4.2): what a ClientHello
 looks like on the wire, and exactly which byte strings are a ServerHello and what they say.
 */
module Tls13Wire {
  import opened Bytes
  import opened Tls13Crypto
  import opened Tls13Hello
  import Tls13Reference
  import Tls13Conn

  // ---------------------------------------------------------------- ClientHello

  /** Everything before the binders, for an identity of `n` bytes. */
  function Offered(random: bytes, share: bytes, identity: bytes): bytes {
    var n := |identity|;
    [1, (153 + n) / 65536 % 256, (153 + n) / 256 % 256, (153 + n) % 256, 3, 3] + random
      + [0, 0, 2, 0x13, 0x01, 1, 0, (110 + n) / 256 % 256, (110 + n) % 256]
      + [0, 43, 0, 3, 2, 3, 4]
      + [0, 10, 0, 4, 0, 2, 0, 29]
      + ([0, 51, 0, 38, 0, 36, 0, 29, 0, 32] + share)
      + [0, 45, 0, 2, 1, 1]
      + ([0, 41, (43 + n) / 256 % 256, (43 + n) % 256, (6 + n) / 256 % 256, (6 + n) % 256, n / 256 % 256, n % 256]
         + identity + [0, 0, 0, 0])
  }

  /** The ClientHello is these bytes and one binder of thirty-two: the HMAC over them under the
      external binder key of the pre-shared key. */
  lemma ClientHelloOnWire(c: Suite, random: bytes, share: bytes, psk: bytes, identity: bytes)
    ensures var offered := Offered(random, share, identity);
            ClientHello(c, random, share, psk, identity, Ascii("ext binder"))
            == offered + [0, 33, 32]
               + Tls13Reference.Verify(c, Tls13Reference.Expand(c, Tls13Reference.Early(c, psk), "ext binder", c.hash([]), 32), offered)
  {
    OfferedIs(random, share, identity);
    BinderIs(c, psk, Offered(random, share, identity));
    hide Offered, Truncated, Binder, Tls13Reference.Verify, Tls13Reference.Expand;
  }

  /** Over an open socket the first bytes a connection sends are one plaintext handshake record with
      this message, offering its own random, key share and identity. */
  lemma FirstRecord(w: Tls13Conn.World, window: nat)
    requires Tls13Conn.ValidWorld(w) && window > 0
    ensures var offered := Offered(w.random, w.c.share(w.priv), w.identity);
            var key := Tls13Reference.Expand(w.c, Tls13Reference.Early(w.c, w.psk), "ext binder", w.c.hash([]), 32);
            var hello := offered + [0, 33, 32] + Tls13Reference.Verify(w.c, key, offered);
            var s := Tls13Conn.OpenedConn(w, window);
            && |hello| == 157 + |w.identity|
            && s.net.sent == Tls13Conn.Then(Tls13Conn.Nothing, [22, 3, 3, |hello| / 256, |hello| % 256] + hello)
            && s.transcript == hello && s.phase == Tls13Conn.ServerFlight
  {
    ClientHelloOnWire(w.c, w.random, w.c.share(w.priv), w.psk, w.identity);
    ClientHelloReadBack(w.c, w.random, w.c.share(w.priv), w.psk, w.identity, Ascii("ext binder"));
    hide Offered, Tls13Reference.Verify, Tls13Reference.Expand, ClientHello, ReadClientHello, Tls13Conn.PlainRecord;
    Tls13Reference.PlainOnWire(22, Tls13Conn.HelloMessage(w));
    OpenedSends(w, window);
    hide Tls13Conn.OpenedConn;
  }

  lemma OpenedSends(w: Tls13Conn.World, window: nat)
    requires Tls13Conn.ValidWorld(w) && window > 0
    ensures var hello := Tls13Conn.HelloMessage(w);
            var s := Tls13Conn.OpenedConn(w, window);
            && s.net.sent == Tls13Conn.Then(Tls13Conn.Nothing, Tls13Conn.PlainRecord(22, hello))
            && s.transcript == hello && s.phase == Tls13Conn.ServerFlight
  {
    hide Tls13Conn.PlainRecord, Tls13Conn.HelloMessage, Tls13Conn.PlainWindow, Tls13Conn.Build;
    hide Tls13Conn.ValidWorld, Tls13Conn.InstallTx;
    HelloFits(w);
    HelloBuilt(w, window);
    var s0 := Tls13Conn.Initial(window);
    assert Tls13Conn.Tx(w, s0) == Tls13Conn.Notify(Tls13Conn.Flush(w, Tls13Conn.Build(w, s0)));
  }

  lemma HelloFits(w: Tls13Conn.World)
    requires Tls13Conn.ValidWorld(w)
    ensures GuardAdmits(|w.identity|, Tls13Conn.MAX_CLIENT_HELLO) && |Tls13Conn.HelloMessage(w)| <= 1024
  {
    ClientHelloReadBack(w.c, w.random, w.c.share(w.priv), w.psk, w.identity, Ascii("ext binder"));
    hide ClientHello, ReadClientHello;
  }

  lemma HelloBuilt(w: Tls13Conn.World, window: nat)
    requires GuardAdmits(|w.identity|, Tls13Conn.MAX_CLIENT_HELLO) && |Tls13Conn.HelloMessage(w)| <= 1024
    ensures var s0, hello := Tls13Conn.Initial(window), Tls13Conn.HelloMessage(w);
            var s1 := Tls13Conn.Build(w, s0);
            && s1.phase == Tls13Conn.ServerFlight && s1.transcript == hello && s1.net == s0.net
            && s1.tx.pending == Some(Tls13Conn.PlainRecord(22, hello))
  {
    hide Tls13Conn.PlainRecord, Tls13Conn.HelloMessage;
    assert [] + Tls13Conn.HelloMessage(w) == Tls13Conn.HelloMessage(w);
  }

  lemma OfferedIs(random: bytes, share: bytes, identity: bytes)
    ensures Truncated(random, share, identity) == Offered(random, share, identity)
  {
    var n := |identity|;
    var psk := [0, 41] + U16(43 + n) + U16(6 + n) + U16(n);
    assert psk == [0, 41, (43 + n) / 256 % 256, (43 + n) % 256, (6 + n) / 256 % 256, (6 + n) % 256, n / 256 % 256, n % 256];
    assert PskExtHead(identity) == psk + identity + [0, 0, 0, 0];
    var head := [CLIENT_HELLO] + U24(153 + n) + [3, 3];
    assert head == [1, (153 + n) / 65536 % 256, (153 + n) / 256 % 256, (153 + n) % 256, 3, 3];
    var mid := [0, 0, 2, 0x13, 1, 1, 0] + U16(110 + n);
    assert mid == [0, 0, 2, 0x13, 0x01, 1, 0, (110 + n) / 256 % 256, (110 + n) % 256];
    hide PskExtHead, U16, U24;
    var exts := Offer(share, identity);
    assert Truncated(random, share, identity) == head + random + mid + exts;
  }

  lemma BinderIs(c: Suite, psk: bytes, transcript: bytes)
    ensures Binder(c, EarlySecret(c, psk), Ascii("ext binder"), transcript)
         == Tls13Reference.Verify(c, Tls13Reference.Expand(c, Tls13Reference.Early(c, psk), "ext binder", c.hash([]), 32), transcript)
  {
    var early := Tls13Reference.Early(c, psk);
    Tls13Reference.ExpandIs(c, early, "ext binder", c.hash([]), 32);
    Tls13Reference.VerifyIs(c, Tls13Reference.Expand(c, early, "ext binder", c.hash([]), 32), transcript);
    hide Tls13Reference.Expand, Tls13Reference.Verify, ExpandLabel, Finished;
  }

  // ---------------------------------------------------------------- extension lists

  /** Type, length and contents of each extension in turn. */
  function WireExts(es: seq<Ext>): bytes {
    if es == [] then []
    else
      [es[0].kind / 256 % 256, es[0].kind % 256, |es[0].body| / 256 % 256, |es[0].body| % 256]
      + es[0].body + WireExts(es[1..])
  }

  predicate Sized(es: seq<Ext>) { forall i :: 0 <= i < |es| ==> es[i].kind < 65536 && |es[i].body| < 65536 }

  /** Whatever is read as an extension list is one, byte for byte. */
  lemma {:induction false} ExtsSound(s: bytes)
    requires ParseExts(s).Some?
    ensures WireExts(ParseExts(s).value) == s && Sized(ParseExts(s).value)
  {
    if s != [] {
      var n := GetU16(s, 2);
      ExtsSound(s[4 + n..]);
      FirstExt(s);
      hide GetU16;
      var e := Ext(GetU16(s, 0), s[4..4 + n]);
      var es := ParseExts(s[4 + n..]).value;
      assert ([e] + es)[1..] == es;
    }
  }

  /** The first extension of a list, byte for byte. */
  lemma FirstExt(s: bytes)
    requires |s| >= 4 && |s| >= 4 + GetU16(s, 2)
    ensures var k, n := GetU16(s, 0), GetU16(s, 2);
            && k < 65536 && n < 65536
            && s == [k / 256 % 256, k % 256, n / 256 % 256, n % 256] + s[4..4 + n] + s[4 + n..]
  {
    ByteHalves(s[0], s[1]);
    ByteHalves(s[2], s[3]);
    var n := GetU16(s, 2);
    assert s == s[..4] + s[4..4 + n] + s[4 + n..];
  }

  lemma ByteHalves(hi: byte, lo: byte)
    ensures var n := (hi as int) * 256 + lo; n / 256 % 256 == hi && n % 256 == lo && 0 <= n < 65536
  {
  }

  lemma {:induction false} ExtsComplete(es: seq<Ext>)
    requires Sized(es)
    ensures ParseExts(WireExts(es)) == Some(es)
  {
    WireIsEncoding(es);
    ParseEncodedExts(es);
  }

  lemma {:induction false} WireIsEncoding(es: seq<Ext>)
    ensures WireExts(es) == EncodeExts(es)
  {
    if es != [] { WireIsEncoding(es[1..]); }
  }

  // ---------------------------------------------------------------- ServerHello

  /** The i-th extension is the last of its kind. */
  predicate LastAt(es: seq<Ext>, i: nat) {
    i < |es| && forall j :: i < j < |es| ==> es[j].kind != es[i].kind
  }

  predicate Has(es: seq<Ext>, kind: nat) { exists i :: 0 <= i < |es| && es[i].kind == kind }

  lemma {:induction false} LastIsLast(es: seq<Ext>, i: nat)
    requires LastAt(es, i)
    ensures Last(es, es[i].kind) == Some(es[i].body)
  {
    if i < |es| - 1 { LastIsLast(es[..|es| - 1], i); }
  }

  lemma {:induction false} LastIfAny(es: seq<Ext>, kind: nat)
    ensures Last(es, kind).Some? <==> Has(es, kind)
  {
    if es != [] {
      LastIfAny(es[..|es| - 1], kind);
      assert Has(es[..|es| - 1], kind) ==> Has(es, kind);
      if es[|es| - 1].kind == kind { assert Has(es, kind); }
    }
  }

  /** Selected version and pre-shared key are two bytes each, a key share is an X25519 key. */
  predicate Proper(e: Ext) {
    && (e.kind == 43 || e.kind == 41 ==> |e.body| == 2)
    && (e.kind == 51 ==> |e.body| == 36 && e.body[..4] == [0, 29, 0, 32])
  }

  lemma ProperIsAcceptable(e: Ext)
    ensures Proper(e) <==> Acceptable(e)
  {
    if |e.body| == 36 {
      NetworkOrder(0, e.body, 0);
      NetworkOrder(0, e.body, 2);
      assert e.body[..4] == [e.body[0], e.body[1], e.body[2], e.body[3]];
    }
  }

  /** What a list of extensions says, by the last of each kind. */
  predicate Says(h: ServerHello, suite: nat, es: seq<Ext>) {
    && h.cipherSuite == suite
    && (h.hasPsk <==> Has(es, 41)) && (h.hasKeyShare <==> Has(es, 51))
    && (!Has(es, 43) ==> h.version == 0)
    && forall i :: 0 <= i < |es| && LastAt(es, i) ==>
         && (es[i].kind == 43 && |es[i].body| == 2 ==> h.version == (es[i].body[0] as int) * 256 + es[i].body[1])
         && (es[i].kind == 41 && |es[i].body| == 2 ==> h.selectedIdentity == (es[i].body[0] as int) * 256 + es[i].body[1])
         && (es[i].kind == 51 && |es[i].body| == 36 ==> h.publicKey == es[i].body[4..])
  }

  lemma HelloSays(suite: nat, es: seq<Ext>)
    requires AllAcceptable(es)
    ensures Says(HelloOf(suite, es), suite, es)
  {
    LastIfAny(es, 43);
    LastIfAny(es, 41);
    LastIfAny(es, 51);
    forall i | 0 <= i < |es| && LastAt(es, i)
      ensures Last(es, es[i].kind) == Some(es[i].body) && Acceptable(es[i])
    {
      LastIsLast(es, i);
    }
    hide Last;
  }

  /** A ServerHello as written by a server, with whatever a peer might leave behind its extensions
      and behind the message. */
  function WireHello(front: bytes, sid: bytes, suite: nat, comp: byte, es: seq<Ext>, junk: bytes, tail: bytes): bytes {
    var exts := WireExts(es);
    var len := 40 + |sid| + |exts| + |junk|;
    [2, len / 65536 % 256, len / 256 % 256, len % 256] + front + [|sid| % 256] + sid
      + [suite / 256 % 256, suite % 256, comp, |exts| / 256 % 256, |exts| % 256] + exts + junk + tail
  }

  predicate WireSized(front: bytes, sid: bytes, suite: nat, es: seq<Ext>, junk: bytes) {
    && |front| == 34 && |sid| < 256 && suite < 65536 && Sized(es) && |WireExts(es)| < 65536
    && 40 + |sid| + |WireExts(es)| + |junk| < 16777216
  }

  /** Where the fields of a written ServerHello lie. */
  lemma WireLayout(front: bytes, sid: bytes, suite: nat, comp: byte, es: seq<Ext>, junk: bytes, tail: bytes)
    requires WireSized(front, sid, suite, es, junk)
    ensures var sh := WireHello(front, sid, suite, comp, es, junk, tail);
            && LayoutOf(sh) == Layout(suite, 44 + |sid|, |WireExts(es)|)
            && sh[44 + |sid|..44 + |sid| + |WireExts(es)|] == WireExts(es)
  {
    var sh, exts := WireHello(front, sid, suite, comp, es, junk, tail), WireExts(es);
    hide WireExts, Sized;
    var n, m := |sid|, |exts|;
    var len := 40 + n + m + |junk|;
    assert sh[0] == 2 && sh[1] == len / 65536 % 256 && sh[2] == len / 256 % 256 && sh[3] == len % 256;
    ThreeBytes(len);
    assert sh[38] == n;
    assert sh[39 + n] == suite / 256 % 256 && sh[40 + n] == suite % 256;
    assert sh[42 + n] == m / 256 % 256 && sh[43 + n] == m % 256;
    assert |sh| >= 4 + len;
    hide WireHello;
    ReadLayout(sh, n, len, suite, m);
  }

  /** A message whose length fields read as given is laid out accordingly. */
  lemma ReadLayout(sh: bytes, n: nat, len: nat, suite: nat, m: nat)
    requires |sh| >= 4 + len && len >= 40 + n + m && len < 16777216 && n < 256 && suite < 65536 && m < 65536
    requires sh[0] == 2 && (sh[1] as int) * 65536 + (sh[2] as int) * 256 + sh[3] == len && sh[38] == n
    requires sh[39 + n] == suite / 256 % 256 && sh[40 + n] == suite % 256
    requires sh[42 + n] == m / 256 % 256 && sh[43 + n] == m % 256
    ensures LayoutOf(sh) == Layout(suite, 44 + n, m)
  {
    NetworkOrder(0, sh, 1);
    NetworkOrder(0, sh, 39 + n);
    assert GetU16(sh, 42 + n) == m;
    assert GetU16(sh, 39 + n) == suite;
    hide GetU16, GetU24;
  }

  lemma ThreeBytes(n: nat)
    requires n < 16777216
    ensures (n / 65536 % 256) * 65536 + (n / 256 % 256) * 256 + n % 256 == n
  {
    var a := n / 256;
    assert n == a * 256 + n % 256 && a == (a / 256) * 256 + a % 256 && n / 65536 == a / 256;
  }

  /** Every written ServerHello whose known extensions are proper is read as what it says, and one
      with an improper extension is refused, in any order, with any unknown extensions. */
  lemma HelloComplete(front: bytes, sid: bytes, suite: nat, comp: byte, es: seq<Ext>, junk: bytes, tail: bytes)
    requires WireSized(front, sid, suite, es, junk)
    ensures var r := SpecParse(WireHello(front, sid, suite, comp, es, junk, tail));
            if AllProper(es) then r.Some? && Says(r.value, suite, es) else r == None
  {
    hide WireHello, WireExts, Says, AllProper, AllAcceptable, SpecParse;
    ReadsAs(front, sid, suite, comp, es, junk, tail);
    AllProperIsAcceptable(es);
    if AllAcceptable(es) { HelloSays(suite, es); }
  }

  predicate AllProper(es: seq<Ext>) { forall i :: 0 <= i < |es| ==> Proper(es[i]) }

  lemma AllProperIsAcceptable(es: seq<Ext>)
    ensures AllProper(es) <==> AllAcceptable(es)
  {
    hide Proper, Acceptable;
    forall i | 0 <= i < |es| ensures Proper(es[i]) <==> Acceptable(es[i]) { ProperIsAcceptable(es[i]); }
  }

  lemma ReadsAs(front: bytes, sid: bytes, suite: nat, comp: byte, es: seq<Ext>, junk: bytes, tail: bytes)
    requires WireSized(front, sid, suite, es, junk)
    ensures SpecParse(WireHello(front, sid, suite, comp, es, junk, tail))
         == if AllAcceptable(es) then Some(HelloOf(suite, es)) else None
  {
    hide WireHello, WireExts, AllAcceptable, LayoutOf, SpecParse, ParseExts, HelloOf, Sized;
    WireLayout(front, sid, suite, comp, es, junk, tail);
    ExtsComplete(es);
    SpecOf(WireHello(front, sid, suite, comp, es, junk, tail), suite, 44 + |sid|, |WireExts(es)|, es);
  }

  /** The reading of a message from its parts. */
  lemma SpecOf(sh: bytes, suite: nat, start: nat, len: nat, es: seq<Ext>)
    requires LayoutOf(sh) == Layout(suite, start, len) && ParseExts(sh[start..start + len]) == Some(es)
    ensures SpecParse(sh) == if AllAcceptable(es) then Some(HelloOf(suite, es)) else None
  {
    hide LayoutOf, ParseExts, AllAcceptable;
  }

  /** The parts of a message that is read. */
  lemma PartsOf(sh: bytes) returns (es: seq<Ext>)
    requires SpecParse(sh).Some?
    ensures var l := LayoutOf(sh);
            && l.Layout? && ParseExts(sh[l.start..l.start + l.len]) == Some(es) && AllAcceptable(es)
            && SpecParse(sh).value == HelloOf(l.cipherSuite, es)
  {
    hide LayoutOf, ParseExts, AllAcceptable;
    var l := LayoutOf(sh);
    es := ParseExts(sh[l.start..l.start + l.len]).value;
  }

  /** Whatever is read as a ServerHello was written as one, with proper extensions, and is read as
      what it says: every other byte string is refused. */
  lemma HelloSound(sh: bytes)
    returns (front: bytes, sid: bytes, suite: nat, comp: byte, es: seq<Ext>, junk: bytes, tail: bytes)
    requires SpecParse(sh).Some?
    ensures WireSized(front, sid, suite, es, junk)
    ensures sh == WireHello(front, sid, suite, comp, es, junk, tail)
    ensures AllProper(es) && Says(SpecParse(sh).value, suite, es)
  {
    es := PartsOf(sh);
    var l := LayoutOf(sh);
    ExtsSound(sh[l.start..l.start + l.len]);
    AllProperIsAcceptable(es);
    HelloSays(l.cipherSuite, es);
    hide ParseExts, Says, HelloOf, Proper, Acceptable, SpecParse, WireExts, LayoutOf, WireHello;
    front, sid, comp, junk, tail := Pieces(sh, es);
    suite := l.cipherSuite;
  }

  lemma Pieces(sh: bytes, es: seq<Ext>)
    returns (front: bytes, sid: bytes, comp: byte, junk: bytes, tail: bytes)
    requires LayoutOf(sh).Layout? && Sized(es)
    requires var l := LayoutOf(sh); WireExts(es) == sh[l.start..l.start + l.len]
    ensures WireSized(front, sid, LayoutOf(sh).cipherSuite, es, junk)
    ensures sh == WireHello(front, sid, LayoutOf(sh).cipherSuite, comp, es, junk, tail)
  {
    var l := LayoutOf(sh);
    Bounds(sh);
    var n: nat := l.start - 44;
    var end := 4 + GetU24(sh, 1);
    HeadOfHello(sh, n);
    hide WireExts, LayoutOf, GetU24;
    front, sid, comp := sh[4..38], sh[39..39 + n], sh[41 + n];
    junk, tail := sh[l.start + l.len..end], sh[end..];
    Cover(sh, n, l.start + l.len, end);
  }

  /** A message in pieces. */
  lemma Cover(sh: bytes, n: nat, a: nat, b: nat)
    requires 44 + n <= a <= b <= |sh|
    ensures sh == sh[..4] + sh[4..38] + [sh[38]] + sh[39..39 + n] + sh[39 + n..44 + n] + sh[44 + n..a] + sh[a..b] + sh[b..]
  {
    assert sh[39 + n..] == sh[39 + n..44 + n] + sh[44 + n..a] + sh[a..b] + sh[b..];
    assert sh == sh[..4] + sh[4..38] + [sh[38]] + sh[39..39 + n] + sh[39 + n..];
  }

  lemma Bounds(sh: bytes)
    requires LayoutOf(sh).Layout?
    ensures var l := LayoutOf(sh);
            l.start >= 44 && l.start + l.len <= 4 + GetU24(sh, 1) <= |sh|
  {
  }

  lemma HeadOfHello(sh: bytes, n: nat)
    requires LayoutOf(sh).Layout? && LayoutOf(sh).start == 44 + n
    ensures n == sh[38] && n < 256
    ensures var l := LayoutOf(sh);
            var len := GetU24(sh, 1);
            && sh[..4] == [2, len / 65536 % 256, len / 256 % 256, len % 256] && len < 16777216
            && sh[39 + n..44 + n] == [l.cipherSuite / 256 % 256, l.cipherSuite % 256, sh[41 + n], l.len / 256 % 256, l.len % 256]
            && l.cipherSuite < 65536 && l.len < 65536
  {
    var l := LayoutOf(sh);
    ByteHalves(sh[39 + n], sh[40 + n]);
    ByteHalves(sh[42 + n], sh[43 + n]);
    TripleHalves(sh[1], sh[2], sh[3]);
  }

  lemma TripleHalves(a: byte, b: byte, c: byte)
    ensures var n := (a as int) * 65536 + (b as int) * 256 + c;
            n / 65536 % 256 == a && n / 256 % 256 == b && n % 256 == c && 0 <= n < 16777216
  {
    var n := (a as int) * 65536 + (b as int) * 256 + c;
    assert n / 256 == (a as int) * 256 + b;
    assert n / 65536 == a;
  }
}
