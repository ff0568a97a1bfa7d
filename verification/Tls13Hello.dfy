/**
 The TLS 1.3 hello messages (RFC 8446 sections 4.1.2, 4.1.3, 4.2 and 4.2.11): the ClientHello
 builder, the ServerHello parser, and the grammar against which both are proved.
 */
module Tls13Hello {
  import opened Bytes
  import opened Tls13Crypto

  const CLIENT_HELLO: byte := 1
  const SERVER_HELLO: byte := 2
  const VERSION_1_2 := 0x0303
  const VERSION_1_3 := 0x0304
  const AES_128_GCM_SHA256 := 0x1301
  const EXT_NAMED_GROUP := 10
  const EXT_PRE_SHARED_KEY := 41
  const EXT_SUPPORTED_VERSIONS := 43
  const EXT_PSK_MODES := 45
  const EXT_KEY_SHARE := 51
  const GROUP_X25519 := 29

  // ---------------------------------------------------------------- extension lists

  datatype Ext = Ext(kind: nat, body: bytes)

  predicate Encodable(e: Ext) { e.kind < 65536 && |e.body| < 65536 }

  function EncodeExt(e: Ext): bytes { U16(e.kind) + U16(|e.body|) + e.body }

  function EncodeExts(es: seq<Ext>): bytes {
    if es == [] then [] else EncodeExt(es[0]) + EncodeExts(es[1..])
  }

  /** The extension list grammar: type, length, that many bytes, and again to the end. */
  function ParseExts(s: bytes): Option<seq<Ext>> {
    if s == [] then Some([])
    else if |s| < 4 || |s| < 4 + GetU16(s, 2) then None
    else
      var n := GetU16(s, 2);
      match ParseExts(s[4 + n..])
      case None => None
      case Some(es) => Some([Ext(GetU16(s, 0), s[4..4 + n])] + es)
  }

  lemma EncodedHead(e: Ext, rest: bytes)
    requires Encodable(e)
    ensures var s := EncodeExt(e) + rest; var n := |e.body|;
            && |s| == 4 + n + |rest| && GetU16(s, 0) == e.kind && GetU16(s, 2) == n
            && s[4..4 + n] == e.body && s[4 + n..] == rest
  {
    var s := EncodeExt(e) + rest;
    assert s[0] == U16(e.kind)[0] && s[1] == U16(e.kind)[1];
    assert s[2] == U16(|e.body|)[0] && s[3] == U16(|e.body|)[1];
    U16RoundTrip(e.kind);
    U16RoundTrip(|e.body|);
  }

  lemma ParseOne(e: Ext, rest: bytes)
    requires Encodable(e) && ParseExts(rest).Some?
    ensures ParseExts(EncodeExt(e) + rest) == Some([e] + ParseExts(rest).value)
  {
    hide EncodeExt, GetU16;
    EncodedHead(e, rest);
  }

  lemma {:induction false} ParseEncodedExts(es: seq<Ext>)
    requires forall e :: e in es ==> Encodable(e)
    ensures ParseExts(EncodeExts(es)) == Some(es)
  {
    if es != [] {
      hide EncodeExt, ParseExts;
      ParseEncodedExts(es[1..]);
      ParseOne(es[0], EncodeExts(es[1..]));
      assert es == [es[0]] + es[1..];
    } else {
      hide EncodeExt;
    }
  }

  // ---------------------------------------------------------------- ServerHello

  datatype ServerHello = ServerHello(cipherSuite: nat, version: nat, selectedIdentity: nat,
                                     hasPsk: bool, hasKeyShare: bool, publicKey: bytes)

  /** What the parser demands of the extensions it knows. */
  predicate Acceptable(e: Ext) {
    if e.kind == EXT_SUPPORTED_VERSIONS || e.kind == EXT_PRE_SHARED_KEY then |e.body| == 2
    else if e.kind == EXT_KEY_SHARE then
      |e.body| == 36 && GetU16(e.body, 0) == GROUP_X25519 && GetU16(e.body, 2) == 32
    else true
  }

  /** The last extension of a kind, if any. */
  function Last(es: seq<Ext>, kind: nat): Option<bytes> {
    if es == [] then None
    else if es[|es| - 1].kind == kind then Some(es[|es| - 1].body)
    else Last(es[..|es| - 1], kind)
  }

  predicate AllAcceptable(es: seq<Ext>) { forall i :: 0 <= i < |es| ==> Acceptable(es[i]) }

  lemma {:induction false} LastAcceptable(es: seq<Ext>, kind: nat)
    requires AllAcceptable(es)
    ensures Last(es, kind).Some? ==> Acceptable(Ext(kind, Last(es, kind).value))
  {
    if es != [] { LastAcceptable(es[..|es| - 1], kind); }
  }

  /** The hello described by an extension list: the last occurrence of each kind counts. */
  function HelloOf(suite: nat, es: seq<Ext>): ServerHello
    requires AllAcceptable(es)
  {
    LastAcceptable(es, EXT_SUPPORTED_VERSIONS);
    LastAcceptable(es, EXT_PRE_SHARED_KEY);
    LastAcceptable(es, EXT_KEY_SHARE);
    var v, p, k := Last(es, EXT_SUPPORTED_VERSIONS), Last(es, EXT_PRE_SHARED_KEY), Last(es, EXT_KEY_SHARE);
    ServerHello(suite,
                if v.Some? then GetU16(v.value, 0) else 0,
                if p.Some? then GetU16(p.value, 0) else 0,
                p.Some?,
                k.Some?,
                if k.Some? then k.value[4..] else Zeros(32))
  }

  /** Where the extension block lies in a ServerHello, and the cipher suite before it. */
  datatype Layout = Malformed | Layout(cipherSuite: nat, start: nat, len: nat)

  function LayoutOf(sh: bytes): (r: Layout)
    ensures r.Layout? ==> r.start + r.len <= |sh|
  {
    if |sh| < 4 || sh[0] != SERVER_HELLO || 4 + GetU24(sh, 1) > |sh| then Malformed
    else
      var end := 4 + GetU24(sh, 1);
      if 39 > end then Malformed
      else
        var p := 39 + (sh[38] as int);
        if p + 5 > end || p + 5 + GetU16(sh, p + 3) > end then Malformed
        else Layout(GetU16(sh, p), p + 5, GetU16(sh, p + 3))
  }

  /** The specification of the parser: lay out the message, read its extension list with the
      grammar, and describe the hello by the last extension of each kind. */
  function SpecParse(sh: bytes): Option<ServerHello> {
    match LayoutOf(sh)
    case Malformed => None
    case Layout(suite, start, len) =>
      match ParseExts(sh[start..start + len])
      case None => None
      case Some(es) => if AllAcceptable(es) then Some(HelloOf(suite, es)) else None
  }

  /** The effect of one extension on the hello read so far. */
  function Absorb(h: ServerHello, e: Ext): ServerHello
    requires Acceptable(e)
  {
    if e.kind == EXT_SUPPORTED_VERSIONS then h.(version := GetU16(e.body, 0))
    else if e.kind == EXT_PRE_SHARED_KEY then h.(selectedIdentity := GetU16(e.body, 0), hasPsk := true)
    else if e.kind == EXT_KEY_SHARE then h.(publicKey := e.body[4..], hasKeyShare := true)
    else h
  }

  /** The parser's loop as a recursion: it fails at the first bad extension. */
  function ReadExts(h: ServerHello, s: bytes): Option<ServerHello>
    decreases |s|
  {
    if s == [] then Some(h)
    else if |s| < 4 || |s| < 4 + GetU16(s, 2) then None
    else
      var n := GetU16(s, 2);
      var e := Ext(GetU16(s, 0), s[4..4 + n]);
      if Acceptable(e) then ReadExts(Absorb(h, e), s[4 + n..]) else None
  }

  lemma {:induction false} ReadExtsFrom(suite: nat, done: seq<Ext>, s: bytes)
    requires AllAcceptable(done)
    ensures match ParseExts(s)
            case None => ReadExts(HelloOf(suite, done), s) == None
            case Some(es) => ReadExts(HelloOf(suite, done), s) ==
                               if AllAcceptable(done + es) then Some(HelloOf(suite, done + es)) else None
    decreases |s|
  {
    hide GetU16, HelloOf, Absorb, Acceptable, AllAcceptable;
    if s == [] {
      assert done + [] == done;
    } else if |s| < 4 || |s| < 4 + GetU16(s, 2) {
    } else {
      var n := GetU16(s, 2);
      var e := Ext(GetU16(s, 0), s[4..4 + n]);
      var rest := ParseExts(s[4 + n..]);
      if Acceptable(e) {
        AbsorbExtends(suite, done, e);
        ReadExtsFrom(suite, done + [e], s[4 + n..]);
      }
      if rest.Some? { OneExtOn(done, e, rest.value); }
    }
  }

  lemma OneExtOn(done: seq<Ext>, e: Ext, es: seq<Ext>)
    ensures done + [e] + es == done + ([e] + es)
    ensures AllAcceptable(done + ([e] + es)) ==> Acceptable(e)
  {
    assert (done + ([e] + es))[|done|] == e;
  }

  lemma AbsorbExtends(suite: nat, done: seq<Ext>, e: Ext)
    requires AllAcceptable(done) && Acceptable(e)
    ensures AllAcceptable(done + [e])
    ensures Absorb(HelloOf(suite, done), e) == HelloOf(suite, done + [e])
  {
    var all := done + [e];
    assert all[..|all| - 1] == done;
    assert forall k :: Last(all, k) == if e.kind == k then Some(e.body) else Last(done, k);
  }

  /** The parser accepts exactly what the grammar accepts, and returns the last occurrence of
      each known extension; it reads only inside the message and terminates on every input. */
  method ParseServerHello(sh: bytes) returns (r: Option<ServerHello>)
    ensures r == SpecParse(sh)
  {
    hide HelloOf, ParseExts, ReadExts, GetU16, GetU24;
    r := None;
    if |sh| < 4 { return; }
    if sh[0] != SERVER_HELLO { return; }
    var bodyLen := GetU24(sh, 1);
    if 4 + bodyLen > |sh| { return; }
    var end := 4 + bodyLen;
    var pos: nat := 4;
    if pos + 2 + 32 > end { return; }
    pos := pos + 34;
    if pos + 1 > end { return; }
    var sessionIdLen := sh[pos];
    pos := pos + 1;
    if pos + sessionIdLen > end { return; }
    pos := pos + sessionIdLen;
    if pos + 3 > end { return; }
    var suite := GetU16(sh, pos);
    pos := pos + 3;
    if pos + 2 > end { return; }
    var extsLen := GetU16(sh, pos);
    pos := pos + 2;
    if pos + extsLen > end { return; }

    assert LayoutOf(sh) == Layout(suite, pos, extsLen);
    SpecParseIsRead(sh);
    EmptyHello(suite);
    r := ReadExtensions(sh, pos, extsLen, ServerHello(suite, 0, 0, false, false, Zeros(32)));
  }

  /** The extension loop of the parser. */
  method ReadExtensions(sh: bytes, start: nat, len: nat, empty: ServerHello)
    returns (r: Option<ServerHello>)
    requires start + len <= |sh|
    ensures r == ReadExts(empty, sh[start..start + len])
  {
    hide GetU16, Absorb, Acceptable;
    var pos, extsLen, out := start, len, empty;
    while extsLen > 0
      invariant pos + extsLen == start + len
      invariant ReadExts(out, sh[pos..pos + extsLen]) == ReadExts(empty, sh[start..start + len])
      decreases extsLen
    {
      ghost var s := sh[pos..pos + extsLen];
      if extsLen < 4 { return None; }
      var extType, extLen := GetU16(sh, pos), GetU16(sh, pos + 2);
      GetU16Inside(sh, pos, extsLen, 0);
      GetU16Inside(sh, pos, extsLen, 2);
      pos := pos + 4;
      extsLen := extsLen - 4;
      if extLen > extsLen { return None; }
      var e := Ext(extType, sh[pos..pos + extLen]);
      assert s[4..4 + extLen] == e.body && s[4 + extLen..] == sh[pos + extLen..pos + extsLen];
      if !Acceptable(e) { return None; }
      out := Absorb(out, e);
      pos := pos + extLen;
      extsLen := extsLen - extLen;
    }
    r := Some(out);
  }

  lemma GetU16Inside(s: bytes, pos: nat, len: nat, i: nat)
    requires i + 2 <= len && pos + len <= |s|
    ensures GetU16(s[pos..pos + len], i) == GetU16(s, pos + i)
  {
  }

  lemma EmptyHello(suite: nat)
    ensures HelloOf(suite, []) == ServerHello(suite, 0, 0, false, false, Zeros(32))
  {
  }

  lemma SpecParseIsRead(sh: bytes)
    requires LayoutOf(sh).Layout?
    ensures var l := LayoutOf(sh);
            SpecParse(sh) == ReadExts(HelloOf(l.cipherSuite, []), sh[l.start..l.start + l.len])
  {
    hide LayoutOf, HelloOf, ReadExts, ParseExts;
    var l := LayoutOf(sh);
    var s := sh[l.start..l.start + l.len];
    ReadExtsFrom(l.cipherSuite, [], s);
    if ParseExts(s).Some? { assert [] + ParseExts(s).value == ParseExts(s).value; }
  }

  function ServerHelloBody(random: bytes, sessionId: bytes, suite: nat, es: seq<Ext>): bytes
    requires |sessionId| < 256
  {
    U16(VERSION_1_2) + random + [|sessionId|] + sessionId + U16(suite) + [0]
      + U16(|EncodeExts(es)|) + EncodeExts(es)
  }

  function EncodeServerHello(random: bytes, sessionId: bytes, suite: nat, es: seq<Ext>): bytes
    requires |sessionId| < 256
  {
    var body := ServerHelloBody(random, sessionId, suite, es);
    [SERVER_HELLO] + U24(|body|) + body
  }

  lemma EncodedLayout(random: bytes, sid: bytes, suite: nat, exts: bytes, sh: bytes)
    requires |random| == 32 && |sid| < 256 && suite < 65536 && |exts| < 65536
    requires var body := U16(VERSION_1_2) + random + [|sid|] + sid + U16(suite) + [0] + U16(|exts|) + exts;
             sh == [SERVER_HELLO] + U24(|body|) + body
    ensures LayoutOf(sh) == Layout(suite, 44 + |sid|, |exts|)
    ensures sh[44 + |sid|..44 + |sid| + |exts|] == exts
  {
    var n := |sid|;
    assert sh[1..4] == U24(40 + n + |exts|);
    U24RoundTrip(40 + n + |exts|);
    assert GetU24(sh, 1) == GetU24(sh[1..4], 0);
    assert sh[38] == n;
    assert sh[39 + n..41 + n] == U16(suite);
    U16RoundTrip(suite);
    assert GetU16(sh, 39 + n) == GetU16(sh[39 + n..41 + n], 0);
    assert sh[42 + n..44 + n] == U16(|exts|);
    U16RoundTrip(|exts|);
    assert GetU16(sh, 42 + n) == GetU16(sh[42 + n..44 + n], 0);
  }

  /** The parser inverts the encoder for any extension order and any unknown extensions. */
  lemma ParseEncodedServerHello(random: bytes, sid: bytes, suite: nat, es: seq<Ext>)
    requires |random| == 32 && |sid| < 256 && suite < 65536 && |EncodeExts(es)| < 65536
    requires (forall e :: e in es ==> Encodable(e)) && AllAcceptable(es)
    ensures SpecParse(EncodeServerHello(random, sid, suite, es)) == Some(HelloOf(suite, es))
  {
    hide LayoutOf, EncodeExts, ParseExts;
    var sh := EncodeServerHello(random, sid, suite, es);
    EncodedLayout(random, sid, suite, EncodeExts(es), sh);
    ParseEncodedExts(es);
  }

  // ---------------------------------------------------------------- ClientHello

  const BINDERS_LEN := 35

  const VERSIONS_EXT: bytes := [0, EXT_SUPPORTED_VERSIONS, 0, 3, 2, 3, 4]
  const GROUPS_EXT: bytes := [0, EXT_NAMED_GROUP, 0, 4, 0, 2, 0, GROUP_X25519]
  const MODES_EXT: bytes := [0, EXT_PSK_MODES, 0, 2, 1, 1]

  function KeyShareExt(publicKey: bytes): bytes {
    [0, EXT_KEY_SHARE, 0, 38, 0, 36, 0, GROUP_X25519, 0, 32] + publicKey
  }

  /** The pre_shared_key extension up to the end of the identities; its length counts the
      binders list. */
  function PskExtHead(identity: bytes): bytes {
    [0, EXT_PRE_SHARED_KEY] + U16(43 + |identity|) + U16(6 + |identity|)
      + U16(|identity|) + identity + [0, 0, 0, 0]
  }

  /** The five extensions of the ClientHello, up to the end of the identities. */
  function Offer(publicKey: bytes, identity: bytes): bytes {
    VERSIONS_EXT + GROUPS_EXT + KeyShareExt(publicKey) + MODES_EXT + PskExtHead(identity)
  }

  /** The truncated ClientHello, over which the binder is computed; its length fields
      already count the binders list. */
  function Truncated(random: bytes, publicKey: bytes, identity: bytes): bytes {
    [CLIENT_HELLO] + U24(153 + |identity|) + [3, 3] + random + [0, 0, 2, 0x13, 1, 1, 0]
      + U16(110 + |identity|) + Offer(publicKey, identity)
  }

  function Binders(binder: bytes): bytes { [0, 33, 32] + binder }

  function ClientHello(c: Suite, random: bytes, publicKey: bytes, psk: bytes, identity: bytes,
                       binderLabel: bytes): bytes
  {
    var t := Truncated(random, publicKey, identity);
    t + Binders(Binder(c, EarlySecret(c, psk), binderLabel, t))
  }

  /** What a server learns from a ClientHello. */
  datatype ClientOffer = ClientOffer(random: bytes, keyShare: bytes, identity: bytes,
                                     binder: bytes, truncated: bytes)

  /** A server's strict reading: every length field must match the bytes it governs, and
      pre_shared_key must come last with one identity and one binder. */
  function ReadClientHello(ch: bytes): Option<ClientOffer> {
    if |ch| < 47 || ch[0] != CLIENT_HELLO || GetU24(ch, 1) != |ch| - 4 then None
    else if ch[38..45] != [0, 0, 2, 0x13, 1, 1, 0] || GetU16(ch, 45) != |ch| - 47 then None
    else
      match ParseExts(ch[47..])
      case None => None
      case Some(es) =>
        if |es| == 0 || es[|es| - 1].kind != EXT_PRE_SHARED_KEY then None
        else
          var k := Last(es, EXT_KEY_SHARE);
          var p := es[|es| - 1].body;
          if k == None || !KeyShareOk(k.value) || !PskOk(p) then None
          else
            Some(ClientOffer(ch[6..38], k.value[6..], p[4..|p| - BINDERS_LEN - 4],
                             p[|p| - 32..], ch[..|ch| - BINDERS_LEN]))
  }

  predicate KeyShareOk(k: bytes) {
    |k| == 38 && GetU16(k, 0) == 36 && GetU16(k, 2) == GROUP_X25519 && GetU16(k, 4) == 32
  }

  predicate PskOk(p: bytes) {
    && |p| >= 8 + BINDERS_LEN && GetU16(p, 0) == |p| - 2 - BINDERS_LEN
    && GetU16(p, 2) == |p| - 8 - BINDERS_LEN
    && GetU16(p, |p| - BINDERS_LEN) == 33 && p[|p| - BINDERS_LEN + 2] == 32
  }

  function KeyShareBody(publicKey: bytes): bytes { [0, 36, 0, GROUP_X25519, 0, 32] + publicKey }

  function PskBody(identity: bytes, binder: bytes): bytes {
    U16(6 + |identity|) + U16(|identity|) + identity + [0, 0, 0, 0] + Binders(binder)
  }

  function OfferExts(publicKey: bytes, identity: bytes, binder: bytes): seq<Ext> {
    [Ext(EXT_SUPPORTED_VERSIONS, [2, 3, 4]), Ext(EXT_NAMED_GROUP, [0, 2, 0, GROUP_X25519]),
     Ext(EXT_KEY_SHARE, KeyShareBody(publicKey)), Ext(EXT_PSK_MODES, [1, 1]),
     Ext(EXT_PRE_SHARED_KEY, PskBody(identity, binder))]
  }

  lemma {:induction false} EncodeExtsSplit(es: seq<Ext>, k: nat)
    requires k <= |es|
    ensures EncodeExts(es) == EncodeExts(es[..k]) + EncodeExts(es[k..])
    decreases k
  {
    hide EncodeExt;
    if k == 0 {
      assert es[0..] == es;
    } else {
      EncodeExtsSplit(es[1..], k - 1);
      assert es[1..][..k - 1] == es[..k][1..] && es[1..][k - 1..] == es[k..];
    }
  }

  lemma EncodeTwo(a: Ext, b: Ext)
    ensures EncodeExts([a, b]) == EncodeExt(a) + EncodeExt(b)
  {
    hide EncodeExt;
    assert [a, b][1..] == [b] && [b][1..] == [];
    assert EncodeExts([b]) == EncodeExt(b) + EncodeExts([b][1..]);
  }

  lemma EncodeFive(a: Ext, b: Ext, c: Ext, d: Ext, e: Ext)
    ensures EncodeExts([a, b, c, d, e])
         == EncodeExt(a) + EncodeExt(b) + EncodeExt(c) + EncodeExt(d) + EncodeExt(e)
  {
    hide EncodeExt;
    var es := [a, b, c, d, e];
    EncodeExtsSplit(es, 2);
    EncodeExtsSplit(es[2..], 2);
    assert es[..2] == [a, b] && es[2..][..2] == [c, d] && es[2..][2..] == [e];
    EncodeTwo(a, b);
    EncodeTwo(c, d);
    assert EncodeExts([e]) == EncodeExt(e) by { assert [e][1..] == []; }
  }

  lemma OfferConstants()
    ensures EncodeExt(Ext(EXT_SUPPORTED_VERSIONS, [2, 3, 4])) == VERSIONS_EXT
    ensures EncodeExt(Ext(EXT_NAMED_GROUP, [0, 2, 0, GROUP_X25519])) == GROUPS_EXT
    ensures EncodeExt(Ext(EXT_PSK_MODES, [1, 1])) == MODES_EXT
  {
  }

  lemma OfferShare(publicKey: bytes)
    requires |publicKey| == 32
    ensures EncodeExt(Ext(EXT_KEY_SHARE, KeyShareBody(publicKey))) == KeyShareExt(publicKey)
  {
  }

  lemma OfferPsk(identity: bytes, binder: bytes)
    requires |binder| == 32
    ensures EncodeExt(Ext(EXT_PRE_SHARED_KEY, PskBody(identity, binder)))
         == PskExtHead(identity) + Binders(binder)
  {
  }

  /** The bytes offered, with the binders list, are the encoding of five extensions. */
  lemma OfferIsExts(publicKey: bytes, identity: bytes, binder: bytes)
    requires |publicKey| == 32 && |binder| == 32
    ensures Offer(publicKey, identity) + Binders(binder) == EncodeExts(OfferExts(publicKey, identity, binder))
  {
    hide EncodeExt, KeyShareExt, PskExtHead, Binders, KeyShareBody, PskBody, EncodeExts;
    var es := OfferExts(publicKey, identity, binder);
    EncodeFive(es[0], es[1], es[2], es[3], es[4]);
    OfferConstants();
    OfferShare(publicKey);
    OfferPsk(identity, binder);
  }

  lemma OfferExtsLast(publicKey: bytes, identity: bytes, binder: bytes)
    ensures Last(OfferExts(publicKey, identity, binder), EXT_KEY_SHARE) == Some(KeyShareBody(publicKey))
  {
    var es := OfferExts(publicKey, identity, binder);
    assert Last(es, EXT_KEY_SHARE) == Last(es[..4], EXT_KEY_SHARE);
    assert es[..4][..3] == es[..3];
    assert Last(es[..4], EXT_KEY_SHARE) == Last(es[..3], EXT_KEY_SHARE);
  }

  lemma ShareAndPskOk(publicKey: bytes, identity: bytes, binder: bytes)
    requires |publicKey| == 32 && |binder| == 32 && 110 + |identity| < 65536
    ensures KeyShareOk(KeyShareBody(publicKey)) && KeyShareBody(publicKey)[6..] == publicKey
    ensures var p := PskBody(identity, binder);
            && |p| == 43 + |identity| && PskOk(p)
            && p[4..|p| - BINDERS_LEN - 4] == identity && p[|p| - 32..] == binder
  {
    U16RoundTrip(6 + |identity|);
    U16RoundTrip(|identity|);
    var p, n := PskBody(identity, binder), |identity|;
    assert p[..2] == U16(6 + n) && p[2..4] == U16(n) && p[4..4 + n] == identity;
    assert p[8 + n..] == Binders(binder);
  }

  lemma HeaderReadBack(random: bytes, n: nat, exts: bytes, ch: bytes)
    requires |random| == 32 && 110 + n < 65536 && |exts| == 110 + n
    requires ch == [CLIENT_HELLO] + U24(153 + n) + [3, 3] + random + [0, 0, 2, 0x13, 1, 1, 0] + U16(110 + n) + exts
    ensures |ch| == 157 + n && ch[0] == CLIENT_HELLO && GetU24(ch, 1) == |ch| - 4
    ensures ch[38..45] == [0, 0, 2, 0x13, 1, 1, 0] && GetU16(ch, 45) == |ch| - 47
    ensures ch[47..] == exts && ch[6..38] == random
  {
    U24RoundTrip(153 + n);
    U16RoundTrip(110 + n);
    assert ch[1..4] == U24(153 + n) && GetU24(ch, 1) == GetU24(ch[1..4], 0);
    assert ch[45..47] == U16(110 + n) && GetU16(ch, 45) == GetU16(ch[45..47], 0);
  }

  /** The ClientHello is self-consistent: for every identity whose lengths fit, it has
      157 + |identity| bytes, a server's strict reading recovers everything offered, and the
      binder is the one computed over exactly the bytes before the binders list. */
  lemma ClientHelloReadBack(c: Suite, random: bytes, publicKey: bytes, psk: bytes,
                                               identity: bytes, binderLabel: bytes)
    requires |random| == 32 && |publicKey| == 32 && 110 + |identity| < 65536
    requires forall k, m :: |c.hmac(k, m)| == DIGEST_LEN
    ensures var ch := ClientHello(c, random, publicKey, psk, identity, binderLabel);
            var t := Truncated(random, publicKey, identity);
            && |ch| == 157 + |identity|
            && ReadClientHello(ch) == Some(ClientOffer(random, publicKey, identity,
                                           Binder(c, EarlySecret(c, psk), binderLabel, t), t))
  {
    var t := Truncated(random, publicKey, identity);
    var binder := Binder(c, EarlySecret(c, psk), binderLabel, t);
    var ch := ClientHello(c, random, publicKey, psk, identity, binderLabel);
    var es := OfferExts(publicKey, identity, binder);
    assert |binder| == 32;
    var exts := Offer(publicKey, identity) + Binders(binder);
    ReadBackParts(random, publicKey, identity, binder, ch);
  }

  /** The bound is exact: a longer identity, which the guard would let into a large enough
      buffer, overflows the extensions length and the message can no longer be read. */
  lemma ReadBackExact(c: Suite, random: bytes, publicKey: bytes, psk: bytes,
                                         identity: bytes, binderLabel: bytes)
    requires |random| == 32 && |publicKey| == 32
    requires forall k, m :: |c.hmac(k, m)| == DIGEST_LEN
    ensures ReadClientHello(ClientHello(c, random, publicKey, psk, identity, binderLabel)).Some?
            <==> 110 + |identity| < 65536
  {
    if 110 + |identity| < 65536 {
      ClientHelloReadBack(c, random, publicKey, psk, identity, binderLabel);
    } else {
      var ch := ClientHello(c, random, publicKey, psk, identity, binderLabel);
      hide Binder, ParseExts;
      assert GetU16(ch, 45) < 65536 <= |ch| - 47;
    }
  }

  lemma ReadBackParts(random: bytes, publicKey: bytes, identity: bytes, binder: bytes, ch: bytes)
    requires |random| == 32 && |publicKey| == 32 && |binder| == 32 && 110 + |identity| < 65536
    requires ch == Truncated(random, publicKey, identity) + Binders(binder)
    ensures |ch| == 157 + |identity|
    ensures ReadClientHello(ch) == Some(ClientOffer(random, publicKey, identity, binder,
                                                    Truncated(random, publicKey, identity)))
  {
    var exts := Offer(publicKey, identity) + Binders(binder);
    assert |exts| == 110 + |identity|;
    HeaderReadBack(random, |identity|, exts, ch);
    hide Offer, KeyShareExt, PskExtHead, Truncated, KeyShareBody, PskBody, KeyShareOk, PskOk, ParseExts, EncodeExts, GetU16, GetU24, Last;
    assert ch[..|ch| - BINDERS_LEN] == Truncated(random, publicKey, identity);
    OfferIsExts(publicKey, identity, binder);
    ShareAndPskOk(publicKey, identity, binder);
    OfferExtsLast(publicKey, identity, binder);
    var es := OfferExts(publicKey, identity, binder);
    assert |KeyShareBody(publicKey)| == 38;
    ParseEncodedExts(es);
  }

  /** The ClientHello as first written, with its four length fields left zero. */
  function Draft(random: bytes, publicKey: bytes, identity: bytes): bytes {
    Filled(random, publicKey, identity, [0, 0, 0], [0, 0], [0, 0], [0, 0])
  }

  function BeforeExts(random: bytes): bytes { [3, 3] + random + [0, 0, 2, 0x13, 1, 1, 0] }

  function BeforePsk(publicKey: bytes): bytes {
    VERSIONS_EXT + GROUPS_EXT + KeyShareExt(publicKey) + MODES_EXT + [0, EXT_PRE_SHARED_KEY]
  }

  function IdentityEntry(identity: bytes): bytes { U16(|identity|) + identity + [0, 0, 0, 0] }

  /** The truncated ClientHello with given message, extensions, extension and identities lengths. */
  function Filled(random: bytes, publicKey: bytes, identity: bytes,
                  msgLen: bytes, extsLen: bytes, extLen: bytes, idsLen: bytes): bytes
  {
    [CLIENT_HELLO] + msgLen + BeforeExts(random) + extsLen + BeforePsk(publicKey) + extLen + idsLen
      + IdentityEntry(identity)
  }

  lemma FilledIsTruncated(random: bytes, publicKey: bytes, identity: bytes)
    ensures Filled(random, publicKey, identity, U24(153 + |identity|), U16(110 + |identity|),
                   U16(43 + |identity|), U16(6 + |identity|))
         == Truncated(random, publicKey, identity)
  {
    hide KeyShareExt, U16, U24;
  }

  /** Overwriting the middle of a sequence. */
  function Patched(s: bytes, off: nat, data: bytes): bytes
    requires off + |data| <= |s|
  {
    s[..off] + data + s[off + |data|..]
  }

  lemma PatchLengths(random: bytes, publicKey: bytes, identity: bytes, s: bytes)
    requires |random| == 32 && |publicKey| == 32 && s == Draft(random, publicKey, identity)
    ensures |s| == 122 + |identity|
    ensures Patched(Patched(Patched(Patched(s, 1, U24(153 + |identity|)), 114, U16(6 + |identity|)),
                            112, U16(43 + |identity|)), 45, U16(110 + |identity|))
         == Truncated(random, publicKey, identity)
  {
    hide BeforeExts, BeforePsk, IdentityEntry, U16, U24, Truncated;
    assert |BeforeExts(random)| == 41 && |BeforePsk(publicKey)| == 65 && |IdentityEntry(identity)| == 6 + |identity| by {
      SegmentLengths(random, publicKey, identity);
    }
    var n := |identity|;
    var a, b, c, d := U24(153 + n), U16(110 + n), U16(43 + n), U16(6 + n);
    assert |a| == 3 && |b| == 2 && |c| == 2 && |d| == 2 by { FieldLengths(n); }
    assert Patched(s, 1, a) == Filled(random, publicKey, identity, a, [0, 0], [0, 0], [0, 0]);
    assert Patched(Filled(random, publicKey, identity, a, [0, 0], [0, 0], [0, 0]), 114, d)
        == Filled(random, publicKey, identity, a, [0, 0], [0, 0], d);
    assert Patched(Filled(random, publicKey, identity, a, [0, 0], [0, 0], d), 112, c)
        == Filled(random, publicKey, identity, a, [0, 0], c, d);
    assert Patched(Filled(random, publicKey, identity, a, [0, 0], c, d), 45, b)
        == Filled(random, publicKey, identity, a, b, c, d);
    FilledIsTruncated(random, publicKey, identity);
  }

  lemma SegmentLengths(random: bytes, publicKey: bytes, identity: bytes)
    requires |random| == 32 && |publicKey| == 32
    ensures |BeforeExts(random)| == 41 && |BeforePsk(publicKey)| == 65
    ensures |IdentityEntry(identity)| == 6 + |identity|
  {
  }

  lemma FieldLengths(n: nat)
    ensures |U24(n)| == 3 && |U16(n)| == 2
    ensures |U24(153 + n)| == 3 && |U16(110 + n)| == 2 && |U16(43 + n)| == 2 && |U16(6 + n)| == 2
  {
  }

  /** Write the draft of the truncated ClientHello, field by field. */
  method WriteDraft(buf: array<byte>, random: bytes, publicKey: bytes, identity: bytes) returns (end: nat)
    requires |random| == 32 && |publicKey| == 32 && 122 + |identity| <= buf.Length
    modifies buf
    ensures end == 122 + |identity| && buf[..end] == Draft(random, publicKey, identity)
    ensures buf[end..] == old(buf[end..])
  {
    SegmentLengths(random, publicKey, identity);
    hide BeforeExts, BeforePsk, IdentityEntry;
    ghost var stop := 122 + |identity|;
    var off := Write(buf, 0, [CLIENT_HELLO] + [0, 0, 0], stop);
    off := Write(buf, off, BeforeExts(random), stop);
    off := Write(buf, off, [0, 0] + BeforePsk(publicKey), stop);
    end := Write(buf, off, [0, 0] + [0, 0] + IdentityEntry(identity), stop);
    assert buf[..end] == [CLIENT_HELLO] + [0, 0, 0] + BeforeExts(random) + ([0, 0] + BeforePsk(publicKey))
                         + ([0, 0] + [0, 0] + IdentityEntry(identity));
  }

  /** Overwrite a length field inside the first `end` bytes. */
  method PatchField(buf: array<byte>, ghost end: nat, off: nat, data: bytes)
    requires off + |data| <= end <= buf.Length
    modifies buf
    ensures buf[..end] == Patched(old(buf[..end]), off, data) && buf[end..] == old(buf[end..])
  {
    var _ := Put(buf, off, data);
    assert buf[..end] == old(buf[..off]) + data + old(buf[off + |data|..])[..end - off - |data|];
    assert old(buf[off + |data|..])[..end - off - |data|] == old(buf[..end])[off + |data|..];
  }

  /** tls13_client_hello, told that its buffer has `maxLen` bytes; the array goes on behind it.
      The guard compares the size with 153 + |identity|, four bytes less than are written, so
      the message stays inside the buffer except for the four sizes between. */
  method BuildClientHello(c: Suite, buf: array<byte>, maxLen: nat, random: bytes, publicKey: bytes, psk: bytes,
                          identity: bytes, binderLabel: bytes) returns (len: nat)
    requires |random| == 32 && |publicKey| == 32 && maxLen + GUARD_GAP <= buf.Length
    requires forall k, m :: |c.hmac(k, m)| == DIGEST_LEN
    modifies buf
    ensures len == if GuardAdmits(|identity|, maxLen) then 157 + |identity| else 0
    ensures len > 0 ==> buf[..len] == ClientHello(c, random, publicKey, psk, identity, binderLabel)
    ensures buf[len..] == old(buf[len..])
    ensures len <= maxLen <==> !(|identity| <= 0xffff && 153 + |identity| <= maxLen < 157 + |identity|)
  {
    if !GuardAdmits(|identity|, maxLen) { return 0; }
    var n := |identity|;
    FieldLengths(n);
    var end := WriteDraft(buf, random, publicKey, identity);
    PatchLengths(random, publicKey, identity, buf[..end]);
    PatchField(buf, end, 1, U24(153 + n));
    PatchField(buf, end, 114, U16(6 + n));
    PatchField(buf, end, 112, U16(43 + n));
    PatchField(buf, end, 45, U16(110 + n));
    var t := buf[..end];
    var binder := Binder(c, EarlySecret(c, psk), binderLabel, t);
    assert |binder| == 32;
    ghost var behind := buf[157 + n..];
    len := Put(buf, end, Binders(binder));
    assert buf[..len] == t + Binders(binder);
    assert behind == old(buf[157 + n..]);
  }

  /** Bytes written beyond what the guard counts. */
  const GUARD_GAP := 4

  /** The guard of tls13_client_hello. */
  predicate GuardAdmits(identityLen: nat, maxLen: nat) {
    identityLen <= 0xffff && maxLen >= 153 + identityLen
  }

  /** The guard lets through a buffer that the message does not fit in exactly when the
      identity leaves between 153 and 156 bytes for the rest. */
  lemma GuardGap(c: Suite, random: bytes, publicKey: bytes, psk: bytes, identity: bytes,
                                    binderLabel: bytes, maxLen: nat)
    requires |random| == 32 && |publicKey| == 32
    requires forall k, m :: |c.hmac(k, m)| == DIGEST_LEN
    ensures var ch := ClientHello(c, random, publicKey, psk, identity, binderLabel);
            (GuardAdmits(|identity|, maxLen) && |ch| > maxLen)
            <==> (|identity| <= 0xffff && 153 + |identity| <= maxLen < 157 + |identity|)
  {
    var t := Truncated(random, publicKey, identity);
    var binder := Binder(c, EarlySecret(c, psk), binderLabel, t);
    assert |binder| == 32;
    assert |t| == 122 + |identity|;
  }
}
