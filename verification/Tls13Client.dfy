/**
 The TLS 1.3 PSK connection object: its fields, its receive buffer, and the routines that
 update them step by step, each proved against the corresponding function of Tls13Conn.
 */
module Tls13Client {
  import opened Bytes
  import opened Tls13Crypto
  import opened Tls13Hello
  import opened Tls13Conn
  import opened Tls13Runs

  class Tls13Psk {
    const w: World
    const rxBuf: array<byte>
    var rxLen: nat
    var phase: Phase
    var transcript: bytes
    var secrets: Secrets
    var txKeys: Keys
    var txSeq: nat
    var txPending: Option<bytes>
    var rxKeys: Keys
    var rxSeq: nat
    var net: Net                      // the socket below and the consumer above
    ghost var epoch: nat
    ghost var seals: Trace<SealEvent>
    ghost var records: Trace<bytes>
    ghost var hellos: nat
    ghost var finishedAfter: Option<nat>
    ghost var accepted: Trace<Accepted>

    ghost predicate Valid()
      reads this
    {
      UsableWorld(w) && rxBuf.Length == MAX_RECORD && rxLen <= MAX_RECORD
    }

    ghost function View(): Conn
      requires Valid()
      reads this, rxBuf
    {
      Conn(phase, transcript, secrets, TxSide(txKeys, txSeq, txPending, epoch, seals),
           RxSide(rxKeys, rxSeq, rxBuf[..rxLen], records, hellos, finishedAfter, accepted), net)
    }

    constructor (world: World, window: nat)
      requires UsableWorld(world)
      ensures Valid() && View() == OpenedConn(world, window) && w == world && fresh(rxBuf)
    {
      w := world;
      rxBuf := new byte[MAX_RECORD](_ => 0);
      rxLen, phase, transcript, secrets := 0, HelloPhase, [], NO_SECRETS;
      txKeys, txSeq, txPending := NO_KEYS, 0, None;
      rxKeys, rxSeq := NO_KEYS, 0;
      net := Net(window, 0, Nothing, Nothing, Nothing, Nothing);
      epoch, seals, records, hellos, finishedAfter, accepted := 0, Nothing, Nothing, 0, None, Nothing;
      new;
      assert rxBuf[..0] == [];
      assert View() == Initial(window);
      Transmit();
    }

    /** Install a transmit key: a new epoch, numbered from zero. */
    method SetTxKey(secret: bytes)
      requires Valid()
      modifies this`txKeys, this`txSeq, this`epoch
      ensures Valid() && View() == old(View()).(tx := InstallTx(old(View()).tx, TrafficKeys(w.c, secret)))
    {
      txKeys := TrafficKeys(w.c, secret);
      txSeq := 0;
      epoch := epoch + 1;
    }

    method SetRxKey(secret: bytes)
      requires Valid()
      modifies this`rxKeys, this`rxSeq
      ensures Valid()
      ensures View() == old(View()).(rx := old(View()).rx.(keys := TrafficKeys(w.c, secret), seqno := 0))
    {
      rxKeys := TrafficKeys(w.c, secret);
      rxSeq := 0;
    }

    /** Build a protected record under the current key and number it. */
    method CipherRecord(contentType: byte, data: bytes) returns (record: bytes)
      requires Valid()
      modifies this`txSeq, this`seals
      ensures Valid() && record == Protected(w.c, old(txKeys), old(txSeq), contentType, data)
      ensures View() == old(View()).(tx := AfterSeal(old(View()).tx))
    {
      var cipherLen := |data| + 1 + TAG_LEN;
      var header := Header(TYPE_DATA, cipherLen);
      var nonce := MakeNonce(txKeys.iv, txSeq);
      record := header + w.c.encrypt(txKeys.key, nonce, header, data + [contentType]);
      seals := Then(seals, SealedWith(epoch, txKeys.iv, nonce));
      txSeq := (txSeq + 1) % SEQ_MODULUS;
    }

    method UpdateTranscript(msg: bytes) returns (ok: bool)
      requires Valid()
      modifies this`transcript
      ensures Valid()
      ensures ok <==> Append(old(View()), msg).Some?
      ensures View() == if ok then Append(old(View()), msg).value else old(View())
    {
      ok := |transcript| + |msg| <= TRANSCRIPT_SIZE;
      if ok { transcript := transcript + msg; }
    }

    /** Build the next handshake record, if one is due. */
    method BuildRecord()
      requires Valid() && txPending == None
      modifies this`txPending, this`phase, this`transcript, this`txSeq, this`seals
      ensures Valid() && View() == Build(w, old(View()))
    {
      match phase
      case HelloPhase =>
        var buf := new byte[MAX_CLIENT_HELLO + GUARD_GAP](_ => 0);
        var len := BuildClientHello(w.c, buf, MAX_CLIENT_HELLO, w.random, w.c.share(w.priv), w.psk, w.identity, Ascii("ext binder"));
        if len == 0 { phase := Failed; return; }
        var ch := buf[..len];
        var ok := UpdateTranscript(ch);
        if !ok { phase := Failed; return; }
        txPending := Some(PlainRecord(TYPE_HANDSHAKE, ch));
        phase := ServerFlight;
      case ClientFinished =>
        var verify := Tls13Crypto.Finished(w.c, secrets.clientHs, transcript);
        var record := CipherRecord(TYPE_HANDSHAKE, [FINISHED, 0, 0, 32] + verify);
        txPending := Some(record);
      case _ =>
    }

    /** Hand the pending record to the socket if its window allows. */
    method FlushPending()
      requires Valid()
      modifies this`txPending, this`phase, this`net, this`txKeys, this`txSeq, this`epoch
      ensures Valid() && View() == Flush(w, old(View()))
    {
      if txPending.Some? && net.window != 0 {
        net := Take(w, net, txPending.value);
        txPending := None;
        if phase == ClientFinished {
          SetTxKey(secrets.clientAp);
          phase := Data;
        }
      }
    }

    method Transmit()
      requires Valid()
      modifies this`txPending, this`phase, this`transcript, this`txSeq, this`seals, this`net,
               this`txKeys, this`epoch
      ensures Valid() && View() == Tx(w, old(View()))
    {
      hide Build, Flush;
      if phase == Failed { return; }
      if txPending == None {
        BuildRecord();
        if phase == Failed { return; }
      }
      FlushPending();
      var n := PlainstreamWindow();
      net := net.(notified := Then(net.notified, n));
    }

    method PlainstreamWindow() returns (n: nat)
      requires Valid()
      ensures n == PlainWindow(View())
    {
      if phase != Data { return 0; }
      if txPending.Some? { return 0; }
      return net.window;
    }

    // -------------------------------------------------------------- handshake messages

    method HandleServerHello(msg: bytes) returns (ok: bool)
      requires Valid()
      modifies this`transcript, this`secrets, this`txKeys, this`txSeq, this`epoch, this`rxKeys, this`rxSeq,
               this`hellos, this`accepted
      ensures Valid() && (ok <==> OnServerHello(w, old(View()), msg).Some?)
      ensures ok ==> View() == OnServerHello(w, old(View()), msg).value
    {
      hide SpecParse, InstallHandshake, UsableWorld;
      var r := ParseServerHello(msg);
      if r == None { return false; }
      var hello := r.value;
      if hello.version != VERSION_1_3 { return false; }
      if hello.cipherSuite != AES_128_GCM_SHA256 { return false; }
      if !hello.hasKeyShare { return false; }
      if !hello.hasPsk { return false; }
      ok := UpdateTranscript(msg);
      if !ok { return; }
      var shared := w.c.agree(w.priv, hello.publicKey);
      if shared == None { return false; }
      KeepHandshake(msg, old(transcript), shared.value);
    }

    /** Derive the handshake secrets and install their keys. */
    method KeepHandshake(ghost msg: bytes, ghost before: bytes, shared: bytes)
      requires Valid()
      modifies this`secrets, this`txKeys, this`txSeq, this`epoch, this`rxKeys, this`rxSeq, this`hellos, this`accepted
      ensures Valid() && View() == InstallHandshake(w, old(View()), msg, before, shared)
    {
      hide TrafficKeys, DeriveSecret, HandshakeSecret, EarlySecret, UsableWorld;
      var handshake := HandshakeSecret(w.c, EarlySecret(w.c, w.psk), shared);
      secrets := secrets.(handshake := handshake,
                          clientHs := DeriveSecret(w.c, handshake, Ascii("c hs traffic"), transcript),
                          serverHs := DeriveSecret(w.c, handshake, Ascii("s hs traffic"), transcript));
      SetTxKey(secrets.clientHs);
      SetRxKey(secrets.serverHs);
      hellos := hellos + 1;
      accepted := Then(accepted, AcceptedHello(msg, before, shared));
    }

    /** Derive the application secrets and install the key the server now uses. */
    method KeepApplication(ghost msg: bytes, ghost before: bytes)
      requires Valid()
      modifies this`secrets, this`phase, this`rxKeys, this`rxSeq, this`finishedAfter, this`accepted
      ensures Valid() && View() == InstallApplication(w, old(View()), msg, before)
    {
      hide TrafficKeys, DeriveSecret, MasterSecret, UsableWorld;
      var master := MasterSecret(w.c, secrets.handshake);
      secrets := secrets.(master := master,
                          clientAp := DeriveSecret(w.c, master, Ascii("c ap traffic"), transcript),
                          serverAp := DeriveSecret(w.c, master, Ascii("s ap traffic"), transcript));
      SetRxKey(secrets.serverAp);
      finishedAfter := Some(hellos);
      accepted := Then(accepted, AcceptedFinished(msg, before, secrets.serverHs));
      phase := ClientFinished;
    }

    method HandleServerFinished(msg: bytes) returns (ok: bool)
      requires Valid()
      modifies this`transcript, this`secrets, this`phase, this`rxKeys, this`rxSeq, this`finishedAfter,
               this`accepted
      ensures Valid() && (ok <==> OnServerFinished(w, old(View()), msg).Some?)
      ensures ok ==> View() == OnServerFinished(w, old(View()), msg).value
      ensures !ok ==> phase == old(phase)
    {
      hide InstallApplication, ExpandLabel, Tls13Crypto.Finished, UsableWorld;
      if |msg| != 36 { return false; }
      var verify := Tls13Crypto.Finished(w.c, secrets.serverHs, transcript);
      if verify != msg[4..] { return false; }
      ok := UpdateTranscript(msg);
      if !ok { return; }
      KeepApplication(msg, old(transcript));
    }

    method HandleMessage(msg: bytes) returns (ok: bool)
      requires Valid() && |msg| >= 4
      modifies this`transcript, this`secrets, this`phase, this`txKeys, this`txSeq, this`epoch, this`rxKeys, this`rxSeq,
               this`hellos, this`finishedAfter, this`accepted
      ensures Valid() && (ok <==> OnMessage(w, old(View()), msg).Some?)
      ensures ok ==> View() == OnMessage(w, old(View()), msg).value
    {
      hide OnServerHello, OnServerFinished, Append;
      if msg[0] == SERVER_HELLO { ok := HandleServerHello(msg); }
      else if msg[0] == ENCRYPTED_EXTENSIONS { ok := UpdateTranscript(msg); }
      else if msg[0] == FINISHED { ok := HandleServerFinished(msg); }
      else { ok := msg[0] == NEW_SESSION_TICKET; }
    }

    method HandleMessages(data: bytes) returns (ok: bool)
      requires Valid()
      modifies this`transcript, this`secrets, this`phase, this`txKeys, this`txSeq, this`epoch, this`rxKeys, this`rxSeq,
               this`hellos, this`finishedAfter, this`accepted
      ensures Valid() && (ok <==> OnMessages(w, old(View()), data).Some?)
      ensures ok ==> View() == OnMessages(w, old(View()), data).value
    {
      hide OnMessage, GetU24;
      var pos := 0;
      assert data[0..] == data;
      while |data| - pos >= 4
        invariant pos <= |data| && Valid()
        invariant OnMessages(w, View(), data[pos..]) == OnMessages(w, old(View()), data)
      {
        var rest := data[pos..];
        var total := 4 + GetU24(rest, 1);
        if total > |rest| { return false; }
        ok := HandleMessage(rest[..total]);
        if !ok { return; }
        assert rest[total..] == data[pos + total..];
        pos := pos + total;
      }
      ok := true;
    }

    // -------------------------------------------------------------- reception

    method HandleRecord(record: bytes) returns (ok: bool)
      requires Valid() && |record| >= 5
      modifies this`transcript, this`secrets, this`phase, this`txKeys, this`txSeq, this`epoch,
               this`rxKeys, this`rxSeq, this`net, this`hellos, this`finishedAfter, this`accepted
      ensures Valid() && (ok <==> OnRecord(w, old(View()), record).Some?)
      ensures ok ==> View() == OnRecord(w, old(View()), record).value
      ensures !ok ==> net == old(net)
    {
      hide OnMessages, Open;
      var contentType := record[0];
      if contentType == TYPE_CHANGE_CIPHER { return true; }
      if contentType == TYPE_HANDSHAKE {
        ok := HandleMessages(record[5..]);
        return;
      }
      if contentType != TYPE_DATA { return false; }
      var plain := Open(w.c, rxKeys, rxSeq, record[..5], record[5..]);
      if plain == Rejected { return false; }
      rxSeq := (rxSeq + 1) % SEQ_MODULUS;
      if plain.contentType == TYPE_HANDSHAKE {
        ok := HandleMessages(plain.data);
      } else if plain.contentType == TYPE_DATA {
        if plain.data != [] { net := net.(delivered := Then(net.delivered, plain.data)); }
        ok := true;
      } else {
        ok := false;
      }
    }

    /** Equal, or both failed with the same dealings with the outside, the same records handled,
        the same bytes held and the same record pending. */
    static predicate SameUnlessFailed(a: Conn, b: Conn) {
      a == b || (&& a.phase == Failed && b.phase == Failed && a.net == b.net && a.tx.seals == b.tx.seals
                 && a.rx.records == b.rx.records && a.rx.buf == b.rx.buf && a.tx.pending == b.tx.pending)
    }

    /** Move what follows the first `total` bytes of the receive buffer to its front. */
    method DropFront(total: nat)
      requires Valid() && total <= rxLen
      modifies rxBuf, this`rxLen
      ensures Valid() && rxLen == old(rxLen) - total
      ensures rxBuf[..rxLen] == old(rxBuf[..rxLen])[total..]
    {
      var rest := rxLen - total;
      for i := 0 to rest
        invariant rxBuf[..i] == old(rxBuf[total..total + i])
        invariant rxBuf[i..] == old(rxBuf[i..])
      {
        assert rxBuf[i..][total] == old(rxBuf[i..])[total];
        rxBuf[i] := rxBuf[total + i];
      }
      rxLen := rest;
    }

    /** Append received bytes to the receive buffer. */
    method CopyIn(chunk: bytes)
      requires Valid() && rxLen + |chunk| <= MAX_RECORD
      modifies rxBuf, this`rxLen
      ensures Valid() && rxLen == old(rxLen) + |chunk|
      ensures rxBuf[..rxLen] == old(rxBuf[..rxLen]) + chunk
    {
      for i := 0 to |chunk|
        invariant rxBuf[..rxLen] == old(rxBuf[..rxLen])
        invariant rxBuf[rxLen..rxLen + i] == chunk[..i]
        modifies rxBuf
      {
        rxBuf[rxLen + i] := chunk[i];
      }
      rxLen := rxLen + |chunk|;
    }

    /** Process the complete records in the receive buffer. */
    method Receive()
      requires Valid()
      modifies this, rxBuf
      ensures Valid() && SameUnlessFailed(View(), RxLoop(w, old(View())))
    {
      hide OnRecord, Tx, GetU16;
      while rxLen >= 5
        invariant Valid()
        invariant RxLoop(w, View()) == RxLoop(w, old(View()))
        decreases rxLen
      {
        var buf := rxBuf[..rxLen];
        var total := 5 + GetU16(buf, 3);
        if total > MAX_RECORD { phase := Failed; return; }
        if rxLen < total { return; }
        ghost var s := View();
        var ok := HandleRecord(buf[..total]);
        if !ok { phase := Failed; return; }
        DropFront(total);
        records := Then(records, buf[..total]);
        assert View() == Consumed(OnRecord(w, s, buf[..total]).value, buf[..total], buf[total..]);
        TxKeepsRx(w, View());
        Transmit();
      }
    }

    /** Ciphertext from the socket. */
    method CipherstreamDeliver(chunk: bytes)
      requires Valid()
      modifies this, rxBuf
      ensures Valid() && SameUnlessFailed(View(), Feed(w, old(View()), chunk))
    {
      hide RxLoop;
      if rxLen + |chunk| > MAX_RECORD { phase := Failed; return; }
      CopyIn(chunk);
      assert View() == SetBuf(old(View()), old(rxBuf[..rxLen]) + chunk);
      Receive();
    }

    /** The socket's window changed. */
    method CipherstreamWindow(window: nat)
      requires Valid()
      modifies this
      ensures Valid() && View() == WindowChanged(w, old(View()), window)
    {
      hide Tx;
      net := net.(window := window);
      Transmit();
    }

    /** Plaintext from the consumer. */
    method PlainstreamDeliver(data: bytes) returns (ok: bool)
      requires Valid()
      modifies this
      ensures Valid() && (ok <==> old(phase) == Data) && View() == Submit(w, old(View()), data)
    {
      hide Tx, Protected;
      if phase != Data { return false; }
      var record := CipherRecord(TYPE_DATA, data);
      net := net.(submitted := Then(net.submitted, data));
      txPending := Some(record);
      Transmit();
      ok := true;
    }

    method Handle(e: Event)
      requires Valid()
      modifies this, rxBuf
      ensures Valid() && SameUnlessFailed(View(), Next(w, old(View()), e))
    {
      hide Feed, Submit, WindowChanged;
      match e
      case Fed(chunk) => CipherstreamDeliver(chunk);
      case Submitted(data) => var _ := PlainstreamDeliver(data);
      case WindowReported(n) => CipherstreamWindow(n);
      case WindowShrinks(n) => net := net.(window := n);
    }

    /** The object under any sequence of events behaves as the run of the connection. */
    method Drive(es: seq<Event>)
      requires Valid() && AllEnabled(w, View(), es)
      modifies this, rxBuf
      ensures Valid() && SameUnlessFailed(View(), Run(w, old(View()), es))
    {
      hide Next;
      ghost var total := Run(w, View(), es);
      var i := 0;
      assert es[0..] == es;
      while i < |es|
        invariant i <= |es| && Valid()
        invariant i < |es| ==> AllEnabled(w, View(), es[i..]) && Run(w, View(), es[i..]) == total
        invariant i == |es| ==> SameUnlessFailed(View(), total)
      {
        ghost var s := View();
        assert es[i..][1..] == es[i + 1..];
        Handle(es[i]);
        assert Next(w, s, es[i]).phase == Failed ==> es[i + 1..] == [];
        i := i + 1;
      }
    }
  }

  /** A fresh connection, whatever the peer, the socket and the consumer do: no nonce is used
      twice under a key, and unless it has failed it has handled exactly the records of the
      bytes received and holds their unfinished rest. */
  method Connection(world: World, window: nat, es: seq<Event>) returns (c: Tls13Psk)
    requires UsableWorld(world) && AllEnabled(world, OpenedConn(world, window), es)
    ensures fresh(c) && c.Valid()
    ensures FewSeals(c.seals) ==> Distinct(c.seals) && Numbered(c.seals)
    ensures c.phase != Failed ==> (c.records, c.rxBuf[..c.rxLen]) == Split(Nothing, FedBytes(es))
  {
    hide OpenedConn, Run, AllEnabled, FewSeals, Distinct, Numbered, Split, FedBytes;
    c := new Tls13Psk(world, window);
    c.Drive(es);
    ghost var t := Run(world, OpenedConn(world, window), es);
    if FewSeals(c.seals) { NoncesNeverReused(world, window, es); }
    if c.phase != Failed { RecordsIgnoreChunking(world, window, es); }
  }
}
