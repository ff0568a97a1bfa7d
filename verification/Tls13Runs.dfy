/**
 Properties of every run of the TLS 1.3 connection, whatever the peer sends and however the
 consumer and the socket behave: nonces are never reused, records do not depend on how the
 byte stream was cut, and an opened window is always announced.
 */
module Tls13Runs {
  import opened Bytes
  import opened Tls13Crypto
  import opened Tls13Conn

  // ---------------------------------------------------------------- nonce uniqueness

  /** Records sealed in an epoch. */
  function CountIn(t: Trace<SealEvent>, epoch: nat): nat {
    match t
    case Nothing => 0
    case Then(before, x) => CountIn(before, epoch) + if x.epoch == epoch then 1 else 0
  }

  /** No epoch has sealed 2^64 records. */
  predicate FewSeals(t: Trace<SealEvent>) {
    match t
    case Nothing => true
    case Then(before, x) => FewSeals(before) && CountIn(t, x.epoch) < SEQ_MODULUS
  }

  predicate Used(t: Trace<SealEvent>, epoch: nat, nonce: Iv) {
    match t
    case Nothing => false
    case Then(before, x) => (x.epoch == epoch && x.nonce == nonce) || Used(before, epoch, nonce)
  }

  /** No nonce is used twice in an epoch. */
  predicate Distinct(t: Trace<SealEvent>) {
    match t
    case Nothing => true
    case Then(before, x) => Distinct(before) && !Used(before, x.epoch, x.nonce)
  }

  /** The records of an epoch were all sealed under this IV. */
  predicate UnderIv(t: Trace<SealEvent>, epoch: nat, iv: Iv) {
    match t
    case Nothing => true
    case Then(before, x) => UnderIv(before, epoch, iv) && (x.epoch == epoch ==> x.iv == iv)
  }

  /** In every epoch one IV was used, and the k-th record, counting from zero, was numbered k. */
  predicate Numbered(t: Trace<SealEvent>) {
    match t
    case Nothing => true
    case Then(before, x) =>
      && Numbered(before) && UnderIv(before, x.epoch, x.iv)
      && x.nonce == Nonce(x.iv, CountIn(before, x.epoch))
  }

  predicate UpTo(t: Trace<SealEvent>, epoch: nat) {
    match t
    case Nothing => true
    case Then(before, x) => UpTo(before, epoch) && x.epoch <= epoch
  }

  predicate TxInv(tx: TxSide) {
    FewSeals(tx.seals) ==>
      && Distinct(tx.seals) && Numbered(tx.seals)
      && UpTo(tx.seals, tx.epoch) && UnderIv(tx.seals, tx.epoch, tx.keys.iv)
      && tx.seqno == CountIn(tx.seals, tx.epoch) && tx.seqno < SEQ_MODULUS
  }

  lemma {:induction false} FreshNonce(t: Trace<SealEvent>, epoch: nat, iv: Iv, k: nat)
    requires Numbered(t) && UnderIv(t, epoch, iv) && CountIn(t, epoch) <= k < SEQ_MODULUS
    ensures !Used(t, epoch, Nonce(iv, k))
  {
    match t
    case Nothing =>
    case Then(before, x) =>
      FreshNonce(before, epoch, iv, k);
      if x.epoch == epoch && x.nonce == Nonce(iv, k) {
        NonceInjective(iv, CountIn(before, epoch), k);
      }
  }

  lemma SealKeeps(tx: TxSide)
    requires TxInv(tx)
    ensures TxInv(AfterSeal(tx))
  {
    hide Nonce;
    if FewSeals(AfterSeal(tx).seals) {
      FreshNonce(tx.seals, tx.epoch, tx.keys.iv, tx.seqno);
    }
  }

  lemma {:induction false} NewEpochEmpty(t: Trace<SealEvent>, epoch: nat, iv: Iv)
    requires UpTo(t, epoch)
    ensures UpTo(t, epoch + 1) && UnderIv(t, epoch + 1, iv) && CountIn(t, epoch + 1) == 0
  {
    match t
    case Nothing =>
    case Then(before, _) => NewEpochEmpty(before, epoch, iv);
  }

  /** Every key installation starts an epoch whose sequence restarts at zero. */
  lemma InstallKeeps(tx: TxSide, keys: Keys)
    requires TxInv(tx)
    ensures TxInv(InstallTx(tx, keys))
  {
    if FewSeals(tx.seals) {
      NewEpochEmpty(tx.seals, tx.epoch, keys.iv);
    }
  }

  lemma BuildKeepsTx(w: World, s: Conn)
    requires TxInv(s.tx)
    ensures TxInv(Build(w, s).tx)
  {
    hide HelloMessage, FinishedMessage, Protected, PlainRecord, AfterSeal;
    SealKeeps(s.tx);
    var t := AfterSeal(s.tx);
    assert forall p :: TxInv(t.(pending := p)) by { hide FewSeals, Distinct, Numbered, UpTo, UnderIv; }
  }

  lemma FlushKeepsTx(w: World, s: Conn)
    requires TxInv(s.tx)
    ensures TxInv(Flush(w, s).tx)
  {
    hide InstallTx, TrafficKeys, FewSeals, Distinct, Numbered, CountIn, UpTo, UnderIv;
    InstallKeeps(s.tx.(pending := None), TrafficKeys(w.c, s.secrets.clientAp));
  }

  lemma TxKeepsTx(w: World, s: Conn)
    requires TxInv(s.tx)
    ensures TxInv(Tx(w, s).tx)
  {
    hide Build, Flush, TxInv;
    BuildKeepsTx(w, s);
    FlushKeepsTx(w, if s.tx.pending == None then Build(w, s) else s);
  }

  lemma MessageKeepsTx(w: World, s: Conn, msg: bytes)
    requires TxInv(s.tx) && |msg| >= 4
    ensures OnMessage(w, s, msg).Some? ==> TxInv(OnMessage(w, s, msg).value.tx)
  {
    hide InstallTx, TxInv, Tls13Hello.SpecParse, HandshakeSecrets, ApplicationSecrets, TrafficKeys;
    forall keys ensures TxInv(InstallTx(s.tx, keys)) { InstallKeeps(s.tx, keys); }
  }

  lemma {:induction false} MessagesKeepTx(w: World, s: Conn, data: bytes)
    requires TxInv(s.tx)
    ensures OnMessages(w, s, data).Some? ==> TxInv(OnMessages(w, s, data).value.tx)
    decreases |data|
  {
    hide OnMessage, TxInv, GetU24;
    if |data| >= 4 && 4 + GetU24(data, 1) <= |data| {
      var total := 4 + GetU24(data, 1);
      MessageKeepsTx(w, s, data[..total]);
      var r := OnMessage(w, s, data[..total]);
      if r.Some? { MessagesKeepTx(w, r.value, data[total..]); }
    }
  }

  lemma RecordKeepsTx(w: World, s: Conn, record: bytes)
    requires TxInv(s.tx) && |record| >= 5
    ensures OnRecord(w, s, record).Some? ==> TxInv(OnRecord(w, s, record).value.tx)
  {
    hide OnMessages, TxInv, Open;
    MessagesKeepTx(w, s, record[5..]);
    var o := Open(w.c, s.rx.keys, s.rx.seqno, record[..5], record[5..]);
    if o.Opened? {
      MessagesKeepTx(w, s.(rx := s.rx.(seqno := (s.rx.seqno + 1) % SEQ_MODULUS)), o.data);
    }
  }

  lemma {:induction false} RxLoopKeepsTx(w: World, s: Conn)
    requires TxInv(s.tx)
    ensures TxInv(RxLoop(w, s).tx)
    decreases |s.rx.buf|
  {
    hide OnRecord, TxInv, Tx, GetU16;
    if |s.rx.buf| >= 5 {
      var total := 5 + GetU16(s.rx.buf, 3);
      if total <= MAX_RECORD && total <= |s.rx.buf| {
        var record := s.rx.buf[..total];
        RecordKeepsTx(w, s, record);
        var r := OnRecord(w, s, record);
        if r.Some? {
          var s2 := Consumed(r.value, record, s.rx.buf[total..]);
          TxKeepsRx(w, s2);
          TxKeepsTx(w, s2);
          RxLoopKeepsTx(w, Tx(w, s2));
        }
      }
    }
  }

  lemma NextKeepsTx(w: World, s: Conn, e: Event)
    requires TxInv(s.tx)
    ensures TxInv(Next(w, s, e).tx)
  {
    hide TxInv, Tx, RxLoop, AfterSeal, Protected;
    match e
    case Fed(chunk) => RxLoopKeepsTx(w, SetBuf(s, s.rx.buf + chunk));
    case Submitted(data) =>
      SealKeeps(s.tx);
      var record := Protected(w.c, s.tx.keys, s.tx.seqno, TYPE_DATA, data);
      PendingIrrelevant(AfterSeal(s.tx), Some(record));
      TxKeepsTx(w, s.(tx := AfterSeal(s.tx).(pending := Some(record)),
                      net := s.net.(submitted := Then(s.net.submitted, data))));
    case WindowReported(n) => TxKeepsTx(w, s.(net := s.net.(window := n)));
    case WindowShrinks(n) =>
  }

  lemma PendingIrrelevant(tx: TxSide, p: Option<bytes>)
    requires TxInv(tx)
    ensures TxInv(tx.(pending := p))
  {
    hide FewSeals, Distinct, Numbered, CountIn, UpTo, UnderIv;
  }

  lemma {:induction false} RunKeepsTx(w: World, s: Conn, es: seq<Event>)
    requires TxInv(s.tx)
    ensures TxInv(Run(w, s, es).tx)
    decreases |es|
  {
    hide TxInv, Next;
    if es != [] {
      NextKeepsTx(w, s, es[0]);
      RunKeepsTx(w, Next(w, s, es[0]), es[1..]);
    }
  }

  /** Nonce uniqueness per key epoch: in every run in which no epoch seals 2^64 records, no
      two records of one epoch are sealed under the same nonce, and each epoch's records use
      the sequence numbers 0, 1, 2, ... in order. */
  lemma NoncesNeverReused(w: World, window: nat, es: seq<Event>)
    requires FewSeals(Run(w, OpenedConn(w, window), es).tx.seals)
    ensures var tx := Run(w, OpenedConn(w, window), es).tx;
            Distinct(tx.seals) && Numbered(tx.seals)
  {
    hide Tx;
    TxKeepsTx(w, Initial(window));
    RunKeepsTx(w, OpenedConn(w, window), es);
  }

  // ---------------------------------------------------------------- record reassembly

  /** One-shot framing of a byte stream: the complete records after those already found, and
      the unfinished rest. */
  function Split(found: Trace<bytes>, stream: bytes): (Trace<bytes>, bytes)
    decreases |stream|
  {
    if |stream| < 5 || |stream| < 5 + GetU16(stream, 3) then (found, stream)
    else
      var total := 5 + GetU16(stream, 3);
      Split(Then(found, stream[..total]), stream[total..])
  }

  lemma LengthOfPrefix(a: bytes, b: bytes)
    requires |a| >= 5
    ensures GetU16(a + b, 3) == GetU16(a, 3)
  {
  }

  lemma {:induction false} SplitAppend(found: Trace<bytes>, a: bytes, b: bytes)
    ensures var (f, rest) := Split(found, a); Split(found, a + b) == Split(f, rest + b)
    decreases |a|
  {
    if |a| >= 5 && |a| >= 5 + GetU16(a, 3) {
      var total := 5 + GetU16(a, 3);
      LengthOfPrefix(a, b);
      hide GetU16;
      assert (a + b)[..total] == a[..total] && (a + b)[total..] == a[total..] + b;
      SplitAppend(Then(found, a[..total]), a[total..], b);
    }
  }

  lemma OnRecordKeepsBuf(w: World, s: Conn, record: bytes)
    requires |record| >= 5
    ensures OnRecord(w, s, record).Some? ==>
              OnRecord(w, s, record).value.rx.records == s.rx.records
  {
    hide OnMessages, Open;
    MessagesKeepBuf(w, s, record[5..]);
    var o := Open(w.c, s.rx.keys, s.rx.seqno, record[..5], record[5..]);
    if o.Opened? {
      MessagesKeepBuf(w, s.(rx := s.rx.(seqno := (s.rx.seqno + 1) % SEQ_MODULUS)), o.data);
    }
  }

  lemma {:induction false} MessagesKeepBuf(w: World, s: Conn, data: bytes)
    ensures OnMessages(w, s, data).Some? ==>
              OnMessages(w, s, data).value.rx.records == s.rx.records
    decreases |data|
  {
    hide OnMessage, GetU24;
    if |data| >= 4 && 4 + GetU24(data, 1) <= |data| {
      var msg := data[..4 + GetU24(data, 1)];
      assert OnMessage(w, s, msg).Some? ==> OnMessage(w, s, msg).value.rx.records == s.rx.records by {
        MessageKeepsBuf(w, s, msg);
      }
      if OnMessage(w, s, msg).Some? { MessagesKeepBuf(w, OnMessage(w, s, msg).value, data[|msg|..]); }
    }
  }

  lemma MessageKeepsBuf(w: World, s: Conn, msg: bytes)
    requires |msg| >= 4
    ensures OnMessage(w, s, msg).Some? ==> OnMessage(w, s, msg).value.rx.records == s.rx.records
  {
    hide InstallTx, Tls13Hello.SpecParse, HandshakeSecrets, ApplicationSecrets, TrafficKeys;
  }

  lemma {:induction false} RxLoopSplits(w: World, s: Conn)
    requires RxLoop(w, s).phase != Failed
    ensures var r := RxLoop(w, s).rx; (r.records, r.buf) == Split(s.rx.records, s.rx.buf)
    decreases |s.rx.buf|
  {
    hide OnRecord, Tx, GetU16;
    if |s.rx.buf| >= 5 {
      var total := 5 + GetU16(s.rx.buf, 3);
      if total <= MAX_RECORD && total <= |s.rx.buf| {
        var record := s.rx.buf[..total];
        var r := OnRecord(w, s, record);
        if r.Some? {
          OnRecordKeepsBuf(w, s, record);
          var s2 := Consumed(r.value, record, s.rx.buf[total..]);
          TxKeepsRx(w, s2);
          RxLoopSplits(w, Tx(w, s2));
        }
      }
    }
  }

  /** All bytes fed by a run, in order. */
  function FedBytes(es: seq<Event>): bytes {
    if es == [] then [] else (if es[0].Fed? then es[0].chunk else []) + FedBytes(es[1..])
  }

  lemma NextSplits(w: World, s: Conn, e: Event)
    requires Next(w, s, e).phase != Failed
    ensures var r := Next(w, s, e).rx;
            (r.records, r.buf) == if e.Fed? then Split(s.rx.records, s.rx.buf + e.chunk)
                                  else (s.rx.records, s.rx.buf)
  {
    hide Tx, RxLoop, AfterSeal, Protected;
    match e
    case Fed(chunk) => RxLoopSplits(w, SetBuf(s, s.rx.buf + chunk));
    case Submitted(data) =>
      TxKeepsRx(w, s.(tx := AfterSeal(s.tx).(pending := Some(Protected(w.c, s.tx.keys, s.tx.seqno, TYPE_DATA, data))),
                      net := s.net.(submitted := Then(s.net.submitted, data))));
    case WindowReported(n) => TxKeepsRx(w, s.(net := s.net.(window := n)));
    case WindowShrinks(n) =>
  }

  lemma SplitMore(found: Trace<bytes>, buf: bytes, chunk: bytes, more: bytes)
    ensures var (f, rest) := Split(found, buf + chunk);
            Split(found, buf + (chunk + more)) == Split(f, rest + more) && Split(f, rest) == (f, rest)
  {
    SplitAppend(found, buf + chunk, more);
    assert buf + (chunk + more) == buf + chunk + more;
    SplitRest(found, buf + chunk);
  }

  lemma {:induction false} SplitRest(found: Trace<bytes>, stream: bytes)
    ensures var (f, rest) := Split(found, stream); Split(f, rest) == (f, rest)
    decreases |stream|
  {
    if |stream| >= 5 && |stream| >= 5 + GetU16(stream, 3) {
      var total := 5 + GetU16(stream, 3);
      SplitRest(Then(found, stream[..total]), stream[total..]);
    }
  }

  lemma {:induction false} RunSplits(w: World, s: Conn, es: seq<Event>)
    requires AllEnabled(w, s, es) && Run(w, s, es).phase != Failed
    requires Split(s.rx.records, s.rx.buf) == (s.rx.records, s.rx.buf)
    ensures var r := Run(w, s, es).rx;
            (r.records, r.buf) == Split(s.rx.records, s.rx.buf + FedBytes(es))
    decreases |es|
  {
    hide Next, Split;
    var buf := s.rx.buf;
    assert buf + [] == buf;
    if es != [] {
      NextSplits(w, s, es[0]);
      SplitMore(s.rx.records, buf, if es[0].Fed? then es[0].chunk else [], FedBytes(es[1..]));
      RunSplits(w, Next(w, s, es[0]), es[1..]);
    }
  }

  lemma OpenedIsEmpty(w: World, window: nat)
    ensures OpenedConn(w, window).rx == Initial(window).rx
  {
    hide Tx;
    TxKeepsRx(w, Initial(window));
  }

  /** The records processed, and the unfinished rest kept, are those of the byte stream: they
      do not depend on how it was cut into deliveries, nor on what the socket and the consumer
      did in between. */
  lemma RecordsIgnoreChunking(w: World, window: nat, es: seq<Event>)
    requires AllEnabled(w, OpenedConn(w, window), es) && Run(w, OpenedConn(w, window), es).phase != Failed
    ensures var r := Run(w, OpenedConn(w, window), es).rx; (r.records, r.buf) == Split(Nothing, FedBytes(es))
  {
    hide OpenedConn;
    OpenedIsEmpty(w, window);
    RunSplits(w, OpenedConn(w, window), es);
    assert [] + FedBytes(es) == FedBytes(es);
  }

  /** Every record header in a stream announces at most `r` bytes in all. */
  predicate RecordsAtMost(stream: bytes, r: nat)
    decreases |stream|
  {
    |stream| >= 5 ==>
      var total := 5 + GetU16(stream, 3);
      total <= r && (|stream| >= total ==> RecordsAtMost(stream[total..], r))
  }

  lemma {:induction false} UnfinishedIsShort(found: Trace<bytes>, stream: bytes, r: nat)
    requires RecordsAtMost(stream, r) && r >= 5
    ensures |Split(found, stream).1| < r
    decreases |stream|
  {
    if |stream| >= 5 && |stream| >= 5 + GetU16(stream, 3) {
      var total := 5 + GetU16(stream, 3);
      UnfinishedIsShort(Then(found, stream[..total]), stream[total..], r);
    }
  }

  /** If every record is at most r bytes and the next delivery at most 8214 - r + 1, the
      receive buffer cannot overflow. */
  lemma OverflowNeverFires(w: World, window: nat, es: seq<Event>, r: nat, chunk: bytes)
    requires AllEnabled(w, OpenedConn(w, window), es) && Run(w, OpenedConn(w, window), es).phase != Failed
    requires 5 <= r <= MAX_RECORD && RecordsAtMost(FedBytes(es), r)
    requires |chunk| <= MAX_RECORD - r + 1
    ensures |Run(w, OpenedConn(w, window), es).rx.buf| + |chunk| <= MAX_RECORD
  {
    hide OpenedConn, Run, AllEnabled;
    RecordsIgnoreChunking(w, window, es);
    UnfinishedIsShort(Nothing, FedBytes(es), r);
  }

  // ---------------------------------------------------------------- no lost wake-up

  /** The history `t` extends `since`, and some entry after it is positive. */
  predicate WokenSince(t: Trace<nat>, since: Trace<nat>) {
    t != since && t.Then? && (t.last > 0 || WokenSince(t.before, since))
  }

  predicate Extends(t: Trace<nat>, since: Trace<nat>) {
    t == since || (t.Then? && Extends(t.before, since))
  }

  /** The consumer has just been told of the window as it now is. */
  predicate Announced(s: Conn) { s.net.notified.Then? && s.net.notified.last == PlainWindow(s) }

  lemma TxAnnounces(w: World, s: Conn)
    ensures var t := Tx(w, s);
            if t.phase == Failed then t.net.notified == s.net.notified
            else Announced(t) && t.net.notified.before == s.net.notified
  {
    hide HelloMessage, FinishedMessage, Protected, PlainRecord, AfterSeal, InstallTx, TrafficKeys;
  }

  lemma OnRecordKeepsNotified(w: World, s: Conn, record: bytes)
    requires |record| >= 5
    ensures OnRecord(w, s, record).Some? ==>
              OnRecord(w, s, record).value.net.notified == s.net.notified
  {
    hide OnMessages, Open;
    MessagesKeepNet(w, s, record[5..]);
    var o := Open(w.c, s.rx.keys, s.rx.seqno, record[..5], record[5..]);
    if o.Opened? {
      MessagesKeepNet(w, s.(rx := s.rx.(seqno := (s.rx.seqno + 1) % SEQ_MODULUS)), o.data);
    }
  }

  lemma {:induction false} MessagesKeepNet(w: World, s: Conn, data: bytes)
    ensures OnMessages(w, s, data).Some? ==> OnMessages(w, s, data).value.net == s.net
    decreases |data|
  {
    hide OnMessage, GetU24;
    if |data| >= 4 && 4 + GetU24(data, 1) <= |data| {
      var msg := data[..4 + GetU24(data, 1)];
      MessageKeepsNet(w, s, msg);
      if OnMessage(w, s, msg).Some? { MessagesKeepNet(w, OnMessage(w, s, msg).value, data[|msg|..]); }
    }
  }

  lemma MessageKeepsNet(w: World, s: Conn, msg: bytes)
    requires |msg| >= 4
    ensures OnMessage(w, s, msg).Some? ==> OnMessage(w, s, msg).value.net == s.net
  {
    hide InstallTx, Tls13Hello.SpecParse, HandshakeSecrets, ApplicationSecrets, TrafficKeys;
  }

  /** After the receive loop, either nothing ran or the window was announced last. */
  lemma {:induction false} RxLoopAnnounces(w: World, s: Conn)
    ensures var t := RxLoop(w, s);
            && Extends(t.net.notified, s.net.notified)
            && (t == s || t.phase == Failed || (Announced(t) && t.net.notified != s.net.notified))
    decreases |s.rx.buf|
  {
    hide OnRecord, Tx, GetU16, PlainWindow;
    if |s.rx.buf| >= 5 {
      var total := 5 + GetU16(s.rx.buf, 3);
      if total <= MAX_RECORD && total <= |s.rx.buf| {
        var record := s.rx.buf[..total];
        var r := OnRecord(w, s, record);
        if r.Some? {
          OnRecordKeepsNotified(w, s, record);
          var s2 := Consumed(r.value, record, s.rx.buf[total..]);
          TxKeepsRx(w, s2);
          TxAnnounces(w, s2);
          var s3 := Tx(w, s2);
          RxLoopAnnounces(w, s3);
          ExtendsTrans(RxLoop(w, s3).net.notified, s3.net.notified, s.net.notified);
          ExtendsSize(RxLoop(w, s3).net.notified, s3.net.notified);
        }
      }
    }
  }

  lemma {:induction false} ExtendsTrans(a: Trace<nat>, b: Trace<nat>, c: Trace<nat>)
    requires Extends(a, b) && Extends(b, c)
    ensures Extends(a, c)
  {
    if a != b { ExtendsTrans(a.before, b, c); }
  }

  function Size(t: Trace<nat>): nat { if t.Nothing? then 0 else 1 + Size(t.before) }

  lemma {:induction false} ExtendsSize(a: Trace<nat>, b: Trace<nat>)
    ensures Extends(a, b) ==> Size(a) >= Size(b)
  {
    if Extends(a, b) && a != b { ExtendsSize(a.before, b); }
  }

  lemma NextAnnounces(w: World, s: Conn, e: Event)
    requires Enabled(s, e)
    ensures var t := Next(w, s, e);
            && Extends(t.net.notified, s.net.notified)
            && (PlainWindow(s) == 0 && PlainWindow(t) > 0 ==>
                  Announced(t) && t.net.notified != s.net.notified)
  {
    hide Tx, RxLoop, AfterSeal, Protected;
    match e
    case Fed(chunk) => RxLoopAnnounces(w, SetBuf(s, s.rx.buf + chunk));
    case Submitted(data) =>
      TxAnnounces(w, s.(tx := AfterSeal(s.tx).(pending := Some(Protected(w.c, s.tx.keys, s.tx.seqno, TYPE_DATA, data))),
                        net := s.net.(submitted := Then(s.net.submitted, data))));
    case WindowReported(n) => TxAnnounces(w, s.(net := s.net.(window := n)));
    case WindowShrinks(n) =>
  }

  lemma {:induction false} WokenExtends(a: Trace<nat>, b: Trace<nat>, c: Trace<nat>)
    requires Extends(a, b) && Extends(b, c)
    ensures WokenSince(a, b) || WokenSince(b, c) ==> WokenSince(a, c)
  {
    ExtendsSize(a, b);
    ExtendsSize(b, c);
    if a != b { ExtendsSize(a.before, b); WokenExtends(a.before, b, c); }
  }

  lemma {:induction false} RunExtends(w: World, s: Conn, es: seq<Event>)
    requires AllEnabled(w, s, es)
    ensures Extends(Run(w, s, es).net.notified, s.net.notified)
    decreases |es|
  {
    hide Next, Enabled;
    if es != [] {
      var t := Next(w, s, es[0]);
      NextAnnounces(w, s, es[0]);
      RunExtends(w, t, es[1..]);
      ExtendsTrans(Run(w, t, es[1..]).net.notified, t.net.notified, s.net.notified);
    }
  }

  /** No lost wake-up: with a socket that reports its own openings, whenever the plaintext
      window is closed at one moment of a run and open at a later one, the consumer was
      notified of an open window in between. */
  lemma {:induction false} NoLostWakeUp(w: World, s: Conn, es: seq<Event>)
    requires AllEnabled(w, s, es)
    requires PlainWindow(s) == 0 && PlainWindow(Run(w, s, es)) > 0
    ensures Extends(Run(w, s, es).net.notified, s.net.notified)
    ensures WokenSince(Run(w, s, es).net.notified, s.net.notified)
    decreases |es|
  {
    hide Next, Enabled, PlainWindow;
    var t := Next(w, s, es[0]);
    var end := Run(w, t, es[1..]);
    NextAnnounces(w, s, es[0]);
    RunExtends(w, t, es[1..]);
    ExtendsTrans(end.net.notified, t.net.notified, s.net.notified);
    WokenExtends(end.net.notified, t.net.notified, s.net.notified);
    if PlainWindow(t) == 0 { NoLostWakeUp(w, t, es[1..]); }
  }
}
