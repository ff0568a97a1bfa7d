/**
 The session behind its PDU receiver: every history of received bytes, process runs and window
 openings is a run of the session's events, so what holds of all runs holds of byte streams.
 */
module NvmeStack {
  import opened Bytes
  import opened NvmeSession
  import opened NvmeRuns
  import opened NvmeFraming

  /** What decides how PDUs are handled: the outcomes of the k-th handling, and how the command
      buffer is read. */
  datatype Wiring = Wiring(choices: nat -> (Prepare, Tx), read: bytes -> Message)

  /** How the target and the socket have behaved so far. */
  datatype Conduct = Conduct(orderly: bool, honest: bool, fifo: bool)

  /** The admin queue: its session, the PDUs handled, and how the target behaved. */
  datatype Admin = Admin(session: Session, handled: nat, conduct: Conduct)

  /** Orderly: what the driver allows (in particular one ICResp).  Honest: completing only
      commands sent.  FIFO: completing them in order. */
  function Judged(c: Conduct, s: Session, e: Event): Conduct {
    var bounded := Next(s, e).issued < CID_MODULUS;
    Conduct(c.orderly && Enabled(s, e),
            c.honest && Enabled(s, e) && Honest(s, e) && bounded,
            c.fifo && Enabled(s, e) && Fifo(s, e) && bounded)
  }

  function Take(a: Admin, e: Event): Admin {
    a.(session := Next(a.session, e), conduct := Judged(a.conduct, a.session, e))
  }

  // ---------------------------------------------------------------- PDUs as events

  function CompletionOf(header: bytes): Completion
    requires |header| >= 24
  {
    Completion(GetLe16(header, 20), GetLe16(header, 22), GetLe32(header, 8))
  }

  /** The event a PDU is to the session; R2T belongs to the I/O queue. */
  function EventOf(w: Wiring, a: Admin, p: Pdu): Option<Event> {
    var (prep, tx) := w.choices(a.handled);
    if !a.session.stuck.NoPdu? then Some(StuckPduRetried(prep, tx))
    else if |p.header| < 24 then None
    else if p.header[0] == PDU_ICRESP then Some(IcRespArrives(true))
    else if p.header[0] == PDU_RESPONSE then Some(CompletionArrives(CompletionOf(p.header), tx))
    else if p.header[0] == PDU_C2HDATA then Some(DataArrives(w.read(p.payload), prep, tx))
    else None
  }

  function OutcomeOf(s: Session): Outcome {
    if s.ended then Refused
    else if !s.stuck.NoPdu? then Deferred
    else if s.txInFlight then AcceptedAndSent
    else Accepted
  }

  /** The session as the parser sees it. */
  function Handling(w: Wiring): Handler<Admin> {
    (a: Admin, p: Pdu) =>
      match EventOf(w, a, p)
      case None => (a, Refused)
      case Some(e) =>
        var b := Take(a, e).(handled := a.handled + 1);
        (b, OutcomeOf(b.session))
  }

  // ---------------------------------------------------------------- inputs

  datatype Input =
    | Received(chunk: bytes)
    | Runs(tx: Tx, rng: bool, transaction: int)
    | Opens

  /** A transmitted command resets the parser, whatever it holds. */
  function AfterProcess(k: Parsed<Admin>, b: Admin): Parsed<Admin> {
    if b.session.log == k.state.session.log then k.(state := b) else Holding(b, 0, [])
  }

  /** The identifiers completed by the complete Responses among dropped bytes. */
  function LostCids(d: bytes): seq<int>
    decreases |d|
  {
    if |d| < COMMON_LEN || HeaderLen(d[0], d[2]) == 0 || |d| < HeaderLen(d[0], d[2]) then []
    else
      var n := HeaderLen(d[0], d[2]);
      var len := DataLen(d[..n]);
      if len < 0 || |d| < n + len then []
      else (if d[0] == PDU_RESPONSE then [CompletionOf(d[..n]).cid] else []) + LostCids(d[n + len..])
  }

  function LoseAll(a: Admin, cids: seq<int>): Admin
    decreases |cids|
  {
    if cids == [] then a else LoseAll(Take(a, CompletionDropped(cids[0])), cids[1..])
  }

  /** A deferral loses the completions behind the deferred PDU. */
  function Settled(k: Parsed<Admin>): Parsed<Admin> {
    if k.deferred && !k.failed then k.(state := LoseAll(k.state, LostCids(k.dropped)), dropped := []) else k
  }

  function NextInput(w: Wiring, k: Parsed<Admin>, i: Input): Parsed<Admin> {
    if k.failed || k.state.session.ended then k
    else
      match i
      case Received(chunk) => if chunk == [] then k else Settled(Resume(Handling(w), k, chunk))
      case Runs(tx, rng, transaction) =>
        if !k.state.session.running then k
        else AfterProcess(k, Take(k.state, ProcessRuns(tx, rng, transaction)))
      case Opens => k.(state := Take(k.state, WindowOpens))
  }

  function RunInputs(w: Wiring, k: Parsed<Admin>, inputs: seq<Input>): Parsed<Admin>
    decreases |inputs|
  {
    if inputs == [] then k else RunInputs(w, NextInput(w, k, inputs[0]), inputs[1..])
  }

  function Start(haveSecret: bool): Parsed<Admin> {
    Holding(Admin(Opened(haveSecret), 0, Conduct(true, true, true)), 0, [])
  }

  // ---------------------------------------------------------------- inputs as events

  /** The later state is reached from the earlier one by events that deserve its judgement. */
  ghost predicate Reaches(a: Admin, b: Admin) {
    exists es :: ReachesBy(a, b, es)
  }

  predicate ReachesBy(a: Admin, b: Admin, es: seq<Event>) {
    && b.session == Run(a.session, es)
    && (b.conduct.orderly ==> a.conduct.orderly && AllEnabled(a.session, es))
    && (b.conduct.honest ==> a.conduct.honest && HonestRun(a.session, es))
    && (b.conduct.fifo ==> a.conduct.fifo && FifoRunOk(a.session, es))
  }

  lemma ReachesSelf(a: Admin, n: nat)
    ensures Reaches(a, a) && Reaches(a, a.(handled := n))
  {
    assert ReachesBy(a, a, []);
    assert ReachesBy(a, a.(handled := n), []);
  }

  lemma {:induction false} RunsJoin(s: Session, xs: seq<Event>, ys: seq<Event>)
    ensures Run(s, xs + ys) == Run(Run(s, xs), ys)
    ensures AllEnabled(s, xs) && AllEnabled(Run(s, xs), ys) ==> AllEnabled(s, xs + ys)
    ensures HonestRun(s, xs) && HonestRun(Run(s, xs), ys) ==> HonestRun(s, xs + ys)
    ensures FifoRunOk(s, xs) && FifoRunOk(Run(s, xs), ys) ==> FifoRunOk(s, xs + ys)
    decreases |xs|
  {
    hide Next, Enabled, Honest, Fifo;
    if xs == [] {
      assert xs + ys == ys;
    } else {
      RunsJoin(Next(s, xs[0]), xs[1..], ys);
      assert (xs + ys)[1..] == xs[1..] + ys;
    }
  }

  lemma ReachesTrans(a: Admin, b: Admin, c: Admin)
    requires Reaches(a, b) && Reaches(b, c)
    ensures Reaches(a, c)
  {
    hide Run, AllEnabled, HonestRun, FifoRunOk;
    var xs :| ReachesBy(a, b, xs);
    var ys :| ReachesBy(b, c, ys);
    RunsJoin(a.session, xs, ys);
    assert ReachesBy(a, c, xs + ys);
  }

  lemma TakeReaches(a: Admin, e: Event, n: nat)
    ensures Reaches(a, Take(a, e)) && Reaches(a, Take(a, e).(handled := n))
  {
    hide Next, Enabled, Honest, Fifo;
    var s := a.session;
    assert [e][1..] == [];
    assert Run(Next(s, e), []) == Next(s, e) && AllEnabled(Next(s, e), [])
        && HonestRun(Next(s, e), []) && FifoRunOk(Next(s, e), []);
    assert ReachesBy(a, Take(a, e), [e]);
    assert ReachesBy(a, Take(a, e).(handled := n), [e]);
  }

  lemma HandlingReaches(w: Wiring, a: Admin, p: Pdu)
    ensures Reaches(a, Handling(w)(a, p).0)
  {
    hide Reaches, Take;
    match EventOf(w, a, p)
    case None => ReachesSelf(a, 0);
    case Some(e) => TakeReaches(a, e, a.handled + 1);
  }

  lemma {:induction false} ParseReaches(w: Wiring, a: Admin, offset: nat, stream: bytes)
    ensures Reaches(a, Parse(Handling(w), a, offset, stream).state)
    decreases |stream|
  {
    var h := Handling(w);
    ReachesSelf(a, 0);
    hide Reaches, Handling, Unfinished, WellFormed, HeaderLen, HeaderOk, DataLen, Parse;
    if Unfinished(offset, stream) {
      ParseUnfinished(h, a, offset, stream);
    } else if HeaderValid(offset, stream) {
      var p, rest := TakeFirst(offset, stream);
      ParseOne(h, a, offset, p, rest);
      HandlingReaches(w, a, p);
      var (b, outcome) := h(a, p);
      var next := NextOffset(outcome, offset, p);
      ParseReaches(w, b, next, rest);
      ReachesTrans(a, b, Parse(h, b, next, rest).state);
    } else {
      ParseInvalid(h, a, offset, stream);
    }
  }

  lemma {:induction false} LosingReaches(a: Admin, cids: seq<int>)
    ensures Reaches(a, LoseAll(a, cids))
    decreases |cids|
  {
    hide Reaches, Take;
    if cids == [] {
      ReachesSelf(a, 0);
    } else {
      var b := Take(a, CompletionDropped(cids[0]));
      TakeReaches(a, CompletionDropped(cids[0]), 0);
      LosingReaches(b, cids[1..]);
      ReachesTrans(a, b, LoseAll(b, cids[1..]));
    }
  }

  lemma InputReaches(w: Wiring, k: Parsed<Admin>, i: Input)
    ensures Reaches(k.state, NextInput(w, k, i).state)
  {
    hide Reaches, Take, Parse, Handling;
    ReachesSelf(k.state, 0);
    match i
    case Received(chunk) =>
      var r := Parse(Handling(w), k.state, k.offset, k.rest + chunk);
      ParseReaches(w, k.state, k.offset, k.rest + chunk);
      LosingReaches(r.state, LostCids(r.dropped));
      ReachesTrans(k.state, r.state, LoseAll(r.state, LostCids(r.dropped)));
    case Runs(tx, rng, transaction) => TakeReaches(k.state, ProcessRuns(tx, rng, transaction), 0);
    case Opens => TakeReaches(k.state, WindowOpens, 0);
  }

  lemma {:induction false} InputsReach(w: Wiring, k: Parsed<Admin>, inputs: seq<Input>)
    ensures Reaches(k.state, RunInputs(w, k, inputs).state)
    decreases |inputs|
  {
    hide Reaches, NextInput;
    if inputs == [] {
      ReachesSelf(k.state, 0);
    } else {
      var next := NextInput(w, k, inputs[0]);
      InputReaches(w, k, inputs[0]);
      InputsReach(w, next, inputs[1..]);
      ReachesTrans(k.state, next.state, RunInputs(w, next, inputs[1..]).state);
    }
  }

  /** From bytes to guarantees: for every history of received bytes, however cut and whatever
      they say, process runs and window openings, the session's commands leave in protocol
      order; if the target completes only what it was sent, AUTH is left only through its gate;
      and if it completes in order, counting the completions dropped behind a deferred PDU,
      Property Set is never skipped. */
  lemma ByteStreamsAreSafe(w: Wiring, haveSecret: bool, inputs: seq<Input>)
    ensures var a := RunInputs(w, Start(haveSecret), inputs).state;
            && (a.conduct.orderly ==> InProtocolOrder(Wire(a.session.log)))
            && (a.conduct.honest ==> GateHonoured(a.session.log))
            && (a.conduct.fifo ==> PropertySetOwnsItsPhase(a.session.log))
  {
    hide Run, AllEnabled, HonestRun, FifoRunOk, RunInputs;
    var a := RunInputs(w, Start(haveSecret), inputs).state;
    InputsReach(w, Start(haveSecret), inputs);
    var es :| ReachesBy(Start(haveSecret).state, a, es);
    if a.conduct.orderly { CommandsInProtocolOrder(haveSecret, es); }
    if a.conduct.honest { AuthenticationExitGate(haveSecret, es); }
    if a.conduct.fifo { PropertySetNeverSkipped(haveSecret, es); }
  }

  // ---------------------------------------------------------------- what is lost

  /** PDUs that can be told apart without knowing the session's data offset. */
  predicate Delimited(p: Pdu) {
    |p.header| >= 24 && |p.header| == HeaderLen(p.header[0], p.header[2]) && |p.payload| == DataLen(p.header)
  }

  /** The identifiers completed by a sequence of PDUs. */
  function Completes(ps: seq<Pdu>): seq<int> {
    if ps == [] then []
    else (if |ps[0].header| >= 24 && ps[0].header[0] == PDU_RESPONSE then [CompletionOf(ps[0].header).cid] else [])
         + Completes(ps[1..])
  }

  /** Whatever PDUs a deferral drops, with less than one header behind them, their completions
      are the ones recorded as lost, in order. */
  lemma {:induction false} LostAreTheResponses(ps: seq<Pdu>, tail: bytes)
    requires (forall i :: 0 <= i < |ps| ==> Delimited(ps[i])) && |tail| < COMMON_LEN
    ensures LostCids(OnWire(ps) + tail) == Completes(ps)
  {
    if ps == [] {
      assert OnWire(ps) + tail == tail;
    } else {
      var p, rest := ps[0], OnWire(ps[1..]) + tail;
      assert Delimited(p);
      assert OnWire(ps) + tail == p.header + p.payload + rest;
      LostOne(p, rest);
      hide LostCids, Delimited;
      LostAreTheResponses(ps[1..], tail);
    }
  }

  lemma LostOne(p: Pdu, rest: bytes)
    requires Delimited(p)
    ensures LostCids(p.header + p.payload + rest)
         == (if p.header[0] == PDU_RESPONSE then [CompletionOf(p.header).cid] else []) + LostCids(rest)
  {
    hide HeaderLen, DataLen, CompletionOf;
    var d := p.header + p.payload + rest;
    var n := |p.header|;
    assert d[0] == p.header[0] && d[2] == p.header[2] && d[..n] == p.header;
    assert d[n + |p.payload|..] == rest;
  }

  /** After a delivery that deferred a PDU, exactly those completions have been recorded, in order,
      and nothing dropped is left to be recorded again. */
  lemma {:induction false} LossesAreLogged(a: Admin, cids: seq<int>)
    ensures LoseAll(a, cids).session.log == LogLost(a.session.log, cids)
    decreases |cids|
  {
    if cids != [] {
      hide Judged;
      LossesAreLogged(Take(a, CompletionDropped(cids[0])), cids[1..]);
    }
  }

  function LogLost(log: Log, cids: seq<int>): Log
    decreases |cids|
  {
    if cids == [] then log else LogLost(Log.Then(log, Lost(cids[0])), cids[1..])
  }

  // ---------------------------------------------------------------- parser and session agree

  /** The parser holds a complete PDU exactly while the session has one stuck. */
  predicate Agree(k: Parsed<Admin>) {
    !k.failed && !k.state.session.ended ==>
      if k.deferred then !k.state.session.stuck.NoPdu? && !Unfinished(k.offset, k.rest)
      else k.state.session.stuck.NoPdu?
  }

  lemma HandlingOutcome(w: Wiring, a: Admin, p: Pdu)
    ensures var (b, outcome) := Handling(w)(a, p);
            match outcome
            case Refused => true
            case Deferred => !b.session.stuck.NoPdu?
            case _ => b.session.stuck.NoPdu?
  {
    hide Take, EventOf;
  }

  lemma WellFormedIsFinished(p: Pdu, offset: nat)
    requires WellFormed(p, offset)
    ensures !Unfinished(offset, p.header + p.payload)
  {
    hide HeaderOk, DataLen;
    var a := p.header + p.payload;
    assert a[..|p.header|] == p.header;
  }

  lemma FinishedStays(offset: nat, a: bytes, b: bytes)
    requires !Unfinished(offset, a)
    ensures !Unfinished(offset, a + b)
  {
    hide HeaderOk, DataLen;
    var n := HeaderLen(a[0], a[2]);
    assert (a + b)[..n] == a[..n];
  }

  lemma {:induction false} ParseAgrees(w: Wiring, a: Admin, offset: nat, stream: bytes)
    requires !a.session.stuck.NoPdu? ==> !Unfinished(offset, stream)
    ensures Agree(Parse(Handling(w), a, offset, stream))
    decreases |stream|
  {
    hide Unfinished, WellFormed, HeaderLen, HeaderOk, DataLen, Handling, Parse;
    var h := Handling(w);
    if Unfinished(offset, stream) {
      ParseUnfinished(h, a, offset, stream);
    } else if HeaderValid(offset, stream) {
      var p, rest := TakeFirst(offset, stream);
      ParseOne(h, a, offset, p, rest);
      HandlingOutcome(w, a, p);
      WellFormedIsFinished(p, offset);
      var (b, outcome) := h(a, p);
      if outcome != Refused && outcome != Deferred { ParseAgrees(w, b, NextOffset(outcome, offset, p), rest); }
    } else {
      ParseInvalid(h, a, offset, stream);
    }
  }

  /** The stuck PDU is given up exactly when a command was transmitted. */
  predicate GivesUpOnSend(s: Session, t: Session) {
    t.stuck == if t.log == s.log then s.stuck else NoPdu
  }

  lemma CommandGivesUp(s: Session, kind: Kind, tx: Tx)
    ensures GivesUpOnSend(s, TxCommand(s, kind, tx).0)
  {
    GrownLogDiffers(s.log);
  }

  lemma ReceiveGivesUp(s: Session, next: AuthStep, tx: Tx)
    ensures GivesUpOnSend(s, AuthTxReceiveStep(s, next, tx).0)
  {
    hide TxCommand;
    CommandGivesUp(SetStep(s, next), if next == Challenge then ReceiveChallenge else ReceiveSuccess1, tx);
  }

  lemma AuthStepGivesUp(s: Session, tx: Tx, rng: bool, transaction: int)
    ensures GivesUpOnSend(s, AuthStepOnce(s, tx, rng, transaction).0)
  {
    hide TxCommand, AuthTxReceiveStep;
    CommandGivesUp(s.(auth := s.auth.(transaction := transaction, step := CompleteNegotiate)), Negotiate, tx);
    ReceiveGivesUp(s, Challenge, tx);
    ReceiveGivesUp(s, Success1, tx);
  }

  lemma ProcessGivesUp(s: Session, tx: Tx, rng: bool, transaction: int)
    ensures GivesUpOnSend(s, Process(s, tx, rng, transaction))
  {
    StepGivesUp(s, tx, rng, transaction);
    hide StepOnce;
  }

  lemma StepGivesUp(s: Session, tx: Tx, rng: bool, transaction: int)
    ensures GivesUpOnSend(s, StepOnce(s, tx, rng, transaction).0)
  {
    hide TxCommand, AuthStepOnce;
    match s.phase
    case ConnectAdmin => CommandGivesUp(s, Connect, tx);
    case PropSet => CommandGivesUp(s, PropertySet, tx);
    case Auth => AuthStepGivesUp(s, tx, rng, transaction);
    case IdentifyCtrl => CommandGivesUp(s, IdentifyController, tx);
    case IdentifyNs => CommandGivesUp(s, IdentifyNamespace, tx);
    case _ =>
  }

  lemma {:induction false} LosingKeepsStuck(a: Admin, cids: seq<int>)
    ensures var b := LoseAll(a, cids);
            b.session.stuck == a.session.stuck && b.session.ended == a.session.ended
    decreases |cids|
  {
    if cids != [] { LosingKeepsStuck(Take(a, CompletionDropped(cids[0])), cids[1..]); }
  }

  lemma InputAgrees(w: Wiring, k: Parsed<Admin>, i: Input)
    requires Agree(k)
    ensures Agree(NextInput(w, k, i))
  {
    hide Parse, Handling, Judged, Process;
    if k.failed || k.state.session.ended { return; }
    match i
    case Received(chunk) =>
      if !k.state.session.stuck.NoPdu? { FinishedStays(k.offset, k.rest, chunk); }
      var r := Parse(Handling(w), k.state, k.offset, k.rest + chunk);
      ParseAgrees(w, k.state, k.offset, k.rest + chunk);
      LosingKeepsStuck(r.state, LostCids(r.dropped));
    case Runs(tx, rng, transaction) => ProcessGivesUp(k.state.session, tx, rng, transaction);
    case Opens =>
  }

  /** In every history the bytes held and the session's stuck PDU agree. */
  lemma {:induction false} InputsAgree(w: Wiring, k: Parsed<Admin>, inputs: seq<Input>)
    requires Agree(k)
    ensures Agree(RunInputs(w, k, inputs))
    decreases |inputs|
  {
    hide Agree, NextInput;
    if inputs != [] {
      InputAgrees(w, k, inputs[0]);
      InputsAgree(w, NextInput(w, k, inputs[0]), inputs[1..]);
    }
  }

  // ---------------------------------------------------------------- the queue

  /** The receiver, on its buffers, is at the given state of the parse. */
  ghost predicate At(r: Receiver<Admin>, k: Parsed<Admin>)
    reads r, r.hdr, r.cmdBuf
  {
    r.state == k.state && r.failed == k.failed && (!k.failed ==> r.Valid() && r.View() == k)
  }

  /** A process run behind the receiver: a transmitted command resets it. */
  method Proceed(r: Receiver<Admin>, tx: Tx, rng: bool, transaction: int, ghost k: Parsed<Admin>)
    requires At(r, k) && !k.failed
    modifies r
    ensures At(r, AfterProcess(k, Take(k.state, ProcessRuns(tx, rng, transaction))))
  {
    hide Process, Judged;
    var b := Take(r.state, ProcessRuns(tx, rng, transaction));
    var same := b.session.log == r.state.session.log;
    r.state := b;
    if !same {
      r.Reset();
      r.cmdDataOffset, r.dropped := 0, [];
      assert r.Held() == [];
    }
  }

  /** A delivery; what is freed unread behind a deferred PDU is lost. */
  method Receive(w: Wiring, r: Receiver<Admin>, chunk: bytes, ghost k: Parsed<Admin>)
    requires At(r, k) && r.handler == Handling(w) && !k.failed && !k.state.session.ended
    modifies r, r.hdr, r.cmdBuf
    ensures At(r, NextInput(w, k, Received(chunk)))
  {
    hide Parse, Handling, Judged, LoseAll, LostCids;
    if chunk == [] { return; }
    r.Deliver(chunk);
    if !r.failed && r.hdrLen == r.hdrExpect && r.dataLen == r.dataExpect {
      r.state := LoseAll(r.state, LostCids(r.dropped));
      r.dropped := [];
    }
  }

  method Handle(w: Wiring, r: Receiver<Admin>, i: Input, ghost k: Parsed<Admin>)
    requires At(r, k) && r.handler == Handling(w)
    modifies r, r.hdr, r.cmdBuf
    ensures At(r, NextInput(w, k, i))
  {
    hide Parse, Handling, Judged, Process;
    if r.failed || r.state.session.ended { return; }
    match i
    case Received(chunk) => Receive(w, r, chunk, k);
    case Runs(tx, rng, transaction) =>
      if r.state.session.running { Proceed(r, tx, rng, transaction, k); }
    case Opens => r.state := Take(r.state, WindowOpens);
  }

  /** The admin queue driven by inputs, over its header and payload buffers: its session is
      safe, whatever arrives. */
  method AdminQueue(w: Wiring, haveSecret: bool, inputs: seq<Input>) returns (r: Receiver<Admin>)
    ensures fresh(r) && r.state == RunInputs(w, Start(haveSecret), inputs).state
    ensures r.state.conduct.orderly ==> InProtocolOrder(Wire(r.state.session.log))
    ensures r.state.conduct.honest ==> GateHonoured(r.state.session.log)
    ensures r.state.conduct.fifo ==> PropertySetOwnsItsPhase(r.state.session.log)
  {
    hide Parse, Handling, Judged, Process;
    ghost var k := Start(haveSecret);
    r := new Receiver(Handling(w), Start(haveSecret).state);
    var i := 0;
    assert inputs[0..] == inputs;
    while i < |inputs|
      invariant i <= |inputs| && fresh(r) && fresh(r.hdr) && fresh(r.cmdBuf)
      invariant r.handler == Handling(w) && At(r, k)
      invariant RunInputs(w, k, inputs[i..]) == RunInputs(w, Start(haveSecret), inputs)
    {
      hide At, NextInput;
      assert inputs[i..][1..] == inputs[i + 1..];
      Handle(w, r, inputs[i], k);
      k := NextInput(w, k, inputs[i]);
      i := i + 1;
    }
    ByteStreamsAreSafe(w, haveSecret, inputs);
  }
}
