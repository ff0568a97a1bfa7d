/**
 The Negotiate message is sent only by the process run that leaves step START, and is not
 retried: when it is on the wire, and what is sent when it is not.
 */
module NvmeNegotiate {
  import opened Bytes
  import opened NvmeSession
  import opened NvmeRuns

  /** A command of the kind has reached the wire. */
  predicate Transmits(log: Log, kind: Kind) {
    match log
    case Empty => false
    case Then(before, Transmitted(c)) => c.kind == kind || Transmits(before, kind)
    case Then(before, _) => Transmits(before, kind)
  }

  /** The event is the process run that leaves step START. */
  predicate LeavesStart(s: Session, e: Event) {
    e.ProcessRuns? && s.phase == Auth && AuthRank(s.auth) == 0 && e.rng
  }

  /** How the socket took the send made on leaving START, once the session has left it. */
  function StartTx(s: Session, es: seq<Event>): Option<Tx>
    decreases |es|
  {
    if es == [] then None
    else if LeavesStart(s, es[0]) then Some(es[0].tx)
    else StartTx(Next(s, es[0]), es[1..])
  }

  // ---------------------------------------------------------------- one event

  /** No Negotiate was transmitted in between. */
  predicate SameNegotiate(s: Session, t: Session) {
    Transmits(t.log, Negotiate) == Transmits(s.log, Negotiate)
  }

  lemma OtherCommand(s: Session, kind: Kind, tx: Tx)
    requires kind != Negotiate
    ensures SameNegotiate(s, TxCommand(s, kind, tx).0)
  {
  }

  lemma OtherReceive(s: Session, next: AuthStep, tx: Tx)
    ensures SameNegotiate(s, AuthTxReceiveStep(s, next, tx).0)
  {
    hide TxCommand;
    OtherCommand(SetStep(s, next), if next == Challenge then ReceiveChallenge else ReceiveSuccess1, tx);
  }

  lemma OtherRxCommand(s: Session, tx: Tx)
    ensures SameNegotiate(s, RxCommand(s, tx).0)
  {
    hide AuthRxComplete, AuthFinish;
    var s0 := s.(txInFlight := false);
    OtherAuthRxComplete(s0, tx);
    OtherFinish(s0, AuthRxComplete(s0, tx));
  }

  lemma OtherAuthRxComplete(s: Session, tx: Tx)
    ensures SameNegotiate(s, AuthRxComplete(s, tx).0)
  {
    hide AuthTxReceiveStep;
    OtherReceive(s, Challenge, tx);
    OtherReceive(s, Success1, tx);
  }

  lemma OtherFinish(s: Session, r: (Session, Rc))
    requires SameNegotiate(s, r.0)
    ensures SameNegotiate(s, AuthFinish(r).0)
  {
  }

  lemma OtherRxData(s: Session, prep: Prepare, tx: Tx)
    ensures SameNegotiate(s, RxData(s, prep, tx).0)
  {
    hide AuthRxData, AuthFinish;
    var s0 := s.(txInFlight := false);
    OtherAuthRxData(s0, prep, tx);
    OtherFinish(s0, AuthRxData(s0, prep, tx));
  }

  lemma OtherAuthRxData(s: Session, prep: Prepare, tx: Tx)
    ensures SameNegotiate(s, AuthRxData(s, prep, tx).0)
  {
    hide TxCommand;
    var s1 := s.(auth := s.auth.(hl := s.buf.hl));
    OtherCommand(s1.(buf := ReplyMessage(s1.auth.transaction, s1.auth.hl)), Reply, tx);
  }

  lemma OtherHandled(s: Session, r: (Session, Rc), pdu: Stuck)
    requires SameNegotiate(s, r.0)
    ensures SameNegotiate(s, Handled(r, pdu))
  {
  }

  lemma NegotiateArrival(s: Session, e: Event)
    requires e.CompletionArrives? || e.DataArrives? || e.StuckPduRetried?
    ensures SameNegotiate(s, Next(s, e))
  {
    hide RxCommand, RxData, Handled;
    match e
    case CompletionArrives(cqe, tx) =>
      var s1 := s.(cqe := cqe, log := Then(s.log, Completed(cqe.cid)));
      OtherRxCommand(s1, tx);
      OtherHandled(s, RxCommand(s1, tx), StuckCompletion);
    case DataArrives(msg, prep, tx) =>
      OtherRxData(s.(buf := msg), prep, tx);
      OtherHandled(s, RxData(s.(buf := msg), prep, tx), StuckData);
    case StuckPduRetried(prep, tx) =>
      OtherRxCommand(s, tx);
      OtherRxData(s, prep, tx);
      OtherHandled(s, RxCommand(s, tx), StuckCompletion);
      OtherHandled(s, RxData(s, prep, tx), StuckData);
  }

  lemma NegotiateProcess(s: Session, e: Event)
    requires e.ProcessRuns?
    ensures Transmits(Next(s, e).log, Negotiate) <==>
              Transmits(s.log, Negotiate) || (LeavesStart(s, e) && e.tx == Sent)
  {
    if LeavesStart(s, e) {
      hide AuthTxReceiveStep;
    } else {
      hide TxCommand, AuthTxReceiveStep;
      match s.phase
      case ConnectAdmin => OtherCommand(s, Connect, e.tx);
      case PropSet => OtherCommand(s, PropertySet, e.tx);
      case IdentifyCtrl => OtherCommand(s, IdentifyController, e.tx);
      case IdentifyNs => OtherCommand(s, IdentifyNamespace, e.tx);
      case Auth => OtherReceive(s, Challenge, e.tx); OtherReceive(s, Success1, e.tx);
      case _ =>
    }
  }

  lemma NegotiateNext(s: Session, e: Event)
    requires Enabled(s, e)
    ensures Transmits(Next(s, e).log, Negotiate) <==>
              Transmits(s.log, Negotiate) || (LeavesStart(s, e) && e.tx == Sent)
    ensures LeavesStart(s, e) ==> AuthRank(Next(s, e).auth) >= 1
  {
    if e.ProcessRuns? {
      NegotiateProcess(s, e);
    } else if e.CompletionArrives? || e.DataArrives? || e.StuckPduRetried? {
      NegotiateArrival(s, e);
      hide ReceiveCompletion, ReceiveData, Reprocess;
    }
  }

  // ---------------------------------------------------------------- whole runs

  lemma {:induction false} NeverLeavesAgain(s: Session, es: seq<Event>)
    requires AllEnabled(s, es) && AuthRank(s.auth) >= 1
    ensures StartTx(s, es) == None
    decreases |es|
  {
    hide Next;
    if es != [] {
      AdvancedNext(s, es[0]);
      NeverLeavesAgain(Next(s, es[0]), es[1..]);
    }
  }

  lemma {:induction false} NegotiateRun(s: Session, es: seq<Event>)
    requires AllEnabled(s, es)
    ensures Transmits(Run(s, es).log, Negotiate) <==>
              Transmits(s.log, Negotiate) || StartTx(s, es) == Some(Sent)
    decreases |es|
  {
    hide Next, AuthRank;
    if es != [] {
      NegotiateNext(s, es[0]);
      NegotiateRun(Next(s, es[0]), es[1..]);
      if LeavesStart(s, es[0]) { NeverLeavesAgain(Next(s, es[0]), es[1..]); }
    }
  }

  lemma {:induction false} TransmitsIsOnWire(log: Log, kind: Kind)
    ensures Transmits(log, kind) <==> exists i :: 0 <= i < |Wire(log)| && Wire(log)[i].kind == kind
  {
    if log.Then? {
      var w, b := Wire(log), Wire(log.before);
      TransmitsIsOnWire(log.before, kind);
      if log.fact.Transmitted? {
        assert w == b + [log.fact.cmd];
        assert w[|b|] == log.fact.cmd;
        assert forall i :: 0 <= i < |b| ==> w[i] == b[i];
      }
    }
  }

  /** A command of one kind comes before one of another on the wire. */
  predicate Precedes(w: seq<Command>, first: Kind, second: Kind) {
    exists i, j :: 0 <= i < j < |w| && w[i].kind == first && w[j].kind == second
  }

  /** On every run, whatever the target does, an AuthReceive for the challenge comes after a
      Negotiate if and only if the send made on leaving START was taken by the socket. */
  lemma NegotiateFirstIffSent(haveSecret: bool, es: seq<Event>)
    requires AllEnabled(Opened(haveSecret), es)
    ensures var log := Run(Opened(haveSecret), es).log;
            Transmits(log, ReceiveChallenge) ==>
              (Precedes(Wire(log), Negotiate, ReceiveChallenge) <==> StartTx(Opened(haveSecret), es) == Some(Sent))
  {
    var log := Run(Opened(haveSecret), es).log;
    hide Run, AllEnabled;
    NegotiateRun(Opened(haveSecret), es);
    CommandsInProtocolOrder(haveSecret, es);
    TransmitsIsOnWire(log, Negotiate);
    TransmitsIsOnWire(log, ReceiveChallenge);
    if Transmits(log, ReceiveChallenge) && Transmits(log, Negotiate) {
      var w := Wire(log);
      var i :| 0 <= i < |w| && w[i].kind == Negotiate;
      var j :| 0 <= j < |w| && w[j].kind == ReceiveChallenge;
      assert i < j;
    }
  }

  /** A Negotiate that finds the window closed is skipped: the next window opening sends the
      AuthReceive for a challenge that nobody was asked for. */
  lemma DeferredNegotiateSkipped(s: Session, tx: Tx, transaction: int, other: int)
    requires !s.ended && s.running && !s.txInFlight && s.phase == Auth && AuthRank(s.auth) == 0 && tx != Sent
    ensures var es := [ProcessRuns(tx, true, transaction), WindowOpens, ProcessRuns(Sent, true, other)];
            && AllEnabled(s, es) && StartTx(s, es) == Some(tx)
            && Wire(Run(s, es).log) == Wire(s.log) + [Command(Run(s, es).cid, ReceiveChallenge)]
  {
    var e1, e3 := ProcessRuns(tx, true, transaction), ProcessRuns(Sent, true, other);
    var es := [e1, WindowOpens, e3];
    var s1 := Next(s, e1);
    assert s1.auth.step == CompleteNegotiate && s1.log == s.log && !s1.txInFlight && !s1.ended && s1.phase == Auth;
    var s2 := Next(s1, WindowOpens);
    assert s2 == s1.(running := true);
    var s3 := Next(s2, e3);
    assert s3.log == Then(s.log, Transmitted(Command(s3.cid, ReceiveChallenge)));
    assert es[1..] == [WindowOpens, e3] && es[1..][1..] == [e3] && [e3][1..] == [];
    assert Enabled(s, e1) && Enabled(s1, WindowOpens) && Enabled(s2, e3) && LeavesStart(s, e1);
    hide Next, Enabled, LeavesStart;
    assert Run(s3, []) == s3 && AllEnabled(s3, []);
    assert Run(s2, [e3]) == s3 && AllEnabled(s2, [e3]);
    assert Run(s1, [WindowOpens, e3]) == s3 && AllEnabled(s1, [WindowOpens, e3]);
    assert Run(s, es) == s3;
  }
}
