/**
 A target that answers only what it was asked: without a Negotiate it knows no transaction to
 challenge, and without a Reply it has nothing to accept.
 */
module NvmeTarget {
  import opened NvmeSession
  import opened NvmeRuns
  import opened NvmeProgress
  import opened NvmeNegotiate

  /** Data valid as a challenge answers a Negotiate, data valid as a success1 answers a Reply. */
  predicate Asked(s: Session, e: Event) {
    e.DataArrives? ==>
      && (ChallengeValid(e.msg, s.auth.transaction) ==> Transmits(s.log, Negotiate))
      && (Success1Valid(e.msg, s.auth.transaction, s.auth.hl) ==> Transmits(s.log, Reply))
  }

  /** Runs against a FIFO target that answers only what it was asked. */
  predicate TargetRun(s: Session, es: seq<Event>)
    decreases |es|
  {
    es != [] ==>
      && Enabled(s, es[0]) && Fifo(s, es[0]) && Asked(s, es[0])
      && Next(s, es[0]).issued < CID_MODULUS
      && TargetRun(Next(s, es[0]), es[1..])
  }

  lemma {:induction false} TargetIsFifo(s: Session, es: seq<Event>)
    requires TargetRun(s, es)
    ensures FifoRunOk(s, es)
    decreases |es|
  {
    hide Next, Enabled, Fifo;
    if es != [] { TargetIsFifo(Next(s, es[0]), es[1..]); }
  }

  // ---------------------------------------------------------------- what was transmitted

  /** Steps beyond the challenge follow a transmitted Reply; without a transmitted Negotiate the
      session never gets beyond the challenge, and holds none. */
  predicate AskInv(s: Session) {
    !s.ended ==>
      && (AuthRank(s.auth) == 3 || AuthRank(s.auth) == 4 ==> Transmits(s.log, Reply))
      && (1 <= AuthRank(s.auth) <= 4 ==> s.phase == Auth)
      && (!Transmits(s.log, Negotiate) ==>
            AuthRank(s.auth) <= 2 && (s.stuck == StuckData ==> !ChallengeValid(s.buf, s.auth.transaction)))
  }

  /** Negotiate was deferred, and with it the session's only chance to be challenged. */
  predicate NegotiateLost(s: Session) {
    AuthRank(s.auth) >= 1 && !Transmits(s.log, Negotiate)
  }

  /** A handler's result keeps the invariant, given what is in the buffer. */
  predicate AskResult(r: (Session, Rc)) {
    r.1 != EFatal ==> AskInv(r.0)
  }

  lemma AskTxCommand(s: Session, kind: Kind, tx: Tx)
    ensures var t := TxCommand(s, kind, tx).0;
            && (Transmits(t.log, Negotiate) <==> Transmits(s.log, Negotiate) || (tx == Sent && kind == Negotiate))
            && (Transmits(t.log, Reply) <==> Transmits(s.log, Reply) || (tx == Sent && kind == Reply))
            && t.auth == s.auth && t.phase == s.phase && t.ended == s.ended && t.buf == s.buf
            && (t.stuck == s.stuck || t.stuck == NoPdu) && (TxCommand(s, kind, tx).1 == Ok <==> tx == Sent)
  {
  }

  lemma AskReceiveStep(s: Session, next: AuthStep, tx: Tx)
    requires AskInv(s) && !s.ended && s.phase == Auth && !s.auth.completed
    requires (next == Challenge && s.auth.step == CompleteNegotiate) || (next == Success1 && s.auth.step == CompleteReply)
    ensures AskInv(AuthTxReceiveStep(s, next, tx).0)
  {
    hide TxCommand, ChallengeValid, Transmits;
    AskTxCommand(SetStep(s, next), if next == Challenge then ReceiveChallenge else ReceiveSuccess1, tx);
  }

  lemma AskFinish(r: (Session, Rc))
    requires AskResult(r) && (r.0.auth.completed ==> r.0.auth.step == Start)
    ensures AskResult(AuthFinish(r))
  {
    hide ChallengeValid;
  }

  lemma AskRxCommand(s: Session, tx: Tx)
    requires AskInv(s) && OrderInv(s) && !s.ended
    ensures AskResult(RxCommand(s, tx))
  {
    hide AuthTxReceiveStep, ChallengeValid, AuthFinish;
    var s0 := s.(txInFlight := false);
    if s.phase == Auth && s.cqe.status == 0 {
      OrderAuthRxComplete(s0, tx);
      if s.auth.step == CompleteNegotiate {
        AskReceiveStep(s0, Challenge, tx);
      } else if s.auth.step == CompleteReply {
        AskReceiveStep(s0, Success1, tx);
      }
      AskFinish(AuthRxComplete(s0, tx));
    } else {
      hide AuthRxComplete;
    }
  }

  /** Data that is a challenge, or a success1, only because it was asked for. */
  predicate BufferAsked(s: Session) {
    && (ChallengeValid(s.buf, s.auth.transaction) ==> Transmits(s.log, Negotiate))
    && (s.auth.step == Success1 ==> Transmits(s.log, Negotiate))
  }

  /** Data left stuck is a challenge only if it was asked for. */
  predicate StuckAsked(r: (Session, Rc)) {
    r.1 != Ok && r.1 != EFatal ==>
      (ChallengeValid(r.0.buf, r.0.auth.transaction) ==> Transmits(r.0.log, Negotiate))
  }

  lemma AskChallenge(s: Session, prep: Prepare, tx: Tx)
    requires AskInv(s) && OrderInv(s) && !s.ended && s.phase == Auth && s.auth.step == Challenge && BufferAsked(s)
    ensures AskResult(AuthRxData(s, prep, tx)) && !AuthRxData(s, prep, tx).0.auth.completed
    ensures StuckAsked(AuthRxData(s, prep, tx))
  {
    hide TxCommand, Transmits;
    var s1 := s.(auth := s.auth.(hl := s.buf.hl));
    AskTxCommand(s1.(buf := ReplyMessage(s1.auth.transaction, s1.auth.hl)), Reply, tx);
  }

  lemma AskOtherData(s: Session, prep: Prepare, tx: Tx)
    requires AskInv(s) && OrderInv(s) && !s.ended && s.phase == Auth && s.auth.step != Challenge && BufferAsked(s)
    ensures AskResult(AuthRxData(s, prep, tx)) && StuckAsked(AuthRxData(s, prep, tx))
    ensures var t := AuthRxData(s, prep, tx).0; t.auth.completed ==> t.auth.step == Start
  {
    hide AuthRxChallenge, ChallengeValid;
  }

  lemma AskRxData(s: Session, prep: Prepare, tx: Tx)
    requires AskInv(s) && OrderInv(s) && !s.ended && BufferAsked(s)
    ensures AskResult(RxData(s, prep, tx)) && StuckAsked(RxData(s, prep, tx))
  {
    var s0 := s.(txInFlight := false);
    if s.phase == Auth {
      if s.auth.step == Challenge { AskChallenge(s0, prep, tx); } else { AskOtherData(s0, prep, tx); }
      hide AuthRxData, ChallengeValid, AskInv, OrderInv;
      AskFinish(AuthRxData(s0, prep, tx));
    } else {
      hide AuthRxData, AuthFinish, ChallengeValid;
    }
  }

  lemma AskHandled(r: (Session, Rc), pdu: Stuck)
    requires AskResult(r) && pdu != NoPdu && (pdu == StuckData ==> StuckAsked(r))
    ensures AskInv(Handled(r, pdu))
  {
    hide ChallengeValid, Transmits;
  }

  lemma AskArrival(s: Session, e: Event)
    requires AskInv(s) && OrderInv(s) && Enabled(s, e) && Asked(s, e)
    requires e.CompletionArrives? || e.DataArrives?
    ensures AskInv(Next(s, e))
  {
    hide RxCommand, RxData, Handled, ChallengeValid, Success1Valid;
    match e
    case CompletionArrives(cqe, tx) =>
      var s1 := s.(cqe := cqe, log := Then(s.log, Completed(cqe.cid)));
      AskRxCommand(s1, tx);
      AskHandled(RxCommand(s1, tx), StuckCompletion);
    case DataArrives(msg, prep, tx) =>
      var s1 := s.(buf := msg);
      AskRxData(s1, prep, tx);
      AskHandled(RxData(s1, prep, tx), StuckData);
  }

  lemma AskRetry(s: Session, e: Event)
    requires AskInv(s) && OrderInv(s) && StuckInv(s) && Enabled(s, e) && e.StuckPduRetried?
    ensures AskInv(Next(s, e))
  {
    hide RxCommand, RxData, Handled, ChallengeValid, Transmits;
    if s.stuck == StuckCompletion {
      AskRxCommand(s, e.tx);
      AskHandled(RxCommand(s, e.tx), StuckCompletion);
    } else {
      AskRxData(s, e.prep, e.tx);
      AskHandled(RxData(s, e.prep, e.tx), StuckData);
    }
  }

  lemma AskAuthStep(s: Session, tx: Tx, rng: bool, transaction: int)
    requires AskInv(s) && OrderInv(s) && StuckInv(s) && !s.ended && s.phase == Auth
    ensures AskInv(AuthStepOnce(s, tx, rng, transaction).0)
  {
    hide TxCommand, AuthTxReceiveStep, ChallengeValid, Transmits;
    match s.auth.step
    case Start =>
      AskTxCommand(s.(auth := s.auth.(transaction := transaction, step := CompleteNegotiate)), Negotiate, tx);
    case CompleteNegotiate => AskReceiveStep(s, Challenge, tx);
    case CompleteReply => AskReceiveStep(s, Success1, tx);
    case _ =>
  }

  lemma AskProcess(s: Session, tx: Tx, rng: bool, transaction: int)
    requires AskInv(s) && OrderInv(s) && StuckInv(s) && !s.ended
    ensures AskInv(Process(s, tx, rng, transaction))
  {
    AskStep(s, tx, rng, transaction);
    hide StepOnce, ChallengeValid, Transmits;
  }

  lemma AskStep(s: Session, tx: Tx, rng: bool, transaction: int)
    requires AskInv(s) && OrderInv(s) && StuckInv(s) && !s.ended
    ensures AskInv(StepOnce(s, tx, rng, transaction).0)
  {
    hide AuthStepOnce, TxCommand, ChallengeValid, Transmits;
    match s.phase
    case ConnectAdmin => AskTxCommand(s, Connect, tx);
    case PropSet => AskTxCommand(s, PropertySet, tx);
    case Auth => AskAuthStep(s, tx, rng, transaction);
    case IdentifyCtrl => AskTxCommand(s, IdentifyController, tx);
    case IdentifyNs => AskTxCommand(s, IdentifyNamespace, tx);
    case _ =>
  }

  lemma AskNext(s: Session, e: Event)
    requires AskInv(s) && OrderInv(s) && StuckInv(s) && Enabled(s, e) && Asked(s, e)
    ensures AskInv(Next(s, e))
  {
    hide Process, ReceiveCompletion, ReceiveData, Reprocess, ChallengeValid, Success1Valid;
    match e
    case ProcessRuns(tx, rng, transaction) => AskProcess(s, tx, rng, transaction);
    case CompletionArrives(_, _) => AskArrival(s, e);
    case DataArrives(_, _, _) => AskArrival(s, e);
    case StuckPduRetried(_, _) => AskRetry(s, e);
    case _ =>
  }

  lemma {:induction false} AskRun(s: Session, es: seq<Event>)
    requires AskInv(s) && OrderInv(s) && StuckInv(s) && TargetRun(s, es)
    ensures AskInv(Run(s, es))
    decreases |es|
  {
    hide Next, AskInv, OrderInv, StuckInv, Enabled, Fifo, Asked;
    if es != [] {
      OrderNext(s, es[0]);
      StuckNext(s, es[0]);
      AskNext(s, es[0]);
      AskRun(Next(s, es[0]), es[1..]);
    }
  }

  // ---------------------------------------------------------------- a deferred Negotiate

  /** Without a Negotiate there is never a challenge: the session stays in AUTH, transmits no
      Negotiate and no Reply, and does not get beyond the AuthReceive for the challenge. */
  lemma {:induction false} NegotiateLostForever(s: Session, es: seq<Event>)
    requires AskInv(s) && OrderInv(s) && StuckInv(s) && TargetRun(s, es) && !s.ended && NegotiateLost(s)
    ensures var t := Run(s, es);
            !Transmits(t.log, Negotiate) && t.phase == Auth && 1 <= AuthRank(t.auth)
            && (t.ended || (NegotiateLost(t) && AuthRank(t.auth) <= 2))
    decreases |es|
  {
    hide Next, OrderInv, StuckInv, Enabled, Fifo, Asked, Transmits, ChallengeValid;
    if es != [] {
      var t := Next(s, es[0]);
      OrderNext(s, es[0]);
      StuckNext(s, es[0]);
      AskNext(s, es[0]);
      AdvancedNext(s, es[0]);
      NegotiateNext(s, es[0]);
      if t.ended {
        assert es[1..] == [] by { EndedStops(t, es[1..]); }
        EndedPhase(s, es[0]);
      } else {
        NegotiateLostForever(t, es[1..]);
      }
    }
  }

  lemma EndedStops(s: Session, es: seq<Event>)
    requires TargetRun(s, es) && s.ended
    ensures es == []
  {
  }

  /** A handler or step that fails in AUTH fails there. */
  lemma FailsInPlace(s: Session, prep: Prepare, tx: Tx)
    requires s.phase == Auth
    ensures RxCommand(s, tx).1 == EFatal ==> RxCommand(s, tx).0.phase == Auth
    ensures RxData(s, prep, tx).1 == EFatal ==> RxData(s, prep, tx).0.phase == Auth
  {
    hide AuthRxComplete, AuthRxData, Advanced;
    AdvancedAuthRxComplete(s.(txInFlight := false), tx);
    AdvancedAuthRxData(s.(txInFlight := false), prep, tx);
  }

  lemma StepStays(s: Session, tx: Tx, rng: bool, transaction: int)
    requires s.phase == Auth
    ensures Process(s, tx, rng, transaction).phase == Auth
  {
    hide TxCommand, AuthTxReceiveStep;
    match s.auth.step
    case Start => TxKeepsStep(s.(auth := s.auth.(transaction := transaction, step := CompleteNegotiate)), Negotiate, tx);
    case CompleteNegotiate => AdvancedReceiveStep(s, Challenge, tx);
    case CompleteReply => AdvancedReceiveStep(s, Success1, tx);
    case _ =>
  }

  /** A session that ends in AUTH ends there. */
  lemma EndedPhase(s: Session, e: Event)
    requires s.phase == Auth && Next(s, e).ended && !s.ended && Enabled(s, e)
    ensures Next(s, e).phase == Auth
  {
    hide RxCommand, RxData, Process;
    match e
    case ProcessRuns(tx, rng, transaction) => StepStays(s, tx, rng, transaction);
    case CompletionArrives(cqe, tx) =>
      FailsInPlace(s.(cqe := cqe, log := Then(s.log, Completed(cqe.cid))), Prepared, tx);
      HandlersKeepAlive(s.(cqe := cqe, log := Then(s.log, Completed(cqe.cid))), Prepared, tx);
    case DataArrives(msg, prep, tx) =>
      FailsInPlace(s.(buf := msg), prep, tx);
      HandlersKeepAlive(s.(buf := msg), prep, tx);
    case StuckPduRetried(prep, tx) =>
      FailsInPlace(s, prep, tx);
      HandlersKeepAlive(s, prep, tx);
    case _ =>
  }

  /** No handler ends the session other than by failing. */
  lemma HandlersKeepAlive(s: Session, prep: Prepare, tx: Tx)
    requires s.phase == Auth && !s.ended
    ensures !RxCommand(s, tx).0.ended && !RxData(s, prep, tx).0.ended
  {
    hide AuthRxComplete, AuthRxData;
    AliveInAuth(s.(txInFlight := false), prep, tx);
  }

  lemma AliveInAuth(s: Session, prep: Prepare, tx: Tx)
    requires !s.ended
    ensures !AuthRxComplete(s, tx).0.ended && !AuthRxData(s, prep, tx).0.ended
  {
    hide ChallengeValid, Success1Valid;
  }
}
