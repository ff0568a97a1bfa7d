/**
 What the in-flight flag promises: a session that holds its transmissions back is always owed
 an answer, so every opening of the window makes progress unless an answer or data is due.
 */
module NvmeProgress {
  import opened NvmeSession
  import opened NvmeRuns

  /** The flag is raised only while the target owes the ICResp or a completion. */
  predicate WaitInv(s: Session) {
    !s.ended && s.txInFlight ==>
      s.stuck.NoPdu? && if s.phase == IcReq then s.icReqSent else Outstanding(s.log) != []
  }

  /** A handler that lowered the flag raises it again only by sending. */
  predicate SentOrIdle(r: (Session, Rc)) {
    r.0.txInFlight ==>
      r.1 == Ok && r.0.stuck.NoPdu? && r.0.phase != IcReq && Outstanding(r.0.log) != []
  }

  lemma WaitTxCommand(s: Session, kind: Kind, tx: Tx)
    requires !s.txInFlight && s.phase != IcReq
    ensures SentOrIdle(TxCommand(s, kind, tx)) && TxCommand(s, kind, tx).0.phase == s.phase
  {
  }

  lemma WaitReceiveStep(s: Session, next: AuthStep, tx: Tx)
    requires !s.txInFlight && s.phase == Auth
    ensures SentOrIdle(AuthTxReceiveStep(s, next, tx)) && AuthTxReceiveStep(s, next, tx).0.phase == Auth
  {
    hide TxCommand;
    WaitTxCommand(SetStep(s, next), if next == Challenge then ReceiveChallenge else ReceiveSuccess1, tx);
  }

  lemma WaitAuthFinish(r: (Session, Rc))
    requires SentOrIdle(r)
    ensures SentOrIdle(AuthFinish(r))
  {
  }

  lemma WaitAuthRxComplete(s: Session, tx: Tx)
    requires !s.txInFlight && s.phase == Auth
    ensures SentOrIdle(AuthRxComplete(s, tx))
  {
    hide AuthTxReceiveStep;
    if s.auth.step == CompleteNegotiate {
      WaitReceiveStep(s, Challenge, tx);
    } else if s.auth.step == CompleteReply {
      WaitReceiveStep(s, Success1, tx);
    }
  }

  lemma WaitRxCommand(s: Session, tx: Tx)
    ensures SentOrIdle(RxCommand(s, tx))
  {
    hide AuthRxComplete, AuthFinish, SentOrIdle;
    var s0 := s.(txInFlight := false);
    if s.phase == Auth && s.cqe.status == 0 {
      WaitAuthRxComplete(s0, tx);
      WaitAuthFinish(AuthRxComplete(s0, tx));
    } else {
      assert !RxCommand(s, tx).0.txInFlight;
      IdleIsFine(RxCommand(s, tx));
    }
  }

  lemma IdleIsFine(r: (Session, Rc))
    requires !r.0.txInFlight
    ensures SentOrIdle(r)
  {
  }

  lemma WaitAuthRxData(s: Session, prep: Prepare, tx: Tx)
    requires !s.txInFlight && s.phase == Auth
    ensures SentOrIdle(AuthRxData(s, prep, tx))
  {
    hide TxCommand;
    if s.auth.step == Challenge && ChallengeValid(s.buf, s.auth.transaction) && prep == Prepared {
      var s1 := s.(auth := s.auth.(hl := s.buf.hl));
      WaitTxCommand(s1.(buf := ReplyMessage(s1.auth.transaction, s1.auth.hl)), Reply, tx);
    }
  }

  lemma WaitRxData(s: Session, prep: Prepare, tx: Tx)
    ensures SentOrIdle(RxData(s, prep, tx))
  {
    hide AuthRxData, AuthFinish, SentOrIdle;
    if s.phase == Auth {
      WaitAuthRxData(s.(txInFlight := false), prep, tx);
      WaitAuthFinish(AuthRxData(s.(txInFlight := false), prep, tx));
    } else {
      IdleIsFine(RxData(s, prep, tx));
    }
  }

  lemma WaitHandled(r: (Session, Rc), pdu: Stuck)
    requires SentOrIdle(r)
    ensures WaitInv(Handled(r, pdu))
  {
  }

  lemma WaitArrival(s: Session, e: Event)
    requires e.CompletionArrives? || e.DataArrives? || (e.StuckPduRetried? && !s.stuck.NoPdu?)
    ensures WaitInv(Next(s, e))
  {
    hide RxCommand, RxData, Handled, SentOrIdle, WaitInv;
    match e
    case CompletionArrives(cqe, tx) =>
      var s1 := s.(cqe := cqe, log := Then(s.log, Completed(cqe.cid)));
      WaitRxCommand(s1, tx);
      WaitHandled(RxCommand(s1, tx), StuckCompletion);
    case DataArrives(msg, prep, tx) =>
      WaitRxData(s.(buf := msg), prep, tx);
      WaitHandled(RxData(s.(buf := msg), prep, tx), StuckData);
    case StuckPduRetried(prep, tx) =>
      WaitRxCommand(s, tx);
      WaitHandled(RxCommand(s, tx), StuckCompletion);
      WaitRxData(s, prep, tx);
      WaitHandled(RxData(s, prep, tx), StuckData);
  }

  lemma WaitSend(s: Session, kind: Kind, tx: Tx)
    requires WaitInv(s) && !s.ended && s.phase != IcReq
    ensures var t := TxCommand(s, kind, tx).0; WaitInv(t) && t.phase == s.phase && !t.ended
  {
  }

  lemma WaitAuthStep(s: Session, tx: Tx, rng: bool, transaction: int)
    requires WaitInv(s) && !s.ended && s.phase == Auth
    ensures var t := AuthStepOnce(s, tx, rng, transaction).0; WaitInv(t) && t.phase == Auth && !t.ended
  {
    hide TxCommand;
    match s.auth.step
    case Start =>
      WaitSend(s.(auth := s.auth.(transaction := transaction, step := CompleteNegotiate)), Negotiate, tx);
    case CompleteNegotiate => WaitSend(SetStep(s, Challenge), ReceiveChallenge, tx);
    case CompleteReply => WaitSend(SetStep(s, Success1), ReceiveSuccess1, tx);
    case _ =>
  }

  lemma WaitProcess(s: Session, tx: Tx, rng: bool, transaction: int)
    requires WaitInv(s) && OrderInv(s) && !s.ended
    ensures WaitInv(Process(s, tx, rng, transaction))
  {
    hide AuthStepOnce, TxCommand;
    match s.phase
    case ConnectAdmin => WaitSend(s, Connect, tx);
    case PropSet => WaitSend(s, PropertySet, tx);
    case Auth => WaitAuthStep(s, tx, rng, transaction);
    case IdentifyCtrl => WaitSend(s, IdentifyController, tx);
    case IdentifyNs => WaitSend(s, IdentifyNamespace, tx);
    case _ =>
  }

  lemma WaitNext(s: Session, e: Event)
    requires WaitInv(s) && OrderInv(s) && Enabled(s, e)
    ensures WaitInv(Next(s, e))
  {
    hide Process, ReceiveCompletion, ReceiveData, Reprocess;
    match e
    case ProcessRuns(tx, rng, transaction) => WaitProcess(s, tx, rng, transaction);
    case CompletionArrives(_, _) => WaitArrival(s, e);
    case DataArrives(_, _, _) => WaitArrival(s, e);
    case StuckPduRetried(_, _) => WaitArrival(s, e);
    case _ =>
  }

  lemma {:induction false} WaitRun(s: Session, es: seq<Event>)
    requires WaitInv(s) && OrderInv(s) && AllEnabled(s, es)
    ensures WaitInv(Run(s, es))
    decreases |es|
  {
    hide Next, WaitInv, OrderInv, Enabled;
    if es != [] {
      OrderNext(s, es[0]);
      WaitNext(s, es[0]);
      WaitRun(Next(s, es[0]), es[1..]);
    }
  }

  // ---------------------------------------------------------------- leaving AUTH

  /** AUTH is left as soon as both halves of the exit gate are in. */
  predicate LeftWhenDone(s: Session) {
    !s.ended ==>
      && (s.phase == IcReq || s.phase == ConnectAdmin ==> !s.auth.completed)
      && (s.phase == Auth ==> !(s.auth.completed && s.auth.rxComplete))
  }

  lemma DoneRxCommand(s: Session, tx: Tx)
    requires OrderInv(s) && LeftWhenDone(s) && !s.ended
    ensures RxCommand(s, tx).1 != EFatal ==> LeftWhenDone(RxCommand(s, tx).0)
  {
    hide AuthTxReceiveStep;
    if s.phase == Auth {
      var s0 := s.(txInFlight := false);
      if s.auth.step == CompleteNegotiate {
        OrderReceiveStep(s0, Challenge, tx);
      } else if s.auth.step == CompleteReply {
        OrderReceiveStep(s0, Success1, tx);
      }
    }
  }

  lemma DoneRxData(s: Session, prep: Prepare, tx: Tx)
    requires OrderInv(s) && LeftWhenDone(s) && !s.ended
    ensures RxData(s, prep, tx).1 != EFatal ==> LeftWhenDone(RxData(s, prep, tx).0)
  {
  }

  lemma DoneHandled(r: (Session, Rc), pdu: Stuck)
    requires r.1 != EFatal ==> LeftWhenDone(r.0)
    ensures LeftWhenDone(Handled(r, pdu))
  {
  }

  lemma DoneArrival(s: Session, e: Event)
    requires OrderInv(s) && LeftWhenDone(s) && Enabled(s, e)
    requires e.CompletionArrives? || e.DataArrives? || e.StuckPduRetried?
    ensures LeftWhenDone(Next(s, e))
  {
    hide RxCommand, RxData, Handled;
    match e
    case CompletionArrives(cqe, tx) =>
      var s1 := s.(cqe := cqe, log := Then(s.log, Completed(cqe.cid)));
      DoneRxCommand(s1, tx);
      DoneHandled(RxCommand(s1, tx), StuckCompletion);
    case DataArrives(msg, prep, tx) =>
      DoneRxData(s.(buf := msg), prep, tx);
      DoneHandled(RxData(s.(buf := msg), prep, tx), StuckData);
    case StuckPduRetried(prep, tx) =>
      DoneRxCommand(s, tx);
      DoneHandled(RxCommand(s, tx), StuckCompletion);
      DoneRxData(s, prep, tx);
      DoneHandled(RxData(s, prep, tx), StuckData);
  }

  lemma DoneAuthStep(s: Session, tx: Tx, rng: bool, transaction: int)
    requires OrderInv(s) && LeftWhenDone(s) && !s.ended && s.phase == Auth
    ensures var t := AuthStepOnce(s, tx, rng, transaction).0; LeftWhenDone(t) && t.phase == Auth && !t.ended
  {
    hide AuthTxReceiveStep;
    if s.auth.step == CompleteNegotiate {
      OrderReceiveStep(s, Challenge, tx);
    } else if s.auth.step == CompleteReply {
      OrderReceiveStep(s, Success1, tx);
    }
  }

  lemma DoneProcess(s: Session, tx: Tx, rng: bool, transaction: int)
    requires OrderInv(s) && LeftWhenDone(s) && !s.ended
    ensures LeftWhenDone(Process(s, tx, rng, transaction))
  {
    hide AuthStepOnce;
    if s.phase == Auth { DoneAuthStep(s, tx, rng, transaction); }
  }

  lemma DoneNext(s: Session, e: Event)
    requires LeftWhenDone(s) && OrderInv(s) && Enabled(s, e)
    ensures LeftWhenDone(Next(s, e))
  {
    hide Process, ReceiveCompletion, ReceiveData, Reprocess;
    match e
    case ProcessRuns(tx, rng, transaction) => DoneProcess(s, tx, rng, transaction);
    case CompletionArrives(_, _) => DoneArrival(s, e);
    case DataArrives(_, _, _) => DoneArrival(s, e);
    case StuckPduRetried(_, _) => DoneArrival(s, e);
    case _ =>
  }

  lemma {:induction false} DoneRun(s: Session, es: seq<Event>)
    requires LeftWhenDone(s) && OrderInv(s) && AllEnabled(s, es)
    ensures LeftWhenDone(Run(s, es))
    decreases |es|
  {
    hide Next, LeftWhenDone, OrderInv, Enabled;
    if es != [] {
      OrderNext(s, es[0]);
      DoneNext(s, es[0]);
      DoneRun(Next(s, es[0]), es[1..]);
    }
  }

  lemma {:induction false} FifoEnabled(s: Session, es: seq<Event>)
    requires FifoRunOk(s, es)
    ensures AllEnabled(s, es)
    decreases |es|
  {
    hide Next, Enabled, Fifo;
    if es != [] { FifoEnabled(Next(s, es[0]), es[1..]); }
  }

  // ---------------------------------------------------------------- stuck PDUs

  /** Data is stuck only while its Reply cannot be sent, a completion only while its AuthReceive
      cannot. */
  predicate StuckInv(s: Session) {
    !s.ended ==>
      match s.stuck
      case NoPdu => true
      case StuckData => s.phase == Auth && s.auth.step == Challenge
      case StuckCompletion => s.phase == Auth && (s.auth.step == CompleteNegotiate || s.auth.step == CompleteReply)
  }

  /** A handler defers a completion or data only in the steps that send on its behalf. */
  predicate DefersIn(r: (Session, Rc), pdu: Stuck) {
    r.1 == Ok || r.1 == EFatal || (r.0.phase == Auth &&
      if pdu == StuckData then r.0.auth.step == Challenge
      else r.0.auth.step == CompleteNegotiate || r.0.auth.step == CompleteReply)
  }

  lemma ReceiveStepDefers(s: Session, next: AuthStep, tx: Tx)
    requires s.phase == Auth && (next == Challenge || next == Success1)
    ensures DefersIn(AuthTxReceiveStep(s, next, tx), StuckCompletion)
  {
  }

  lemma RxCommandDefers(s: Session, tx: Tx)
    ensures DefersIn(RxCommand(s, tx), StuckCompletion)
  {
    hide AuthTxReceiveStep;
    var s0 := s.(txInFlight := false);
    if s.phase == Auth {
      ReceiveStepDefers(s0, Challenge, tx);
      ReceiveStepDefers(s0, Success1, tx);
    }
  }

  lemma RxDataDefers(s: Session, prep: Prepare, tx: Tx)
    ensures DefersIn(RxData(s, prep, tx), StuckData)
  {
  }

  lemma StuckHandled(r: (Session, Rc), pdu: Stuck)
    requires DefersIn(r, pdu) && pdu != NoPdu
    ensures StuckInv(Handled(r, pdu))
  {
  }

  lemma StuckArrival(s: Session, e: Event)
    requires Enabled(s, e) && (e.CompletionArrives? || e.DataArrives? || e.StuckPduRetried?)
    ensures StuckInv(Next(s, e))
  {
    hide RxCommand, RxData, Handled, StuckInv, DefersIn;
    match e
    case CompletionArrives(cqe, tx) =>
      var s1 := s.(cqe := cqe, log := Then(s.log, Completed(cqe.cid)));
      RxCommandDefers(s1, tx);
      StuckHandled(RxCommand(s1, tx), StuckCompletion);
    case DataArrives(msg, prep, tx) =>
      RxDataDefers(s.(buf := msg), prep, tx);
      StuckHandled(RxData(s.(buf := msg), prep, tx), StuckData);
    case StuckPduRetried(prep, tx) =>
      RxCommandDefers(s, tx);
      RxDataDefers(s, prep, tx);
      StuckHandled(RxCommand(s, tx), StuckCompletion);
      StuckHandled(RxData(s, prep, tx), StuckData);
  }

  lemma StuckProcess(s: Session, tx: Tx, rng: bool, transaction: int)
    requires StuckInv(s) && !s.ended
    ensures StuckInv(Process(s, tx, rng, transaction))
  {
    if s.phase == Auth {
      StuckAuthStep(s, tx, rng, transaction);
      hide AuthStepOnce;
    } else {
      hide AuthStepOnce;
    }
  }

  lemma StuckAuthStep(s: Session, tx: Tx, rng: bool, transaction: int)
    requires StuckInv(s) && !s.ended && s.phase == Auth
    ensures var t := AuthStepOnce(s, tx, rng, transaction).0; StuckInv(t) && !t.ended
  {
    hide AuthTxReceiveStep;
    match s.auth.step
    case CompleteNegotiate => StuckReceiveStep(s, Challenge, tx);
    case CompleteReply => StuckReceiveStep(s, Success1, tx);
    case _ =>
  }

  lemma StuckReceiveStep(s: Session, next: AuthStep, tx: Tx)
    requires StuckInv(s) && !s.ended && s.phase == Auth
    requires (next == Challenge && s.auth.step == CompleteNegotiate) || (next == Success1 && s.auth.step == CompleteReply)
    ensures var t := AuthTxReceiveStep(s, next, tx).0; StuckInv(t) && !t.ended
  {
  }

  lemma StuckNext(s: Session, e: Event)
    requires StuckInv(s) && Enabled(s, e)
    ensures StuckInv(Next(s, e))
  {
    hide Process, ReceiveCompletion, ReceiveData, Reprocess;
    match e
    case ProcessRuns(tx, rng, transaction) => StuckProcess(s, tx, rng, transaction);
    case CompletionArrives(_, _) => StuckArrival(s, e);
    case DataArrives(_, _, _) => StuckArrival(s, e);
    case StuckPduRetried(_, _) => StuckArrival(s, e);
    case _ =>
  }

  lemma {:induction false} StuckRun(s: Session, es: seq<Event>)
    requires StuckInv(s) && AllEnabled(s, es)
    ensures StuckInv(Run(s, es))
    decreases |es|
  {
    hide Next, StuckInv, Enabled;
    if es != [] {
      StuckNext(s, es[0]);
      StuckRun(Next(s, es[0]), es[1..]);
    }
  }

  // ---------------------------------------------------------------- a deferred Reply

  /** The challenge is waiting in the parser for memory: the next delivery answers it. */
  predicate ReplyDue(s: Session) {
    s.phase == Auth && s.auth.step == Challenge && s.stuck == StuckData && ChallengeValid(s.buf, s.auth.transaction)
  }

  /** The challenge was overwritten by a Reply that was not sent. */
  predicate ReplyLost(s: Session) {
    s.phase == Auth && s.auth.step == Challenge && s.stuck == StuckData && !ChallengeValid(s.buf, s.auth.transaction)
  }

  /** The Reply to a valid challenge reaches the wire if and only if the window is open and there
      is memory to send it; otherwise, once it was built, it is lost. */
  lemma ReplySentOrLost(s: Session, msg: Message, prep: Prepare, tx: Tx)
    requires s.phase == Auth && s.auth.step == Challenge && !s.auth.completed && !s.ended && s.stuck.NoPdu?
    requires ChallengeValid(msg, s.auth.transaction)
    ensures var t := ReceiveData(s, msg, prep, tx);
            && (Wire(t.log) == Wire(s.log) + [Command(t.cid, Reply)] <==> prep == Prepared && tx == Sent)
            && (ReplyLost(t) <==> prep == Prepared && tx != Sent)
            && (ReplyDue(t) <==> prep == PrepareOutOfMemory)
            && (t.ended <==> prep == PrepareFailed)
  {
    var t := ReceiveData(s, msg, prep, tx);
    if prep == Prepared && tx == Sent {
      assert t.log == Then(s.log, Transmitted(Command(t.cid, Reply)));
    } else {
      assert t.log == s.log;
      assert |Wire(s.log) + [Command(t.cid, Reply)]| == |Wire(s.log)| + 1;
    }
  }

  /** A Reply that is only waiting for memory goes out with the next delivery that finds some. */
  lemma ReplyDueRetries(s: Session, tx: Tx)
    requires ReplyDue(s) && !s.auth.completed && !s.ended
    ensures var t := Reprocess(s, Prepared, tx);
            && (Wire(t.log) == Wire(s.log) + [Command(t.cid, Reply)] <==> tx == Sent)
            && (ReplyLost(t) <==> tx != Sent)
  {
    var t := Reprocess(s, Prepared, tx);
    if tx == Sent {
      assert t.log == Then(s.log, Transmitted(Command(t.cid, Reply)));
    } else {
      assert t.log == s.log;
      assert |Wire(s.log) + [Command(t.cid, Reply)]| == |Wire(s.log)| + 1;
    }
  }

  lemma LostNext(s: Session, e: Event)
    requires ReplyLost(s) && Enabled(s, e)
    ensures var t := Next(s, e);
            Wire(t.log) == Wire(s.log) && t.phase == Auth && (t.ended || ReplyLost(t))
    ensures e.StuckPduRetried? ==> Next(s, e).ended
  {
  }

  /** A lost Reply is lost for good: nothing more ever reaches the wire, AUTH is never left, and
      the next delivery ends the session. */
  lemma {:induction false} ReplyLostForever(s: Session, es: seq<Event>)
    requires ReplyLost(s) && AllEnabled(s, es)
    ensures var t := Run(s, es);
            Wire(t.log) == Wire(s.log) && t.phase == Auth && (t.ended || ReplyLost(t))
    ensures (exists i :: 0 <= i < |es| && es[i].StuckPduRetried?) ==> Run(s, es).ended
    decreases |es|
  {
    hide Next, ChallengeValid;
    if es != [] {
      LostNext(s, es[0]);
      var t := Next(s, es[0]);
      if t.ended {
        assert es[1..] == [];
      } else {
        ReplyLostForever(t, es[1..]);
        if i :| 0 <= i < |es| && es[i].StuckPduRetried? {
          if i > 0 { assert es[1..][i - 1].StuckPduRetried?; }
        }
      }
    }
  }

  // ---------------------------------------------------------------- progress

  /** The target still has something to send that the session can take: the ICResp, a
      completion, or the data of the AuthReceive on which it has advanced. */
  predicate AnswerDue(s: Session) {
    s.stuck.NoPdu? &&
      (|| (s.phase == IcReq && s.icReqSent)
       || Outstanding(s.log) != []
       || (s.phase == Auth && (s.auth.step == Challenge || s.auth.step == Success1)))
  }

  /** What a window opening followed by a process run on an open window sends. */
  predicate Resumes(s: Session, transaction: int) {
    var open := WindowChanged(s);
    var t := Process(open, Sent, true, transaction);
    && Enabled(s, WindowOpens) && Enabled(open, ProcessRuns(Sent, true, transaction))
    && if s.phase == IcReq then t.icReqSent else t.log.Then? && t.log.before == s.log && t.log.fact.Transmitted?
  }

  /** Why a session that has not finished its setup may rightly be doing nothing. */
  predicate Explained(s: Session, transaction: int) {
    AnswerDue(s) || Resumes(s, transaction) || ReplyDue(s) || ReplyLost(s)
  }

  lemma IdleResumes(s: Session, transaction: int)
    requires !s.ended && !s.txInFlight && s.phase != IcReqIo
    requires s.phase == Auth ==> s.auth.step != Challenge && s.auth.step != Success1 && !s.auth.completed
    ensures Resumes(s, transaction)
  {
  }

  /** Neither kind of unsent Reply is resumed by the window. */
  lemma RepliesDoNotResume(s: Session, transaction: int)
    requires ReplyDue(s) || ReplyLost(s)
    ensures !Resumes(s, transaction)
  {
    assert Process(WindowChanged(s), Sent, true, transaction).log == s.log;
    if s.log.Then? { GrownLogDiffers(s.log.before); }
  }

  /** What every state reached against a FIFO target satisfies. */
  predicate Reached(s: Session) {
    OrderInv(s) && FifoInv(s) && WaitInv(s) && LeftWhenDone(s) && StuckInv(s)
  }

  lemma FifoReaches(haveSecret: bool, es: seq<Event>)
    requires FifoRunOk(Opened(haveSecret), es)
    ensures Reached(Run(Opened(haveSecret), es))
  {
    FifoEnabled(Opened(haveSecret), es);
    FifoRun(Opened(haveSecret), es);
    OrderRun(Opened(haveSecret), es);
    WaitRun(Opened(haveSecret), es);
    DoneRun(Opened(haveSecret), es);
    StuckRun(Opened(haveSecret), es);
  }

  lemma ReachedExplained(s: Session, transaction: int)
    requires Reached(s) && !s.ended && s.phase != IcReqIo
    ensures Explained(s, transaction)
  {
    if !AnswerDue(s) && !ReplyDue(s) && !ReplyLost(s) {
      hide Resumes;
      IdleResumes(s, transaction);
    }
  }

  /** No run against a FIFO target wedges the session without cause: in every state reached
      before the I/O queue is opened, the target owes an answer the session can take, or the
      next window opening puts a command on the wire, or the next delivery retries the Reply,
      or the Reply was lost. */
  lemma NeverWedged(haveSecret: bool, es: seq<Event>, transaction: int)
    requires FifoRunOk(Opened(haveSecret), es)
    ensures var s := Run(Opened(haveSecret), es);
            !s.ended && s.phase != IcReqIo ==> Explained(s, transaction)
  {
    var s := Run(Opened(haveSecret), es);
    FifoReaches(haveSecret, es);
    if !s.ended && s.phase != IcReqIo {
      hide Explained, Reached, Run, FifoRunOk;
      ReachedExplained(s, transaction);
    }
  }
}
