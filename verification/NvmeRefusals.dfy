/**
 What ends a session, what it answers, and when it goes on: exact conditions on the fields of the
 messages received, for every state.
 */
module NvmeRefusals {
  import opened NvmeSession
  import opened NvmeRuns
  import opened NvmeGenuine

  /** A DH-HMAC-CHAP_Challenge for the transaction, with a hash and a group the host implements
      and their exact lengths. */
  predicate IsChallenge(m: Message, transaction: int) {
    && m.authType == 0x01 && m.authId == 0x01 && m.tId == transaction
    && ((m.hashId == 1 && m.hl == 32) || (m.hashId == 2 && m.hl == 48) || (m.hashId == 3 && m.hl == 64))
    && ((m.dhgId == 0 && m.dhvLen == 0) || (m.dhgId == 1 && m.dhvLen == 256)
        || (m.dhgId == 2 && m.dhvLen == 384) || (m.dhgId == 3 && m.dhvLen == 512))
  }

  lemma ChallengeIsValid(m: Message, transaction: int)
    ensures ChallengeValid(m, transaction) <==> IsChallenge(m, transaction)
  {
  }

  /** A completion ends the session exactly when it reports a failure other than "authentication
      required" to a Connect that can be obeyed, or arrives where none is expected, or demands
      authentication of a session without a secret. */
  lemma CompletionEnds(s: Session, c: Completion, tx: Tx)
    requires !s.ended
    ensures ReceiveCompletion(s, c, tx).ended <==>
              if c.status != 0 then !(c.status == 0x0c && s.phase == ConnectAdmin && s.haveSecret)
              else || s.phase == IcReq || s.phase == IcReqIo
                   || (s.phase == ConnectAdmin && c.result / 0x2_0000 % 2 == 1 && !s.haveSecret)
  {
    hide RxCommand;
    CompletionFails(s.(cqe := c, log := Then(s.log, Completed(c.cid))), tx);
  }

  lemma CompletionFails(s: Session, tx: Tx)
    requires !s.ended
    ensures !RxCommand(s, tx).0.ended
    ensures RxCommand(s, tx).1 == EFatal <==>
              if s.cqe.status != 0 then !(s.cqe.status == 0x0c && s.phase == ConnectAdmin && s.haveSecret)
              else || s.phase == IcReq || s.phase == IcReqIo
                   || (s.phase == ConnectAdmin && s.cqe.result / 0x2_0000 % 2 == 1 && !s.haveSecret)
  {
    hide AuthRxComplete;
    AuthNeverFails(s.(txInFlight := false), tx);
  }

  lemma AuthNeverFails(s: Session, tx: Tx)
    ensures var (t, rc) := AuthRxComplete(s, tx); rc != EFatal && t.ended == s.ended
  {
    hide AuthTxReceiveStep;
    ReceiveNeverFails(s, Challenge, tx);
    ReceiveNeverFails(s, Success1, tx);
  }

  lemma ReceiveNeverFails(s: Session, next: AuthStep, tx: Tx)
    ensures var (t, rc) := AuthTxReceiveStep(s, next, tx); rc != EFatal && t.ended == s.ended && t.phase == s.phase
  {
  }

  /** Data ends the session exactly when it is not what the phase and step expect: a challenge, a
      success1 for this transaction, or Identify data with a usable namespace. */
  lemma DataEnds(s: Session, m: Message, prep: Prepare, tx: Tx)
    requires !s.ended
    ensures ReceiveData(s, m, prep, tx).ended <==>
              match s.phase
              case Auth =>
                (match s.auth.step
                 case Challenge => !IsChallenge(m, s.auth.transaction) || prep == PrepareFailed
                 case Success1 => !IsSuccess1(m, s.auth.transaction, s.auth.hl)
                 case _ => true)
              case IdentifyCtrl => false
              case IdentifyNs => !m.namespaceOk
              case _ => true
  {
    hide RxData;
    DataFails(s.(buf := m), prep, tx);
  }

  lemma DataFails(s: Session, prep: Prepare, tx: Tx)
    requires !s.ended
    ensures !RxData(s, prep, tx).0.ended
    ensures RxData(s, prep, tx).1 == EFatal <==>
              match s.phase
              case Auth => AuthRefuses(s, prep)
              case IdentifyCtrl => false
              case IdentifyNs => !s.buf.namespaceOk
              case _ => true
  {
    hide AuthRxData, IsChallenge;
    AuthDataFails(s.(txInFlight := false), prep, tx);
  }

  /** Authentication data that is refused. */
  predicate AuthRefuses(s: Session, prep: Prepare) {
    match s.auth.step
    case Challenge => !IsChallenge(s.buf, s.auth.transaction) || prep == PrepareFailed
    case Success1 => !IsSuccess1(s.buf, s.auth.transaction, s.auth.hl)
    case _ => true
  }

  lemma AuthDataFails(s: Session, prep: Prepare, tx: Tx)
    requires !s.ended
    ensures var (t, rc) := AuthRxData(s, prep, tx);
            !t.ended && (rc == EFatal <==> AuthRefuses(s, prep))
  {
    ChallengeIsValid(s.buf, s.auth.transaction);
    hide TxCommand, ChallengeValid, IsChallenge;
    var s1 := s.(auth := s.auth.(hl := s.buf.hl));
    TxNeverFails(s1.(buf := ReplyMessage(s1.auth.transaction, s1.auth.hl)), Reply, tx);
  }

  lemma TxNeverFails(s: Session, kind: Kind, tx: Tx)
    ensures var (t, rc) := TxCommand(s, kind, tx); rc != EFatal && t.ended == s.ended && t.phase == s.phase
  {
  }

  /** The process run has something to send. */
  predicate Sends(s: Session) {
    match s.phase
    case IcReqIo => false
    case Auth =>
      (match s.auth.step
       case Start => !s.auth.completed
       case CompleteNegotiate => !s.txInFlight
       case CompleteReply => !s.txInFlight
       case _ => false)
    case _ => true
  }

  /** A process run with something to send stops the process when it was sent, to await the
      answer, and when the window is closed, to await its opening; without memory it stays
      scheduled.  It ends the session only for want of a random transaction identifier. */
  lemma ProcessStops(s: Session, tx: Tx, rng: bool, transaction: int)
    requires !s.ended && s.running
    ensures var t := Process(s, tx, rng, transaction);
            && (t.ended <==> s.phase == Auth && s.auth.step == Start && !s.auth.completed && !rng)
            && (!t.ended ==> (t.running <==> !Sends(s) || tx == OutOfMemory))
            && (!t.ended && Sends(s) && tx == Sent ==> t.txInFlight)
  {
    hide TxCommand, AuthTxReceiveStep;
    CommandStops(s, Connect, tx);
    CommandStops(s, PropertySet, tx);
    CommandStops(s, IdentifyController, tx);
    CommandStops(s, IdentifyNamespace, tx);
    CommandStops(s.(auth := s.auth.(transaction := transaction, step := CompleteNegotiate)), Negotiate, tx);
    ReceiveStops(s, Challenge, tx);
    ReceiveStops(s, Success1, tx);
  }

  lemma CommandStops(s: Session, kind: Kind, tx: Tx)
    ensures var (t, rc) := TxCommand(s, kind, tx);
            && rc == TxRc(tx) && t.ended == s.ended
            && (if tx == Sent then !t.running && t.txInFlight else t.running == s.running)
  {
  }

  lemma ReceiveStops(s: Session, next: AuthStep, tx: Tx)
    ensures var (t, rc) := AuthTxReceiveStep(s, next, tx);
            && rc == TxRc(tx) && t.ended == s.ended
            && (if tx == Sent then !t.running && t.txInFlight else t.running == s.running)
  {
    hide TxCommand;
    CommandStops(SetStep(s, next), if next == Challenge then ReceiveChallenge else ReceiveSuccess1, tx);
  }

  /** A handled PDU that moves the session on schedules the process for the next command. */
  lemma MovingOnSchedules(s: Session, e: Event)
    requires Enabled(s, e) && Next(s, e).phase != s.phase && !Next(s, e).ended && !e.ProcessRuns?
    ensures Next(s, e).running
  {
    hide RxCommand, RxData;
    match e
    case CompletionArrives(cqe, tx) => MovesOn(s.(cqe := cqe, log := Then(s.log, Completed(cqe.cid))), Prepared, tx);
    case DataArrives(msg, prep, tx) => MovesOn(s.(buf := msg), prep, tx);
    case StuckPduRetried(prep, tx) => MovesOn(s, prep, tx);
    case _ =>
  }

  lemma MovesOn(s: Session, prep: Prepare, tx: Tx)
    ensures RxCommand(s, tx).0.phase != s.phase ==> RxCommand(s, tx).0.running
    ensures RxData(s, prep, tx).0.phase != s.phase ==> RxData(s, prep, tx).0.running
  {
    hide AuthRxComplete, AuthRxData, Advanced;
    AdvancedAuthRxComplete(s.(txInFlight := false), tx);
    AdvancedAuthRxData(s.(txInFlight := false), prep, tx);
  }

  /** The event transmits a Reply. */
  predicate Replies(s: Session, e: Event) {
    var t := Next(s, e);
    t.log != s.log && t.log.Then? && t.log.fact.Transmitted? && t.log.fact.cmd.kind == Reply
  }

  /** A Reply is transmitted only to a challenge, just received or waiting in the parser. */
  lemma RepliesToChallenge(s: Session, e: Event)
    requires Enabled(s, e) && Replies(s, e)
    ensures match e
            case DataArrives(m, _, _) => IsChallenge(m, s.auth.transaction)
            case StuckPduRetried(_, _) => IsChallenge(s.buf, s.auth.transaction)
            case _ => false
  {
    hide RxCommand, RxData, Process, IsChallenge, Handled;
    match e
    case DataArrives(m, prep, tx) =>
      DataReplies(s.(buf := m), prep, tx);
      HandledLog(RxData(s.(buf := m), prep, tx), StuckData);
    case StuckPduRetried(prep, tx) =>
      DataReplies(s, prep, tx);
      CompletionReplies(s, tx);
      HandledLog(RxData(s, prep, tx), StuckData);
      HandledLog(RxCommand(s, tx), StuckCompletion);
    case CompletionArrives(cqe, tx) =>
      var s1 := s.(cqe := cqe, log := Then(s.log, Completed(cqe.cid)));
      CompletionReplies(s1, tx);
      HandledLog(RxCommand(s1, tx), StuckCompletion);
    case ProcessRuns(tx, rng, transaction) => ProcessReplies(s, tx, rng, transaction);
    case _ =>
  }

  /** Something else was logged, or nothing. */
  predicate Silent(s: Session, t: Session) {
    t.log == s.log || !(t.log.Then? && t.log.fact.Transmitted? && t.log.fact.cmd.kind == Reply)
  }

  lemma CommandSilent(s: Session, kind: Kind, tx: Tx)
    ensures var t := TxCommand(s, kind, tx).0;
            (kind != Reply ==> Silent(s, t)) && (tx != Sent ==> t.log == s.log)
  {
  }

  lemma ReceiveSilent(s: Session, next: AuthStep, tx: Tx)
    ensures Silent(s, AuthTxReceiveStep(s, next, tx).0)
  {
    hide TxCommand;
    CommandSilent(SetStep(s, next), if next == Challenge then ReceiveChallenge else ReceiveSuccess1, tx);
  }

  lemma FinishSilent(s: Session, r: (Session, Rc))
    requires Silent(s, r.0)
    ensures Silent(s, AuthFinish(r).0)
  {
  }

  lemma AuthCompletionSilent(s: Session, tx: Tx)
    ensures Silent(s, AuthRxComplete(s, tx).0)
  {
    hide AuthTxReceiveStep;
    ReceiveSilent(s, Challenge, tx);
    ReceiveSilent(s, Success1, tx);
  }

  lemma CompletionReplies(s: Session, tx: Tx)
    ensures Silent(s, RxCommand(s, tx).0)
  {
    hide AuthRxComplete, AuthFinish;
    var s0 := s.(txInFlight := false);
    AuthCompletionSilent(s0, tx);
    FinishSilent(s0, AuthRxComplete(s0, tx));
  }

  lemma AuthDataReplies(s: Session, prep: Prepare, tx: Tx)
    ensures IsChallenge(s.buf, s.auth.transaction) || Silent(s, AuthRxData(s, prep, tx).0)
  {
    ChallengeIsValid(s.buf, s.auth.transaction);
    hide TxCommand, ChallengeValid, IsChallenge;
  }

  lemma DataReplies(s: Session, prep: Prepare, tx: Tx)
    ensures IsChallenge(s.buf, s.auth.transaction) || Silent(s, RxData(s, prep, tx).0)
  {
    hide AuthRxData, AuthFinish, IsChallenge;
    var s0 := s.(txInFlight := false);
    AuthDataReplies(s0, prep, tx);
    if !IsChallenge(s.buf, s.auth.transaction) { FinishSilent(s0, AuthRxData(s0, prep, tx)); }
  }

  lemma AuthStepReplies(s: Session, tx: Tx, rng: bool, transaction: int)
    ensures Silent(s, AuthStepOnce(s, tx, rng, transaction).0)
  {
    hide TxCommand, AuthTxReceiveStep;
    CommandSilent(s.(auth := s.auth.(transaction := transaction, step := CompleteNegotiate)), Negotiate, tx);
    ReceiveSilent(s, Challenge, tx);
    ReceiveSilent(s, Success1, tx);
  }

  lemma StepReplies(s: Session, tx: Tx, rng: bool, transaction: int)
    ensures Silent(s, StepOnce(s, tx, rng, transaction).0)
  {
    hide TxCommand, AuthStepOnce;
    match s.phase
    case ConnectAdmin => CommandSilent(s, Connect, tx);
    case PropSet => CommandSilent(s, PropertySet, tx);
    case Auth => AuthStepReplies(s, tx, rng, transaction);
    case IdentifyCtrl => CommandSilent(s, IdentifyController, tx);
    case IdentifyNs => CommandSilent(s, IdentifyNamespace, tx);
    case _ =>
  }

  lemma ProcessReplies(s: Session, tx: Tx, rng: bool, transaction: int)
    ensures Silent(s, Process(s, tx, rng, transaction))
  {
    StepReplies(s, tx, rng, transaction);
    hide StepOnce;
  }

  lemma HandledLog(r: (Session, Rc), pdu: Stuck)
    ensures Handled(r, pdu).log == r.0.log
  {
  }
}
