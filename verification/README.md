# Verified model of the NVMe/TCP boot path

This project models the parts of the boot firmware that have to be right for a disk to be
reached over the network, and proves what they keep over whole runs:

- the TLS 1.3 pre-shared-key connection (`Tls13*.dfy`): hello messages, key schedule, record
  protection, the phase machine between the plaintext consumer and the socket, and an honest
  server to run it against;
- the NVMe/TCP session with its DH-HMAC-CHAP authentication (`NvmeSession`, `NvmeDriver`,
  `NvmeRuns`, `NvmeGenuine`, `NvmeDemand`, `NvmeRefusals`, `NvmeProgress`, `NvmeNegotiate`,
  `NvmeTarget`, `NvmeCompletes`), its PDU receiver (`NvmeFraming`, `NvmeWire`) and the two joined
  (`NvmeStack`);
- the TLS 1.2 record engine (`Tls12Send`, `Tls12Receive`, `Tls12Exchange`, `Tls12Sound`): records
  built in place over their own plaintext, rotated receive buffers, and the two joined end to end;
- the boot URI's query scan (`UriQuery`), the checksummed option block in its EFI variable
  (`StoredOptions`) and the NIC's receive ring (`ReceiveRing`).

## How it is built

Code that updates fields or buffers is a class or an array method. Each such method is proved
equal to a function of its old state (`View() == Spec(old(View()))`), and the whole-run theorems
are lemmas about those functions over arbitrary sequences of events; `Drive` methods run the
objects through such sequences. Histories (what was transmitted, sealed, delivered, notified) are
append-only lists carried in the state.

What is on the wire is also written out independently of the functions that build and read it:
byte by byte in `Tls13Wire`, `NvmeWire` and `Tls12Sound`, and over the bare primitives in
`Tls13Reference`. Both directions are stated, what is accepted and that everything else is refused.

Cryptography is a record of functions given to the model. Its laws (decryption inverts
encryption, key agreement is symmetric, output lengths) are preconditions, never axioms, and are
shown to be satisfiable (`LawsSatisfiable`, `CipherLawsSatisfiable`). That the runs quantified over
include complete ones is itself proved (`EveryServerCompletes`, `CompletableUnlessLost`).

Transmission outcomes (sent, window closed, no memory), random numbers, window values and the
peer's bytes are parameters of the events, so a theorem over all events covers all of them.

What each family of theorems takes for granted:

- NVMe/TCP: one ICResp per connection; a fatal return ends the run. The exit gate takes a target
  that completes only identifiers it was sent, fewer than 65536 of them. "Property Set is never
  skipped" and "never wedged" take a target that completes commands in submission order, one each.
- A handler that fails with EAGAIN or ENOMEM leaves its PDU in the parser; the next delivery runs
  it again before consuming anything, and the rest of the failing segment is lost. The runs
  include these retries and losses, and the byte-level theorem records a loss for every complete
  Response in the dropped bytes. A segment dropped inside a PDU leaves the stream out of step, and
  the completions read from it are then judged as they are read.
- Whether setup can be completed is asked of a FIFO target that challenges only after a Negotiate and
  accepts only after a Reply.
- TLS 1.3: the honest server speaks only after the ClientHello has been handed to the socket, keeps
  RFC 8446 order, puts each handshake message inside one record, does not pad, and sends records of
  at most R bytes in deliveries of at most 8214 - R + 1. Nonce uniqueness, record reassembly and the
  wake-up theorem hold against any peer.

Where the code does not meet a property, the exact condition under which it does is a theorem:

- `tls13_client_hello` guards its buffer with 153 + identity_len bytes but writes 157 (`GuardGap`,
  `BuildClientHello`): four identity lengths pass the guard and do not fit.
- Its extensions length field wraps for identities of 65426 bytes and more (`ReadBackExact`); the
  512-byte caller never gets there.
- Submitting plaintext while a record is pending overwrites that record: the peer reads what was
  submitted if and only if the slot was empty (`FidelityNeedsEmptySlot`), which a non-zero plaintext
  window guarantees. Buffers of 65519 bytes and more wrap the record length (`PeerReadsScript`).
- The handshake loop checks no order between ServerHello and Finished: the application secrets come
  from the pre-shared key if and only if a ServerHello was accepted before the Finished
  (`SecretsFromPsk`, `FinishedBeforeHello`), which need not happen (`KeylessIsReachable`).
- A DH-HMAC-CHAP Reply that finds the window closed is lost, because it was built over the challenge
  it answers (`ReplySentOrLost`, `ReplyLostForever`, `LostIsReachable`). The comments on deferred sends
  describe only AuthReceive.
- A Negotiate that finds the window closed is skipped, and the AuthReceive for its challenge is sent
  all the same (`NegotiateFirstIffSent`, `DeferredNegotiateSkipped`); a target that was never asked
  has no challenge to give (`NegotiateLostForever`, `NegotiateLossIsReachable`).
- Setup can be completed if and only if neither of these two happened (`CompletableUnlessLost`).
- Loading a stored block of one byte looks at the byte behind it if and only if that byte is zero
  (`Startup`); the outcome is empty either way.

## Model

| member | source | states |
|---|---|---|
| Tls13Agreement.HandshakeAgreement | reference/src/net/tls13.c:384-465 | against an honest server, for every cutting of its complete flight and ChangeCipherSpec anywhere, both sides hold the same secrets, transcript, receive key and counter; the client is in DATA, or waits only for the socket's window; the Finished it hands down is the one the server computes |
| Tls13Agreement.StreamFidelity | reference/src/net/tls13.c:561-610 | at any moment of a run the server state is the one after a first part of its items, the consumer has been given exactly the payloads of that part and counters are in lockstep across key changes; the peer's in-order decryption of what was handed down is exactly the submitted buffers, each once and after Finished, if and only if each fits the record length field |
| Tls13Agreement.FidelityNeedsEmptySlot | reference/src/net/tls13.c:710-730 | in any run against an honest server, after a further submission the peer reads exactly what was submitted if and only if no record was pending (and every buffer fits the length field) |
| Tls13Completes.PendingIsReachable | reference/src/net/tls13.c:710-730 | such a run can have a record pending in DATA |
| Tls13Agreement.PeerReadsScript | reference/src/net/tls13.c:201-230 | the peer's in-order reading of the prescribed records recovers the submitted buffers exactly when each fits the length field |
| Tls13Keys.SecretsFromPsk | reference/src/net/tls13.c:430-465 | against any peer, a connection past its handshake holds application secrets of the pre-shared key's schedule if and only if a ServerHello was accepted before the Finished; otherwise its master secret is a constant that depends on no key (the if-and-only-if supposes that constant is not one of the schedule by coincidence) |
| Tls13Keys.FinishedBeforeHello | reference/src/net/tls13.c:475-530 | before any ServerHello a Finished is accepted exactly when it was computed with the cleared secret |
| Tls13Keys.KeylessIsReachable | reference/src/net/tls13.c:505-515 | that case occurs: such a Finished alone, right after the ClientHello, takes the connection past its handshake with no ServerHello accepted |
| Tls13Reference.ServerAuthenticated | reference/src/net/tls13.c:430-465 | against any peer and in every run the connection holds exactly the secrets that RFC 8446 prescribes for the messages it accepted, every Finished it accepted carried the HMAC of the transcript before it under the server handshake secret, every ServerHello was acceptable, and it is past its handshake only after such a Finished |
| Tls13Reference.FinishedExactly | reference/src/net/tls13.c:430-465 | in every state a Finished message is accepted exactly when it has 36 bytes ending in that HMAC and fits the transcript |
| Tls13Reference.HelloExactly | reference/src/net/tls13.c:384-420 | in every state a ServerHello is accepted exactly when it is for TLS 1.3, the one cipher suite, a key share that agrees and the pre-shared key, and fits the transcript |
| Tls13Reference.OthersExactly | reference/src/net/tls13.c:500-525 | EncryptedExtensions only extend the transcript, tickets change nothing, every other type is refused |
| Tls13Reference.FragmentRefused | reference/src/net/tls13.c:485-493 | a message that goes beyond its record is refused |
| Tls13Reference.RecordExactly | reference/src/net/tls13.c:561-610 | what every record does, by its outer type and decrypted contents: ignored, read as handshake, delivered, or refused |
| Tls13Reference.OversizeFails | reference/src/net/tls13.c:620-630 | a record longer than the buffer and a delivery that does not fit it fail the connection and do nothing else |
| Tls13Reference.WindowExactly | reference/src/net/tls13.c:690-730 | the plaintext window is the socket's exactly in DATA with nothing pending, and a submission outside DATA changes nothing |
| Tls13Reference.WindowSends | reference/src/net/tls13.c:679-682 | an open window reported by the socket takes the pending record at once |
| Tls13Reference.ScheduleIs | reference/src/net/tls.c:85-224 | the handshake secrets written out over the primitives, with every label byte by byte |
| Tls13Reference.ApplicationIs | reference/src/net/tls.c:213-224 | the same of the master and application secrets |
| Tls13Reference.KeysAre | reference/src/net/tls.c:236-302 | the same of traffic keys, Finished and binder |
| Tls13Reference.ProtectedOnWire | reference/src/net/tls13.c:201-230 | the bytes of a protected record, and that its header is its additional data |
| Tls13Reference.FinishedOnWire | reference/src/net/tls13.c:325-336 | the bytes of the client Finished |
| Tls13Completes.HandshakeCompletes | reference/src/net/tls13.c:305-465 | over a socket that keeps its window open, every cutting of a complete flight brings the client to DATA with the server's secrets, all payloads delivered and a Finished the server accepts |
| Tls13Completes.EveryServerCompletes | reference/src/net/tls13.c:384-465 | for every lawful suite, identity that fits and server key there is such a flight, which completes even one byte at a time |
| Tls13Agreement.PositiveWindowPermits | reference/src/net/tls13.c:690-700 | a consumer that submits only into a non-zero plaintext window never overwrites a pending record |
| Tls13Agreement.RunSyncs | reference/src/net/tls13.c:617-672 | every run against an honest server keeps client and server in step, never fails, and leaves only the unfinished prefix of the next record in the buffer |
| Tls13Agreement.RecordSyncs | reference/src/net/tls13.c:633-645 | one honest record, with the transmit routine run after it, is accepted and keeps both sides in step |
| Tls13Agreement.TxSettles | reference/src/net/tls13.c:305-374 | after the transmit routine nothing is pending on an open window, Finished is never left unbuilt, and the outgoing records are those prescribed |
| Tls13Peer.EmitInSync | reference/src/net/tls13.c:475-610 | every record an honest server may send next is accepted, delivers exactly its payload, and keeps transcript, secrets, key and sequence number equal |
| Tls13Peer.HelloInSync | reference/src/net/tls13.c:384-420 | an acceptable ServerHello gives the client the secrets the server derives from the share it read out of the ClientHello |
| Tls13Peer.FinishedInSync | reference/src/net/tls13.c:430-465 | the server's own Finished verifies, and both sides then hold the same application secrets |
| Tls13Peer.SharedAgrees | reference/src/net/tls.c:855-870 | the client's and the server's computation of the shared secret coincide |
| Tls13Peer.WrapOpens | reference/src/net/tls13.c:583-594 | a record protected under the server's current key and number opens at the client |
| Tls13Runs.NoncesNeverReused | reference/src/net/tls13.c:221-228 | in every run with fewer than 2^64 records per epoch no nonce is used twice in an epoch, and every epoch uses one IV and the numbers 0, 1, 2, ... in order |
| Tls13Runs.InstallKeeps | reference/src/net/tls13.c:357-360 | every transmit key installation opens a fresh epoch numbered from zero |
| Tls13Runs.RecordsIgnoreChunking | reference/src/net/tls13.c:617-646 | the records processed and the bytes kept depend only on the byte stream, not on its cutting nor on window events and submissions in between |
| Tls13Runs.OverflowNeverFires | reference/src/net/tls13.c:656-667 | with records of at most R bytes and a delivery of at most 8214 - R + 1 the overflow failure cannot fire |
| Tls13Runs.NoLostWakeUp | reference/src/net/tls13.c:364-373 | whenever the plaintext window is closed at one moment of a run and open at a later one, the consumer was notified of an open window in between |
| Tls13Crypto.NonceInjective | reference/src/net/tls.c:604-616 | for any IV, sequence numbers below 2^64 give distinct nonces |
| Tls13Crypto.MakeNonce | reference/src/net/tls.c:604-616 | the byte loop computes the IV combined with the big-endian sequence number |
| Tls13Crypto.NonceMeaning | reference/src/net/tls.c:591-616 | over the zero IV the twelve bytes read as one big-endian number are the sequence number, every byte of a nonce is the IV's combined with that number's, and record zero uses the IV itself |
| Bytes.XorBit | reference/src/net/tls.c:612-615 | the combination acts on every bit |
| Bytes.NetworkOrder | reference/src/net/tls.c:488-490 | two- and three-byte fields are big-endian |
| Tls13Crypto.HkdfLabelInjective | reference/src/net/tls.c:85-111 | the label encoding is injective in length, label and context |
| Tls13Crypto.OpenSealed | reference/src/net/tls.c:638-745 | opening inverts sealing under the same keys, number and header, and the length grows by 17 |
| Tls13Crypto.OpenExactly | reference/src/net/tls.c:693-745 | a record opens to data and a type exactly when it has at least 17 bytes and decrypts to the data followed by the type |
| Tls13Hello.ParseServerHello | reference/src/net/tls.c:474-582 | for every byte string the parser terminates inside the message and returns what the recursive grammar prescribes, including failure |
| Tls13Hello.ReadExtensions | reference/src/net/tls.c:526-579 | the extension loop refines the recursive reading of the same bytes |
| Tls13Hello.ReadExtsFrom | reference/src/net/tls.c:526-579 | that reading accepts exactly the well-formed lists of acceptable extensions and keeps the last of each kind |
| Tls13Hello.ParseEncodedServerHello | reference/src/net/tls.c:474-582 | parsing inverts encoding for any extension order and any unknown extensions |
| Tls13Hello.ParseEncodedExts | reference/src/net/tls.c:526-579 | the extension grammar inverts the extension encoder |
| Tls13Wire.HelloSound | reference/src/net/tls.c:474-582 | whatever is read as a ServerHello is one byte for byte, with proper extensions, and is read as what the last of each kind says: every other byte string is refused |
| Tls13Wire.HelloComplete | reference/src/net/tls.c:474-582 | every ServerHello written byte by byte, in any extension order, with unknown extensions and trailing bytes, is read as what it says, and refused exactly when a known extension is improper |
| Tls13Hello.ClientHelloReadBack | reference/src/net/tls.c:324-460 | the message has 157 + identity_len bytes, all nested lengths agree, a strict server reading recovers random, key share and identity with pre_shared_key last, and the binder covers exactly the bytes before the binders |
| Tls13Wire.ClientHelloOnWire | reference/src/net/tls.c:324-460 | the ClientHello byte by byte, with its binder |
| Tls13Wire.FirstRecord | reference/src/net/tls13.c:238-282 | over an open socket the first bytes sent are one plaintext record with that message for this connection's own random, share and identity |
| Tls13Hello.ReadBackExact | reference/src/net/tls.c:438-447 | the message can be read back if and only if the extensions length fits its field |
| Tls13Hello.BuildClientHello | reference/src/net/tls.c:324-460 | writing the draft and patching its four length fields in place yields that message, or nothing when the guard refuses, and touches no byte after it; it stays inside the buffer it was told of except for the four sizes of the gap |
| Tls13Hello.GuardGap | reference/src/net/tls.c:331-366 | the guard admits a buffer the message does not fit in exactly for 153 + n <= size < 157 + n |
| Tls13Conn.TxKeepsRx | reference/src/net/tls13.c:305-374 | the transmit routine leaves receive state, secrets and delivered data alone |
| Tls13Client.Connection | reference/src/net/tls13.c:797-865 | a fresh connection object under any sequence of events never reuses a nonce, and unless it failed has handled exactly the records of the bytes received |
| Tls13Client.Tls13Psk.Drive | reference/src/net/tls13.c:617-730 | the object under any sequence of events behaves as the run of the state machine |
| Tls13Client.Tls13Psk.constructor | reference/src/net/tls13.c:797-865 | a new connection has built its ClientHello and handed it down if the window allowed |
| Tls13Client.Tls13Psk.CipherRecord | reference/src/net/tls13.c:201-230 | builds the protected record under the current key and number, and numbers the next |
| Tls13Client.Tls13Psk.BuildRecord | reference/src/net/tls13.c:315-347 | builds the ClientHello or Finished record that is due |
| Tls13Client.Tls13Psk.Transmit | reference/src/net/tls13.c:305-374 | the whole transmit routine, ending in a window notification |
| Tls13Client.Tls13Psk.HandleServerHello | reference/src/net/tls13.c:384-420 | refines the ServerHello step, failing exactly where it does |
| Tls13Client.Tls13Psk.HandleMessages | reference/src/net/tls13.c:475-530 | the message loop refines the recursive reading of the record's messages |
| Tls13Client.Tls13Psk.HandleRecord | reference/src/net/tls13.c:561-610 | refines the record step |
| Tls13Client.Tls13Psk.DropFront | reference/src/net/tls13.c:638-639 | moving the buffer down keeps exactly the bytes after the record |
| Tls13Client.Tls13Psk.Receive | reference/src/net/tls13.c:617-646 | the loop over the in-place buffer refines the recursive consumption of records |
| Tls13Client.Tls13Psk.CipherstreamDeliver | reference/src/net/tls13.c:656-672 | a delivery is appended and processed, or fails the connection when it does not fit |
| Tls13Client.Tls13Psk.CipherstreamWindow | reference/src/net/tls13.c:679-682 | a window change runs the transmit routine |
| Tls13Client.Tls13Psk.PlainstreamDeliver | reference/src/net/tls13.c:710-730 | plaintext is sealed and transmitted in DATA and refused otherwise |
| NvmeRuns.PropertySetNeverSkipped | reference/src/net/tcp/nvmetcp.c:675-721 | against a FIFO target, under any deferrals, retries and losses and either order of Success1 data and completion, nothing is outstanding when PROP_SET is entered and only Property Set's own completion leaves it |
| NvmeRuns.AuthenticationExitGate | reference/src/net/tcp/nvmetcp_auth.c:652-780 | AUTH is left only after a Success1 was validated and a completion with the final AuthReceive's identifier was consumed, both after that command was sent |
| NvmeGenuine.Success1WasGenuine | reference/src/net/tcp/nvmetcp_auth.c:652-679 | whatever the target sends, a session that was asked to authenticate and has gone beyond AUTH validated a Success1 with its own transaction identifier and hash length after the final AuthReceive |
| NvmeDemand.DemandObeyed | reference/src/net/tcp/nvmetcp.c:648-690 | against any target and in every run, by the first completion received: if its status is 0x0c or bit 17 of its result is set, the session holds a secret and is in AUTH or has validated a Success1 of its own transaction; otherwise it never entered AUTH |
| NvmeRefusals.CompletionEnds | reference/src/net/tcp/nvmetcp.c:640-744 | the exact condition under which a completion ends the session |
| NvmeRefusals.DataEnds | reference/src/net/tcp/nvmetcp.c:752-803 | the exact condition under which data ends the session, field by field |
| NvmeRefusals.RepliesToChallenge | reference/src/net/tcp/nvmetcp_auth.c:583-644 | a Reply is transmitted only to a challenge for this transaction with a hash and group the host has and their exact lengths |
| NvmeRefusals.ProcessStops | reference/src/net/tcp/nvmetcp.c:1074-1090 | a process run stops after sending and on a closed window, stays scheduled for want of memory, and ends the session only for want of a random number |
| NvmeRefusals.MovingOnSchedules | reference/src/net/tcp/nvmetcp.c:675-720 | a handled PDU that moves the session on schedules the process |
| NvmeRuns.FifoIsHonest | reference/src/net/tcp/nvmetcp.c:640-744 | a target that completes in order completes only what it was sent |
| NvmeRuns.StepsOnlyAdvance | reference/src/net/tcp/nvmetcp_auth.c:399-415 | neither the authentication step nor the session phase goes backwards in any run |
| NvmeRuns.CommandsInProtocolOrder | reference/src/net/tcp/nvmetcp_auth.c:703-809 | commands reach the wire in protocol order: Negotiate, Reply and Property Set at most once, AuthReceive at most once per step |
| NvmeRuns.OrderNext | reference/src/net/tcp/nvmetcp.c:1030-1090 | every event keeps the ordering invariant |
| NvmeRuns.GateNext | reference/src/net/tcp/nvmetcp_auth.c:745-780 | every event keeps the exit-gate invariant |
| NvmeRuns.FifoNext | reference/src/net/tcp/nvmetcp.c:640-803 | every event keeps the outstanding-command invariant |
| NvmeDriver.Session | reference/src/net/tcp/nvmetcp.c:1030-1090 | a fresh session object under any FIFO history sends its commands in protocol order, obeys the answer to Connect, leaves AUTH only through its gate and after a Success1 of its own transaction, never skips Property Set and is never wedged without cause |
| NvmeDriver.Nvmetcp.Drive | reference/src/net/tcp/nvmetcp.c:640-803 | the object under any sequence of events behaves as the run of the state machine |
| NvmeStack.ByteStreamsAreSafe | reference/src/net/tcp/nvmetcp.c:940-995 | for every history of received bytes, process runs and window openings, commands leave in protocol order; with a target that completes only what it was sent the exit gate holds; with one that completes in order, counting the completions dropped behind a deferred PDU, Property Set is never skipped |
| NvmeStack.AdminQueue | reference/src/net/tcp/nvmetcp.c:940-995 | the same of the receiver object on its header and payload buffers |
| NvmeStack.LostAreTheResponses | reference/src/net/tcp/nvmetcp.c:992-994 | the completions counted as dropped are exactly those of the Responses in the bytes freed with the segment, in order |
| NvmeStack.LossesAreLogged | reference/src/net/tcp/nvmetcp.c:992-994 | and each is recorded once, in order |
| NvmeStack.InputsAgree | reference/src/net/tcp/nvmetcp.c:978-991 | in every history the parser holds a complete PDU exactly while the session has one stuck |
| NvmeCompletes.CompletableUnlessLost | reference/src/net/tcp/nvmetcp_auth.c:703-809 | from every state reached against a FIFO target that answers only what it was asked, with eight identifiers left, a continuation against such a target opens the I/O queue if and only if no Reply was lost and no Negotiate is missing behind the session |
| NvmeTarget.NegotiateLostForever | reference/src/net/tcp/nvmetcp_auth.c:703-731 | without a transmitted Negotiate the session never leaves AUTH, never transmits one and never gets beyond the AuthReceive for the challenge, in any run against such a target |
| NvmeTarget.AskNext | reference/src/net/tcp/nvmetcp_auth.c:788-809 | every event of such a target keeps the invariant that later steps follow a transmitted Negotiate and Reply |
| NvmeCompletes.NegotiateLossIsReachable | reference/src/net/tcp/nvmetcp_auth.c:716-722 | a window that is closed as authentication starts loses the Negotiate |
| NvmeCompletes.LostIsReachable | reference/src/net/tcp/nvmetcp_auth.c:468-537 | a window that closes as the challenge arrives loses the Reply |
| NvmeProgress.ReplySentOrLost | reference/src/net/tcp/nvmetcp_auth.c:583-644 | the Reply to a valid challenge reaches the wire if and only if it was prepared and the socket took it; prepared and not taken, it is lost |
| NvmeProgress.ReplyLostForever | reference/src/net/tcp/nvmetcp_auth.c:788-809 | after that nothing more reaches the wire in any run, AUTH is never left, and the next delivery ends the session |
| NvmeProgress.ReplyDueRetries | reference/src/net/tcp/nvmetcp_auth.c:583-644 | a Reply that only waited for memory goes out with the next delivery |
| NvmeProgress.RepliesDoNotResume | reference/src/net/tcp/nvmetcp_auth.c:703-737 | a window opening resumes neither |
| NvmeProgress.NeverWedged | reference/src/net/tcp/nvmetcp.c:1097-1109 | in every state reached before the I/O queue, the target owes an answer the session can take, or the next window opening puts a command on the wire, or the next delivery retries the Reply, or the Reply was lost |
| NvmeNegotiate.NegotiateFirstIffSent | reference/src/net/tcp/nvmetcp_auth.c:703-722 | on every run an AuthReceive for the challenge is preceded by Negotiate if and only if the socket took the send made on leaving START |
| NvmeNegotiate.DeferredNegotiateSkipped | reference/src/net/tcp/nvmetcp_auth.c:716-731 | when it did not, the next window opening sends that AuthReceive without a Negotiate |
| NvmeProgress.WaitNext | reference/src/net/tcp/nvmetcp.c:1099-1105 | the in-flight flag, which holds back resumption, is raised only while the target owes an answer |
| NvmeProgress.DoneNext | reference/src/net/tcp/nvmetcp_auth.c:690-695 | AUTH is left as soon as both halves of the gate are in |
| NvmeFraming.SegmentationIrrelevant | reference/src/net/tcp/nvmetcp.c:940-995 | for every session behind the parser, as long as it defers nothing, however the stream is cut it gets the same PDUs with the same headers and payloads and the same unfinished prefix is kept |
| NvmeFraming.ParseInvertsEncoding | reference/src/net/tcp/nvmetcp.c:490-572 | the one-shot parser inverts the encoding of every accepted sequence of controller PDUs |
| NvmeWire.DataDispatched | reference/src/net/tcp/nvmetcp.c:538-556 | a C2HData PDU written byte by byte in little-endian order is dispatched with exactly its payload, for every payload of at most 4096 bytes, offset, session and continuation |
| NvmeWire.DataRefused | reference/src/net/tcp/nvmetcp.c:538-556 | such a header is refused exactly when it announces less than itself, more than 4096 bytes, or another offset |
| NvmeWire.ResponseDispatched | reference/src/net/tcp/nvmetcp.c:531-537 | a Response written byte by byte reaches the session with exactly its identifier, status and result |
| NvmeWire.IcRespChecked | reference/src/net/tcp/nvmetcp.c:504-530 | an ICResp is accepted exactly when its format version is zero |
| NvmeWire.ForeignRefused | reference/src/net/tcp/nvmetcp.c:440-475 | nothing but ICResp, Response, C2HData and R2T is ever dispatched |
| NvmeFraming.ParseAppend | reference/src/net/tcp/nvmetcp.c:940-995 | parsing a concatenation carries on the parse of its first part, unless that deferred a PDU, which drops what follows |
| NvmeFraming.ParseSettles | reference/src/net/tcp/nvmetcp.c:940-995 | what is kept contains no complete PDU, unless it was deferred |
| NvmeFraming.Receiver.Deliver | reference/src/net/tcp/nvmetcp.c:940-995 | the incremental receiver, on its header and payload buffers, computes the one-shot parse of held plus received bytes, dispatching a deferred PDU again first |
| NvmeFraming.Receiver.PduComplete | reference/src/net/tcp/nvmetcp.c:580-614 | dispatching leaves the receiver ready for the next PDU, holding the deferred one, or failed |
| NvmeFraming.Receiver.HeaderBytes | reference/src/net/tcp/nvmetcp.c:955-976 | header bytes: the type fixes the header length at eight bytes, a complete header is checked and dispatched when no payload follows |
| NvmeFraming.Receiver.DataBytes | reference/src/net/tcp/nvmetcp.c:978-991 | payload bytes: the PDU is dispatched with its last byte |
| Tls12Send.SendRecord | reference/src/net/tls.c:4337-4473 | in place, for every payload length and suite, the buffer ends up holding exactly the records of the original plaintext, starting at the reserved headroom |
| Tls12Send.BuildRecord | reference/src/net/tls.c:4371-4456 | one record is built over its plaintext with ciphertext <= plaintext, and the plaintext after it is untouched |
| Tls12Send.NextRecord | reference/src/net/tls.c:4371-4456 | each turn keeps enough headroom for the rest |
| Tls12Send.EncryptDown | reference/src/net/tls.c:4427-4449 | moving down, appending MAC and padding and encrypting in place equals encrypting the original bytes |
| Tls12Send.ReservedStep | reference/src/net/tls.c:4283-4301 | the reserved headroom is one record's overhead for each record |
| Tls12Send.RecordGrowth | reference/src/net/tls.c:4283-4301 | no record grows by more than its share of the headroom |
| Tls12Send.PadLen | reference/src/net/tls.c:4405-4413 | padding reaches the next block boundary and is never empty |
| Tls12Send.VerifyPadding | reference/src/net/tls.c:4510-4535 | accepts exactly the data ending in pad + 1 bytes of value pad |
| Tls12Send.DecodeInvertsRecords | reference/src/net/tls.c:4337-4473 | decoding the records gives back the payload, for every length and suite |
| Tls12Exchange.PayloadCrosses | reference/src/net/tls.c:4545-4681 | records built in place, framed into rotated buffers and opened from their first and last buffers give back the payload and leave nothing over |
| Tls12Exchange.OpenBuffersIsOpenBody | reference/src/net/tls.c:4566-4640 | taking the IV from the first buffer and tag, padding and MAC from the last only is the same as opening the whole record, for every record, well formed or not |
| Tls12Sound.OpenedIsGenuine | reference/src/net/tls.c:4545-4681 | for every buffers whatsoever, what is opened decrypts to the plaintext, its MAC and at most well-formed padding, and ends in the tag over that: a failing MAC or tag is refused |
| Tls12Sound.StreamIsGenuine | reference/src/net/tls.c:4545-4681 | the same for every record of a stream, under successive sequence numbers |
| Tls12Sound.AlteredMacRefused | reference/src/net/tls.c:4664-4673 | a record whose MAC differs is refused |
| Tls12Sound.RecordOnWire | reference/src/net/tls.c:4371-4456 | the bytes of a record: type, version, length, IV, encryption of plaintext, MAC and padding, tag |
| Tls12Sound.PayloadOnWire | reference/src/net/tls.c:4371-4456 | a payload is cut every 4096 bytes, an empty one is one empty record |
| Tls12Sound.ReservedIs | reference/src/net/tls.c:4283-4301 | the headroom in numbers |
| Tls12Sound.PaddingExactly | reference/src/net/tls.c:4510-4535 | padding is valid exactly when the data ends in k + 1 bytes of value k |
| Tls12Exchange.FilledIsWellCut | reference/src/net/tls.c:4797-4816 | the receiver's buffers always have the first and last sizes this needs |
| Tls12Receive.FragmentSizes | reference/src/net/tls.c:4797-4816 | fragments sum to the total, all but the last are 4096 bytes, the last is at least 512 whenever the total is |
| Tls12Receive.Allocate | reference/src/net/tls.c:4797-4839 | the allocation loop produces those fragments |
| Tls12Receive.CapsFit | reference/src/net/tls.c:4792-4839 | after the alignment reserve every buffer has room and together they hold exactly the record |
| Tls12Receive.ReserveFor | reference/src/net/tls.c:4792-4795 | the least reserve that aligns the data after the record IV |
| Tls12Receive.FirstBufferAligned | reference/src/net/tls.c:4833-4838 | with that reserve the first of several buffers is a multiple of the alignment once the record IV is stripped |
| Tls12Receive.QueueStep | reference/src/net/tls.c:4864-4877 | filling the first buffer and rotating it when full keeps the list in step with the bytes received |
| Tls12Receive.CircleClosed | reference/src/net/tls.c:4864-4877 | the buffer that comes up is full exactly when the record is complete, and then the list is back in its original order |
| Tls12Receive.BuffersAreTheRecord | reference/src/net/tls.c:4864-4892 | the buffers handed on together are exactly the record |
| Tls12Receive.FrameAppend | reference/src/net/tls.c:4917-4965 | framing does not depend on how the stream was cut |
| Tls12Receive.Receiver.ProcessHeader | reference/src/net/tls.c:4781-4856 | a complete header prepares the buffers of its record |
| Tls12Receive.Receiver.DataBytes | reference/src/net/tls.c:4864-4892 | payload bytes fill and rotate the buffers, handing the record on at the end |
| Tls12Receive.Receiver.Deliver | reference/src/net/tls.c:4917-4965 | under any cutting the records handed on and the bytes kept are those of the one-shot framing |
| UriQuery.ParseQparam | reference/src/net/tcp/nvmetcp.c:1230-1264 | the skipping search returns the value of the first component starting with the name, or none if absent or empty |
| UriQuery.ParamExactly | reference/src/net/tcp/nvmetcp.c:1230-1264 | a parameter has a value exactly when the first component beginning with its name is the name and that non-empty value |
| UriQuery.ComponentsExactly | reference/src/net/tcp/nvmetcp.c:1230-1264 | the components joined by '&' are the query, and none contains an '&' |
| UriQuery.LeastCandidate | reference/src/net/tcp/nvmetcp.c:1243-1256 | the least match that begins a component locates the first component with the name |
| UriQuery.SkipIsSafe | reference/src/net/tcp/nvmetcp.c:1243-1248 | skipping a whole match that begins no component passes over no component |
| UriQuery.NoCandidate | reference/src/net/tcp/nvmetcp.c:1249-1250 | without such a match no component has the name |
| UriQuery.UseTls | reference/src/net/tcp/nvmetcp.c:1487-1501 | with its early exit, accepts exactly the all-digit strings of any length whose value is the target port, given a key |
| UriQuery.ValueOfDecimal | reference/src/net/tcp/nvmetcp.c:1493-1500 | the value compared is the number written |
| StoredOptions.OptionsSurvive | reference/src/core/nvo.c:173-207 | for every history of stores, deletions, failed writes and restarts, loading yields exactly the options last saved |
| StoredOptions.Drive | reference/src/core/nvo.c:232-251 | the option block object under any history of stores, failed writes and restarts holds what was last saved |
| StoredOptions.LoadedImage | reference/src/core/nvo.c:131-207 | loading inverts saving |
| StoredOptions.LoadedExactly | reference/src/core/nvo.c:131-165 | a stored block is read as options exactly when it is those options, starting with a tag, behind one byte that makes the byte sum a multiple of 256 |
| StoredOptions.SingleByteChangeDetected | reference/src/core/nvo.c:149-161 | any change of one stored byte is read as empty |
| StoredOptions.ClearsSum | reference/src/core/nvo.c:177-179 | subtracting the sum makes it zero whatever the checksum byte was |
| StoredOptions.Nvo.ComputeChecksum | reference/src/core/nvo.c:47-56 | the loop computes the byte sum mod 256 |
| StoredOptions.Nvo.Resize | reference/src/core/nvo.c:65-123 | the block is resized to the options and a checksum byte, or to nothing |
| StoredOptions.Nvo.Save | reference/src/core/nvo.c:173-207 | the variable becomes the block's image, or is erased with the last option |
| StoredOptions.Nvo.Store | reference/src/core/nvo.c:232-251 | a store leaves the new options in memory and, when the write succeeds, their image in the variable |
| StoredOptions.Nvo.Startup | reference/src/interface/efi/efi_nvs.c:180-227 | a start reads the variable back, inconsistent contents as empty; the byte behind the block is looked at if and only if the variable is a single zero byte |
| ReceiveRing.EveryBufferOnce | reference/src/drivers/net/realtek.c:1671-1710 | for every interleaving, occupancy stays within the ring and every buffer put on it is live, handed up or freed, exactly once |
| ReceiveRing.RxRing.Drive | reference/src/drivers/net/realtek.c:1671-1710 | the ring object under any history of refills, NIC completions, polls and closes behaves as the FIFO, accounts for every buffer exactly once, and until closed hands up in order |
| ReceiveRing.HandedUpInOrder | reference/src/drivers/net/realtek.c:2012-2039 | until close, buffers are handed up in the order in which they were put on |
| ReceiveRing.ClosingFreesLive | reference/src/drivers/net/realtek.c:1812-1817 | closing frees each live buffer exactly once, wherever the ring had got to |
| ReceiveRing.RefillFills | reference/src/drivers/net/realtek.c:1671-1710 | a refill adds buffers in order until the ring holds four or none is left |
| ReceiveRing.RxRing.RefillOne | reference/src/drivers/net/realtek.c:1690-1704 | the slot about to be used is empty, across counter wrap, and the buffer joins the end of the FIFO |
| ReceiveRing.RxRing.Refill | reference/src/drivers/net/realtek.c:1671-1710 | the ring is filled as far as buffers are supplied |
| ReceiveRing.RxRing.HandUp | reference/src/drivers/net/realtek.c:2018-2038 | the buffer handed up is the oldest |
| ReceiveRing.RxRing.Poll | reference/src/drivers/net/realtek.c:2012-2039 | hands up exactly the completed buffers at the front, stopping at the first the NIC owns |
| ReceiveRing.RxRing.Close | reference/src/drivers/net/realtek.c:1799-1823 | counters are reset and every slot is freed and empty |

## Left out

- Cryptographic primitives and the random number generator: functions with stated laws; a seal or an allocation that fails is not modelled in the TLS 1.3 connection.
- Calls the consumer makes from inside a delivery or a notification are taken as made right after it, and a consumer that returns an error on delivery is not modelled.
- Tls13Client.Tls13Psk.Receive: once the connection has failed, its keys, secrets and transcript are not compared, which nothing reads any more; the record is decrypted as a value rather than over its own bytes.
- Tls13Client.Tls13Psk.constructor: for identities in the four-byte gap of the ClientHello guard the model goes on as if the bytes behind the buffer were unused, and the agreement theorems are not stated.
- TLS 1.3 record padding, KeyUpdate, alerts beyond failing, and handshake messages split over records.
- The HMAC and Diffie-Hellman computation behind the Reply: a parameter with three outcomes.
- The I/O queue bring-up, the READY phase with its block commands, R2T and H2CData transfers, and exactly-once sending of Identify.
- The sizes and digests negotiated by ICResp, and a failure to open the I/O queue's socket after Identify Namespace.
- NvmeFraming.Receiver.Deliver: a COMMAND PDU that announces a header of more than 128 bytes is refused at its eighth byte, where the source would write past its header buffer.
- NvmeFraming.Receiver.HeaderBytes: the same.
- NvmeStack.AdminQueue: an R2T on the admin queue ends the model, and how the command buffer is read as an authentication message is a parameter.
- Tls12Send.EncryptDown: a cipher call over overlapping source and destination, or over several buffers, is taken as one operation on the bytes.
- Tls12Receive.Receiver.Deliver: a record of length zero stops the model, and failures of the record handler are not modelled.
- Tls12Receive.Receiver.ProcessHeader: the same, and buffer allocation does not fail.
- Tls13Client.Tls13Psk.CipherstreamDeliver: as for Receive, keys, secrets and transcript are not compared after a failure.
- TLS 1.2 handshake, certificates, key exchange, session resumption and renegotiation.
- StoredOptions.Nvo.Startup: the DHCP option codec is taken as a byte string that is empty or starts with a non-zero tag.
- ReceiveRing.RxRing.NicCompletes: the NIC is a step that clears the ownership flag; legacy mode, the transmit ring, packet lengths and registers are not modelled.
- Device keys, certificate pinning, secret parsing, SMBIOS, ACPI tables, PHY and PCI access, and the Python tools: thin layers or hardware access that would add only easy members.
