# Verified model of COE

COE lets devices of an organisation talk to each other under keys that a Key Authority (KA) hands out once a
day. This project models the parts of it that carry state or have to agree with each other, and proves what they
promise over every run:

- the peer protocol: the HELLO / HELLO_ACK / KEY_OFFER handshake of two devices with their own clocks, the key
  schedule, and sessions exchanging numbered, framed, sealed records behind a replay window;
- the KA's registry of devices and vouchers, its two backends, and its HTTP requests running concurrently;
- the structures that forget or re-chunk what they are given: replay window, rate limiter, data-channel reader,
  signaling queues;
- the bounded arithmetic underneath: epochs, clock correction, big-endian encodings, xoroshiro128++.

`dafny verify dfyconfig.toml` checks everything.

## How the model is built

| modules | what they hold |
|---|---|
| `Octets`, `Epochs`, `DeviceClock`, `Xoroshiro` | machine words, encodings, epoch and clock arithmetic, the generator |
| `Replay`, `RateLimit`, `SignalHub`, `Frames`, `DataChannel` | each structure beside the simple specification it must agree with |
| `Crypto`, `KeySchedule`, `Messages`, `Sessions`, `Intake`, `Delivery`, `Handshake`, `PeerProtocol`, `Transfer` | the peer protocol: what keys bind, what a session takes from anyone, and whole sessions as a two-party system and as objects |
| `Samples` | a codec, a suite and two parties that meet the hypotheses of the peer theorems |
| `Store`, `Registry`, `Tables`, `SqlStore`, `Backends` | the registry's specification, its file and SQL backends, and their equivalence |
| `Ledger`, `Authority`, `SameDay` | runs of registry calls, the KA's interleaved requests on top of them, and what one device gets on one day |

Objects that the source updates in place are classes, each method proved against a function of the old state;
the theorems over whole runs are about these functions. Integers wrap where Go's do.

The primitives are a parameter, `Crypto.Suite`. A theorem that relies on one of its laws says so: `DhCommutes`
(section 6.1 of RFC 7748), `OpenInvertsSeal` (section 2.8 of RFC 8439), `HkdfLength` (section 2.3 of RFC 5869).
`Crypto.LawfulSuiteExists` shows that they can hold together. Freedom from HKDF collisions is asked only for the
pair of inputs at hand, since no function with 32-byte results is free of them everywhere. The JSON codec is a
parameter with `Messages.RoundTrips`; `Samples.StrongPairExists` has a codec that round-trips and two parties that
complete with it. Time, random draws, signature checks, the order of steps and the arrival
of messages are chosen freely by the environment.

## Where the code falls short of what one would expect

Each of these is proved at an input that shows it, and a theorem named with it says exactly when the property
holds.

- A number on the edge `maxSeq-size` of the replay window is forgotten but not yet too old, so it can be accepted
  a second time, never a third (`Replay.EdgeAcceptedTwice`). `Replay.AcceptedOnceIff` says for which offers no
  number is accepted twice.
- Near 2^64 the too-old test wraps and refuses numbers that are new, above the maximum or just below it
  (`Replay.HighestNumberRefused`), exactly as `Replay.WrapRefusesNewNumbers` says.
- The data channel drops what arrives while 64 messages wait, and a frame is two messages, so a slow reader loses
  frames or halves of frames (`DataChannel.SixtyFifthIsDropped`). `DataChannel.NeverLosesIffRoomy` says which
  arrivals survive every timing.
- A closed data channel reports its end before its queue is empty, so a message that arrived before the close is
  never read (`DataChannel.CloseOvertakesMessage`). `DataChannel.MissesNothingIff` says exactly when no timing loses
  or cuts off a byte, and that condition is what `DataChannel.ReadFrames` and `Sessions.Session.Recv` ask for.
- "Same device and epoch, same serial" (docs/coe/03-ka-api.md:119) fails around midnight, because a request reads
  the epoch before it marks it (`Authority.MidnightRace`). `Ledger.SerialDiscipline` says exactly when the serial
  is the same: when the device got no other epoch in between.
- "Same device and epoch, same key" (same line) fails after a re-enrollment on the same day, which keeps the serial
  and changes the key input (`SameDay.OneSerialTwoKeys`). `SameDay.SameInputIffNotReenrolled` says exactly when two
  grants share their input.
- Adding a voucher under an id that exists resets its uses in the file backend, so that a one-use voucher is redeemed
  twice (`Ledger.ReusedIdRedeemedTwice`). The redemptions of a voucher are its uses if and only if its id was not
  added again after one of them (`Ledger.RedemptionsAreUsesIff`; over all interleavings of requests,
  `Authority.RedemptionsAreUsesIff`).
- The SQL backend refuses that second addition (`Backends.SecondAddDiffers`); the backends agree on an addition exactly
  when the voucher is fresh (`Backends.AddToBoth`).
- A mark of epoch 2^63 gets a serial from the file backend and an error from the SQL backend
  (`Backends.HugeEpochDiffers`); they agree on a mark exactly while epoch and serial fit a signed column
  (`Backends.MarkOnBoth`).
- A device's counter, and with it a key input, comes back after re-enrollments, because a request may name any counter
  and the increment wraps (`Ledger.CounterComesBack`). Every enrollment raises the counter if and only if none happens
  at 2^32-1 (`Ledger.EveryEnrollmentRaisesIff`), and then no input recurs (`Ledger.FreshKeyInput`).
- When the KA's clock shows the device's own second, `ApplyKATime` keeps the old offset, and the corrected time can
  fail the skew test (`DeviceClock.StaleOffsetFailsSkew`); `DeviceClock.CorrectionClosesSkew` says exactly when it
  passes.
- `CheckSkew` passes the difference -2^63 (`DeviceClock.MinimumPassesSkew`), and beyond the limit no other
  (`DeviceClock.SkewTest`).
- The epoch hint 2^63 days ahead of the KA's epoch passes (`Authority.HugeHintPasses`); `Authority.HintTest` says
  exactly which hints do.
- During the first minutes of 1970 the epoch id 2^64-1 counts as the previous day, yet `AgreeEpoch` refuses it
  together with 0 (`Epochs.AgreeRefusesWrappedPair`). `Epochs.ValidityWindow` and `Epochs.AgreeIffBothValid` have it as
  their only exception.
- A simple and a strong party leave the strong one waiting for ever for a KEY_OFFER, whichever of them begins, as
  long as the other sends nothing (`Samples.BothMixesOccur`, `Handshake.MixedBranchesHang`).
  `Handshake.EndsIffNotHanging` says for which pairs of configurations the handshake ends.
- Two devices with one id use the same key and nonce for their first records
  (`PeerProtocol.EqualIdsReuseNonce`). With different ids no pair is reused, if HKDF does not collide on the two
  inputs (`PeerProtocol.StrongSessionNeverReusesNonce`, `PeerProtocol.SimpleSessionNeverReusesNonce`).

## Model

| member | source | states |
|---|---|---|
| `Handshake.NeverBothWaiting` | internal/p2p/session.go:109-287 | on the same branch, in every interleaving, exactly one party can move until both have ended; never do both wait |
| `Handshake.StuckMeansEndedOrHung` | internal/p2p/session.go:109-287 | for any two configurations and interleavings, at most one party can move, and none can exactly when both have ended or one waits for an offer of a branch the other did not take |
| `Handshake.OutcomeIsUnique` | internal/p2p/session.go:109-287 | for any two configurations, all interleavings that can go no further are in the same joint state |
| `Handshake.FiveRoundsEnd` | internal/p2p/session.go:109-287 | any schedule with five rounds in which both get a turn ends the handshake |
| `Handshake.ShapeStep` | internal/p2p/session.go:128-173 | the invariant of the joint state: every move leads from one shape to the next, a state without moves has ended or hangs, and after the third move nothing begins to hang |
| `Handshake.StrongOutcome` | internal/p2p/session.go:109-287 | a strong handshake's result on both sides, completing exactly under a condition on the two configurations |
| `Handshake.StrongAgreement` | internal/p2p/session.go:144-287 | strong profile, any two clocks: the initiator completes exactly when the responder does, exactly when the configurations fit, and then epochs are equal and keys match crosswise |
| `Handshake.StrongAlwaysMatches` | internal/p2p/session.go:144-287 | at every moment at which both are done, the sessions match |
| `Handshake.SimpleOutcome` | internal/p2p/session.go:109-287 | simple profile: the exact condition under which each side completes |
| `Handshake.SimpleAgreement` | internal/p2p/session.go:150-287 | both complete in the simple profile: the sessions match if and only if the org day keys are equal |
| `Handshake.SimpleSameKeyMatches` | internal/p2p/session.go:150-287 | equal org day keys give matching sessions with no assumption on HKDF |
| `Handshake.MixedBranchesHang` | internal/p2p/session.go:144-173 | both mixes: the simple party is done, the strong one waits in every fair schedule, and no schedule ends |
| `Handshake.EndsIffNotHanging` | internal/p2p/session.go:109-287 | for every pair of configurations and every fair schedule: the handshake ends if and only if the pair does not get through the greeting on different branches with the simple day key, the wrap key and the offer all in order |
| `Handshake.SwitchedPartyHangs` | internal/p2p/session.go:144-173 | two strong parties that complete hang once either is switched to simple |
| `Handshake.ResponderTrusts` | internal/p2p/session.go:197-287 | whoever sent the messages: a responder that completes saw a version 1 HELLO of the expected device with an epoch it agrees to and, unless simple, an offer that opens to 32 bytes under the wrap key of that HELLO, bound to that epoch and device; its session names both |
| `Handshake.InitiatorTrusts` | internal/p2p/session.go:131-195 | the same for the initiator and an accepting HELLO_ACK |
| `Handshake.AcceptanceWindow` | internal/p2p/session.go:197-235 | a HELLO is accepted exactly if version and device are as expected and the time is between the start of the newer of the two days and 300 seconds after the end of the older |
| `Handshake.OfferAADBinds` | internal/p2p/session.go:84-107 | the AAD of an offer determines epoch and sender |
| `PeerProtocol.StrongSessionDelivers` | internal/p2p/session.go:109-371 | from two configurations through any handshake schedule to any exchange of messages: what was received plus what is in flight is what was sent |
| `PeerProtocol.SimpleSessionDelivers` | internal/p2p/session.go:109-371 | the same for the simple profile with equal org day keys |
| `PeerProtocol.StrongRootSpelled` | internal/crypto/session.go:70-130 | the root of a completed strong handshake as HKDF of static secret, ephemeral secret and both general keys, under both nonces, epoch, ids and profile |
| `PeerProtocol.StrongSessionNeverReusesNonce` | internal/p2p/session.go:109-322 | over a whole strong session of two different devices, no key and nonce seal two records |
| `PeerProtocol.SimpleSessionNeverReusesNonce` | internal/p2p/session.go:109-322 | the same for a simple session of two different devices with one org day key |
| `PeerProtocol.EqualIdsReuseNonce` | internal/p2p/session.go:109-322 | in any completed handshake of two devices with one id, in either profile, the first records of the two sides share key and nonce |
| `Transfer.Transfer` | internal/p2p/session.go:305-371 | two session objects over data channels: whatever the chunks and the timing, as long as nothing is missed, the calls of Recv return exactly the texts whose record, under the number it used up, fits a frame, in order |
| `Transfer.SendAll` | internal/p2p/session.go:305-322 | the bytes a session object has written are the wire of the two-party system, and the texts that system counts as sent are exactly those that fit |
| `Transfer.ReceiveAll` | internal/p2p/session.go:324-371 | one Recv per message in flight returns the texts in flight in order and empties the stream |
| `Samples.StrongPairExists` | internal/p2p/session.go:109-287 | a codec that round-trips, a lawful suite and two different devices meet every hypothesis of StrongSessionDelivers |
| `Samples.StrongPairCompletes` | internal/p2p/session.go:109-287 | the handshake of that pair completes with matching sessions in every fair schedule |
| `Samples.BothMixesOccur` | internal/p2p/session.go:144-173 | with the same codec and suite, concrete configurations that hang with a simple initiator and with a simple responder |
| `Delivery.EndToEnd` | internal/p2p/session.go:305-371 | in both directions and every interleaving below 2^64-128 sends, received texts followed by those in flight are the successfully sent ones in order, gaps in the numbers notwithstanding |
| `Delivery.RecvNeverFails` | internal/p2p/session.go:324-371 | in every such run the next Recv of an open session waits exactly when nothing is in flight and otherwise returns the oldest message |
| `Delivery.HeadIsReceived` | internal/p2p/session.go:324-371 | Recv on a stream of sealed frames returns the first text, admits its number and leaves the rest of the stream |
| `Delivery.RunKeeps` | internal/p2p/session.go:305-382 | the two-way invariant over wire, window, counter and history after every run |
| `Delivery.ClosedForGood` | internal/p2p/session.go:305-382 | closing closes, and in every later run a closed session does not change and sends nothing more |
| `Delivery.NonceNeverReused` | internal/p2p/session.go:311-315 | different send keys: below 2^64 sends a side no key and nonce pair seals twice, in either direction |
| `Delivery.EqualKeysReuseNonce` | internal/p2p/session.go:311-315 | equal send keys: the first records of the two sides share key and nonce |
| `Sessions.Session.constructor` | internal/p2p/session.go:190-194 | a new session has number 0, an empty window of 128 and is open |
| `Sessions.Session.Send` | internal/p2p/session.go:305-322 | refines the specification step: a number is used up even when sealing or framing fails, and exactly the sealed frame is written |
| `Sessions.Session.Recv` | internal/p2p/session.go:324-371 | if no timing of the arrivals misses a byte, state, result and remaining stream are those of the step on the flat stream, whose verdicts the rows of Intake state; that condition is kept; otherwise what it returns still comes from there |
| `Sessions.Session.Handle` | internal/p2p/session.go:335-371 | dispatch on the message type, epoch test, window and opening, in this order, with every refusal |
| `Sessions.Session.Close` | internal/p2p/session.go:373-382 | the first close writes the CLOSE frame and closes the connection; later ones change nothing |
| `Intake.PlaintextIff` | internal/p2p/session.go:324-371 | on any payload, an open session returns plaintext if and only if it is a DATA record of its epoch whose number the window admits and whose ciphertext opens under the receive key, bound to peer, self, epoch and number |
| `Intake.KnownNumberRefused` | internal/p2p/session.go:361-363 | a record whose number the window has, or one below the window, fails and leaves the session unchanged |
| `Intake.StrangeRefused` | internal/p2p/session.go:326-358 | any other payload fails and changes nothing, a CLOSE closes, and a closed session reads nothing |
| `Intake.RunGuarded` | internal/p2p/session.go:324-371 | after any payloads from anyone, the window is that of the offered numbers alone, and no number yielded plaintext more often than that window accepted it |
| `Intake.PlaintextOnce` | internal/p2p/session.go:324-371 | no record yields plaintext three times, and none twice unless the offers repeat on the edge a number offered inside the window |
| `Intake.GenuineOnceIff` | internal/p2p/session.go:324-371 | for genuine records replayed in any order: none yields plaintext twice if and only if the offers do not repeat such an edge |
| `Intake.RepeatRefused` | internal/p2p/session.go:361-363 | after any payloads, a record that yielded plaintext before and is above the edge fails, as does any below it, and the session is unchanged |
| `Replay.ReplayWindow.constructor` | internal/p2p/replay.go:12-17 | an empty window, 128 for size 0 |
| `Replay.ReplayWindow.Accept` | internal/p2p/replay.go:20-49 | the map, its maximum and the verdict after the deleting loop are those of the specification |
| `Replay.WindowMatchesHistory` | internal/p2p/replay.go:20-49 | after any run without wrap: above the edge the verdict is that of remembering every accepted number, below it is refusal, and on the edge a second acceptance happens at most once |
| `Replay.RunKeeps` | internal/p2p/replay.go:20-49 | what the pruned map remembers of the log, and that no number is accepted three times, after every run |
| `Replay.WindowBounded` | internal/p2p/replay.go:36-44 | never more than size+1 entries |
| `Replay.AcceptedOnceIff` | internal/p2p/replay.go:20-49 | a run accepts no number twice if and only if its offers never repeat a number, first offered less than size below the highest so far, at the moment when the highest is exactly size above it |
| `Replay.RunExplains` | internal/p2p/replay.go:20-49 | the invariant between offers, window and log behind it: the maximum, what was offered inside, what the edge forgot and what it accepted twice |
| `Replay.EdgeAcceptedTwice` | internal/p2p/replay.go:30-44 | of the offers 0, 128, 0 none is refused |
| `Replay.WrapRefusesNewNumbers` | internal/p2p/replay.go:30-32 | where the sum wraps, a number not seen before is admitted exactly while the maximum is at most the wrapped sum |
| `Replay.HighestNumberRefused` | internal/p2p/replay.go:30-32 | after 200 the number 2^64-1 is refused, and after 2^64-10 the number 2^64-20 |
| `Frames.ParseFrame` | internal/p2p/frame.go:12-40 | a written frame followed by anything reads back as its payload and that rest |
| `Frames.RefusedIff` | internal/p2p/frame.go:26-40 | a frame is refused exactly for length 0 or above 65536 |
| `Frames.PrefixReadsPrefix` | internal/p2p/frame.go:26-40 | every prefix of a written stream reads back as a prefix of the payloads and never as a bad length |
| `Frames.StreamRoundTrip` | internal/p2p/frame.go:12-40 | any list of valid payloads is recovered exactly |
| `DataChannel.DCConn.constructor` | internal/webrtcx/conn.go:26-56 | an open, empty queue that has lost nothing, with everything still to arrive ahead |
| `DataChannel.DCConn.Deliver` | internal/webrtcx/conn.go:33-54 | one callback: queue, closed and loss are exactly those of the specification; bytes read, buffered and queued are the bytes enqueued; roomy arrivals stay roomy |
| `DataChannel.DCConn.Read` | internal/webrtcx/conn.go:58-87 | returns a non-empty prefix of the flat stream and leaves the rest, whatever happens meanwhile; ends at once when closed with an empty buffer; if nothing can be missed, it ends or waits only on an empty stream |
| `DataChannel.DCConn.ReadFull` | internal/p2p/frame.go:26-40 | exactly n bytes off the flat stream, or fewer when the connection ends; if nothing can be missed, fewer only when the stream has no more |
| `DataChannel.DCConn.ReadFrame` | internal/p2p/frame.go:26-40 | if nothing can be missed, what parsing the flat stream gives, in all three cases; otherwise nothing else |
| `DataChannel.DCConn.Write` | internal/webrtcx/conn.go:89-99 | one message unless closed; reading side untouched |
| `DataChannel.DCConn.WriteFrame` | internal/p2p/frame.go:12-23 | succeeds exactly on framable payloads of an open channel, and then the bytes sent grow by the frame |
| `DataChannel.DCConn.Close` | internal/webrtcx/conn.go:101-107 | closed, with stream and sent bytes unchanged |
| `DataChannel.ReadFrames` | internal/webrtcx/conn.go:33-87 | if no timing misses a byte, repeated ReadFrame recovers the written list exactly under every chunking and timing; if none loses one, a prefix of it |
| `DataChannel.NeverLosesIffRoomy` | internal/webrtcx/conn.go:33-54 | no timing of arrivals and reads loses a byte if and only if every message with bytes comes before a close and finds a free place even when nothing is read meanwhile |
| `DataChannel.MissesNothingIff` | internal/webrtcx/conn.go:33-87 | no timing of callbacks and reads loses a byte or reports the end before one if and only if the arrivals are roomy and a close, now or to come, finds nothing left to read |
| `DataChannel.SixtyFifthIsDropped` | internal/webrtcx/conn.go:42-46 | 64 messages always get through a new connection; of 65 before the first read one is lost |
| `DataChannel.CloseOvertakesMessage` | internal/webrtcx/conn.go:58-70 | one message, then a close, then a Read: the end is reported and the message stays in the queue |
| `Crypto.LawfulSuiteExists` | internal/crypto/aead.go:29-60 | the laws assumed of the primitives are satisfiable together |
| `Crypto.NonceInjective` | internal/crypto/aead.go:12-14 | different numbers have different nonces |
| `Crypto.AADBinds` | internal/crypto/aead.go:17-26 | two AADs are equal if and only if version, epoch, number and the concatenation of the two ids are; for ids of equal length, each id |
| `Crypto.EncodeNonce` | internal/crypto/aead.go:12-14 | the nonce assembled by I2OSP and Concat is the one the theorems are about |
| `Crypto.EncodeAAD` | internal/crypto/aead.go:17-26 | the same for the AAD |
| `KeySchedule.SessionKeysAgree` | internal/crypto/session.go:70-147 | one end derives exactly when the other does; each end's send key is the other's receive key, whichever end is local; what the keys contain is stated by StrongRootBinds |
| `KeySchedule.StrongRootBinds` | internal/crypto/session.go:80-125 | without an HKDF collision on the two inputs, equal strong roots of the same two devices mean equal shared secrets, general keys, epoch, profile and nonces |
| `KeySchedule.SimpleRootBinds` | internal/crypto/session.go:76-125 | the root of a simple session spelled out; without a collision it binds org day key, epoch and nonces |
| `KeySchedule.SendKeyBinds` | internal/crypto/session.go:127-134 | without a collision, equal send keys mean equal roots and senders |
| `KeySchedule.WrapKeyBinds` | internal/crypto/session.go:57-66 | without a collision, equal wrap keys mean equal secrets, nonces and epoch |
| `KeySchedule.RolesDoNotMatter` | internal/crypto/session.go:26-147 | exchanging the names A and B of different devices changes no key |
| `KeySchedule.DirectionsHaveDistinctKeys` | internal/crypto/session.go:125-147 | the two directions share a key exactly when the ids are equal, if HKDF does not collide on the two inputs |
| `KeySchedule.DeviceInputInjective` | internal/crypto/general_key.go:6-13 | distinct (epoch, device, counter) triples give distinct HKDF inputs, though the id has no length prefix |
| `KeySchedule.DeviceInputNeverOrg` | internal/crypto/general_key.go:6-23 | a device input is never an org-day input |
| `KeySchedule.EncodeDeviceInput` | internal/crypto/general_key.go:10-11 | salt and info assembled by I2OSP and Concat are the device inputs the theorems are about |
| `KeySchedule.EncodeOrgInput` | internal/crypto/general_key.go:20-21 | the same for the org-day input |
| `KeySchedule.EncodeWrapInput` | internal/crypto/session.go:57-66 | the same for the wrap key, with nonces and ids in id order |
| `Authority.RunIsLedgerRun` | internal/kaapi/server.go:91-406 | every interleaving of requests is, for the registry, one sequence of store calls in which vouchers enter unused |
| `Authority.GrantedKeysWereDue` | internal/kaapi/server.go:229-358 | every granted key: between start and answer the device was enrolled and not revoked, again at the mark, and the key is that of its record at a moment of the request |
| `Authority.GrantedWasAuthorised` | internal/kaapi/server.go:229-309 | every granted request in every interleaving: consistent device id, signed and verified against the record wherever KA or record demand it, own or recorded profile; epoch of the KA time it met, client clock within 120 s, hint within one epoch, but for wrapped differences |
| `Authority.AuthenticateIff` | internal/kaapi/server.go:229-269 | a request passes with a profile if and only if its device is active and it may speak for it; unknown and revoked devices are told so |
| `Authority.DeriveIff` | internal/kaapi/server.go:285-322 | derivation succeeds if and only if clock and hint suit and the master key has 32 bytes |
| `Authority.HintTest` | internal/kaapi/server.go:291-305 | which epoch hints pass, exactly |
| `Authority.HugeHintPasses` | internal/kaapi/server.go:291-305 | a hint 2^63 days ahead passes |
| `Authority.NoKeyAfterRevocation` | internal/kaapi/server.go:229-358 | a request begun after a revocation with no later enrollment of the device is never granted |
| `Authority.GrantedSerialsDistinct` | internal/kaapi/server.go:318-358 | granted requests with the same serial are for the same device and epoch, in every interleaving |
| `Authority.AdmissionsWithinMaxUses` | internal/kaapi/server.go:91-141 | for an id not added again after a redemption: enrollments through the voucher are at most its redemptions, which equal its uses and stay within its limit |
| `Authority.RedemptionsAreUsesIff` | internal/kaapi/server.go:91-200 | in every interleaving, redemptions equal uses if and only if the id was not added again after one |
| `Authority.RunAdmissionsPaid` | internal/kaapi/server.go:100-141 | admissions and paid requests still under way never exceed redemptions |
| `Authority.EnrollmentWasAuthorised` | internal/kaapi/server.go:91-141 | every enrollment in every interleaving serves a request with the administrator's token, or one that before redeemed the voucher its code hash finds, and enrolls what it asked for with that voucher's defaults |
| `Authority.GoodVoucherPays` | internal/kaapi/server.go:100-141 | a voucher that is not refused turns the request that finds it into a paid one, which is then enrolled |
| `Authority.NewVoucherLives` | internal/kaapi/server.go:143-200 | a new voucher is redeemable for the hours asked for, a week by default, for ever if negative |
| `Authority.AdministrationTakesEffect` | internal/kaapi/server.go:143-227 | revoking a device or a voucher and creating a voucher have happened after their step |
| `Authority.MidnightRace` | internal/kaapi/server.go:271-358 | a concrete run with a forward clock in which day 6 of one device gets serials 1 and 3 |
| `SameDay.GrantedFromInput` | internal/kaapi/server.go:310-322 | every granted key outside the simple profile is HKDF of the salt and info of the record that gave it |
| `SameDay.SameOrgSameKey` | internal/kaapi/server.go:310-317 | every granted simple key is the day key of the device's organisation or of the default one, so devices of one organisation get one key for an epoch |
| `SameDay.SameInputIffNotReenrolled` | internal/kaapi/server.go:271-358 | two grants of one device and epoch have equal key inputs if and only if the device was not enrolled between the moments of their records, in every interleaving without a re-enrollment at 2^32-1 |
| `SameDay.OneSerialTwoKeys` | internal/kaapi/registry.go:95-113 | a concrete run in which two grants of one device and day carry serial 1 and different key inputs |
| `Ledger.SerialDiscipline` | internal/kaapi/registry.go:159-181 | equal serials mean equal device and epoch; two issues of one device and epoch share the serial if and only if no other epoch was issued to it in between |
| `Ledger.FreshSerialsIncrease` | internal/kaapi/registry.go:159-181 | a serial not given before is above all given before |
| `Ledger.OneSerialPerEpoch` | internal/kaapi/registry.go:75-181 | when a device's epochs never go back, each has exactly one serial through re-requests, revocations and re-enrollments |
| `Ledger.VoucherConservation` | internal/kaapi/voucher.go:77-150 | uses are the redemptions since the voucher was added and never exceed its limit; for an id added once, all redemptions |
| `Ledger.RedemptionSucceedsIff` | internal/kaapi/voucher.go:77-109 | after any calls, a redemption succeeds if and only if the voucher last added under the id is not withdrawn since, not past a positive expiry, and has uses left; otherwise nothing changes |
| `Ledger.NoRedemptionAfterExpiry` | internal/kaapi/voucher.go:98-100 | no redemption is later than a positive expiry |
| `Ledger.RefusalIsHistory` | internal/kaapi/voucher.go:92-109 | which refusal is given, in the order of the tests, and which voucher is returned |
| `Ledger.RedemptionsAreUsesIff` | internal/kaapi/voucher.go:77-123 | all redemptions of a voucher are its uses if and only if its id was not added again after one of them |
| `Ledger.RevocationStops` | internal/kaapi/voucher.go:77-150 | no redemption after a revocation unless the id is added anew in between |
| `Ledger.ReusedIdRedeemedTwice` | internal/kaapi/voucher.go:112-123 | a one-use voucher added twice under one id is redeemed twice |
| `Ledger.CounterGrows` | internal/kaapi/registry.go:95-129 | over any stretch without a re-enrollment at 2^32-1, the counter grows by at least one per enrollment and otherwise stands still |
| `Ledger.EveryEnrollmentRaisesIff` | internal/kaapi/registry.go:95-113 | every enrollment of a stretch raises the counter if and only if none of them happens at 2^32-1 |
| `Ledger.CounterComesBack` | internal/kaapi/registry.go:95-113 | enrolling with 5, 2^32-1, 0 and 5 ends with counter 5 again |
| `Ledger.FreshKeyInput` | internal/crypto/general_key.go:6-23 | a device's key input is stable between enrollments, never recurs after one, for any epoch, and is never an org-day input |
| `Ledger.RecordIsHistory` | internal/kaapi/registry.go:75-157 | after any calls, a device is known exactly if it was enrolled, its record holds its last enrollment and the last signing key named, and it is revoked exactly if it was since |
| `Ledger.AnswersAreHistory` | internal/kaapi/registry.go:131-181 | lookups, revocations and marks answered from the calls alone, with their errors |
| `Ledger.EnrollAnswers` | internal/kaapi/registry.go:75-129 | an enrollment is refused exactly if id or key lengths are wrong, and otherwise answered with the record it leaves |
| `Backends.RunBoth` | internal/kaapi/sql_store.go:71-301 | on every sequence of operations with fresh vouchers and numbers below 2^63, both backends give the same replies, lists as multisets, and end with the same contents |
| `Backends.AddToBoth` | internal/kaapi/sql_store.go:253-266 | the backends answer an added voucher alike if and only if its id is empty or id and code hash are new |
| `Backends.SecondAddDiffers` | internal/kaapi/sql_store.go:253-266 | on new backends the second addition of one voucher succeeds in the file backend and fails in the SQL backend |
| `Backends.MarkOnBoth` | internal/kaapi/sql_store.go:204-224 | the backends answer a mark alike if and only if no new serial is due or epoch and serial are below 2^63 |
| `Backends.HugeEpochDiffers` | internal/kaapi/sql_store.go:204-224 | on new backends, after one enrollment, a mark of epoch 2^63 gets serial 1 from one and an error from the other |
| `Backends.DoJson` | internal/kaapi/registry.go:75-181 | the file backend implements every operation of the specification |
| `Backends.DoSql` | internal/kaapi/sql_store.go:71-301 | the SQL backend implements every operation of the specification |
| `Store.ListValues` | internal/kaapi/registry.go:138-146 | iterating over a map lists every record exactly once |
| `Store.ListingsAreComplete` | internal/kaapi/voucher.go:126-138 | a listing holds every record once and nothing else |
| `Store.InfoShowsAll` | internal/kaapi/voucher.go:126-138 | a listed voucher shows all but its code hash |
| `Registry.Registry.constructor` | internal/kaapi/registry.go:35-59 | an absent file gives an empty registry |
| `Registry.Registry.Enroll` | internal/kaapi/registry.go:75-129 | new state and reply of the specification: validation errors, first enrollment, and re-enrollment that keeps serial and issued epoch but changes key, counter and revocation |
| `Registry.Registry.Get` | internal/kaapi/registry.go:131-135 | the record under this id, if any |
| `Registry.Registry.ListDevices` | internal/kaapi/registry.go:138-146 | every record once |
| `Registry.Registry.Revoke` | internal/kaapi/registry.go:148-157 | revokes exactly this device, or reports that it is unknown |
| `Registry.Registry.MarkIssued` | internal/kaapi/registry.go:159-181 | repeats the serial of a repeated epoch, else takes the next one; refuses absent and revoked devices |
| `Registry.Registry.RedeemVoucher` | internal/kaapi/voucher.go:77-109 | finds some voucher with the hash or none if there is none, and redeems or refuses it as the specification does, whose verdicts RedemptionSucceedsIff states |
| `Registry.Registry.AddVoucher` | internal/kaapi/voucher.go:112-123 | files the voucher whatever was there |
| `Registry.Registry.ListVouchers` | internal/kaapi/voucher.go:126-138 | the public part of every voucher once |
| `Registry.Registry.RevokeVoucher` | internal/kaapi/voucher.go:141-150 | revokes exactly this voucher, or reports that it is unknown |
| `Tables.ReadAllLists` | internal/kaapi/sql_store.go:165-188 | reading all rows lists every record exactly once |
| `Tables.ScanPrint` | internal/kaapi/sql_store.go:71-82 | a serial printed in decimal is scanned back exactly |
| `SqlStore.SqlStore.constructor` | internal/kaapi/sql_store.go:35-69 | the migrated empty database is the empty registry |
| `SqlStore.SqlStore.NextSerial` | internal/kaapi/sql_store.go:71-82 | the successor of the stored serial, which it stores as text |
| `SqlStore.SqlStore.Enroll` | internal/kaapi/sql_store.go:84-141 | same new state and reply as the specification, over rows with NULL columns |
| `SqlStore.SqlStore.Get` | internal/kaapi/sql_store.go:143-163 | the record under this id, if any |
| `SqlStore.SqlStore.ListDevices` | internal/kaapi/sql_store.go:165-188 | every record once |
| `SqlStore.SqlStore.Revoke` | internal/kaapi/sql_store.go:190-202 | as the specification, from the number of rows affected |
| `SqlStore.SqlStore.MarkIssued` | internal/kaapi/sql_store.go:204-224 | as the specification, except where a new serial is due and epoch or serial does not fit a signed column: then an error, with the serial used up and the devices unchanged |
| `SqlStore.SqlStore.RedeemVoucher` | internal/kaapi/sql_store.go:226-251 | as the specification, whose verdicts RedemptionSucceedsIff states, with the voucher found by its code hash |
| `SqlStore.SqlStore.AddVoucher` | internal/kaapi/sql_store.go:253-266 | as the specification on fresh vouchers; refused without change when id or code hash exists |
| `SqlStore.SqlStore.ListVouchers` | internal/kaapi/sql_store.go:268-287 | the public part of every voucher once |
| `SqlStore.SqlStore.RevokeVoucher` | internal/kaapi/sql_store.go:289-301 | as the specification |
| `RateLimit.RateLimiter.constructor` | internal/kaapi/ratelimit.go:20-28 | defaults for limits and windows that are not positive |
| `RateLimit.RateLimiter.Allow` | internal/kaapi/ratelimit.go:31-51 | the compaction behind a write index leaves the times after the cut in order, and the verdict and new entry follow |
| `RateLimit.PrunedDecidesLikeFullHistory` | internal/kaapi/ratelimit.go:31-51 | with non-decreasing time, forgetting changes no decision |
| `RateLimit.NoWindowExceedsLimit` | internal/kaapi/ratelimit.go:31-51 | no interval (t-window, t] holds more than limit allowed hits of a key |
| `RateLimit.PruningExactIff` | internal/kaapi/ratelimit.go:31-51 | for stamps in any order and every cut: the pruned list and the full log agree after the cut if and only if no allowed hit after it had been dropped by a later event of its key |
| `RateLimit.OrderedDropsNothing` | internal/kaapi/ratelimit.go:32-35 | stamps taken in order, as the monotonic reading under the lock gives them, never drop such a hit |
| `SignalHub.Hub.Publish` | internal/signal/hub.go:44-74 | queues and verdict of the specification, with room derivation, registration and the broadcast loop |
| `SignalHub.Hub.Subscribe` | internal/signal/hub.go:77-91 | registers, lets others open rooms, join, send and receive in any order, then takes the head of its queue, or nothing from an empty one |
| `SignalHub.Hub.Drain` | internal/signal/hub.go:94-109 | takes the longest prefix within max |
| `SignalHub.DeliveryConserved` | internal/signal/hub.go:44-109 | in every interleaving, at every address: delivered then queued messages are the accepted ones in order, these a subsequence of the published ones meant for this address, and no queue exceeds 32 |
| `SignalHub.TargetedStepIsPublish` | internal/signal/hub.go:44-74 | a targeted publication of the interleaving model does to the rooms what Publish does, and is accepted exactly when Publish succeeds |
| `SignalHub.BroadcastIsPublish` | internal/signal/hub.go:44-68 | a broadcast of the interleaving model that visits its queues in any order, with no receive in between, does what the loop of Publish does |
| `SignalHub.DrainIsJoinAndReceives` | internal/signal/hub.go:94-109 | an undisturbed drain is a join and as many receives as it returns envelopes, which are the ones logged as delivered |
| `SignalHub.TargetedPublish` | internal/signal/hub.go:44-74 | refused exactly when the target's queue is full, changing no queue; else exactly that queue grows |
| `SignalHub.BroadcastReaches` | internal/signal/hub.go:53-68 | a broadcast never fails and reaches exactly the other registered devices of its room whose queue holds fewer than 32 |
| `SignalHub.RoomOf` | internal/signal/hub.go:44-52 | an envelope goes to its own room or, without one, to the room named by its two devices in order |
| `SignalHub.RepliesShareRoom` | internal/signal/hub.go:44-52 | two devices addressing each other without a room land in the same one |
| `Epochs.ValidityWindow` | internal/crypto/epoch.go:20-40 | usable exactly from id*86400 until (id+1)*86400 plus the grace asked for, 300 if none is, at most a day; and the one wrapped id |
| `Epochs.AgreeSymmetric` | internal/crypto/epoch.go:43-65 | the order of the ids does not matter |
| `Epochs.AgreeIffBothValid` | internal/crypto/epoch.go:27-65 | agreement exactly when both ids are usable, save one wrapped pair, and then on the smaller |
| `Epochs.AgreementWindow` | internal/crypto/epoch.go:43-65 | two ids agree exactly from the start of the newer day until the grace after the end of the older |
| `Epochs.AgreeRefusesWrappedPair` | internal/crypto/epoch.go:43-65 | the excluded pair is refused although both ids are usable |
| `Epochs.AgreeIgnoresClock` | internal/crypto/epoch.go:43-65 | two clocks that both accept a pair of ids name the same epoch |
| `DeviceClock.Corrected` | internal/device/clock.go:40-59 | an offset within two hours stays within two hours, even when the product wraps |
| `DeviceClock.Clock.ApplyKATime` | internal/device/clock.go:40-59 | the new offset, with both early returns and both clamps |
| `DeviceClock.OffsetBounded` | internal/device/clock.go:40-59 | after any reports at all, the offset is within two hours |
| `DeviceClock.SkewTest` | internal/device/clock.go:67-76 | the test is a difference of at most 120 s, or exactly -2^63 |
| `DeviceClock.MinimumPassesSkew` | internal/device/clock.go:67-76 | a client 2^63 seconds behind passes |
| `DeviceClock.CorrectionClosesSkew` | internal/device/clock.go:34-76 | the corrected time passes the test exactly for raw differences up to 7320 s; for equal seconds the old offset decides |
| `DeviceClock.CorrectionIsExact` | internal/device/clock.go:40-59 | a correction within two hours shows the KA's own second; a report that is not positive changes nothing |
| `DeviceClock.StaleOffsetFailsSkew` | internal/device/clock.go:47-49 | equal clocks and an old two-hour offset fail the test |
| `DeviceClock.SkewKeepsEpochHint` | internal/device/clock.go:62-76 | passing the skew test keeps the epoch hint within one of the KA's epoch |
| `Xoroshiro.Seeded` | internal/crypto/xoroshiro.go:18-30 | the seed is never all zero and is the hash whenever that is not |
| `Xoroshiro.Generator.NextU64` | internal/crypto/xoroshiro.go:37-46 | the assignments in place are one reversible step: the inverse step gives the old state back, and the result with the old first word gives the old second word back |
| `Xoroshiro.StepBijective` | internal/crypto/xoroshiro.go:32-46 | the step has an explicit inverse on both sides |
| `Xoroshiro.ReferenceOutputs` | internal/crypto/xoroshiro.go:32-46 | the first outputs from the state (1, 2) are those of the published generator |
| `Xoroshiro.RunsNeverMerge` | internal/crypto/xoroshiro.go:37-46 | different states never lead to the same one |
| `Xoroshiro.SeededRunNeverZero` | internal/crypto/xoroshiro.go:18-46 | no run from a seed reaches the all-zero state |
| `Xoroshiro.RepeatsFromTheSeed` | internal/crypto/xoroshiro.go:37-46 | a state sequence that repeats returns to its seed |
| `Octets.I2OSP` | internal/crypto/hkdf.go:21-28 | the downward loop produces the n low base-256 digits, most significant first |
| `Octets.NumberOfDigits` | internal/crypto/hkdf.go:21-28 | decoding gives the number modulo 256^n, so it round-trips exactly when the number fits |
| `Octets.DigitsOfNumber` | internal/crypto/hkdf.go:21-28 | every byte string is the encoding of its number |
| `Octets.Concat` | internal/crypto/hkdf.go:31-41 | the loops append all parts in order |

## Left out

- Secrecy, authenticity and any adversary: the theorems are about two honest parties over a faithful channel.
- The internals of X25519, HKDF, ChaCha20-Poly1305, Ed25519 and SHA-256: parameters; voucher code hashes and signature verdicts come from outside.
- The JSON text of messages and files: a codec parameter that round-trips.
- A JSON body that decodes into another message's fields in part: `decode` gives a message of one kind or nothing.
- HTTP plumbing, the admin token, status, health and listing handlers, the audit log, the admin pages and the update manifest.
- Failures to save or to reach the database, and loading an existing file or database.
- The PostgreSQL schema: the SQL rows follow the SQLite one.
- The order of lists: both backends list multisets.
- The pointers that the file registry hands out: `Authority` captures them as `live`, where deriving sees the current record; writes through them do not occur.
- Several Recv calls of one session at once: the source takes its lock twice in Recv, and the model runs one Recv at a time.
- A Session over a TCP connection: the model uses the data channel, which is harder on the reader.
- Deadlines, addresses and failing sends of the data channel.
- Handshakes whose parties have different strong profile names: theorems ask for equal effective profiles or, for progress, for the same branch.
- How long Subscribe waits: it gives up at any moment at which its queue is empty.
- Authority.NewVoucher: does not model the int64 overflow of a lifetime of more than 2562047 hours, because Go's durations end there.
- RequestID and PublicTag of the generator, which only slice its output.
- The device store, agent bookkeeping, dialing, ICE, TLS and the command-line programs.
- The SQL driver: it is taken to refuse unsigned values of 2^63 and more, as Go's database/sql does by default.
- Clock readings of the rate limiter: taken as given in order, as Go's monotonic readings under one lock are.
