/** The handshake as two state machines over FIFO channels: internal/p2p/session.go,
    handshakeInitiator and handshakeResponder.

    Each party has its own clock and its own random values. A party that fails closes its connection, as
    every caller of the two functions does, so its peer reads what was already written and then the end. */
module Handshake {
  import opened Octets
  import opened Crypto
  import opened Frames
  import opened Messages
  import opened KeySchedule
  import Epochs
  import Replay
  import Sessions

  /** Credentials, expectation, clock and random draws of one party. */
  datatype Party = Party(
    deviceID: Bytes, identitySK: Bytes, identityPK: Bytes, generalKey: Bytes, keySerial: uint64,
    epochID: uint64, profile: Bytes, peerDeviceID: Bytes,
    now: int64, ephSK: Bytes, sessionNonce: Bytes, offerNonce: Bytes)

  /** The suite, the codec and the two parties of one handshake. */
  datatype Setup = Setup(c: Suite, k: Codec, ini: Party, res: Party)

  datatype Initiator =
    | IStart
    | IWaitAck
    | IWaitOffer(ack: Msg, agreed: uint64, wrap: Bytes)
    | IDone(session: Sessions.State)
    | IFailed

  datatype Responder =
    | RWaitHello
    | RWaitOffer(hello: Msg, agreed: uint64, wrap: Bytes)
    | RDone(session: Sessions.State)
    | RFailed

  datatype Net = Net(i: Initiator, r: Responder, toR: seq<Msg>, toI: seq<Msg>)

  predicate Simple(p: Party) { EffectiveProfile(p.profile) == PROFILE_SIMPLE }

  predicate Writable(k: Codec, m: Msg) { Framable(k.encode(m)) }

  // ------------------------------------------------------------------ the two programs

  function OfferAAD(epoch: uint64, sender: Bytes): Bytes {
    Ascii("COE-v1-keyoffer") + Digits(epoch, 8) + sender
  }

  function SealGeneralKey(c: Suite, wrap: Bytes, p: Party, epoch: uint64): Option<Msg> {
    match Seal(c, wrap, p.offerNonce, OfferAAD(epoch, p.deviceID), p.generalKey)
    case None => None
    case Some(ct) => Some(KeyOffer(epoch, p.offerNonce, ct))
  }

  function OpenGeneralKey(c: Suite, wrap: Bytes, offer: Msg, epoch: uint64, sender: Bytes): Option<Bytes>
    requires offer.KeyOffer?
  {
    match Open(c, wrap, offer.nonce, OfferAAD(epoch, sender), offer.ciphertext)
    case None => None
    case Some(gk) => if |gk| != 32 then None else Some(gk)
  }

  function HelloOf(c: Suite, p: Party): Msg {
    Hello(1, p.deviceID, p.epochID, p.identityPK, c.pub(p.ephSK), p.sessionNonce, p.keySerial,
          EffectiveProfile(p.profile))
  }

  function AckOf(c: Suite, p: Party, accept: bool): Msg {
    HelloAck(1, p.deviceID, p.epochID, p.identityPK, c.pub(p.ephSK), p.sessionNonce, p.keySerial,
             EffectiveProfile(p.profile), accept)
  }

  function InitiatorParams(p: Party, ack: Msg, agreed: uint64, peerGK: Bytes): Params
    requires ack.HelloAck?
  {
    Params(agreed, p.deviceID, ack.deviceID, p.generalKey, peerGK, p.identitySK, ack.identityPK,
           p.ephSK, ack.ephPK, p.sessionNonce, ack.sessionNonce, EffectiveProfile(p.profile),
           if Simple(p) then p.generalKey else [], p.deviceID)
  }

  function ResponderParams(p: Party, hello: Msg, agreed: uint64, peerGK: Bytes): Params
    requires hello.Hello?
  {
    Params(agreed, hello.deviceID, p.deviceID, peerGK, p.generalKey, p.identitySK, hello.identityPK,
           p.ephSK, hello.ephPK, hello.sessionNonce, p.sessionNonce, EffectiveProfile(p.profile),
           if Simple(p) then p.generalKey else [], p.deviceID)
  }

  function Finish(c: Suite, p: Params, localID: Bytes, peerID: Bytes): Option<Sessions.State> {
    match DeriveSession(c, p)
    case None => None
    case Some(keys) => Some(Sessions.Established(localID, peerID, p.epoch, keys.localSend, keys.peerSend))
  }

  function InitiatorDone(c: Suite, p: Party, ack: Msg, agreed: uint64, peerGK: Bytes): Initiator
    requires ack.HelloAck?
  {
    match Finish(c, InitiatorParams(p, ack, agreed, peerGK), p.deviceID, ack.deviceID)
    case None => IFailed
    case Some(s) => IDone(s)
  }

  function ResponderDone(c: Suite, p: Party, hello: Msg, agreed: uint64, peerGK: Bytes): Responder
    requires hello.Hello?
  {
    match Finish(c, ResponderParams(p, hello, agreed, peerGK), p.deviceID, hello.deviceID)
    case None => RFailed
    case Some(s) => RDone(s)
  }

  /** Write m and go on to next, or fail if the frame is refused. */
  function IWrite(k: Codec, m: Msg, next: Initiator): (Initiator, seq<Msg>) {
    if Writable(k, m) then (next, [m]) else (IFailed, [])
  }

  /** The initiator on HELLO_ACK. */
  function OnAck(c: Suite, k: Codec, p: Party, ack: Msg): (Initiator, seq<Msg>) {
    if !ack.HelloAck? || !ack.accept then (IFailed, [])
    else if p.peerDeviceID != [] && ack.deviceID != p.peerDeviceID then (IFailed, [])
    else
      match Epochs.Agree(p.epochID, ack.epochID, p.now, Epochs.DEFAULT_GRACE)
      case None => (IFailed, [])
      case Some(agreed) =>
        if Simple(p) then (InitiatorDone(c, p, ack, agreed, p.generalKey), [])
        else
          match DeriveWrapKey(c, p.identitySK, ack.identityPK, p.ephSK, ack.ephPK,
                              p.sessionNonce, ack.sessionNonce, agreed, p.deviceID, ack.deviceID)
          case None => (IFailed, [])
          case Some(wrap) =>
            match SealGeneralKey(c, wrap, p, agreed)
            case None => (IFailed, [])
            case Some(offer) => IWrite(k, offer, IWaitOffer(ack, agreed, wrap))
  }

  /** The initiator on the responder's KEY_OFFER. */
  function OnPeerOffer(c: Suite, p: Party, w: Initiator, m: Msg): Initiator
    requires w.IWaitOffer?
  {
    if !m.KeyOffer? || !w.ack.HelloAck? then IFailed
    else
      match OpenGeneralKey(c, w.wrap, m, w.agreed, w.ack.deviceID)
      case None => IFailed
      case Some(gk) => InitiatorDone(c, p, w.ack, w.agreed, gk)
  }

  /** The responder after its accepting HELLO_ACK has been written. */
  function AfterAck(c: Suite, p: Party, hello: Msg, agreed: uint64): Responder
    requires hello.Hello?
  {
    if Simple(p) then ResponderDone(c, p, hello, agreed, p.generalKey)
    else
      match DeriveWrapKey(c, p.identitySK, hello.identityPK, p.ephSK, hello.ephPK,
                          hello.sessionNonce, p.sessionNonce, agreed, hello.deviceID, p.deviceID)
      case None => RFailed
      case Some(wrap) => RWaitOffer(hello, agreed, wrap)
  }

  /** A refusal is written if it fits a frame; the responder fails either way. */
  function Refuse(k: Codec, m: Msg): (Responder, seq<Msg>) {
    (RFailed, if Writable(k, m) then [m] else [])
  }

  /** The responder on HELLO. */
  function OnHello(c: Suite, k: Codec, p: Party, m: Msg): (Responder, seq<Msg>) {
    if !m.Hello? || m.ver != 1 then (RFailed, [])
    else if p.peerDeviceID != [] && m.deviceID != p.peerDeviceID then
      Refuse(k, HelloAck(0, p.deviceID, 0, [], [], [], 0, [], false))
    else
      match Epochs.Agree(m.epochID, p.epochID, p.now, Epochs.DEFAULT_GRACE)
      case None => Refuse(k, AckOf(c, p, false))
      case Some(agreed) =>
        var ack := AckOf(c, p, true);
        if Writable(k, ack) then (AfterAck(c, p, m, agreed), [ack]) else (RFailed, [])
  }

  /** The responder on the initiator's KEY_OFFER: open it, answer with its own, derive. */
  function OnOffer(c: Suite, k: Codec, p: Party, w: Responder, m: Msg): (Responder, seq<Msg>)
    requires w.RWaitOffer?
  {
    if !m.KeyOffer? || !w.hello.Hello? then (RFailed, [])
    else
      match OpenGeneralKey(c, w.wrap, m, w.agreed, w.hello.deviceID)
      case None => (RFailed, [])
      case Some(gk) =>
        match SealGeneralKey(c, w.wrap, p, w.agreed)
        case None => (RFailed, [])
        case Some(offer) =>
          if Writable(k, offer) then (ResponderDone(c, p, w.hello, w.agreed, gk), [offer]) else (RFailed, [])
  }

  // ------------------------------------------------------------------ interleaved execution

  const INIT := Net(IStart, RWaitHello, [], [])

  predicate IEnabled(n: Net) {
    n.i.IStart? || ((n.i.IWaitAck? || n.i.IWaitOffer?) && (n.toI != [] || n.r.RFailed?))
  }

  predicate REnabled(n: Net) {
    (n.r.RWaitHello? || n.r.RWaitOffer?) && (n.toR != [] || n.i.IFailed?)
  }

  /** One turn of the initiator: it runs up to its next read. */
  function ITurn(s: Setup, n: Net): Net
    requires IEnabled(n)
  {
    if n.i.IStart? then
      var (i, out) := IWrite(s.k, HelloOf(s.c, s.ini), IWaitAck);
      n.(i := i, toR := n.toR + out)
    else if n.toI == [] then n.(i := IFailed)
    else if n.i.IWaitAck? then
      var (i, out) := OnAck(s.c, s.k, s.ini, n.toI[0]);
      n.(i := i, toI := n.toI[1..], toR := n.toR + out)
    else n.(i := OnPeerOffer(s.c, s.ini, n.i, n.toI[0]), toI := n.toI[1..])
  }

  function RTurn(s: Setup, n: Net): Net
    requires REnabled(n)
  {
    if n.toR == [] then n.(r := RFailed)
    else if n.r.RWaitHello? then
      var (r, out) := OnHello(s.c, s.k, s.res, n.toR[0]);
      n.(r := r, toR := n.toR[1..], toI := n.toI + out)
    else
      var (r, out) := OnOffer(s.c, s.k, s.res, n.r, n.toR[0]);
      n.(r := r, toR := n.toR[1..], toI := n.toI + out)
  }

  datatype Turn = TurnI | TurnR

  /** A turn given to a party that must wait changes nothing. */
  function Step(s: Setup, n: Net, t: Turn): Net {
    match t
    case TurnI => if IEnabled(n) then ITurn(s, n) else n
    case TurnR => if REnabled(n) then RTurn(s, n) else n
  }

  function Run(s: Setup, schedule: seq<Turn>): Net {
    if schedule == [] then INIT
    else Step(s, Run(s, schedule[..|schedule| - 1]), schedule[|schedule| - 1])
  }

  predicate Ended(n: Net) {
    (n.i.IDone? || n.i.IFailed?) && (n.r.RDone? || n.r.RFailed?)
  }

  // ------------------------------------------------------------------ every run is the same run

  /** The one path all schedules follow. */
  function Path(s: Setup, m: nat): Net {
    if m == 0 then INIT
    else
      var n := Path(s, m - 1);
      if IEnabled(n) then ITurn(s, n) else if REnabled(n) then RTurn(s, n) else n
  }

  /** Both parties take the same branch, simple or not. */
  predicate SameBranch(s: Setup) { Simple(s.ini) <==> Simple(s.res) }

  /** One party is done and the other waits for a KEY_OFFER that the first one's branch does not have. */
  ghost predicate Hung(s: Setup, n: Net) {
    || (Simple(s.ini) && !Simple(s.res) && n.i.IDone? && n.r.RWaitOffer? && n.toR == [])
    || (!Simple(s.ini) && Simple(s.res) && n.i.IWaitOffer? && n.r.RDone? && n.toI == [])
  }

  /** The joint states after m moves. */
  ghost predicate Shape(s: Setup, m: nat, n: Net) {
    match m
    case 0 => n == INIT
    case 1 =>
      || n == Net(IWaitAck, RWaitHello, [HelloOf(s.c, s.ini)], [])
      || n == Net(IFailed, RWaitHello, [], [])
    case 2 =>
      || (n.i.IWaitAck? && n.toR == [] && (n.r, n.toI) == OnHello(s.c, s.k, s.res, HelloOf(s.c, s.ini)))
      || n == Net(IFailed, RFailed, [], [])
    case 3 =>
      && n.toI == []
      && (n.i.IDone? || n.i.IFailed? || (n.i.IWaitOffer? && |n.toR| == 1))
      && (!n.i.IWaitOffer? ==> n.toR == [])
      && (n.r.RFailed? || (n.r.RDone? && Simple(s.res)) || (n.r.RWaitOffer? && !Simple(s.res)))
      && (n.i.IDone? ==> Simple(s.ini)) && (n.i.IWaitOffer? ==> !Simple(s.ini))
    case 4 =>
      || (Ended(n) && n.toI == [])
      || Hung(s, n)
      || (n.i.IWaitOffer? && n.toR == [] && ((n.r.RDone? && |n.toI| == 1) || (n.r.RFailed? && |n.toI| <= 1)))
    case _ => Ended(n) || Hung(s, n)
  }

  lemma HelloOutcome(s: Setup)
    ensures
      var (r, out) := OnHello(s.c, s.k, s.res, HelloOf(s.c, s.ini));
      && (r.RFailed? || (r.RDone? && Simple(s.res)) || (r.RWaitOffer? && !Simple(s.res)))
      && |out| <= 1 && (!r.RFailed? ==> |out| == 1)
  {
    hide Epochs.Agree, DeriveWrapKey, Finish, EffectiveProfile;
  }

  lemma AckOutcome(s: Setup, m: Msg)
    ensures
      var (i, out) := OnAck(s.c, s.k, s.ini, m);
      && (i.IFailed? || (i.IDone? && Simple(s.ini)) || (i.IWaitOffer? && !Simple(s.ini)))
      && out == (if i.IWaitOffer? then out else []) && (i.IWaitOffer? ==> |out| == 1)
  {
    hide Epochs.Agree, DeriveWrapKey, Finish, SealGeneralKey, EffectiveProfile;
  }

  lemma OfferOutcome(s: Setup, w: Responder, m: Msg)
    requires w.RWaitOffer?
    ensures
      var (r, out) := OnOffer(s.c, s.k, s.res, w, m);
      (r.RDone? && |out| == 1) || (r.RFailed? && |out| <= 1)
  {
    hide Finish, SealGeneralKey, OpenGeneralKey;
  }

  lemma PeerOfferOutcome(s: Setup, w: Initiator, m: Msg)
    requires w.IWaitOffer?
    ensures var i := OnPeerOffer(s.c, s.ini, w, m); i.IDone? || i.IFailed?
  {
    hide Finish, OpenGeneralKey;
  }

  /** From each joint state at most one party can move, and its move leads to the next one; from the third
      state on, no move leads to a hang. */
  lemma ShapeStep(s: Setup, m: nat, n: Net)
    requires Shape(s, m, n)
    ensures !(IEnabled(n) && REnabled(n))
    ensures IEnabled(n) ==> Shape(s, m + 1, ITurn(s, n)) && (m >= 3 ==> !Hung(s, ITurn(s, n)))
    ensures REnabled(n) ==> Shape(s, m + 1, RTurn(s, n)) && (m >= 3 ==> !Hung(s, RTurn(s, n)))
    ensures !IEnabled(n) && !REnabled(n) <==> Ended(n) || Hung(s, n)
    ensures Ended(n) || Hung(s, n) ==> Shape(s, m + 1, n)
  {
    HelloOutcome(s);
    if n.toI != [] {
      AckOutcome(s, n.toI[0]);
      if n.i.IWaitOffer? {
        PeerOfferOutcome(s, n.i, n.toI[0]);
      }
    }
    if n.toR != [] && n.r.RWaitOffer? {
      OfferOutcome(s, n.r, n.toR[0]);
    }
    hide OnHello, OnAck, OnOffer, OnPeerOffer, Simple;
    if m == 1 && n.i.IWaitAck? {
      var (r, out) := OnHello(s.c, s.k, s.res, HelloOf(s.c, s.ini));
      assert [] + out == out;
      assert RTurn(s, n) == Net(IWaitAck, r, [], out);
    }
  }

  lemma {:induction false} PathShape(s: Setup, m: nat)
    ensures Shape(s, m, Path(s, m))
  {
    if m > 0 {
      PathShape(s, m - 1);
      ShapeStep(s, m - 1, Path(s, m - 1));
    }
  }

  lemma PathNext(s: Setup, m: nat)
    ensures
      var n := Path(s, m);
      Path(s, m + 1) == if IEnabled(n) then ITurn(s, n) else if REnabled(n) then RTurn(s, n) else n
  {
    hide ITurn, RTurn, IEnabled, REnabled;
  }

  predicate CanMove(n: Net, t: Turn) {
    if t.TurnI? then IEnabled(n) else REnabled(n)
  }

  lemma StepOnPath(s: Setup, m: nat, t: Turn)
    ensures Step(s, Path(s, m), t) == Path(s, if CanMove(Path(s, m), t) then m + 1 else m)
    ensures !CanMove(Path(s, m), TurnI) && !CanMove(Path(s, m), TurnR) ==> Path(s, m + 1) == Path(s, m)
  {
    PathShape(s, m);
    ShapeStep(s, m, Path(s, m));
    PathNext(s, m);
    hide Shape, Path, ITurn, RTurn, IEnabled, REnabled;
  }

  lemma {:induction false} RunOnPath(s: Setup, schedule: seq<Turn>) returns (m: nat)
    ensures Run(s, schedule) == Path(s, m)
  {
    if schedule == [] {
      m := 0;
    } else {
      m := RunOnPath(s, schedule[..|schedule| - 1]);
      StepOnPath(s, m, schedule[|schedule| - 1]);
      if CanMove(Path(s, m), schedule[|schedule| - 1]) {
        m := m + 1;
      }
    }
  }

  lemma {:induction false} StuckIsFinal(s: Setup, m: nat, m': nat)
    requires !IEnabled(Path(s, m)) && !REnabled(Path(s, m)) && m <= m'
    ensures Path(s, m') == Path(s, m)
  {
    if m < m' {
      StuckIsFinal(s, m, m' - 1);
    }
  }

  /** In every interleaving at most one party can move, and none can exactly when both have ended or the
      handshake hangs. */
  lemma StuckMeansEndedOrHung(s: Setup, schedule: seq<Turn>)
    ensures
      var n := Run(s, schedule);
      && !(IEnabled(n) && REnabled(n))
      && (!IEnabled(n) && !REnabled(n) <==> Ended(n) || Hung(s, n))
  {
    var m := RunOnPath(s, schedule);
    PathShape(s, m);
    ShapeStep(s, m, Path(s, m));
  }

  /** On the same branch no interleaving leaves both waiting: until both have ended, exactly one can move. */
  lemma NeverBothWaiting(s: Setup, schedule: seq<Turn>)
    requires SameBranch(s)
    ensures
      var n := Run(s, schedule);
      && !(IEnabled(n) && REnabled(n))
      && (Ended(n) <==> !IEnabled(n) && !REnabled(n))
  {
    StuckMeansEndedOrHung(s, schedule);
  }

  /** All interleavings that can go no further are in the same state. */
  lemma OutcomeIsUnique(s: Setup, schedule: seq<Turn>)
    requires !IEnabled(Run(s, schedule)) && !REnabled(Run(s, schedule))
    ensures Run(s, schedule) == Path(s, 5)
  {
    var m := RunOnPath(s, schedule);
    PathShape(s, 5);
    ShapeStep(s, 5, Path(s, 5));
    hide Path, Shape, Hung;
    if m <= 5 {
      StuckIsFinal(s, m, 5);
    } else {
      StuckIsFinal(s, 5, m);
    }
  }

  function InOrder(rounds: seq<seq<Turn>>): seq<Turn> {
    if rounds == [] then [] else InOrder(rounds[..|rounds| - 1]) + rounds[|rounds| - 1]
  }

  lemma RunSnoc(s: Setup, before: seq<Turn>, t: Turn)
    ensures Run(s, before + [t]) == Step(s, Run(s, before), t)
  {
    assert (before + [t])[..|before|] == before;
  }

  /** Every party that could move had a turn. */
  predicate Served(n: Net, round: seq<Turn>) {
    (TurnI in round || !CanMove(n, TurnI)) && (TurnR in round || !CanMove(n, TurnR))
  }

  /** A round that serves both parties moves along the path. */
  lemma {:induction false} RoundAdvances(s: Setup, before: seq<Turn>, round: seq<Turn>, m: nat) returns (m': nat)
    requires Run(s, before) == Path(s, m)
    ensures Run(s, before + round) == Path(s, m') && m <= m'
    ensures Served(Path(s, m), round) ==> m < m'
  {
    hide Run, Path, Step, CanMove;
    if round == [] {
      assert before + round == before;
      StepOnPath(s, m, TurnI);
      m' := if Served(Path(s, m), []) then m + 1 else m;
    } else {
      var front, last := round[..|round| - 1], round[|round| - 1];
      m' := RoundAdvances(s, before, front, m);
      assert round == front + [last] && before + round == (before + front) + [last];
      RunSnoc(s, before + front, last);
      StepOnPath(s, m', last);
      if CanMove(Path(s, m'), last) {
        m' := m' + 1;
      }
    }
  }

  lemma {:induction false} RoundsAdvance(s: Setup, rounds: seq<seq<Turn>>) returns (m: nat)
    requires forall i :: 0 <= i < |rounds| ==> TurnI in rounds[i] && TurnR in rounds[i]
    ensures Run(s, InOrder(rounds)) == Path(s, m) && m >= |rounds|
  {
    if rounds == [] {
      m := 0;
    } else {
      var front := rounds[..|rounds| - 1];
      m := RoundsAdvance(s, front);
      m := RoundAdvances(s, InOrder(front), rounds[|rounds| - 1], m);
    }
  }

  /** Every round gives both parties a turn. */
  predicate Fair(rounds: seq<seq<Turn>>) {
    forall i :: 0 <= i < |rounds| ==> TurnI in rounds[i] && TurnR in rounds[i]
  }

  /** Whatever the interleaving, five fair rounds reach the one outcome. */
  lemma FiveRoundsSettle(s: Setup, rounds: seq<seq<Turn>>)
    requires |rounds| >= 5 && Fair(rounds)
    ensures Run(s, InOrder(rounds)) == Path(s, 5)
  {
    var m := RoundsAdvance(s, rounds);
    PathShape(s, 5);
    ShapeStep(s, 5, Path(s, 5));
    hide Path, Shape, Hung;
    StuckIsFinal(s, 5, m);
  }

  /** Whatever the interleaving, five rounds in which both get a turn end the handshake. */
  lemma FiveRoundsEnd(s: Setup, rounds: seq<seq<Turn>>)
    requires SameBranch(s) && |rounds| >= 5 && Fair(rounds)
    ensures Ended(Run(s, InOrder(rounds)))
  {
    FiveRoundsSettle(s, rounds);
    PathShape(s, 5);
  }

  // ------------------------------------------------------------------ when it completes, and with what

  /** Random draws have the sizes the source asks for, and the identity keys are a pair. */
  ghost predicate Genuine(c: Suite, p: Party) {
    |p.offerNonce| == NONCE_SIZE && p.identityPK == c.pub(p.identitySK)
  }

  function AgreedI(s: Setup): Option<uint64> {
    Epochs.Agree(s.ini.epochID, s.res.epochID, s.ini.now, Epochs.DEFAULT_GRACE)
  }

  function AgreedR(s: Setup): Option<uint64> {
    Epochs.Agree(s.ini.epochID, s.res.epochID, s.res.now, Epochs.DEFAULT_GRACE)
  }

  /** HELLO and an accepting HELLO_ACK cross the wire. */
  predicate Greeted(s: Setup) {
    && Writable(s.k, HelloOf(s.c, s.ini)) && Writable(s.k, AckOf(s.c, s.res, true))
    && (s.res.peerDeviceID == [] || s.ini.deviceID == s.res.peerDeviceID)
    && AgreedR(s).Some?
  }

  /** The initiator is content with that HELLO_ACK. */
  predicate Content(s: Setup) {
    (s.ini.peerDeviceID == [] || s.res.deviceID == s.ini.peerDeviceID) && AgreedI(s).Some?
  }

  function Secrets(s: Setup): Option<Bytes> {
    SharedSecrets(s.c, s.ini.identitySK, s.res.identityPK, s.ini.ephSK, s.c.pub(s.res.ephSK))
  }

  function WrapKey(s: Setup, agreed: uint64, secrets: Bytes): Bytes {
    s.c.hkdf(secrets, ById(s.ini.deviceID, s.res.deviceID, s.ini.sessionNonce, s.res.sessionNonce),
             WrapInfo(agreed, s.ini.deviceID, s.res.deviceID))
  }

  function Offer(c: Suite, wrap: Bytes, p: Party, epoch: uint64): Msg {
    KeyOffer(epoch, p.offerNonce, c.seal(wrap, p.offerNonce, OfferAAD(epoch, p.deviceID), p.generalKey))
  }

  /** The offers both parties would write fit a frame. */
  predicate OffersFit(s: Setup) {
    AgreedI(s).Some? && Secrets(s).Some? &&
    var wrap := WrapKey(s, AgreedI(s).value, Secrets(s).value);
    Writable(s.k, Offer(s.c, wrap, s.ini, AgreedI(s).value)) && Writable(s.k, Offer(s.c, wrap, s.res, AgreedI(s).value))
  }

  /** What a strong handshake needs; everything in it is known from the two configurations. */
  predicate StrongCompletes(s: Setup) {
    Greeted(s) && Content(s) && Secrets(s).Some? && OffersFit(s) && |s.ini.generalKey| == 32 && |s.res.generalKey| == 32
  }

  lemma FirstTwoMoves(s: Setup)
    ensures Path(s, 2) ==
      if Writable(s.k, HelloOf(s.c, s.ini)) then
        var (r, out) := OnHello(s.c, s.k, s.res, HelloOf(s.c, s.ini));
        Net(IWaitAck, r, [], out)
      else Net(IFailed, RFailed, [], [])
  {
    hide OnHello, OnAck, OnOffer, OnPeerOffer, HelloOf, Writable;
    var hello := HelloOf(s.c, s.ini);
    var (r, out) := OnHello(s.c, s.k, s.res, hello);
    assert [] + out == out && [] + [hello] == [hello];
    assert Path(s, 0) == INIT;
    if Writable(s.k, hello) {
      assert Path(s, 1) == Net(IWaitAck, RWaitHello, [hello], []);
    } else {
      assert Path(s, 1) == Net(IFailed, RWaitHello, [], []);
    }
  }

  lemma GreetedHello(s: Setup)
    ensures Writable(s.k, HelloOf(s.c, s.ini)) ==>
      var (r, out) := OnHello(s.c, s.k, s.res, HelloOf(s.c, s.ini));
      if Greeted(s) then
        r == AfterAck(s.c, s.res, HelloOf(s.c, s.ini), AgreedR(s).value) && out == [AckOf(s.c, s.res, true)]
      else
        r == RFailed && (out == [] || (|out| == 1 && out[0].HelloAck? && !out[0].accept))
  {
    hide AfterAck, Writable, Epochs.Agree;
  }

  /** Without a greeting both parties fail. */
  lemma NoGreeting(s: Setup)
    requires !Greeted(s)
    ensures Path(s, 5).i == IFailed && Path(s, 5).r == RFailed
  {
    FirstTwoMoves(s);
    GreetedHello(s);
    var n := Path(s, 2);
    hide OnHello, OnOffer, OnPeerOffer, HelloOf, Greeted, Writable;
    assert n.r == RFailed;
    assert Path(s, 3).i == IFailed && Path(s, 3).r == RFailed;
    StuckIsFinal(s, 3, 5);
  }

  /** The state once the initiator has answered the greeting. */
  lemma ThirdMove(s: Setup)
    requires Greeted(s)
    ensures
      var (i, out) := OnAck(s.c, s.k, s.ini, AckOf(s.c, s.res, true));
      Path(s, 3) == Net(i, AfterAck(s.c, s.res, HelloOf(s.c, s.ini), AgreedR(s).value), out, [])
  {
    FirstTwoMoves(s);
    GreetedHello(s);
    var n := Path(s, 2);
    var ack := AckOf(s.c, s.res, true);
    hide OnHello, OnAck, OnOffer, OnPeerOffer, HelloOf, AckOf, AfterAck, Writable;
    var (i, out) := OnAck(s.c, s.k, s.ini, ack);
    assert n.toI == [ack] && n.i == IWaitAck && n.toR == [];
    assert [ack][1..] == [] && [] + out == out;
    assert IEnabled(n) && Path(s, 3) == ITurn(s, n);
  }

  lemma OneAgreement(s: Setup)
    requires AgreedI(s).Some? && AgreedR(s).Some?
    ensures AgreedI(s) == AgreedR(s)
  {
    Epochs.AgreeIgnoresClock(s.ini.epochID, s.res.epochID, s.ini.now, s.res.now, Epochs.DEFAULT_GRACE);
    Epochs.AgreeSymmetric(s.ini.epochID, s.res.epochID, s.res.now, Epochs.DEFAULT_GRACE);
  }

  /** Both parties compute the same wrap key, or neither computes one. */
  lemma WrapKeysAgree(s: Setup, agreed: uint64)
    requires DhCommutes(s.c) && Genuine(s.c, s.ini) && Genuine(s.c, s.res)
    ensures
      var expected := if Secrets(s).None? then None else Some(WrapKey(s, agreed, Secrets(s).value));
      && DeriveWrapKey(s.c, s.ini.identitySK, s.res.identityPK, s.ini.ephSK, s.c.pub(s.res.ephSK),
                       s.ini.sessionNonce, s.res.sessionNonce, agreed, s.ini.deviceID, s.res.deviceID) == expected
      && DeriveWrapKey(s.c, s.res.identitySK, s.ini.identityPK, s.res.ephSK, s.c.pub(s.ini.ephSK),
                       s.ini.sessionNonce, s.res.sessionNonce, agreed, s.ini.deviceID, s.res.deviceID) == expected
  {
    SecretsAgree(s.c, s.ini.identitySK, s.ini.ephSK, s.res.identitySK, s.res.ephSK);
    hide SharedSecrets, ById, WrapInfo;
  }

  /** A sealed general key opens to itself, if it has 32 bytes. */
  lemma OfferOpens(c: Suite, wrap: Bytes, p: Party, epoch: uint64)
    requires OpenInvertsSeal(c) && |wrap| == KEY_SIZE && Genuine(c, p)
    ensures SealGeneralKey(c, wrap, p, epoch) == Some(Offer(c, wrap, p, epoch))
    ensures OpenGeneralKey(c, wrap, Offer(c, wrap, p, epoch), epoch, p.deviceID) ==
      if |p.generalKey| == 32 then Some(p.generalKey) else None
  {
    hide OfferAAD;
  }

  /** Whether the initiator gets past the greeting to its offer, and what the responder awaits then. */
  predicate OfferSent(s: Setup) {
    Greeted(s) && Content(s) && Secrets(s).Some? &&
    Writable(s.k, Offer(s.c, WrapKey(s, AgreedI(s).value, Secrets(s).value), s.ini, AgreedI(s).value))
  }

  ghost predicate Strong(s: Setup) {
    Lawful(s.c) && Genuine(s.c, s.ini) && Genuine(s.c, s.res) && !Simple(s.ini) && !Simple(s.res)
  }

  lemma StrongThirdMove(s: Setup)
    requires Strong(s) && Greeted(s)
    ensures
      var n := Path(s, 3);
      if OfferSent(s) then
        var agreed := AgreedI(s).value;
        var wrap := WrapKey(s, agreed, Secrets(s).value);
        n == Net(IWaitOffer(AckOf(s.c, s.res, true), agreed, wrap),
                 RWaitOffer(HelloOf(s.c, s.ini), agreed, wrap), [Offer(s.c, wrap, s.ini, agreed)], [])
      else n.i == IFailed && n.toR == [] && n.toI == [] && (n.r == RFailed || n.r.RWaitOffer?)
  {
    ThirdMove(s);
    WrapKeysAgree(s, AgreedR(s).value);
    if AgreedI(s).Some? {
      OneAgreement(s);
      WrapKeysAgree(s, AgreedI(s).value);
      if Secrets(s).Some? {
        OfferOpens(s.c, WrapKey(s, AgreedI(s).value, Secrets(s).value), s.ini, AgreedI(s).value);
      }
    }
    hide DeriveWrapKey, WrapKey, Secrets, Offer, SealGeneralKey, Epochs.Agree, Simple, EffectiveProfile, Writable;
  }

  /** The responder's answer to the initiator's offer. */
  lemma OfferAnswered(s: Setup, hello: Msg, agreed: uint64, wrap: Bytes)
    requires Strong(s) && |wrap| == KEY_SIZE && hello.Hello? && hello.deviceID == s.ini.deviceID
    ensures OnOffer(s.c, s.k, s.res, RWaitOffer(hello, agreed, wrap), Offer(s.c, wrap, s.ini, agreed)) ==
      if |s.ini.generalKey| == 32 && Writable(s.k, Offer(s.c, wrap, s.res, agreed)) then
        (ResponderDone(s.c, s.res, hello, agreed, s.ini.generalKey), [Offer(s.c, wrap, s.res, agreed)])
      else (RFailed, [])
  {
    OfferOpens(s.c, wrap, s.ini, agreed);
    OfferOpens(s.c, wrap, s.res, agreed);
    hide SealGeneralKey, OpenGeneralKey, ResponderDone, Writable;
  }

  lemma AnswerOpened(s: Setup, ack: Msg, agreed: uint64, wrap: Bytes)
    requires Strong(s) && |wrap| == KEY_SIZE && ack.HelloAck? && ack.deviceID == s.res.deviceID
    ensures OnPeerOffer(s.c, s.ini, IWaitOffer(ack, agreed, wrap), Offer(s.c, wrap, s.res, agreed)) ==
      if |s.res.generalKey| == 32 then InitiatorDone(s.c, s.ini, ack, agreed, s.res.generalKey) else IFailed
  {
    OfferOpens(s.c, wrap, s.res, agreed);
    hide OpenGeneralKey, InitiatorDone;
  }

  /** The last two moves, given the responder's answer. */
  lemma LastMoves(s: Setup, wi: Initiator, wr: Responder, offer: Msg)
    requires wi.IWaitOffer? && wr.RWaitOffer? && Path(s, 3) == Net(wi, wr, [offer], [])
    ensures
      var (r, out) := OnOffer(s.c, s.k, s.res, wr, offer);
      && (out == [] && r == RFailed ==> Path(s, 5).i == IFailed && Path(s, 5).r == RFailed)
      && (|out| == 1 ==> Path(s, 5).i == OnPeerOffer(s.c, s.ini, wi, out[0]) && Path(s, 5).r == r)
  {
    hide OnHello, OnAck, OnOffer, OnPeerOffer;
    var (r, out) := OnOffer(s.c, s.k, s.res, wr, offer);
    assert [offer][1..] == [] && [] + out == out;
    assert Path(s, 4) == Net(wi, r, [], out);
  }

  lemma StrongLastMoves(s: Setup)
    requires Strong(s) && OfferSent(s)
    ensures
      var n := Path(s, 5);
      if StrongCompletes(s) then
        && n.i == InitiatorDone(s.c, s.ini, AckOf(s.c, s.res, true), AgreedI(s).value, s.res.generalKey)
        && n.r == ResponderDone(s.c, s.res, HelloOf(s.c, s.ini), AgreedI(s).value, s.ini.generalKey)
      else n.i == IFailed && n.r == RFailed
  {
    StrongThirdMove(s);
    var agreed := AgreedI(s).value;
    var wrap := WrapKey(s, agreed, Secrets(s).value);
    var hello, ack := HelloOf(s.c, s.ini), AckOf(s.c, s.res, true);
    var offerI := Offer(s.c, wrap, s.ini, agreed);
    OfferAnswered(s, hello, agreed, wrap);
    AnswerOpened(s, ack, agreed, wrap);
    LastMoves(s, IWaitOffer(ack, agreed, wrap), RWaitOffer(hello, agreed, wrap), offerI);
    if |s.res.generalKey| != 32 {
      ShortKeyFails(s, agreed, s.ini.generalKey);
    }
    hide Path, WrapKey, Secrets, Offer, HelloOf, AckOf, Writable, InitiatorDone, ResponderDone, OnOffer, OnPeerOffer,
         Greeted, Content, AgreedI, AgreedR;
  }

  lemma ShortKeyFails(s: Setup, agreed: uint64, gk: Bytes)
    requires !Simple(s.res) && |s.res.generalKey| != 32
    ensures ResponderDone(s.c, s.res, HelloOf(s.c, s.ini), agreed, gk) == RFailed
  {
  }

  /** A strong handshake completes exactly when the two configurations fit, and then on both sides. */
  lemma StrongOutcome(s: Setup)
    requires Strong(s)
    ensures
      var n := Path(s, 5);
      if StrongCompletes(s) then
        && n.i == InitiatorDone(s.c, s.ini, AckOf(s.c, s.res, true), AgreedI(s).value, s.res.generalKey)
        && n.r == ResponderDone(s.c, s.res, HelloOf(s.c, s.ini), AgreedI(s).value, s.ini.generalKey)
      else n.i == IFailed && n.r == RFailed
  {
    if !Greeted(s) {
      NoGreeting(s);
    } else if OfferSent(s) {
      StrongLastMoves(s);
    } else {
      StrongThirdMove(s);
      hide OnHello, OnAck, OnOffer, OnPeerOffer;
      assert Path(s, 4).i == IFailed && Path(s, 4).r == RFailed;
    }
  }

  // ------------------------------------------------------------------ the theorems

  lemma StrongParamsFit(s: Setup)
    requires Strong(s) && StrongCompletes(s)
    ensures
      var p := InitiatorParams(s.ini, AckOf(s.c, s.res, true), AgreedI(s).value, s.res.generalKey);
      DeriveSession(s.c, p).Some?
  {
    assert Secrets(s).Some?;
    hide SessionInfo, ById, SendKey, Epochs.Agree, WrapKey;
  }

  lemma ParamsAreTwoEnds(s: Setup, agreed: uint64)
    requires Genuine(s.c, s.ini) && Genuine(s.c, s.res)
    requires EffectiveProfile(s.ini.profile) == EffectiveProfile(s.res.profile) && !Simple(s.ini)
    ensures TwoEnds(s.c, InitiatorParams(s.ini, AckOf(s.c, s.res, true), agreed, s.res.generalKey),
                    ResponderParams(s.res, HelloOf(s.c, s.ini), agreed, s.ini.generalKey))
  {
    hide EffectiveProfile;
  }

  /** Two sessions with the same epoch whose keys match crosswise. */
  ghost predicate Matching(a: Sessions.State, b: Sessions.State) {
    && a == Sessions.Established(a.localID, a.peerID, a.epochID, a.sendKey, a.recvKey)
    && b == Sessions.Established(a.peerID, a.localID, a.epochID, a.recvKey, a.sendKey)
  }

  /** Strong profile, any two clocks, any interleaving: once both have ended, the initiator has completed
      exactly when the responder has, exactly when the configurations fit; and then their sessions match. */
  lemma StrongAgreement(s: Setup, schedule: seq<Turn>)
    requires Strong(s) && EffectiveProfile(s.ini.profile) == EffectiveProfile(s.res.profile)
    requires Ended(Run(s, schedule))
    ensures
      var n := Run(s, schedule);
      && (n.i.IDone? <==> StrongCompletes(s)) && (n.r.RDone? <==> StrongCompletes(s))
      && (n.i.IDone? ==> Matching(n.i.session, n.r.session)
                         && n.i.session.localID == s.ini.deviceID && n.i.session.peerID == s.res.deviceID)
  {
    OutcomeIsUnique(s, schedule);
    StrongOutcome(s);
    if StrongCompletes(s) {
      StrongParamsFit(s);
      ParamsAreTwoEnds(s, AgreedI(s).value);
      SessionKeysAgree(s.c, InitiatorParams(s.ini, AckOf(s.c, s.res, true), AgreedI(s).value, s.res.generalKey),
                       ResponderParams(s.res, HelloOf(s.c, s.ini), AgreedI(s).value, s.ini.generalKey));
      hide Path, Run, DeriveSession, StrongCompletes, AgreedI, TwoEnds, EffectiveProfile;
    }
  }

  /** The same statement at every moment: whenever both are done, their sessions match. */
  lemma StrongAlwaysMatches(s: Setup, schedule: seq<Turn>)
    requires Strong(s) && EffectiveProfile(s.ini.profile) == EffectiveProfile(s.res.profile)
    ensures
      var n := Run(s, schedule);
      n.i.IDone? && n.r.RDone? ==> Matching(n.i.session, n.r.session)
  {
    if Run(s, schedule).i.IDone? && Run(s, schedule).r.RDone? {
      StrongAgreement(s, schedule);
    }
  }

  /** Simple profile: each side completes on its own condition. */
  lemma SimpleOutcome(s: Setup, schedule: seq<Turn>)
    requires Simple(s.ini) && Simple(s.res) && Ended(Run(s, schedule))
    ensures
      var n := Run(s, schedule);
      && (n.r.RDone? <==> Greeted(s) && |s.res.generalKey| == 32)
      && (n.i.IDone? <==> Greeted(s) && Content(s) && |s.ini.generalKey| == 32)
      && (n.r.RDone? ==> n.r == ResponderDone(s.c, s.res, HelloOf(s.c, s.ini), AgreedR(s).value, s.res.generalKey))
      && (n.i.IDone? ==> n.i == InitiatorDone(s.c, s.ini, AckOf(s.c, s.res, true), AgreedI(s).value, s.ini.generalKey))
  {
    OutcomeIsUnique(s, schedule);
    if !Greeted(s) {
      NoGreeting(s);
    } else {
      ThirdMove(s);
      SimpleFinish(s, AgreedR(s).value);
      if AgreedI(s).Some? {
        SimpleFinish(s, AgreedI(s).value);
      }
      hide Run, Finish, InitiatorDone, ResponderDone, EffectiveProfile, Epochs.Agree, Greeted;
      assert Ended(Path(s, 3));
      StuckIsFinal(s, 3, 5);
    }
  }

  lemma SimpleFinish(s: Setup, agreed: uint64)
    requires Simple(s.ini) && Simple(s.res)
    ensures
      var i := InitiatorDone(s.c, s.ini, AckOf(s.c, s.res, true), agreed, s.ini.generalKey);
      var r := ResponderDone(s.c, s.res, HelloOf(s.c, s.ini), agreed, s.res.generalKey);
      && (i == IFailed || i.IDone?) && (i.IDone? <==> |s.ini.generalKey| == 32)
      && (r == RFailed || r.RDone?) && (r.RDone? <==> |s.res.generalKey| == 32)
  {
  }

  function SimpleRoot(s: Setup, gk: Bytes, agreed: uint64): Bytes {
    s.c.hkdf(gk, ById(s.ini.deviceID, s.res.deviceID, s.ini.sessionNonce, s.res.sessionNonce),
             SessionInfo(agreed, s.ini.deviceID, s.res.deviceID, PROFILE_SIMPLE))
  }

  lemma SimpleKeys(s: Setup, agreed: uint64)
    requires Simple(s.ini) && Simple(s.res) && |s.ini.generalKey| == 32 && |s.res.generalKey| == 32
    ensures
      var i := InitiatorDone(s.c, s.ini, AckOf(s.c, s.res, true), agreed, s.ini.generalKey);
      var r := ResponderDone(s.c, s.res, HelloOf(s.c, s.ini), agreed, s.res.generalKey);
      var rootI, rootR := SimpleRoot(s, s.ini.generalKey, agreed), SimpleRoot(s, s.res.generalKey, agreed);
      && i == IDone(Sessions.Established(s.ini.deviceID, s.res.deviceID, agreed,
                      SendKey(s.c, rootI, s.ini.deviceID), SendKey(s.c, rootI, s.res.deviceID)))
      && r == RDone(Sessions.Established(s.res.deviceID, s.ini.deviceID, agreed,
                      SendKey(s.c, rootR, s.res.deviceID), SendKey(s.c, rootR, s.ini.deviceID)))
  {
    hide ById, SessionInfo, SendKey;
  }

  /** Simple profile, both complete: the sessions match if and only if both hold the same org day key
      (for "only if", HKDF must not collide on the inputs at hand). */
  lemma SimpleAgreement(s: Setup, schedule: seq<Turn>)
    requires Simple(s.ini) && Simple(s.res)
    requires Run(s, schedule).i.IDone? && Run(s, schedule).r.RDone?
    requires AgreedI(s).Some? ==>
      var salt := ById(s.ini.deviceID, s.res.deviceID, s.ini.sessionNonce, s.res.sessionNonce);
      var info := SessionInfo(AgreedI(s).value, s.ini.deviceID, s.res.deviceID, PROFILE_SIMPLE);
      var rootI := SimpleRoot(s, s.ini.generalKey, AgreedI(s).value);
      var rootR := SimpleRoot(s, s.res.generalKey, AgreedI(s).value);
      && NoCollision(s.c, (s.ini.generalKey, salt, info), (s.res.generalKey, salt, info))
      && NoCollision(s.c, (rootI, ZERO_SALT, SendInfo(s.ini.deviceID)), (rootR, ZERO_SALT, SendInfo(s.ini.deviceID)))
    ensures Matching(Run(s, schedule).i.session, Run(s, schedule).r.session) <==> s.ini.generalKey == s.res.generalKey
  {
    SimpleOutcome(s, schedule);
    OneAgreement(s);
    SimpleKeys(s, AgreedI(s).value);
    hide Run, InitiatorDone, ResponderDone, ById, SessionInfo, SendInfo, Epochs.Agree, EffectiveProfile;
  }

  /** The same org day key suffices, whatever HKDF does. */
  lemma SimpleSameKeyMatches(s: Setup, schedule: seq<Turn>)
    requires Simple(s.ini) && Simple(s.res) && s.ini.generalKey == s.res.generalKey
    requires Run(s, schedule).i.IDone? && Run(s, schedule).r.RDone?
    ensures Matching(Run(s, schedule).i.session, Run(s, schedule).r.session)
  {
    SimpleOutcome(s, schedule);
    OneAgreement(s);
    SimpleKeys(s, AgreedI(s).value);
    hide Run, InitiatorDone, ResponderDone, ById, SessionInfo, SendInfo, Epochs.Agree, EffectiveProfile;
  }

  // ------------------------------------------------------------------ when it hangs

  function InitiatorWrap(s: Setup): Option<Bytes> {
    if AgreedI(s).None? then None
    else DeriveWrapKey(s.c, s.ini.identitySK, s.res.identityPK, s.ini.ephSK, s.c.pub(s.res.ephSK),
                       s.ini.sessionNonce, s.res.sessionNonce, AgreedI(s).value, s.ini.deviceID, s.res.deviceID)
  }

  function ResponderWrap(s: Setup): Option<Bytes> {
    if AgreedR(s).None? then None
    else DeriveWrapKey(s.c, s.res.identitySK, s.ini.identityPK, s.res.ephSK, s.c.pub(s.ini.ephSK),
                       s.ini.sessionNonce, s.res.sessionNonce, AgreedR(s).value, s.ini.deviceID, s.res.deviceID)
  }

  /** The initiator can write its KEY_OFFER. */
  predicate CanOffer(s: Setup) {
    && AgreedI(s).Some? && InitiatorWrap(s).Some?
    && var offer := SealGeneralKey(s.c, InitiatorWrap(s).value, s.ini, AgreedI(s).value);
    offer.Some? && Writable(s.k, offer.value)
  }

  /** The two configurations get through the greeting on different branches, and neither fails by itself: the
      simple one has a day key to finish with, the strong one all it needs to wait for an offer. */
  predicate Hangs(s: Setup) {
    && Greeted(s) && Content(s)
    && (if Simple(s.ini) then !Simple(s.res) && |s.ini.generalKey| == 32 && ResponderWrap(s).Some?
        else Simple(s.res) && |s.res.generalKey| == 32 && CanOffer(s))
  }

  lemma SimpleInitiatorEnds(s: Setup)
    requires Simple(s.ini)
    ensures
      var (i, out) := OnAck(s.c, s.k, s.ini, AckOf(s.c, s.res, true));
      out == [] && (i.IDone? || i.IFailed?) && (i.IDone? <==> Content(s) && |s.ini.generalKey| == 32)
  {
    hide Epochs.Agree;
  }

  lemma StrongInitiatorWaits(s: Setup)
    requires !Simple(s.ini)
    ensures
      var (i, _) := OnAck(s.c, s.k, s.ini, AckOf(s.c, s.res, true));
      (i.IWaitOffer? || i.IFailed?) && (i.IWaitOffer? <==> Content(s) && CanOffer(s))
  {
    hide Epochs.Agree, EffectiveProfile, DeriveWrapKey, SealGeneralKey, Writable;
  }

  lemma ResponderAfterAck(s: Setup)
    requires AgreedR(s).Some?
    ensures
      var r := AfterAck(s.c, s.res, HelloOf(s.c, s.ini), AgreedR(s).value);
      if Simple(s.res) then (r.RDone? || r.RFailed?) && (r.RDone? <==> |s.res.generalKey| == 32)
      else (r.RWaitOffer? || r.RFailed?) && (r.RWaitOffer? <==> ResponderWrap(s).Some?)
  {
    hide Epochs.Agree, DeriveWrapKey;
  }

  /** After the third move the condition on the configurations decides. */
  lemma HungAtThird(s: Setup)
    requires Greeted(s)
    ensures Hung(s, Path(s, 3)) <==> Hangs(s)
  {
    ThirdMove(s);
    ResponderAfterAck(s);
    if Simple(s.ini) {
      SimpleInitiatorEnds(s);
    } else {
      StrongInitiatorWaits(s);
    }
    hide Path, OnAck, AfterAck, HelloOf, AckOf, Content, CanOffer, ResponderWrap, Simple;
  }

  lemma {:induction false} HungSinceThird(s: Setup, m: nat)
    requires m >= 3 && Hung(s, Path(s, m))
    ensures Hung(s, Path(s, 3))
  {
    if m > 3 {
      PathShape(s, m - 1);
      ShapeStep(s, m - 1, Path(s, m - 1));
      PathNext(s, m - 1);
      hide Path, Shape, Hung, ITurn, RTurn, IEnabled, REnabled;
      HungSinceThird(s, m - 1);
    }
  }

  /** The outcome of any handshake: it hangs exactly under the condition on the configurations. */
  lemma OutcomeHangsIff(s: Setup)
    ensures Hung(s, Path(s, 5)) <==> Hangs(s)
    ensures Ended(Path(s, 5)) <==> !Hangs(s)
  {
    PathShape(s, 5);
    PathShape(s, 3);
    ShapeStep(s, 3, Path(s, 3));
    assert !(Ended(Path(s, 5)) && Hung(s, Path(s, 5)));
    hide Path, Hung, Hangs;
    if Greeted(s) {
      HungAtThird(s);
      if Hung(s, Path(s, 5)) {
        HungSinceThird(s, 5);
      }
      if Hung(s, Path(s, 3)) {
        StuckIsFinal(s, 3, 5);
      }
    } else {
      NoGreeting(s);
      NotGreetedNotHanging(s);
    }
  }

  lemma NotGreetedNotHanging(s: Setup)
    requires !Greeted(s)
    ensures !Hangs(s)
  {
  }

  /** For every pair of configurations and every fair schedule: the handshake ends if and only if the
      configurations do not hang. */
  lemma EndsIffNotHanging(s: Setup, rounds: seq<seq<Turn>>)
    requires |rounds| >= 5 && Fair(rounds)
    ensures Ended(Run(s, InOrder(rounds))) <==> !Hangs(s)
  {
    FiveRoundsSettle(s, rounds);
    OutcomeHangsIff(s);
    hide Run, Path, Hangs;
  }

  lemma NeverEnds(s: Setup, schedule: seq<Turn>)
    requires Hangs(s)
    ensures !Ended(Run(s, schedule))
  {
    OutcomeHangsIff(s);
    hide Run, Path, Hangs;
    if Ended(Run(s, schedule)) {
      OutcomeIsUnique(s, schedule);
    }
  }

  /** Both mixed cases: one party is done and the other waits for ever, in every fair schedule, and no
      schedule at all ends. */
  lemma MixedBranchesHang(s: Setup, rounds: seq<seq<Turn>>, schedule: seq<Turn>)
    requires Hangs(s) && |rounds| >= 5 && Fair(rounds)
    ensures
      var n := Run(s, InOrder(rounds));
      && !IEnabled(n) && !REnabled(n)
      && (if Simple(s.ini) then n.i.IDone? && n.r.RWaitOffer? else n.i.IWaitOffer? && n.r.RDone?)
    ensures !Ended(Run(s, schedule))
  {
    FiveRoundsSettle(s, rounds);
    OutcomeHangsIff(s);
    NeverEnds(s, schedule);
    hide Run, Path, Hangs, Simple;
  }

  /** Two strong parties that complete, one of them switched to simple: as long as the greeting still fits a
      frame, the pair hangs. */
  lemma SwitchedPartyHangs(s: Setup, t: Setup)
    requires Strong(s) && StrongCompletes(s) && Greeted(t)
    requires || t == s.(ini := s.ini.(profile := PROFILE_SIMPLE))
             || t == s.(res := s.res.(profile := PROFILE_SIMPLE))
    ensures Hangs(t)
  {
    OneAgreement(s);
    WrapKeysAgree(s, AgreedI(s).value);
    OfferOpens(s.c, WrapKey(s, AgreedI(s).value, Secrets(s).value), s.ini, AgreedI(s).value);
    hide DeriveWrapKey, SealGeneralKey, Epochs.Agree, Writable, WrapKey, Secrets, Greeted;
    assert AgreedI(t) == AgreedI(s) && AgreedR(t) == AgreedR(s);
    assert InitiatorWrap(t) == InitiatorWrap(s) && ResponderWrap(t) == ResponderWrap(s);
  }

  // ------------------------------------------------------------------ messages from anyone
  //
  // Nothing here assumes that the messages come from the peer's machine.

  lemma OfferAADBinds(e: uint64, s: Bytes, e': uint64, s': Bytes)
    ensures OfferAAD(e, s) == OfferAAD(e', s') <==> e == e' && s == s'
  {
    hide Digits;
    var tag := Ascii("COE-v1-keyoffer");
    if OfferAAD(e, s) == OfferAAD(e', s') {
      SplitUnique(tag + Digits(e, 8), s, tag + Digits(e', 8), s');
      SplitUnique(tag, Digits(e, 8), tag, Digits(e', 8));
      WordsDiffer(e, e');
    }
  }

  /** The offer is a KEY_OFFER whose ciphertext opens, under this wrap key and bound to this epoch and sender, to a
      general key of 32 bytes. */
  ghost predicate GoodOffer(c: Suite, wrap: Bytes, m: Msg, epoch: uint64, sender: Bytes) {
    && m.KeyOffer? && |wrap| == 32 && |m.nonce| == 12
    && exists gk :: c.open(wrap, m.nonce, OfferAAD(epoch, sender), m.ciphertext) == Some(gk) && |gk| == 32
  }

  lemma OpenedOfferIsGood(c: Suite, wrap: Bytes, m: Msg, epoch: uint64, sender: Bytes)
    requires m.KeyOffer?
    ensures OpenGeneralKey(c, wrap, m, epoch, sender).Some? <==> GoodOffer(c, wrap, m, epoch, sender)
  {
    hide OfferAAD;
  }

  /** The responder's end of a handshake, given any first and second message. */
  function ResponderOn(c: Suite, k: Codec, p: Party, hello: Msg, offer: Msg): Responder {
    var (r, _) := OnHello(c, k, p, hello);
    if r.RWaitOffer? then OnOffer(c, k, p, r, offer).0 else r
  }

  /** Whoever sent the messages: a responder that completes has seen a version 1 HELLO of the expected device, with
      an epoch it agrees to, and outside the simple profile a good offer under the wrap key of that HELLO. Its
      session names that device and that epoch. */
  lemma ResponderTrusts(c: Suite, k: Codec, p: Party, hello: Msg, offer: Msg)
    requires ResponderOn(c, k, p, hello, offer).RDone?
    ensures hello.Hello? && hello.ver == 1 && (p.peerDeviceID != [] ==> hello.deviceID == p.peerDeviceID)
    ensures
      var s := ResponderOn(c, k, p, hello, offer).session;
      && Epochs.Agree(hello.epochID, p.epochID, p.now, 300) == Some(s.epochID)
      && s.localID == p.deviceID && s.peerID == hello.deviceID
      && s.nextSeq == 0 && s.window == Replay.New(128) && !s.closed
    ensures Simple(p) ==> |p.generalKey| == 32
    ensures !Simple(p) ==>
      var s := ResponderOn(c, k, p, hello, offer).session;
      var wrap := DeriveWrapKey(c, p.identitySK, hello.identityPK, p.ephSK, hello.ephPK,
                                hello.sessionNonce, p.sessionNonce, s.epochID, hello.deviceID, p.deviceID);
      wrap.Some? && GoodOffer(c, wrap.value, offer, s.epochID, hello.deviceID)
  {
    var (r, _) := OnHello(c, k, p, hello);
    if r.RWaitOffer? && offer.KeyOffer? {
      OpenedOfferIsGood(c, r.wrap, offer, r.agreed, hello.deviceID);
    }
    hide OpenGeneralKey, GoodOffer, DeriveWrapKey, Epochs.Agree, SealGeneralKey, Writable, SendKey, SessionInfo, ById;
  }

  function InitiatorOn(c: Suite, k: Codec, p: Party, ack: Msg, offer: Msg): Initiator {
    var (i, _) := OnAck(c, k, p, ack);
    if i.IWaitOffer? then OnPeerOffer(c, p, i, offer) else i
  }

  /** The same for the initiator: an accepting HELLO_ACK of the expected device, with an epoch it agrees to, and
      outside the simple profile a good offer. */
  lemma InitiatorTrusts(c: Suite, k: Codec, p: Party, ack: Msg, offer: Msg)
    requires InitiatorOn(c, k, p, ack, offer).IDone?
    ensures ack.HelloAck? && ack.accept && (p.peerDeviceID != [] ==> ack.deviceID == p.peerDeviceID)
    ensures
      var s := InitiatorOn(c, k, p, ack, offer).session;
      && Epochs.Agree(p.epochID, ack.epochID, p.now, 300) == Some(s.epochID)
      && s.localID == p.deviceID && s.peerID == ack.deviceID
      && s.nextSeq == 0 && s.window == Replay.New(128) && !s.closed
    ensures Simple(p) ==> |p.generalKey| == 32
    ensures !Simple(p) ==>
      var s := InitiatorOn(c, k, p, ack, offer).session;
      var wrap := DeriveWrapKey(c, p.identitySK, ack.identityPK, p.ephSK, ack.ephPK,
                                p.sessionNonce, ack.sessionNonce, s.epochID, p.deviceID, ack.deviceID);
      wrap.Some? && GoodOffer(c, wrap.value, offer, s.epochID, ack.deviceID)
  {
    var (i, _) := OnAck(c, k, p, ack);
    if i.IWaitOffer? && offer.KeyOffer? {
      OpenedOfferIsGood(c, i.wrap, offer, i.agreed, ack.deviceID);
    }
    hide OpenGeneralKey, GoodOffer, DeriveWrapKey, Epochs.Agree, SealGeneralKey, Writable, SendKey, SessionInfo, ById;
  }

  /** The responder answers a HELLO with acceptance exactly when the device is expected and the epochs agree; in
      seconds, from the start of the newer of the two days until 300 seconds after the end of the older. */
  lemma AcceptanceWindow(c: Suite, k: Codec, p: Party, hello: Msg)
    requires hello.Hello? && Writable(k, AckOf(c, p, true))
    requires 0 <= p.now < I63 - 300 && hello.epochID != Epochs.LAST_ID && p.epochID != Epochs.LAST_ID
    ensures
      var (_, out) := OnHello(c, k, p, hello);
      out == [AckOf(c, p, true)] <==>
        && hello.ver == 1 && (p.peerDeviceID != [] ==> hello.deviceID == p.peerDeviceID)
        && Epochs.Max(hello.epochID, p.epochID) * 86400 <= p.now
        && p.now < (Epochs.Min(hello.epochID, p.epochID) + 1) * 86400 + 300
  {
    Epochs.AgreementWindow(hello.epochID, p.epochID, p.now, Epochs.DEFAULT_GRACE);
    hide AfterAck, Epochs.Agree, Writable, EffectiveProfile;
  }
}
