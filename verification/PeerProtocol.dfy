/** From two configurations to delivered messages: the handshake's sessions feed the delivery theorems. */
module PeerProtocol {
  import opened Octets
  import opened Crypto
  import opened Messages
  import opened KeySchedule
  import Sessions
  import H = Handshake
  import D = Delivery

  /** Matching sessions are what the delivery theorems start from. */
  lemma MatchingIsPaired(a: Sessions.State, b: Sessions.State)
    requires H.Matching(a, b)
    ensures D.Paired(a, b)
  {
  }

  /** Any strong handshake that completes, over any schedule and any two clocks, gives two sessions over
      which everything received is, in order, a prefix of everything sent, in both directions. */
  lemma StrongSessionDelivers(s: H.Setup, schedule: seq<H.Turn>, acts: seq<D.Action>)
    requires RoundTrips(s.k)
    requires H.Strong(s) && EffectiveProfile(s.ini.profile) == EffectiveProfile(s.res.profile)
    requires H.Run(s, schedule).i.IDone? && H.Run(s, schedule).r.RDone?
    requires D.SendCount(acts, D.A) <= U64 - Sessions.WINDOW_SIZE
    requires D.SendCount(acts, D.B) <= U64 - Sessions.WINDOW_SIZE
    ensures
      var n := H.Run(s, schedule);
      n.i.session.window.size > 0 && n.r.session.window.size > 0 &&
      var y := D.Run(s.c, s.k, D.Start(n.i.session, n.r.session), acts);
      && y.ab.sent == y.ab.got + D.Texts(y.ab.flight)
      && y.ba.sent == y.ba.got + D.Texts(y.ba.flight)
  {
    H.StrongAlwaysMatches(s, schedule);
    var n := H.Run(s, schedule);
    MatchingIsPaired(n.i.session, n.r.session);
    D.EndToEnd(s.c, s.k, n.i.session, n.r.session, acts);
  }

  /** The same for simple handshakes of two devices that hold the same org day key. */
  lemma SimpleSessionDelivers(s: H.Setup, schedule: seq<H.Turn>, acts: seq<D.Action>)
    requires RoundTrips(s.k) && OpenInvertsSeal(s.c)
    requires H.Simple(s.ini) && H.Simple(s.res) && s.ini.generalKey == s.res.generalKey
    requires H.Run(s, schedule).i.IDone? && H.Run(s, schedule).r.RDone?
    requires D.SendCount(acts, D.A) <= U64 - Sessions.WINDOW_SIZE
    requires D.SendCount(acts, D.B) <= U64 - Sessions.WINDOW_SIZE
    ensures
      var n := H.Run(s, schedule);
      n.i.session.window.size > 0 && n.r.session.window.size > 0 &&
      var y := D.Run(s.c, s.k, D.Start(n.i.session, n.r.session), acts);
      && y.ab.sent == y.ab.got + D.Texts(y.ab.flight)
      && y.ba.sent == y.ba.got + D.Texts(y.ba.flight)
  {
    H.SimpleSameKeyMatches(s, schedule);
    var n := H.Run(s, schedule);
    MatchingIsPaired(n.i.session, n.r.session);
    D.EndToEnd(s.c, s.k, n.i.session, n.r.session, acts);
  }

  lemma StrongSendKeys(s: H.Setup, schedule: seq<H.Turn>) returns (root: Bytes)
    requires H.Strong(s) && EffectiveProfile(s.ini.profile) == EffectiveProfile(s.res.profile)
    requires H.Run(s, schedule).i.IDone? && H.Run(s, schedule).r.RDone?
    ensures
      var n := H.Run(s, schedule);
      && n.i.session.sendKey == SendKey(s.c, root, s.ini.deviceID)
      && n.r.session.sendKey == SendKey(s.c, root, s.res.deviceID)
      && Some(root) == StrongRoot(s)
  {
    H.OutcomeIsUnique(s, schedule);
    H.StrongAgreement(s, schedule);
    H.StrongOutcome(s);
    var p := H.InitiatorParams(s.ini, H.AckOf(s.c, s.res, true), H.AgreedI(s).value, s.res.generalKey);
    H.StrongParamsFit(s);
    root := DeriveSession(s.c, p).value.root;
    hide H.Run, H.Path, H.StrongCompletes, SendKey, Root, Ikm, H.AgreedI;
  }

  /** The session root both parties of a completed strong handshake derive. */
  function StrongRoot(s: H.Setup): Option<Bytes> {
    if H.AgreedI(s).None? then None
    else
      var p := H.InitiatorParams(s.ini, H.AckOf(s.c, s.res, true), H.AgreedI(s).value, s.res.generalKey);
      match DeriveSession(s.c, p)
      case None => None
      case Some(keys) => Some(keys.root)
  }

  /** Over a whole strong session with different device ids, no (key, nonce) pair seals two records. */
  lemma StrongSessionNeverReusesNonce(s: H.Setup, schedule: seq<H.Turn>, acts: seq<D.Action>, i: nat, j: nat)
    requires H.Strong(s) && EffectiveProfile(s.ini.profile) == EffectiveProfile(s.res.profile)
    requires H.Run(s, schedule).i.IDone? && H.Run(s, schedule).r.RDone?
    requires s.ini.deviceID != s.res.deviceID
    requires StrongRoot(s).Some? ==>
      NoCollision(s.c, (StrongRoot(s).value, ZERO_SALT, SendInfo(s.ini.deviceID)),
                    (StrongRoot(s).value, ZERO_SALT, SendInfo(s.res.deviceID)))
    requires D.SendCount(acts, D.A) < U64 && D.SendCount(acts, D.B) < U64
    ensures
      var n := H.Run(s, schedule);
      n.i.session.window.size > 0 && n.r.session.window.size > 0 &&
      var seals := D.Run(s.c, s.k, D.Start(n.i.session, n.r.session), acts).seals;
      i < j < |seals| ==> seals[i] != seals[j]
  {
    H.StrongAlwaysMatches(s, schedule);
    var n := H.Run(s, schedule);
    MatchingIsPaired(n.i.session, n.r.session);
    var root := StrongSendKeys(s, schedule);
    DirectionsHaveDistinctKeys(s.c, root, s.ini.deviceID, s.res.deviceID);
    if i < j < |D.Run(s.c, s.k, D.Start(n.i.session, n.r.session), acts).seals| {
      D.NonceNeverReused(s.c, s.k, n.i.session, n.r.session, acts, i, j);
    }
  }

  /** The send keys of both sides of a completed simple handshake of two holders of one day key. */
  lemma SimpleSendKeys(s: H.Setup, schedule: seq<H.Turn>) returns (root: Bytes)
    requires H.Simple(s.ini) && H.Simple(s.res) && s.ini.generalKey == s.res.generalKey
    requires H.Run(s, schedule).i.IDone? && H.Run(s, schedule).r.RDone?
    ensures
      var n := H.Run(s, schedule);
      && n.i.session.sendKey == SendKey(s.c, root, s.ini.deviceID)
      && n.r.session.sendKey == SendKey(s.c, root, s.res.deviceID)
      && H.AgreedI(s).Some? && root == H.SimpleRoot(s, s.ini.generalKey, H.AgreedI(s).value)
  {
    H.SimpleOutcome(s, schedule);
    H.OneAgreement(s);
    H.SimpleKeys(s, H.AgreedI(s).value);
    root := H.SimpleRoot(s, s.ini.generalKey, H.AgreedI(s).value);
    hide H.Run, H.InitiatorDone, H.ResponderDone, H.SimpleRoot, SendKey, H.AgreedI, H.Simple;
  }

  /** The same over a whole simple session of two different devices with one org day key. */
  lemma SimpleSessionNeverReusesNonce(s: H.Setup, schedule: seq<H.Turn>, acts: seq<D.Action>, i: nat, j: nat)
    requires H.Simple(s.ini) && H.Simple(s.res) && s.ini.generalKey == s.res.generalKey
    requires H.Run(s, schedule).i.IDone? && H.Run(s, schedule).r.RDone?
    requires s.ini.deviceID != s.res.deviceID
    requires H.AgreedI(s).Some? ==>
      var root := H.SimpleRoot(s, s.ini.generalKey, H.AgreedI(s).value);
      NoCollision(s.c, (root, ZERO_SALT, SendInfo(s.ini.deviceID)), (root, ZERO_SALT, SendInfo(s.res.deviceID)))
    requires D.SendCount(acts, D.A) < U64 && D.SendCount(acts, D.B) < U64
    ensures
      var n := H.Run(s, schedule);
      n.i.session.window.size > 0 && n.r.session.window.size > 0 &&
      var seals := D.Run(s.c, s.k, D.Start(n.i.session, n.r.session), acts).seals;
      i < j < |seals| ==> seals[i] != seals[j]
  {
    H.SimpleSameKeyMatches(s, schedule);
    var n := H.Run(s, schedule);
    MatchingIsPaired(n.i.session, n.r.session);
    var root := SimpleSendKeys(s, schedule);
    DirectionsHaveDistinctKeys(s.c, root, s.ini.deviceID, s.res.deviceID);
    if i < j < |D.Run(s.c, s.k, D.Start(n.i.session, n.r.session), acts).seals| {
      D.NonceNeverReused(s.c, s.k, n.i.session, n.r.session, acts, i, j);
    }
  }

  /** Different ids are needed: in any completed handshake of two devices with one id, in either profile, the
      first records of the two sides are sealed under the same key and nonce. */
  lemma EqualIdsReuseNonce(s: H.Setup, schedule: seq<H.Turn>, x: Bytes, y: Bytes)
    requires H.Run(s, schedule).i.IDone? && H.Run(s, schedule).r.RDone? && HkdfLength(s.c)
    requires || (H.Strong(s) && EffectiveProfile(s.ini.profile) == EffectiveProfile(s.res.profile))
             || (H.Simple(s.ini) && H.Simple(s.res) && s.ini.generalKey == s.res.generalKey)
    requires s.ini.deviceID == s.res.deviceID
    ensures
      var n := H.Run(s, schedule);
      n.i.session.window.size > 0 && n.r.session.window.size > 0 &&
      var seals := D.Run(s.c, s.k, D.Start(n.i.session, n.r.session), [D.Sends(D.A, x), D.Sends(D.B, y)]).seals;
      |seals| == 2 && seals[0] == seals[1]
  {
    var n := H.Run(s, schedule);
    var root: Bytes;
    if H.Simple(s.ini) {
      H.SimpleSameKeyMatches(s, schedule);
      root := SimpleSendKeys(s, schedule);
    } else {
      H.StrongAlwaysMatches(s, schedule);
      root := StrongSendKeys(s, schedule);
    }
    hide H.Run, H.Strong, H.Simple, H.SimpleRoot, StrongRoot;
    MatchingIsPaired(n.i.session, n.r.session);
    D.EqualKeysReuseNonce(s.c, s.k, n.i.session, n.r.session, x, y);
  }

  /** The root of a completed strong handshake, spelled out from the two configurations: static and ephemeral
      shared secret and both general keys; both nonces; epoch, ids and profile. */
  lemma StrongRootSpelled(s: H.Setup)
    requires H.Strong(s) && StrongRoot(s).Some? && |s.ini.ephSK| == 32 && |s.res.ephSK| == 32
    ensures
      var fixed, eph := s.c.dh(s.ini.identitySK, s.res.identityPK), s.c.dh(s.ini.ephSK, s.c.pub(s.res.ephSK));
      var a, b, n, m := s.ini.deviceID, s.res.deviceID, s.ini.sessionNonce, s.res.sessionNonce;
      && H.AgreedI(s).Some? && fixed.Some? && eph.Some?
      && StrongRoot(s).value == s.c.hkdf(
           fixed.value + eph.value +
             (if Less(a, b) then s.ini.generalKey + s.res.generalKey else s.res.generalKey + s.ini.generalKey),
           if Less(a, b) then n + m else m + n,
           Ascii("COE-v1-session") + Digits(H.AgreedI(s).value, 8) + IdLo(a, b) + IdHi(a, b)
             + EffectiveProfile(s.ini.profile))
  {
    var p := H.InitiatorParams(s.ini, H.AckOf(s.c, s.res, true), H.AgreedI(s).value, s.res.generalKey);
    assert EffectiveProfile(EffectiveProfile(s.ini.profile)) == EffectiveProfile(s.ini.profile);
    StrongRootIs(s.c, p);
    hide DeriveSession, Digits, Less, H.AgreedI, EffectiveProfile;
  }
}
