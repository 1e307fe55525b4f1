/** Key derivation: internal/crypto/session.go and internal/crypto/general_key.go. */
module KeySchedule {
  import opened Octets
  import opened Crypto

  function IdLo(a: Bytes, b: Bytes): Bytes { if Less(a, b) then a else b }
  function IdHi(a: Bytes, b: Bytes): Bytes { if Less(a, b) then b else a }

  /** x belongs to a and y to b; the part of the smaller id goes first. */
  function ById(a: Bytes, b: Bytes, x: Bytes, y: Bytes): Bytes {
    if Less(a, b) then x + y else y + x
  }

  const PROFILE_STRONG: Bytes := Ascii("strong")
  const PROFILE_SIMPLE: Bytes := Ascii("simple")

  function EffectiveProfile(p: Bytes): Bytes { if p == [] then PROFILE_STRONG else p }

  const ZERO_SALT: Bytes := seq(32, _ => 0)

  /** The static and, when both keys have their length, the ephemeral shared secret. */
  function SharedSecrets(c: Suite, sk: Bytes, pkPeer: Bytes, ephSk: Bytes, ephPkPeer: Bytes): Option<Bytes> {
    match X25519(c, sk, pkPeer)
    case None => None
    case Some(ssStatic) =>
      if |ephSk| == KEY_SIZE && |ephPkPeer| == KEY_SIZE then
        match X25519(c, ephSk, ephPkPeer)
        case None => None
        case Some(ssEph) => Some(ssStatic + ssEph)
      else Some(ssStatic)
  }

  function WrapInfo(epoch: uint64, idA: Bytes, idB: Bytes): Bytes {
    Ascii("COE-v1-gk-wrap") + Digits(epoch, 8) + IdLo(idA, idB) + IdHi(idA, idB)
  }

  function DeriveWrapKey(c: Suite, sk: Bytes, pkPeer: Bytes, ephSk: Bytes, ephPkPeer: Bytes,
                         nonceA: Bytes, nonceB: Bytes, epoch: uint64, idA: Bytes, idB: Bytes): Option<Bytes>
  {
    match SharedSecrets(c, sk, pkPeer, ephSk, ephPkPeer)
    case None => None
    case Some(ikm) => Some(c.hkdf(ikm, ById(idA, idB, nonceA, nonceB), WrapInfo(epoch, idA, idB)))
  }

  /** The salt and info of the wrap key as the source assembles them. */
  method EncodeWrapInput(nonceA: Bytes, nonceB: Bytes, epoch: uint64, idA: Bytes, idB: Bytes)
    returns (salt: Bytes, info: Bytes)
    ensures salt == ById(idA, idB, nonceA, nonceB) && info == WrapInfo(epoch, idA, idB)
  {
    hide Digits, Flatten, Ascii;
    FlattenTwo(nonceA, nonceB);
    FlattenTwo(nonceB, nonceA);
    if Less(idA, idB) {
      salt := Concat([nonceA, nonceB]);
    } else {
      salt := Concat([nonceB, nonceA]);
    }
    var day := I2OSP(epoch, 8);
    FlattenFour(Ascii("COE-v1-gk-wrap"), day[..], IdLo(idA, idB), IdHi(idA, idB));
    info := Concat([Ascii("COE-v1-gk-wrap"), day[..], IdLo(idA, idB), IdHi(idA, idB)]);
  }

  datatype Params = Params(
    epoch: uint64, idA: Bytes, idB: Bytes, gkA: Bytes, gkB: Bytes,
    sk: Bytes, pkPeer: Bytes, ephSk: Bytes, ephPkPeer: Bytes,
    nonceA: Bytes, nonceB: Bytes, profile: Bytes, orgDayKey: Bytes, localID: Bytes)

  datatype Keys = Keys(root: Bytes, localSend: Bytes, peerSend: Bytes)

  function Ikm(c: Suite, p: Params): Option<Bytes> {
    if EffectiveProfile(p.profile) == PROFILE_SIMPLE then
      if |p.orgDayKey| != KEY_SIZE then None else Some(p.orgDayKey)
    else if |p.sk| != KEY_SIZE || |p.pkPeer| != KEY_SIZE then None
    else if |p.gkA| != KEY_SIZE || |p.gkB| != KEY_SIZE then None
    else
      match SharedSecrets(c, p.sk, p.pkPeer, p.ephSk, p.ephPkPeer)
      case None => None
      case Some(ss) => Some(ss + ById(p.idA, p.idB, p.gkA, p.gkB))
  }

  function SessionInfo(epoch: uint64, idA: Bytes, idB: Bytes, profile: Bytes): Bytes {
    (if profile == PROFILE_SIMPLE then Ascii("COE-v1-session-simple") else Ascii("COE-v1-session"))
    + Digits(epoch, 8) + IdLo(idA, idB) + IdHi(idA, idB) + profile
  }

  function Root(c: Suite, p: Params, ikm: Bytes): Bytes {
    c.hkdf(ikm, ById(p.idA, p.idB, p.nonceA, p.nonceB),
           SessionInfo(p.epoch, p.idA, p.idB, EffectiveProfile(p.profile)))
  }

  function SendInfo(id: Bytes): Bytes { Ascii("COE-v1-send") + id }

  function SendKey(c: Suite, root: Bytes, id: Bytes): Bytes {
    c.hkdf(root, ZERO_SALT, SendInfo(id))
  }

  function DeriveSession(c: Suite, p: Params): Option<Keys> {
    match Ikm(c, p)
    case None => None
    case Some(ikm) =>
      var root := Root(c, p, ikm);
      var kA, kB := SendKey(c, root, p.idA), SendKey(c, root, p.idB);
      if p.localID == p.idA then Some(Keys(root, kA, kB))
      else if p.localID == p.idB then Some(Keys(root, kB, kA))
      else None
  }

  /** Both ends hold the same secrets, or neither does. */
  lemma SecretsAgree(c: Suite, skA: Bytes, ephA: Bytes, skB: Bytes, ephB: Bytes)
    requires DhCommutes(c)
    ensures SharedSecrets(c, skA, c.pub(skB), ephA, c.pub(ephB)) == SharedSecrets(c, skB, c.pub(skA), ephB, c.pub(ephA))
  {
    SharedSecretAgrees(c, skA, skB);
    SharedSecretAgrees(c, ephA, ephB);
    hide X25519;
  }

  /** The parameters of the two ends of one session. */
  ghost predicate TwoEnds(c: Suite, p: Params, q: Params) {
    && q == p.(sk := q.sk, pkPeer := q.pkPeer, ephSk := q.ephSk, ephPkPeer := q.ephPkPeer, localID := q.localID)
    && p.pkPeer == c.pub(q.sk) && q.pkPeer == c.pub(p.sk)
    && p.ephPkPeer == c.pub(q.ephSk) && q.ephPkPeer == c.pub(p.ephSk)
    && p.localID == p.idA && q.localID == q.idB
  }

  /** Each end's send key is the other end's receive key, and one end derives exactly when the other does. */
  lemma SessionKeysAgree(c: Suite, p: Params, q: Params)
    requires DhCommutes(c) && TwoEnds(c, p, q)
    ensures DeriveSession(c, p).Some? <==> DeriveSession(c, q).Some?
    ensures DeriveSession(c, p).Some? ==>
      var k, l := DeriveSession(c, p).value, DeriveSession(c, q).value;
      k.root == l.root && k.localSend == l.peerSend && k.peerSend == l.localSend
  {
    SecretsAgree(c, p.sk, p.ephSk, q.sk, q.ephSk);
    hide SharedSecrets, SessionInfo, ById, SendKey;
    assert Ikm(c, p) == Ikm(c, q);
  }

  /** Exchanging the names A and B of two different devices, with everything that belongs to them, changes
      no key: only the order of the ids counts. */
  lemma RolesDoNotMatter(c: Suite, p: Params)
    requires p.idA != p.idB
    ensures
      var q := p.(idA := p.idB, idB := p.idA, gkA := p.gkB, gkB := p.gkA, nonceA := p.nonceB, nonceB := p.nonceA);
      DeriveSession(c, q) == DeriveSession(c, p)
  {
    LessTotal(p.idA, p.idB);
    hide Less, SharedSecrets, Digits;
  }

  /** Two devices with different ids send under different keys, if HKDF does not collide on their inputs. */
  lemma DirectionsHaveDistinctKeys(c: Suite, root: Bytes, idA: Bytes, idB: Bytes)
    requires c.hkdf(root, ZERO_SALT, SendInfo(idA)) == c.hkdf(root, ZERO_SALT, SendInfo(idB)) ==>
      SendInfo(idA) == SendInfo(idB)
    ensures SendKey(c, root, idA) == SendKey(c, root, idB) <==> idA == idB
  {
    if SendInfo(idA) == SendInfo(idB) {
      SplitUnique(Ascii("COE-v1-send"), idA, Ascii("COE-v1-send"), idB);
    }
  }

  // ------------------------------------------------------------------ what the keys bind

  lemma ByIdBinds(a: Bytes, b: Bytes, x: Bytes, y: Bytes, x': Bytes, y': Bytes)
    requires ById(a, b, x, y) == ById(a, b, x', y') && |x| == |x'|
    ensures x == x' && y == y'
  {
    if Less(a, b) {
      SplitUnique(x, y, x', y');
    } else {
      SplitUnique(y, x, y', x');
    }
  }

  /** The secret input of a strong session: both shared secrets and both general keys. */
  function StrongSecret(ss: Bytes, p: Params): Bytes {
    ss + if Less(p.idA, p.idB) then p.gkA + p.gkB else p.gkB + p.gkA
  }

  function StrongLabel(p: Params): Bytes {
    Ascii("COE-v1-session") + Digits(p.epoch, 8) + IdLo(p.idA, p.idB) + IdHi(p.idA, p.idB) + EffectiveProfile(p.profile)
  }

  /** The root of a strong session, spelled out. */
  lemma StrongRootIs(c: Suite, p: Params)
    requires EffectiveProfile(p.profile) != PROFILE_SIMPLE && DeriveSession(c, p).Some?
    ensures
      var ss := SharedSecrets(c, p.sk, p.pkPeer, p.ephSk, p.ephPkPeer);
      && |p.gkA| == 32 && |p.gkB| == 32 && ss.Some?
      && DeriveSession(c, p).value.root
         == c.hkdf(StrongSecret(ss.value, p), ById(p.idA, p.idB, p.nonceA, p.nonceB), StrongLabel(p))
  {
    hide SharedSecrets, Digits, SendKey;
  }

  /** The label of a session fixes its epoch and, between the same two devices, its profile. */
  lemma LabelBinds(p: Params, q: Params)
    requires p.idA == q.idA && p.idB == q.idB && StrongLabel(p) == StrongLabel(q)
    ensures p.epoch == q.epoch && EffectiveProfile(p.profile) == EffectiveProfile(q.profile)
  {
    hide Digits, EffectiveProfile;
    var tag, ids := Ascii("COE-v1-session"), IdLo(p.idA, p.idB) + IdHi(p.idA, p.idB);
    assert StrongLabel(p) == tag + Digits(p.epoch, 8) + (ids + EffectiveProfile(p.profile));
    assert StrongLabel(q) == tag + Digits(q.epoch, 8) + (ids + EffectiveProfile(q.profile));
    SplitUnique(tag + Digits(p.epoch, 8), ids + EffectiveProfile(p.profile),
                tag + Digits(q.epoch, 8), ids + EffectiveProfile(q.profile));
    SplitUnique(tag, Digits(p.epoch, 8), tag, Digits(q.epoch, 8));
    SplitUnique(ids, EffectiveProfile(p.profile), ids, EffectiveProfile(q.profile));
    WordsDiffer(p.epoch, q.epoch);
  }

  /** Two strong sessions of the same two devices share their root only if they share everything that went into
      it: the shared secrets, both general keys, the epoch, the profile and both nonces. */
  lemma StrongRootBinds(c: Suite, p: Params, q: Params, ss: Bytes, tt: Bytes)
    requires p.idA == q.idA && p.idB == q.idB && |p.nonceA| == |q.nonceA|
    requires EffectiveProfile(p.profile) != PROFILE_SIMPLE && EffectiveProfile(q.profile) != PROFILE_SIMPLE
    requires DeriveSession(c, p).Some? && DeriveSession(c, q).Some?
    requires SharedSecrets(c, p.sk, p.pkPeer, p.ephSk, p.ephPkPeer) == Some(ss)
    requires SharedSecrets(c, q.sk, q.pkPeer, q.ephSk, q.ephPkPeer) == Some(tt)
    requires NoCollision(c, (StrongSecret(ss, p), ById(p.idA, p.idB, p.nonceA, p.nonceB), StrongLabel(p)),
                         (StrongSecret(tt, q), ById(q.idA, q.idB, q.nonceA, q.nonceB), StrongLabel(q)))
    requires DeriveSession(c, p).value.root == DeriveSession(c, q).value.root
    ensures ss == tt && p.gkA == q.gkA && p.gkB == q.gkB
    ensures p.epoch == q.epoch && EffectiveProfile(p.profile) == EffectiveProfile(q.profile)
    ensures p.nonceA == q.nonceA && p.nonceB == q.nonceB
  {
    StrongRootIs(c, p);
    StrongRootIs(c, q);
    hide DeriveSession, SharedSecrets, StrongLabel, EffectiveProfile;
    LabelBinds(p, q);
    ByIdBinds(p.idA, p.idB, p.nonceA, p.nonceB, q.nonceA, q.nonceB);
    SplitUnique(ss, ById(p.idA, p.idB, p.gkA, p.gkB), tt, ById(q.idA, q.idB, q.gkA, q.gkB));
    ByIdBinds(p.idA, p.idB, p.gkA, p.gkB, q.gkA, q.gkB);
  }

  function SimpleLabel(p: Params): Bytes {
    Ascii("COE-v1-session-simple") + Digits(p.epoch, 8) + IdLo(p.idA, p.idB) + IdHi(p.idA, p.idB) + Ascii("simple")
  }

  /** The root of a simple session, spelled out, and what it binds: the org day key, the epoch and both nonces. */
  lemma SimpleRootBinds(c: Suite, p: Params, q: Params)
    requires EffectiveProfile(p.profile) == PROFILE_SIMPLE && DeriveSession(c, p).Some?
    requires EffectiveProfile(q.profile) == PROFILE_SIMPLE && DeriveSession(c, q).Some?
    requires p.idA == q.idA && p.idB == q.idB && |p.nonceA| == |q.nonceA|
    requires NoCollision(c, (p.orgDayKey, ById(p.idA, p.idB, p.nonceA, p.nonceB), SimpleLabel(p)),
                         (q.orgDayKey, ById(q.idA, q.idB, q.nonceA, q.nonceB), SimpleLabel(q)))
    ensures DeriveSession(c, p).value.root
      == c.hkdf(p.orgDayKey, ById(p.idA, p.idB, p.nonceA, p.nonceB), SimpleLabel(p))
    ensures DeriveSession(c, p).value.root == DeriveSession(c, q).value.root ==>
      p.orgDayKey == q.orgDayKey && p.epoch == q.epoch && p.nonceA == q.nonceA && p.nonceB == q.nonceB
  {
    SimpleRootIs(c, p);
    SimpleRootIs(c, q);
    hide DeriveSession, SimpleLabel, EffectiveProfile;
    if DeriveSession(c, p).value.root == DeriveSession(c, q).value.root {
      ByIdBinds(p.idA, p.idB, p.nonceA, p.nonceB, q.nonceA, q.nonceB);
      SimpleLabelBinds(p, q);
    }
  }

  lemma SimpleRootIs(c: Suite, p: Params)
    requires EffectiveProfile(p.profile) == PROFILE_SIMPLE && DeriveSession(c, p).Some?
    ensures DeriveSession(c, p).value.root
      == c.hkdf(p.orgDayKey, ById(p.idA, p.idB, p.nonceA, p.nonceB), SimpleLabel(p))
  {
    hide Digits, SendKey;
  }

  lemma SimpleLabelBinds(p: Params, q: Params)
    requires p.idA == q.idA && p.idB == q.idB && SimpleLabel(p) == SimpleLabel(q)
    ensures p.epoch == q.epoch
  {
    hide Digits;
    var tag, ids := Ascii("COE-v1-session-simple"), IdLo(p.idA, p.idB) + IdHi(p.idA, p.idB);
    var rest := ids + Ascii("simple");
    assert SimpleLabel(p) == tag + Digits(p.epoch, 8) + rest && SimpleLabel(q) == tag + Digits(q.epoch, 8) + rest;
    SplitUnique(tag + Digits(p.epoch, 8), rest, tag + Digits(q.epoch, 8), rest);
    SplitUnique(tag, Digits(p.epoch, 8), tag, Digits(q.epoch, 8));
    WordsDiffer(p.epoch, q.epoch);
  }

  /** A send key fixes the root and the sender. */
  lemma SendKeyBinds(c: Suite, root: Bytes, id: Bytes, root': Bytes, id': Bytes)
    requires NoCollision(c, (root, ZERO_SALT, SendInfo(id)), (root', ZERO_SALT, SendInfo(id')))
    requires SendKey(c, root, id) == SendKey(c, root', id')
    ensures root == root' && id == id'
  {
    SplitUnique(Ascii("COE-v1-send"), id, Ascii("COE-v1-send"), id');
  }

  /** A wrap key fixes the shared secrets, the nonces and the epoch it was derived for. */
  lemma WrapKeyBinds(c: Suite, ss: Bytes, a: Bytes, b: Bytes, x: Bytes, y: Bytes, e: uint64,
                     tt: Bytes, x': Bytes, y': Bytes, e': uint64)
    requires |x| == |x'|
    requires NoCollision(c, (ss, ById(a, b, x, y), WrapInfo(e, a, b)), (tt, ById(a, b, x', y'), WrapInfo(e', a, b)))
    requires c.hkdf(ss, ById(a, b, x, y), WrapInfo(e, a, b)) == c.hkdf(tt, ById(a, b, x', y'), WrapInfo(e', a, b))
    ensures ss == tt && x == x' && y == y' && e == e'
  {
    hide Digits;
    ByIdBinds(a, b, x, y, x', y');
    var tag, ids := Ascii("COE-v1-gk-wrap"), IdLo(a, b) + IdHi(a, b);
    assert WrapInfo(e, a, b) == tag + Digits(e, 8) + ids && WrapInfo(e', a, b) == tag + Digits(e', 8) + ids;
    SplitUnique(tag + Digits(e, 8), ids, tag + Digits(e', 8), ids);
    SplitUnique(tag, Digits(e, 8), tag, Digits(e', 8));
    WordsDiffer(e, e');
  }

  // ------------------------------------------------------------------ daily keys

  function DaySalt(epoch: uint64): Bytes { Digits(epoch, 8) + Ascii("COE-v1-salt") }
  function DeviceInfo(id: Bytes, counter: uint32): Bytes { Ascii("COE-v1-general") + id + Digits(counter, 4) }
  function OrgInfo(org: Bytes): Bytes { Ascii("COE-v1-org-day") + org }

  method EncodeDeviceInput(epoch: uint64, id: Bytes, counter: uint32) returns (salt: Bytes, info: Bytes)
    ensures salt == DaySalt(epoch) && info == DeviceInfo(id, counter)
  {
    hide Digits, Flatten, Ascii;
    var day := I2OSP(epoch, 8);
    var tail := I2OSP(counter, 4);
    FlattenTwo(day[..], Ascii("COE-v1-salt"));
    FlattenFour(Ascii("COE-v1-general"), id, tail[..], []);
    salt := Concat([day[..], Ascii("COE-v1-salt")]);
    info := Concat([Ascii("COE-v1-general"), id, tail[..]]);
  }

  method EncodeOrgInput(epoch: uint64, org: Bytes) returns (salt: Bytes, info: Bytes)
    ensures salt == DaySalt(epoch) && info == OrgInfo(org)
  {
    hide Digits, Flatten, Ascii;
    var day := I2OSP(epoch, 8);
    FlattenTwo(day[..], Ascii("COE-v1-salt"));
    FlattenTwo(Ascii("COE-v1-org-day"), org);
    salt := Concat([day[..], Ascii("COE-v1-salt")]);
    info := Concat([Ascii("COE-v1-org-day"), org]);
  }

  function DeriveGeneralKey(c: Suite, master: Bytes, epoch: uint64, id: Bytes, counter: uint32): Option<Bytes> {
    if |master| != KEY_SIZE then None else Some(c.hkdf(master, DaySalt(epoch), DeviceInfo(id, counter)))
  }

  function DeriveOrgDayKey(c: Suite, master: Bytes, epoch: uint64, org: Bytes): Option<Bytes> {
    if |master| != KEY_SIZE then None else Some(c.hkdf(master, DaySalt(epoch), OrgInfo(org)))
  }

  /** Different (epoch, device, counter) triples give different HKDF inputs, although the id has no length
      prefix: the counter's four bytes are always the last ones. */
  lemma DeviceInputInjective(e: uint64, id: Bytes, n: uint32, e': uint64, id': Bytes, n': uint32)
    requires DaySalt(e) == DaySalt(e') && DeviceInfo(id, n) == DeviceInfo(id', n')
    ensures e == e' && id == id' && n == n'
  {
    PowerValues();
    SplitUnique(Digits(e, 8), Ascii("COE-v1-salt"), Digits(e', 8), Ascii("COE-v1-salt"));
    DigitsInjective(e, e', 8);
    var tag := Ascii("COE-v1-general");
    SplitUnique(tag + id, Digits(n, 4), tag + id', Digits(n', 4));
    SplitUnique(tag, id, tag, id');
    DigitsInjective(n, n', 4);
  }

  /** No device input is ever an org-day input. */
  lemma DeviceInputNeverOrg(id: Bytes, n: uint32, org: Bytes)
    ensures DeviceInfo(id, n) != OrgInfo(org)
  {
    var g, o := Ascii("COE-v1-general"), Ascii("COE-v1-org-day");
    assert g[7] != o[7];
    assert DeviceInfo(id, n)[7] == g[7] && OrgInfo(org)[7] == o[7];
  }
}
