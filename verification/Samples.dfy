/** The hypotheses of the peer theorems can be met together: a codec that round-trips, a lawful suite, and two
    parties whose handshake completes; and, one party switched to simple, hangs. */
module Samples {
  import opened Octets
  import opened Crypto
  import opened Frames
  import opened Messages
  import opened KeySchedule
  import opened Handshake
  import Epochs

  // ------------------------------------------------------------------ a codec

  /** A byte string in a form that shows where it ends. */
  function Esc(b: Bytes): Bytes {
    if b == [] then [0] else [1, b[0]] + Esc(b[1..])
  }

  lemma {:induction false} EscLength(b: Bytes)
    ensures |Esc(b)| == 2 * |b| + 1
  {
    if b != [] {
      EscLength(b[1..]);
    }
  }

  lemma {:induction false} EscUnique(a: Bytes, b: Bytes, r: Bytes, s: Bytes)
    requires Esc(a) + r == Esc(b) + s
    ensures a == b && r == s
  {
    var x, y := Esc(a) + r, Esc(b) + s;
    assert x[0] == Esc(a)[0] && y[0] == Esc(b)[0];
    if a == [] || b == [] {
      assert a == [] && b == [];
      assert x[1..] == r && y[1..] == s;
    } else {
      assert x[1] == a[0] && y[1] == b[0];
      assert x[2..] == Esc(a[1..]) + r && y[2..] == Esc(b[1..]) + s;
      EscUnique(a[1..], b[1..], r, s);
      assert a == [a[0]] + a[1..] && b == [b[0]] + b[1..];
    }
  }

  function EscAll(fields: seq<Bytes>): Bytes {
    if fields == [] then [] else Esc(fields[0]) + EscAll(fields[1..])
  }

  lemma {:induction false} EscAllUnique(f: seq<Bytes>, g: seq<Bytes>)
    requires |f| == |g| && EscAll(f) == EscAll(g)
    ensures f == g
  {
    if f != [] {
      EscUnique(f[0], g[0], EscAll(f[1..]), EscAll(g[1..]));
      EscAllUnique(f[1..], g[1..]);
      assert f == [f[0]] + f[1..] && g == [g[0]] + g[1..];
    }
  }

  lemma {:induction false} EscAllLength(fields: seq<Bytes>)
    requires forall i :: 0 <= i < |fields| ==> |fields[i]| <= 100
    ensures |EscAll(fields)| <= 201 * |fields|
  {
    if fields != [] {
      EscLength(fields[0]);
      EscAllLength(fields[1..]);
    }
  }

  function Fields(m: Msg): seq<Bytes> {
    match m
    case Hello(ver, id, epoch, pk, eph, nonce, serial, profile) =>
      [[ver], id, Digits(epoch, 8), pk, eph, nonce, Digits(serial, 8), profile]
    case HelloAck(ver, id, epoch, pk, eph, nonce, serial, profile, accept) =>
      [[ver], id, Digits(epoch, 8), pk, eph, nonce, Digits(serial, 8), profile, [if accept then 1 else 0]]
    case KeyOffer(epoch, nonce, ct) => [Digits(epoch, 8), nonce, ct]
    case Data(epoch, num, nonce, ct) => [Digits(epoch, 8), Digits(num, 8), nonce, ct]
    case Close(reason) => [reason]
  }

  function Write(m: Msg): (b: Bytes)
    ensures b != [] && b[0] == TypeOf(m)
  {
    [TypeOf(m)] + EscAll(Fields(m))
  }

  lemma FieldsUnique(m: Msg, n: Msg)
    requires TypeOf(m) == TypeOf(n) && Fields(m) == Fields(n)
    ensures m == n
  {
    hide Digits;
    var f, g := Fields(m), Fields(n);
    match m
    case Hello(_, _, x, _, _, _, y, _) =>
      assert f[0] == g[0] && f[1] == g[1] && f[2] == g[2] && f[3] == g[3] && f[4] == g[4];
      assert f[5] == g[5] && f[6] == g[6] && f[7] == g[7];
      WordsDiffer(x, n.epochID);
      WordsDiffer(y, n.keySerial);
    case HelloAck(_, _, x, _, _, _, y, _, _) =>
      assert f[0] == g[0] && f[1] == g[1] && f[2] == g[2] && f[3] == g[3] && f[4] == g[4];
      assert f[5] == g[5] && f[6] == g[6] && f[7] == g[7] && f[8] == g[8];
      WordsDiffer(x, n.epochID);
      WordsDiffer(y, n.keySerial);
    case KeyOffer(x, _, _) =>
      assert f[0] == g[0] && f[1] == g[1] && f[2] == g[2];
      WordsDiffer(x, n.epochID);
    case Data(x, y, _, _) =>
      assert f[0] == g[0] && f[1] == g[1] && f[2] == g[2] && f[3] == g[3];
      WordsDiffer(x, n.epochID);
      WordsDiffer(y, n.num);
    case Close(_) =>
      assert f[0] == g[0];
  }

  lemma WriteUnique(m: Msg, n: Msg)
    requires Write(m) == Write(n)
    ensures m == n
  {
    assert Write(m)[1..] == EscAll(Fields(m)) && Write(n)[1..] == EscAll(Fields(n));
    assert |Fields(m)| == |Fields(n)|;
    EscAllUnique(Fields(m), Fields(n));
    FieldsUnique(m, n);
  }

  ghost function Read(b: Bytes): Option<Msg> {
    if exists m: Msg :: Write(m) == b then
      var m: Msg :| Write(m) == b;
      Some(m)
    else None
  }

  ghost function SampleCodec(): Codec {
    Codec(m => Write(m), b => if b == [] then None else Some(b[0]), b => Read(b))
  }

  lemma SampleCodecRoundTrips()
    ensures RoundTrips(SampleCodec())
  {
    var k := SampleCodec();
    forall m: Msg
      ensures k.head(k.encode(m)) == Some(TypeOf(m)) && k.decode(k.encode(m)) == Some(m)
    {
      var back := Read(Write(m));
      assert back.Some? && Write(back.value) == Write(m);
      WriteUnique(back.value, m);
    }
  }

  // ------------------------------------------------------------------ two parties

  const KEY: Bytes := seq(32, _ => 0)

  function SampleSuite(): Suite {
    Suite(a => if |a| == 32 then a else [], (_, _) => Some(KEY), (_, _, _) => KEY,
          (_, _, _, text) => text, (_, _, _, ct) => Some(ct))
  }

  /** A party on the first day of all clocks. */
  function SampleParty(id: Bytes, profile: Bytes): Party {
    Party(id, KEY, KEY, KEY, 1, 0, profile, [], 0, KEY, [], seq(12, _ => 0))
  }

  ghost function SamplePair(ini: Bytes, res: Bytes): Setup {
    Setup(SampleSuite(), SampleCodec(), SampleParty([1], ini), SampleParty([2], res))
  }

  lemma SmallIsWritable(m: Msg)
    requires forall i :: 0 <= i < |Fields(m)| ==> |Fields(m)[i]| <= 100
    ensures Writable(SampleCodec(), m)
  {
    EscAllLength(Fields(m));
  }

  lemma SampleGreets(ini: Bytes, res: Bytes)
    requires |ini| <= 100 && |res| <= 100
    ensures
      var s := SamplePair(ini, res);
      Greeted(s) && Content(s) && AgreedI(s) == Some(0)
  {
    var s := SamplePair(ini, res);
    assert Epochs.Agree(0, 0, 0, Epochs.DEFAULT_GRACE) == Some(0);
    SmallIsWritable(HelloOf(s.c, s.ini));
    SmallIsWritable(AckOf(s.c, s.res, true));
    hide Epochs.Agree, Writable;
  }

  lemma SampleSuiteLawful()
    ensures Lawful(SampleSuite())
  {
  }

  lemma ProfilesDiffer()
    ensures !Simple(SampleParty([1], [])) && !Simple(SampleParty([2], []))
    ensures Simple(SampleParty([1], PROFILE_SIMPLE)) && Simple(SampleParty([2], PROFILE_SIMPLE))
  {
    assert PROFILE_SIMPLE[1] != PROFILE_STRONG[1];
  }

  lemma SampleStrong()
    ensures Strong(SamplePair([], []))
  {
    hide Lawful, Simple, SampleCodec;
    SampleSuiteLawful();
    ProfilesDiffer();
  }

  lemma SampleSecrets(ini: Bytes, res: Bytes)
    ensures Secrets(SamplePair(ini, res)) == Some(KEY + KEY)
  {
    hide SampleCodec;
  }

  lemma SampleOffers()
    ensures OffersFit(SamplePair([], []))
  {
    var s := SamplePair([], []);
    SampleGreets([], []);
    SampleSecrets([], []);
    var wrap := WrapKey(s, 0, KEY + KEY);
    OfferIsSmall(wrap, [1]);
    OfferIsSmall(wrap, [2]);
    hide Writable, Greeted, Content, AgreedI, WrapKey, Secrets, SampleCodec, SampleSuite, Offer;
  }

  lemma OfferIsSmall(wrap: Bytes, id: Bytes)
    ensures Writable(SampleCodec(), Offer(SampleSuite(), wrap, SampleParty(id, []), 0))
  {
    hide OfferAAD, Digits, SampleCodec, Writable;
    SmallIsWritable(Offer(SampleSuite(), wrap, SampleParty(id, []), 0));
  }

  /** Everything `StrongSessionDelivers` asks of a setup holds of this one, which has two different devices. */
  lemma StrongPairExists()
    ensures
      var s := SamplePair([], []);
      && RoundTrips(s.k) && Strong(s) && StrongCompletes(s) && s.ini.deviceID != s.res.deviceID
      && EffectiveProfile(s.ini.profile) == EffectiveProfile(s.res.profile)
  {
    hide Greeted, Content, Strong, Secrets, OffersFit, RoundTrips, SampleCodec, SampleSuite, EffectiveProfile;
    SampleCodecRoundTrips();
    SampleStrong();
    SampleGreets([], []);
    SampleSecrets([], []);
    SampleOffers();
  }

  /** The handshake of that pair completes on both sides in every fair schedule. */
  lemma StrongPairCompletes(rounds: seq<seq<Turn>>)
    requires |rounds| >= 5 && Fair(rounds)
    ensures
      var n := Run(SamplePair([], []), InOrder(rounds));
      n.i.IDone? && n.r.RDone? && Matching(n.i.session, n.r.session)
  {
    var s := SamplePair([], []);
    StrongPairExists();
    hide Run, SamplePair, StrongCompletes, EffectiveProfile;
    FiveRoundsEnd(s, rounds);
    StrongAgreement(s, InOrder(rounds));
  }

  /** With the same codec and suite: a simple initiator with a strong responder, and the reverse, hang. */
  lemma BothMixesOccur()
    ensures exists s: Setup :: Hangs(s) && Simple(s.ini) && RoundTrips(s.k) && Lawful(s.c)
    ensures exists s: Setup :: Hangs(s) && !Simple(s.ini) && RoundTrips(s.k) && Lawful(s.c)
  {
    hide Greeted, Content, Strong, StrongCompletes, Hangs, Simple, RoundTrips, Lawful, SampleCodec, SampleSuite;
    var s, t, u := SamplePair([], []), SamplePair(PROFILE_SIMPLE, []), SamplePair([], PROFILE_SIMPLE);
    SampleCodecRoundTrips();
    SampleSuiteLawful();
    StrongPairExists();
    SampleGreets(PROFILE_SIMPLE, []);
    SampleGreets([], PROFILE_SIMPLE);
    ProfilesDiffer();
    assert t == s.(ini := s.ini.(profile := PROFILE_SIMPLE)) && u == s.(res := s.res.(profile := PROFILE_SIMPLE));
    SwitchedPartyHangs(s, t);
    SwitchedPartyHangs(s, u);
  }
}
