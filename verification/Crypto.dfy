/** The primitives as parameters, and the code around them: internal/crypto/aead.go, x25519.go.

    A `Suite` stands for the foreign algorithms. What is assumed about them is stated by the predicates
    below and required by the theorems that need it. */
module Crypto {
  import opened Octets

  datatype Suite = Suite(
    pub: Bytes -> Bytes,
    dh: (Bytes, Bytes) -> Option<Bytes>,
    hkdf: (Bytes, Bytes, Bytes) -> Bytes,
    seal: (Bytes, Bytes, Bytes, Bytes) -> Bytes,
    open: (Bytes, Bytes, Bytes, Bytes) -> Option<Bytes>)

  const KEY_SIZE: int := 32
  const NONCE_SIZE: int := 12

  /** Section 6.1 of RFC 7748: both sides of an exchange compute the same secret, or both fail. */
  ghost predicate DhCommutes(c: Suite) {
    && (forall a :: |c.pub(a)| == KEY_SIZE <==> |a| == KEY_SIZE)
    && (forall a, b :: |a| == KEY_SIZE && |b| == KEY_SIZE ==> c.dh(a, c.pub(b)) == c.dh(b, c.pub(a)))
  }

  /** Section 2.8 of RFC 8439: decryption with the same key, nonce and AAD returns the plaintext. */
  ghost predicate OpenInvertsSeal(c: Suite) {
    forall key, nonce, aad, text ::
      |key| == KEY_SIZE && |nonce| == NONCE_SIZE ==>
        c.open(key, nonce, aad, c.seal(key, nonce, aad, text)) == Some(text)
  }

  /** Section 2.3 of RFC 5869 with L = 32. */
  ghost predicate HkdfLength(c: Suite) {
    forall ikm, salt, info :: |c.hkdf(ikm, salt, info)| == KEY_SIZE
  }

  ghost predicate Lawful(c: Suite) {
    DhCommutes(c) && OpenInvertsSeal(c) && HkdfLength(c)
  }

  /** The assumptions can be met together. */
  lemma LawfulSuiteExists()
    ensures exists c: Suite :: Lawful(c)
  {
    var zeros: Bytes := seq(32, _ => 0);
    var c := Suite(
      a => if |a| == 32 then a else [],
      (_, _) => Some(zeros),
      (_, _, _) => zeros,
      (_, _, _, text) => text,
      (_, _, _, ct) => Some(ct));
    assert Lawful(c);
  }

  function X25519(c: Suite, priv: Bytes, peer: Bytes): Option<Bytes> {
    if |priv| != KEY_SIZE || |peer| != KEY_SIZE then None else c.dh(priv, peer)
  }

  function Seal(c: Suite, key: Bytes, nonce: Bytes, aad: Bytes, text: Bytes): Option<Bytes> {
    if |key| != KEY_SIZE || |nonce| != NONCE_SIZE then None else Some(c.seal(key, nonce, aad, text))
  }

  function Open(c: Suite, key: Bytes, nonce: Bytes, aad: Bytes, ct: Bytes): Option<Bytes> {
    if |key| != KEY_SIZE || |nonce| != NONCE_SIZE then None else c.open(key, nonce, aad, ct)
  }

  function NonceFromSeq(num: uint64): (n: Bytes)
    ensures |n| == NONCE_SIZE
  {
    Digits(0, 4) + Digits(num, 8)
  }

  function BuildAAD(ver: Byte, epoch: uint64, sender: Bytes, receiver: Bytes, num: uint64): Bytes {
    Ascii("COE-v1-data") + [ver] + Digits(epoch, 8) + sender + receiver + Digits(num, 8)
  }

  method EncodeNonce(num: uint64) returns (nonce: Bytes)
    ensures nonce == NonceFromSeq(num)
  {
    hide Digits, Flatten;
    var zero := I2OSP(0, 4);
    var tail := I2OSP(num, 8);
    FlattenTwo(zero[..], tail[..]);
    nonce := Concat([zero[..], tail[..]]);
  }

  method EncodeAAD(ver: Byte, epoch: uint64, sender: Bytes, receiver: Bytes, num: uint64) returns (aad: Bytes)
    ensures aad == BuildAAD(ver, epoch, sender, receiver, num)
  {
    hide Digits, Flatten, Ascii;
    var day := I2OSP(epoch, 8);
    var tail := I2OSP(num, 8);
    FlattenSix(Ascii("COE-v1-data"), [ver], day[..], sender, receiver, tail[..]);
    aad := Concat([Ascii("COE-v1-data"), [ver], day[..], sender, receiver, tail[..]]);
  }

  lemma NonceInjective(m: uint64, n: uint64)
    requires NonceFromSeq(m) == NonceFromSeq(n)
    ensures m == n
  {
    PowerValues();
    SplitUnique(Digits(0, 4), Digits(m, 8), Digits(0, 4), Digits(n, 8));
    DigitsInjective(m, n, 8);
  }

  /** The AAD binds version, epoch and number, and the two ids as far as their concatenation tells them apart:
      they have no length prefix. For ids of equal length that is each of them. */
  lemma AADBinds(v: Byte, e: uint64, s: Bytes, r: Bytes, n: uint64,
                 v': Byte, e': uint64, s': Bytes, r': Bytes, n': uint64)
    ensures BuildAAD(v, e, s, r, n) == BuildAAD(v', e', s', r', n') <==>
      v == v' && e == e' && n == n' && s + r == s' + r'
    ensures s + r == s' + r' && |s| == |s'| ==> s == s' && r == r'
  {
    hide Digits;
    var tag := Ascii("COE-v1-data");
    var h, h' := tag + [v] + Digits(e, 8), tag + [v'] + Digits(e', 8);
    assert BuildAAD(v, e, s, r, n) == h + (s + r) + Digits(n, 8);
    assert BuildAAD(v', e', s', r', n') == h' + (s' + r') + Digits(n', 8);
    if BuildAAD(v, e, s, r, n) == BuildAAD(v', e', s', r', n') {
      SplitUnique(h + (s + r), Digits(n, 8), h' + (s' + r'), Digits(n', 8));
      SplitUnique(h, s + r, h', s' + r');
      SplitUnique(tag + [v], Digits(e, 8), tag + [v'], Digits(e', 8));
      SplitUnique(tag, [v], tag, [v']);
      WordsDiffer(n, n');
      WordsDiffer(e, e');
      assert [v][0] == [v'][0];
    }
    if s + r == s' + r' && |s| == |s'| {
      SplitUnique(s, r, s', r');
    }
  }

  lemma WordsDiffer(x: uint64, y: uint64)
    requires Digits(x, 8) == Digits(y, 8)
    ensures x == y
  {
    PowerValues();
    DigitsInjective(x, y, 8);
  }

  /** The two HKDF computations do not collide. */
  ghost predicate NoCollision(c: Suite, x: (Bytes, Bytes, Bytes), y: (Bytes, Bytes, Bytes)) {
    c.hkdf(x.0, x.1, x.2) == c.hkdf(y.0, y.1, y.2) ==> x == y
  }

  /** X25519 seen from both ends, including every failure. */
  lemma SharedSecretAgrees(c: Suite, skA: Bytes, skB: Bytes)
    requires DhCommutes(c)
    ensures X25519(c, skA, c.pub(skB)) == X25519(c, skB, c.pub(skA))
  {
  }
}
