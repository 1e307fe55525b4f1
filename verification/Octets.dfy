/** Machine integers, byte strings and the big-endian encodings of internal/crypto/hkdf.go.

    Go strings are byte strings, so device ids, labels and profiles are `Bytes` too. */
module Octets {
  const U64: int := 0x1_0000_0000_0000_0000
  const U32: int := 0x1_0000_0000
  const I63: int := 0x8000_0000_0000_0000

  type uint64 = x: int | 0 <= x < U64
  type uint32 = x: int | 0 <= x < U32
  type int64 = x: int | -I63 <= x < I63

  type Byte = b: int | 0 <= b < 256
  type Bytes = seq<Byte>

  datatype Option<+T> = None | Some(value: T)

  /** Reduction to a signed 64-bit word, as Go's int64 arithmetic does. */
  function Wrap64(x: int): (r: int64)
    ensures -I63 <= x < I63 ==> r == x
    ensures exists k: int :: r == x + k * U64
  {
    var r := (x + I63) % U64 - I63;
    assert r == x + (-((x + I63) / U64)) * U64;
    r
  }

  /** `x + 1` on a uint64. */
  function Succ64(x: uint64): uint64 {
    if x == U64 - 1 then 0 else x + 1
  }

  /** The bytes of an ASCII literal. */
  function Ascii(s: string): (b: Bytes)
    ensures |b| == |s|
  {
    seq(|s|, i requires 0 <= i < |s| => s[i] as int % 256)
  }

  function Pow256(n: nat): (p: nat)
    ensures p > 0
  {
    if n == 0 then 1 else 256 * Pow256(n - 1)
  }

  /** The n low-order base-256 digits of x, most significant first. */
  function Digits(x: nat, n: nat): (b: Bytes)
    ensures |b| == n
  {
    if n == 0 then [] else Digits(x / 256, n - 1) + [x % 256]
  }

  /** The number a big-endian byte string denotes (OS2IP, section 4.2 of RFC 8017). */
  function Number(b: Bytes): nat {
    if b == [] then 0 else 256 * Number(b[..|b| - 1]) + b[|b| - 1]
  }

  lemma {:induction false} DivPow(x: nat, n: nat)
    requires n > 0
    ensures 256 * ((x / 256) % Pow256(n - 1)) + x % 256 == x % Pow256(n)
  {
    var p := Pow256(n - 1);
    var q, r := (x / 256) / p, (x / 256) % p;
    assert x / 256 == p * q + r;
    assert x == (256 * p) * q + (256 * r + x % 256);
    ModUnique(x, 256 * p, q, 256 * r + x % 256);
  }

  lemma NonZeroMultiple(m: int, k: int)
    requires m > 0 && k != 0
    ensures m * k >= m || m * k <= -m
  {
    if k > 0 {
      assert m * (k - 1) >= 0;
    } else {
      assert m * (-1 - k) >= 0;
    }
  }

  lemma ModUnique(x: int, m: int, q: int, r: int)
    requires m > 0 && 0 <= r < m && x == m * q + r
    ensures x % m == r && x / m == q
  {
    var q', r' := x / m, x % m;
    assert x == m * q' + r';
    assert m * (q - q') == m * q - m * q';
    if q != q' {
      NonZeroMultiple(m, q - q');
    }
  }

  /** Encoding keeps the number modulo 256^n, so it round-trips exactly when the number fits. */
  lemma {:induction false} NumberOfDigits(x: nat, n: nat)
    ensures Number(Digits(x, n)) == x % Pow256(n)
    ensures Number(Digits(x, n)) == x <==> x < Pow256(n)
  {
    if n > 0 {
      NumberOfDigits(x / 256, n - 1);
      DivPow(x, n);
      assert Digits(x, n)[..n - 1] == Digits(x / 256, n - 1);
    }
    if x < Pow256(n) {
      ModUnique(x, Pow256(n), 0, x);
    }
  }

  lemma {:induction false} DigitsOfNumber(b: Bytes)
    ensures Number(b) < Pow256(|b|)
    ensures Digits(Number(b), |b|) == b
  {
    if b != [] {
      var front := b[..|b| - 1];
      DigitsOfNumber(front);
      ModUnique(Number(b), 256, Number(front), b[|b| - 1]);
      assert b == front + [b[|b| - 1]];
    }
  }

  lemma {:induction false} DigitsInjective(x: nat, y: nat, n: nat)
    requires x < Pow256(n) && y < Pow256(n)
    requires Digits(x, n) == Digits(y, n)
    ensures x == y
  {
    NumberOfDigits(x, n);
    NumberOfDigits(y, n);
  }

  lemma PowerValues()
    ensures Pow256(4) == U32 && Pow256(8) == U64
  {
    assert Pow256(4) == 256 * 256 * 256 * 256;
    assert Pow256(8) == 256 * 256 * 256 * 256 * Pow256(4);
  }

  /** `I2OSP` as the source runs it: fill from the last index down, shifting x right by 8. */
  method I2OSP(x: uint64, n: nat) returns (b: array<Byte>)
    ensures fresh(b) && b[..] == Digits(x, n)
  {
    b := new Byte[n];
    var i, rest := n, x;
    while i > 0
      invariant 0 <= i <= n
      invariant Digits(rest, i) + b[i..] == Digits(x, n)
    {
      i := i - 1;
      ghost var before := b[i + 1..];
      b[i] := rest % 256;
      assert b[i..] == [rest % 256] + before;
      assert Digits(rest, i + 1) + before == Digits(rest / 256, i) + ([rest % 256] + before);
      rest := rest / 256;
    }
    assert b[0..] == b[..];
  }

  /** All parts one after another. */
  function Flatten(parts: seq<Bytes>): Bytes {
    if parts == [] then [] else parts[0] + Flatten(parts[1..])
  }

  lemma FlattenHead(parts: seq<Bytes>)
    requires parts != []
    ensures Flatten(parts) == parts[0] + Flatten(parts[1..])
  {
  }

  lemma Reassociate(a: Bytes, b: Bytes, c: Bytes)
    ensures a + (b + c) == a + b + c
  {
  }

  lemma {:induction false} FlattenAppend(a: seq<Bytes>, b: seq<Bytes>)
    ensures Flatten(a + b) == Flatten(a) + Flatten(b)
  {
    if a == [] {
      assert a + b == b && [] + Flatten(b) == Flatten(b);
    } else {
      FlattenHead(a);
      FlattenHead(a + b);
      hide Flatten;
      assert (a + b)[0] == a[0] && (a + b)[1..] == a[1..] + b;
      FlattenAppend(a[1..], b);
      Reassociate(a[0], Flatten(a[1..]), Flatten(b));
    }
  }

  lemma FlattenSnoc(a: seq<Bytes>, p: Bytes)
    ensures Flatten(a + [p]) == Flatten(a) + p
  {
    FlattenAppend(a, [p]);
    assert Flatten([p]) == p + Flatten([]);
  }

  /** `Concat`: append every part in turn. */
  method Concat(parts: seq<Bytes>) returns (out: Bytes)
    ensures out == Flatten(parts)
  {
    out := [];
    for i := 0 to |parts|
      invariant out == Flatten(parts[..i])
    {
      out := out + parts[i];
      FlattenSnoc(parts[..i], parts[i]);
      assert parts[..i + 1] == parts[..i] + [parts[i]];
    }
    assert parts[..|parts|] == parts;
  }

  lemma FlattenTwo(a: Bytes, b: Bytes)
    ensures Flatten([a, b]) == a + b
  {
    FlattenSnoc([a], b);
    FlattenSnoc([], a);
    assert [] + [a] == [a] && [a] + [b] == [a, b];
  }

  lemma FlattenFour(a: Bytes, b: Bytes, c: Bytes, d: Bytes)
    ensures Flatten([a, b, c]) == a + b + c && Flatten([a, b, c, d]) == a + b + c + d
  {
    FlattenTwo(a, b);
    FlattenSnoc([a, b], c);
    FlattenSnoc([a, b, c], d);
    assert [a, b] + [c] == [a, b, c] && [a, b, c] + [d] == [a, b, c, d];
    hide Flatten;
  }

  lemma FlattenSix(a: Bytes, b: Bytes, c: Bytes, d: Bytes, e: Bytes, f: Bytes)
    ensures Flatten([a, b, c, d, e]) == a + b + c + d + e && Flatten([a, b, c, d, e, f]) == a + b + c + d + e + f
  {
    FlattenFour(a, b, c, d);
    FlattenSnoc([a, b, c, d], e);
    FlattenSnoc([a, b, c, d, e], f);
    assert [a, b, c, d] + [e] == [a, b, c, d, e] && [a, b, c, d, e] + [f] == [a, b, c, d, e, f];
    hide Flatten;
  }

  /** Go's `<` on strings: lexicographic on bytes. */
  predicate Less(a: Bytes, b: Bytes) {
    if b == [] then false
    else if a == [] then true
    else if a[0] != b[0] then a[0] < b[0]
    else Less(a[1..], b[1..])
  }

  lemma {:induction false} LessTotal(a: Bytes, b: Bytes)
    ensures Less(a, b) || Less(b, a) <==> a != b
    ensures !(Less(a, b) && Less(b, a))
  {
    if a != [] && b != [] && a[0] == b[0] {
      LessTotal(a[1..], b[1..]);
      assert a == [a[0]] + a[1..] && b == [b[0]] + b[1..];
    }
  }

  /** Splitting a concatenation at a known length is unique. */
  lemma SplitUnique(a: Bytes, b: Bytes, c: Bytes, d: Bytes)
    requires a + b == c + d && (|a| == |c| || |b| == |d|)
    ensures a == c && b == d
  {
    assert a == (a + b)[..|a|] && b == (a + b)[|a|..];
    assert c == (c + d)[..|c|] && d == (c + d)[|c|..];
  }
}
