/** UTC-day epochs and their agreement: internal/crypto/epoch.go.

    Times are Unix seconds as int64 and epoch ids are uint64, with Go's truncating division and
    wrap-around written out. */
module Epochs {
  import opened Octets

  const EPOCH_SECONDS: int := 86400
  const DEFAULT_GRACE: int64 := 300
  const MAX_SKEW: int64 := 120
  const LAST_ID: uint64 := U64 - 1

  /** Go's `/` truncates toward zero. */
  function TruncDiv(x: int, d: int): int
    requires d > 0
  {
    if x >= 0 then x / d else -((-x) / d)
  }

  function EpochID(now: int64): uint64 {
    TruncDiv(now, EPOCH_SECONDS) % U64
  }

  function NotBefore(id: uint64): int64 {
    Wrap64(Wrap64(id) * EPOCH_SECONDS)
  }

  function NotAfter(id: uint64): int64 {
    Wrap64(NotBefore(id) + EPOCH_SECONDS)
  }

  function EffectiveGrace(grace: int64): (g: int64)
    ensures g == if grace > 0 then grace else 300
  {
    if grace <= 0 then DEFAULT_GRACE else grace
  }

  predicate ValidForUse(id: uint64, now: int64, grace: int64) {
    var g := EffectiveGrace(grace);
    var cur := EpochID(now);
    if id == cur then true
    else if Succ64(id) == cur then now < Wrap64(NotAfter(id) + g)
    else false
  }

  function Agree(a: uint64, b: uint64, now: int64, grace: int64): Option<uint64> {
    var g := EffectiveGrace(grace);
    if a == b then
      if ValidForUse(a, now, g) then Some(a) else None
    else
      var prev, newer := if a < b then a else b, if a < b then b else a;
      if newer == EpochID(now) && Succ64(prev) == newer && ValidForUse(prev, now, g) then Some(prev)
      else None
  }

  function Min(a: int, b: int): int { if a < b then a else b }
  function Max(a: int, b: int): int { if a < b then b else a }

  lemma DivisionBounds(now: int)
    requires now >= 0
    ensures EPOCH_SECONDS * (now / EPOCH_SECONDS) <= now < EPOCH_SECONDS * (now / EPOCH_SECONDS) + EPOCH_SECONDS
  {
  }

  lemma NonNegativeEpoch(now: int64)
    requires now >= 0
    ensures EpochID(now) == now / EPOCH_SECONDS
    ensures EpochID(now) * EPOCH_SECONDS <= now < (EpochID(now) + 1) * EPOCH_SECONDS
  {
    DivisionBounds(now);
  }

  /** An epoch is usable exactly on [start, end + grace), where a grace that is not positive stands for 300
      seconds and grace beyond a day adds nothing. Read as integers, the one extra usable id is 2^64-1: its
      successor wraps to epoch 0, so during the first `grace` seconds of 1970 it counts as the previous day. */
  lemma ValidityWindow(id: uint64, now: int64, grace: int64)
    requires now >= 0 && now + (if grace > 0 then grace else 300) < I63
    ensures
      var g := Min(if grace > 0 then grace else 300, 86400);
      ValidForUse(id, now, grace) <==>
        id * 86400 <= now < (id + 1) * 86400 + g || (id == LAST_ID && now < g)
  {
    NonNegativeEpoch(now);
    var cur := EpochID(now);
    if id == LAST_ID {
      assert Wrap64(id) == -1;
      assert NotAfter(id) == 0;
    } else if id + 1 == cur {
      assert cur * EPOCH_SECONDS <= now < I63;
      assert Wrap64(id) == id;
      assert NotBefore(id) == id * EPOCH_SECONDS;
      assert NotAfter(id) == cur * EPOCH_SECONDS;
    }
  }

  lemma AgreeSymmetric(a: uint64, b: uint64, now: int64, grace: int64)
    ensures Agree(a, b, now, grace) == Agree(b, a, now, grace)
  {
  }

  /** Agreement succeeds exactly when both ids are usable, for every clock value, save for the one
      wrapped pair {0, 2^64-1} at epoch 0; and it then names the smaller id, whatever the clock says. */
  lemma AgreeIffBothValid(a: uint64, b: uint64, now: int64, grace: int64)
    ensures Agree(a, b, now, grace).Some? <==>
      ValidForUse(a, now, grace) && ValidForUse(b, now, grace) &&
      !(EpochID(now) == 0 && Min(a, b) == 0 && Max(a, b) == LAST_ID)
    ensures Agree(a, b, now, grace).Some? ==> Agree(a, b, now, grace).value == Min(a, b)
  {
    var cur := EpochID(now);
    if a != b {
      var prev, newer := Min(a, b), Max(a, b);
      assert ValidForUse(prev, now, EffectiveGrace(grace)) == ValidForUse(prev, now, grace);
    }
  }

  /** When two ids agree, in seconds: from the start of the newer day until 300 seconds (or the grace asked for)
      after the end of the older one. So the ids are equal or adjacent. */
  lemma AgreementWindow(a: uint64, b: uint64, now: int64, grace: int64)
    requires now >= 0 && now + (if grace > 0 then grace else 300) < I63 && a != LAST_ID && b != LAST_ID
    ensures
      var g := Min(if grace > 0 then grace else 300, 86400);
      Agree(a, b, now, grace).Some? <==> Max(a, b) * 86400 <= now < (Min(a, b) + 1) * 86400 + g
  {
    AgreeIffBothValid(a, b, now, grace);
    ValidityWindow(a, now, grace);
    ValidityWindow(b, now, grace);
    hide Agree, ValidForUse;
  }

  /** The excluded pair really is refused although both of its ids are usable. */
  lemma AgreeRefusesWrappedPair()
    ensures ValidForUse(0, 0, 300) && ValidForUse(LAST_ID, 0, 300)
    ensures Agree(0, LAST_ID, 0, 300) == None
  {
    assert EpochID(0) == 0;
    ValidityWindow(LAST_ID, 0, 300);
  }

  /** Two clocks that both accept the same pair of ids name the same epoch. */
  lemma AgreeIgnoresClock(a: uint64, b: uint64, now: int64, now': int64, grace: int64)
    requires Agree(a, b, now, grace).Some? && Agree(b, a, now', grace).Some?
    ensures Agree(a, b, now, grace) == Agree(b, a, now', grace)
  {
    AgreeIffBothValid(a, b, now, grace);
    AgreeIffBothValid(b, a, now', grace);
  }

  /** Times at most a day apart lie in the same or in adjacent epochs. */
  lemma NearbyEpochs(s: int64, t: int64)
    requires s >= 0 && t >= 0 && -EPOCH_SECONDS <= s - t <= EPOCH_SECONDS
    ensures -1 <= EpochID(s) - EpochID(t) <= 1
  {
    NonNegativeEpoch(s);
    NonNegativeEpoch(t);
  }
}
