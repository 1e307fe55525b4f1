/** The device clock correction and the KA's skew test: internal/device/clock.go.

    Wall-clock readings and durations are nanoseconds, as in Go's time package. */
module DeviceClock {
  import opened Octets
  import Epochs

  const SECOND: int := 1_000_000_000
  const MAX_CORRECTION: int := 7200 * SECOND

  /** `t.Unix()` of a reading in nanoseconds. */
  function Unix(nanos: int): int {
    nanos / SECOND
  }

  /** The offset after a KA time report, as the source computes it on int64 words. */
  function Corrected(offset: int64, nowNanos: int, kaUnix: int64): (r: int64)
    ensures -MAX_CORRECTION <= offset <= MAX_CORRECTION ==> -MAX_CORRECTION <= r <= MAX_CORRECTION
  {
    var delta := Wrap64(Wrap64(kaUnix - Unix(nowNanos)) * SECOND);
    if kaUnix <= 0 || -SECOND < delta < SECOND then offset
    else if delta > MAX_CORRECTION then MAX_CORRECTION
    else if delta < -MAX_CORRECTION then -MAX_CORRECTION
    else delta
  }

  /** The process-wide `clockOffset` and the functions that use it. */
  class Clock {
    var offset: int64

    constructor ()
      ensures offset == 0
    {
      offset := 0;
    }

    method ApplyKATime(nowNanos: int, kaUnix: int64)
      modifies this
      ensures offset == Corrected(old(offset), nowNanos, kaUnix)
    {
      if kaUnix <= 0 {
        return;
      }
      var delta := Wrap64(Wrap64(kaUnix - Unix(nowNanos)) * SECOND);
      if delta < SECOND && delta > -SECOND {
        return;
      }
      if delta > MAX_CORRECTION {
        delta := MAX_CORRECTION;
      }
      if delta < -MAX_CORRECTION {
        delta := -MAX_CORRECTION;
      }
      offset := delta;
    }

    function CorrectedNow(nowNanos: int): int
      reads this
    {
      nowNanos + offset
    }
  }

  /** `CheckSkew` succeeding: int64 subtraction and negation both wrap. */
  predicate SkewOK(clientUnix: int64, serverUnix: int64) {
    var d: int := Wrap64(clientUnix - serverUnix);
    var abs: int := if d < 0 then Wrap64(-d) else d;
    abs <= Epochs.MAX_SKEW
  }

  datatype Report = Report(nowNanos: int, kaUnix: int64)

  function OffsetAfter(reports: seq<Report>): int64 {
    if reports == [] then 0
    else
      var last := reports[|reports| - 1];
      Corrected(OffsetAfter(reports[..|reports| - 1]), last.nowNanos, last.kaUnix)
  }

  /** Whatever the reports, even when the int64 product wraps, the offset stays within two hours. */
  lemma {:induction false} OffsetBounded(reports: seq<Report>)
    ensures -MAX_CORRECTION <= OffsetAfter(reports) <= MAX_CORRECTION
  {
    if reports != [] {
      OffsetBounded(reports[..|reports| - 1]);
    }
  }

  /** For a KA clock in range the test is |client - server| <= 120, with one exception: the difference
      -2^63 is its own negation and so passes. */
  lemma SkewTest(clientUnix: int64, serverUnix: int64)
    requires 0 <= serverUnix < I63 / 2
    ensures SkewOK(clientUnix, serverUnix) <==>
      -Epochs.MAX_SKEW <= clientUnix - serverUnix <= Epochs.MAX_SKEW || clientUnix - serverUnix == -I63
  {
  }

  /** The exception is real: a client 2^63 seconds behind passes. */
  lemma MinimumPassesSkew(serverUnix: int64)
    requires 0 <= serverUnix < I63 / 2
    ensures SkewOK(serverUnix - I63, serverUnix)
  {
    SkewTest(serverUnix - I63, serverUnix);
  }

  /** The correction closes the skew test exactly for raw differences up to 7320 s. When the two clocks
      already show the same second, nothing is updated, and then the outcome is decided by the offset
      left from an earlier report. */
  lemma CorrectionClosesSkew(offset: int64, nowNanos: int, kaUnix: int64)
    requires -MAX_CORRECTION <= offset <= MAX_CORRECTION
    requires 0 < kaUnix < I63 / 2 && 0 <= Unix(nowNanos) < I63 / 2
    requires -I63 <= (kaUnix - Unix(nowNanos)) * SECOND < I63
    ensures
      var local := Unix(nowNanos);
      var corrected := Unix(nowNanos + Corrected(offset, nowNanos, kaUnix));
      SkewOK(corrected, kaUnix) <==>
        if kaUnix == local then -Epochs.MAX_SKEW <= Unix(nowNanos + offset) - local <= Epochs.MAX_SKEW
        else -7320 <= kaUnix - local <= 7320
  {
    var local := Unix(nowNanos);
    var diff := kaUnix - local;
    var r := Corrected(offset, nowNanos, kaUnix);
    var corrected := Unix(nowNanos + r);
    UnixShift(nowNanos, r);
    if diff != 0 {
      assert diff * SECOND >= SECOND || diff * SECOND <= -SECOND;
      var s := if diff > 7200 then 7200 else if diff < -7200 then -7200 else diff;
      assert r == s * SECOND;
      WholeSeconds(nowNanos, s);
    }
    SkewTest(corrected, kaUnix);
  }

  /** A correction within two hours makes the device show the KA's own second; a report that is not positive
      changes nothing. */
  lemma CorrectionIsExact(offset: int64, nowNanos: int, kaUnix: int64)
    requires -I63 <= (kaUnix - Unix(nowNanos)) * SECOND < I63
    ensures kaUnix <= 0 ==> Corrected(offset, nowNanos, kaUnix) == offset
    ensures kaUnix > 0 && kaUnix != Unix(nowNanos) && -7200 <= kaUnix - Unix(nowNanos) <= 7200 ==>
      Unix(nowNanos + Corrected(offset, nowNanos, kaUnix)) == kaUnix
  {
    if kaUnix > 0 && kaUnix != Unix(nowNanos) && -7200 <= kaUnix - Unix(nowNanos) <= 7200 {
      WholeSeconds(nowNanos, kaUnix - Unix(nowNanos));
      assert Corrected(offset, nowNanos, kaUnix) == (kaUnix - Unix(nowNanos)) * SECOND;
    }
  }

  lemma UnixShift(nanos: int, r: int)
    requires -MAX_CORRECTION <= r <= MAX_CORRECTION
    ensures Unix(nanos) - 7200 <= Unix(nanos + r) <= Unix(nanos) + 7200
  {
    WholeSeconds(nanos, 7200);
    WholeSeconds(nanos, -7200);
  }

  lemma WholeSeconds(nanos: int, s: int)
    ensures Unix(nanos + s * SECOND) == Unix(nanos) + s
  {
    ModUnique(nanos + s * SECOND, SECOND, nanos / SECOND + s, nanos % SECOND);
  }

  /** The stale-offset case is real: the clocks agree, yet the corrected time fails the test. */
  lemma StaleOffsetFailsSkew(local: int64)
    requires 0 < local < I63 / 4
    ensures !SkewOK(Unix(local * SECOND + Corrected(MAX_CORRECTION, local * SECOND, local)), local)
  {
    WholeSeconds(0, local);
    CorrectionClosesSkew(MAX_CORRECTION, local * SECOND, local);
    WholeSeconds(local * SECOND, 7200);
  }

  /** A client time inside the skew limit keeps `CurrentEpoch` within one of the KA's epoch, which is
      what the KA's epoch-hint test demands. */
  lemma SkewKeepsEpochHint(clientUnix: int64, kaUnix: int64)
    requires 0 <= clientUnix && 0 <= kaUnix < I63 / 2
    requires SkewOK(clientUnix, kaUnix)
    ensures -1 <= Epochs.EpochID(clientUnix) - Epochs.EpochID(kaUnix) <= 1
  {
    SkewTest(clientUnix, kaUnix);
    Epochs.NearbyEpochs(clientUnix, kaUnix);
  }
}
