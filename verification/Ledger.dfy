/** What the Key Authority's registry remembers, over every sequence of its operations: serials, voucher
    uses and enrollment counters (internal/kaapi/registry.go, internal/kaapi/voucher.go).

    Requests interleave only between store calls, so a sequence of store calls is what any interleaving of
    requests amounts to. Each call that succeeds leaves an event in the log. */
module Ledger {
  import opened Octets
  import S = Store
  import KeySchedule

  datatype Event =
    | KeyIssued(dev: Bytes, epoch: uint64, serial: uint64)
    | Enrolled(dev: Bytes)
    | Admitted(voucher: Bytes)
    | Added(voucher: Bytes)
    | Redeemed(voucher: Bytes)
    | Withdrawn(voucher: Bytes)

  datatype Change =
    | Marks(dev: Bytes, epoch: uint64)
    | Enrolls(req: S.EnrollRequest, via: Option<Bytes>)
    | Revokes(dev: Bytes)
    | Redeems(found: Option<Bytes>, now: int)
    | Adds(v: S.Voucher)
    | Withdraws(voucher: Bytes)
    | Nothing

  datatype Ledger = Ledger(store: S.State, log: seq<Event>)

  const NEW := Ledger(S.EMPTY, [])

  function Commit(l: Ledger, ch: Change): Ledger {
    match ch
    case Marks(dev, epoch) =>
      var (s, r) := S.MarkIssued(l.store, dev, epoch);
      Ledger(s, if r.Ok? then l.log + [KeyIssued(dev, epoch, r.value)] else l.log)
    case Enrolls(req, via) =>
      var (s, r) := S.Enroll(l.store, req);
      Ledger(s, if r.Err? then l.log
                else l.log + [Enrolled(req.deviceID)] + if via.Some? then [Admitted(via.value)] else [])
    case Revokes(dev) => l.(store := S.Revoke(l.store, dev).0)
    case Redeems(found, now) =>
      if found.Some? && found.value !in l.store.vouchers then l
      else
        var (s, r) := S.RedeemFound(l.store, found, now);
        Ledger(s, if r.Ok? && found.Some? then l.log + [Redeemed(found.value)] else l.log)
    case Adds(v) =>
      var (s, r) := S.AddVoucher(l.store, v);
      Ledger(s, if r.Ok? then l.log + [Added(v.id)] else l.log)
    case Withdraws(id) =>
      var (s, r) := S.RevokeVoucher(l.store, id);
      Ledger(s, if r.Ok? then l.log + [Withdrawn(id)] else l.log)
    case Nothing => l
  }

  function Run(changes: seq<Change>): Ledger {
    if changes == [] then NEW else Commit(Run(changes[..|changes| - 1]), changes[|changes| - 1])
  }

  // ------------------------------------------------------------------ serials

  /** The position of the last key issued to dev, or -1. */
  function LastIssue(log: seq<Event>, dev: Bytes): (i: int)
    ensures -1 <= i < |log|
    ensures i >= 0 ==> log[i].KeyIssued? && log[i].dev == dev
    ensures forall k :: i < k < |log| ==> !(log[k].KeyIssued? && log[k].dev == dev)
  {
    if log == [] then -1
    else
      var n := |log| - 1;
      if log[n].KeyIssued? && log[n].dev == dev then n else LastIssue(log[..n], dev)
  }

  /** From i to j, dev got keys for this epoch only. */
  ghost predicate SameEpochBetween(log: seq<Event>, i: int, j: int, dev: Bytes, epoch: uint64) {
    forall k :: 0 <= i <= k <= j < |log| && log[k].KeyIssued? && log[k].dev == dev ==> log[k].epoch == epoch
  }

  ghost predicate IsIssue(log: seq<Event>, i: int) {
    0 <= i < |log| && log[i].KeyIssued?
  }

  /** Two issues carry the same serial exactly when they are for the same device and epoch with no issue of
      another epoch to that device in between. */
  ghost predicate SerialsExact(log: seq<Event>) {
    forall i, j :: IsIssue(log, i) && IsIssue(log, j) && i < j ==>
      (log[i].serial == log[j].serial <==>
       log[i].dev == log[j].dev && SameEpochBetween(log, i, j, log[i].dev, log[i].epoch))
  }

  ghost predicate Bounded(l: Ledger) {
    forall i :: IsIssue(l.log, i) ==> 0 < l.log[i].serial <= l.store.serial
  }

  /** A serial not above an earlier one repeats an earlier issue. */
  ghost predicate Increasing(log: seq<Event>) {
    forall i, j :: IsIssue(log, i) && IsIssue(log, j) && i < j && log[j].serial <= log[i].serial ==>
      log[j] in log[..j]
  }

  /** Each record remembers its device's last issue. */
  ghost predicate RecordsCurrent(l: Ledger) {
    forall dev: Bytes ::
      var i := LastIssue(l.log, dev);
      if dev in l.store.devices && l.store.devices[dev].lastSerial != 0 then
        i >= 0 && l.log[i] == KeyIssued(dev, l.store.devices[dev].issuedEpoch, l.store.devices[dev].lastSerial)
      else i == -1
  }

  ghost predicate SerialsSound(l: Ledger) {
    Bounded(l) && RecordsCurrent(l) && SerialsExact(l.log) && Increasing(l.log)
  }

  lemma LastIssueOther(log: seq<Event>, e: Event, dev: Bytes)
    ensures LastIssue(log + [e], dev) == if e.KeyIssued? && e.dev == dev then |log| else LastIssue(log, dev)
  {
    assert (log + [e])[..|log|] == log;
  }

  /** Appending an event that is no issue changes nothing about serials. */
  lemma QuietEvent(log: seq<Event>, e: Event)
    requires !e.KeyIssued? && SerialsExact(log) && Increasing(log)
    ensures SerialsExact(log + [e]) && Increasing(log + [e])
    ensures forall i :: IsIssue(log + [e], i) <==> IsIssue(log, i)
    ensures forall dev :: LastIssue(log + [e], dev) == LastIssue(log, dev)
  {
    var log' := log + [e];
    forall dev
      ensures LastIssue(log', dev) == LastIssue(log, dev)
    {
      LastIssueOther(log, e, dev);
    }
    hide LastIssue;
    assert forall i :: 0 <= i < |log| ==> log'[i] == log[i];
    assert forall j :: 0 <= j <= |log| ==> log'[..j] == log[..j];
  }

  lemma AppendIssueExact(log: seq<Event>, e: Event, last: int)
    requires SerialsExact(log) && e.KeyIssued? && last == LastIssue(log, e.dev)
    requires if last >= 0 && log[last].epoch == e.epoch then e.serial == log[last].serial
             else forall i :: IsIssue(log, i) ==> log[i].serial < e.serial
    ensures SerialsExact(log + [e])
  {
    var log' := log + [e];
    assert forall i :: 0 <= i < |log| ==> log'[i] == log[i];
    forall i, j | IsIssue(log', i) && IsIssue(log', j) && i < j
      ensures log'[i].serial == log'[j].serial <==>
        log'[i].dev == log'[j].dev && SameEpochBetween(log', i, j, log'[i].dev, log'[i].epoch)
    {
      if j < |log| {
        assert IsIssue(log, i) && IsIssue(log, j);
        assert SameEpochBetween(log', i, j, log[i].dev, log[i].epoch)
          <==> SameEpochBetween(log, i, j, log[i].dev, log[i].epoch);
      } else {
        assert IsIssue(log, i) && log'[j] == e;
        NewestIssue(log, e, last, i);
      }
    }
  }

  lemma SpanToLast(log: seq<Event>, e: Event, last: int, i: int, epoch: uint64)
    requires e.KeyIssued? && last == LastIssue(log, e.dev) && 0 <= i <= last
    ensures SameEpochBetween(log + [e], i, |log|, e.dev, epoch) <==>
      SameEpochBetween(log, i, last, e.dev, epoch) && e.epoch == epoch
  {
    var log' := log + [e];
    hide LastIssue;
    assert forall k :: 0 <= k < |log| ==> log'[k] == log[k];
    assert log'[|log|] == e;
  }

  lemma NewestIssue(log: seq<Event>, e: Event, last: int, i: int)
    requires SerialsExact(log) && e.KeyIssued? && last == LastIssue(log, e.dev) && IsIssue(log, i)
    requires if last >= 0 && log[last].epoch == e.epoch then e.serial == log[last].serial
             else forall k :: IsIssue(log, k) ==> log[k].serial < e.serial
    ensures
      var log' := log + [e];
      log[i].serial == e.serial <==>
        log[i].dev == e.dev && SameEpochBetween(log', i, |log|, log[i].dev, log[i].epoch)
  {
    var epoch := log[i].epoch;
    hide LastIssue;
    assert log[i].dev == e.dev ==> i <= last;
    if last >= 0 {
      assert IsIssue(log, last);
      if i <= last {
        SpanToLast(log, e, last, i, epoch);
        assert SameEpochBetween(log, i, last, e.dev, epoch) ==> log[last].epoch == epoch;
        if i == last {
          assert SameEpochBetween(log, i, last, e.dev, epoch);
        }
      }
    }
    hide SameEpochBetween;
  }

  /** A successful mark either repeats the record's own last issue or files a new serial. */
  lemma MarkEffect(l: Ledger, dev: Bytes, epoch: uint64)
    requires l.store.serial < U64 - 1
    ensures
      var l' := Commit(l, Marks(dev, epoch));
      if dev !in l.store.devices || l.store.devices[dev].revoked then l' == l
      else
        var d := l.store.devices[dev];
        if d.issuedEpoch == epoch && d.lastSerial != 0 then
          l' == l.(log := l.log + [KeyIssued(dev, epoch, d.lastSerial)])
        else
          var serial := l.store.serial + 1;
          l' == Ledger(l.store.(serial := serial, devices := l.store.devices[dev :=
                         d.(issuedEpoch := epoch, lastEpoch := epoch, lastSerial := serial)]),
                       l.log + [KeyIssued(dev, epoch, serial)])
  {
  }

  lemma MarkRecords(l: Ledger, l': Ledger, dev: Bytes, e: Event)
    requires RecordsCurrent(l) && l'.log == l.log + [e] && e.KeyIssued? && e.dev == dev && e.serial != 0
    requires dev in l'.store.devices
    requires e == KeyIssued(dev, l'.store.devices[dev].issuedEpoch, l'.store.devices[dev].lastSerial)
    requires forall d :: d != dev ==> (d in l'.store.devices <==> d in l.store.devices)
    requires forall d :: d != dev && d in l.store.devices ==> l'.store.devices[d] == l.store.devices[d]
    ensures RecordsCurrent(l')
  {
    forall d: Bytes
      ensures
        var i := LastIssue(l'.log, d);
        if d in l'.store.devices && l'.store.devices[d].lastSerial != 0 then
          i >= 0 && l'.log[i] == KeyIssued(d, l'.store.devices[d].issuedEpoch, l'.store.devices[d].lastSerial)
        else i == -1
    {
      LastIssueOther(l.log, e, d);
    }
  }

  lemma BoundedAppend(l: Ledger, l': Ledger, e: Event)
    requires Bounded(l) && l'.log == l.log + [e] && l.store.serial <= l'.store.serial
    requires e.KeyIssued? ==> 0 < e.serial <= l'.store.serial
    ensures Bounded(l')
  {
    forall i | IsIssue(l'.log, i)
      ensures 0 < l'.log[i].serial <= l'.store.serial
    {
      if i < |l.log| {
        assert IsIssue(l.log, i) && l'.log[i] == l.log[i];
      }
    }
  }

  lemma LastOfRecord(l: Ledger, dev: Bytes)
    requires RecordsCurrent(l) && dev in l.store.devices
    ensures
      var i, d := LastIssue(l.log, dev), l.store.devices[dev];
      if d.lastSerial == 0 then i == -1
      else IsIssue(l.log, i) && l.log[i] == KeyIssued(dev, d.issuedEpoch, d.lastSerial)
  {
    var i := LastIssue(l.log, dev);
  }

  lemma BelowNext(l: Ledger)
    requires Bounded(l)
    ensures forall i :: IsIssue(l.log, i) ==> l.log[i].serial < l.store.serial + 1
  {
  }

  lemma MarkKeeps(l: Ledger, dev: Bytes, epoch: uint64)
    requires SerialsSound(l) && l.store.serial < U64 - 1
    ensures SerialsSound(Commit(l, Marks(dev, epoch)))
  {
    hide Commit, LastIssue, SerialsExact, RecordsCurrent, Increasing, Bounded;
    var l' := Commit(l, Marks(dev, epoch));
    MarkEffect(l, dev, epoch);
    if dev in l.store.devices && !l.store.devices[dev].revoked {
      var d, last := l.store.devices[dev], LastIssue(l.log, dev);
      var e := KeyIssued(dev, epoch, l'.store.devices[dev].lastSerial);
      assert l'.log == l.log + [e];
      LastOfRecord(l, dev);
      BelowNext(l);
      if d.issuedEpoch == epoch && d.lastSerial != 0 {
        assert l.log[last] == e && l'.store == l.store;
        RepeatIsBounded(l, last);
      }
      AppendIssueExact(l.log, e, last);
      MarkRecords(l, l', dev, e);
      BoundedAppend(l, l', e);
      MarkIncreasing(l, l', e, last);
    }
  }

  lemma RepeatIsBounded(l: Ledger, i: int)
    requires Bounded(l) && IsIssue(l.log, i)
    ensures 0 < l.log[i].serial <= l.store.serial
  {
  }

  lemma MarkIncreasing(l: Ledger, l': Ledger, e: Event, last: int)
    requires Increasing(l.log) && Bounded(l) && e.KeyIssued? && l'.log == l.log + [e]
    requires if last >= 0 && l'.store == l.store then IsIssue(l.log, last) && l.log[last] == e
             else e.serial > l.store.serial
    ensures Increasing(l'.log)
  {
    var log, log' := l.log, l'.log;
    assert forall j :: 0 <= j <= |log| ==> log'[..j] == log[..j];
    forall i, j | IsIssue(log', i) && IsIssue(log', j) && i < j && log'[j].serial <= log'[i].serial
      ensures log'[j] in log'[..j]
    {
      assert IsIssue(log, i) && log'[i] == log[i];
      if j < |log| {
        assert IsIssue(log, j) && log'[j] == log[j];
      } else {
        assert log'[j] == e && log'[..j] == log;
        assert l.log[last] == e;
      }
    }
  }

  ghost predicate SameIssueFields(s: S.State, s': S.State) {
    && (forall d :: d in s.devices ==>
          && d in s'.devices
          && s'.devices[d].lastSerial == s.devices[d].lastSerial
          && s'.devices[d].issuedEpoch == s.devices[d].issuedEpoch)
    && (forall d :: d in s'.devices && d !in s.devices ==> s'.devices[d].lastSerial == 0)
  }

  lemma QuietAppend(l: Ledger, e: Event)
    requires SerialsSound(l) && !e.KeyIssued?
    ensures SerialsSound(l.(log := l.log + [e]))
  {
    hide LastIssue, SerialsExact, Increasing;
    QuietEvent(l.log, e);
    BoundedAppend(l, l.(log := l.log + [e]), e);
    assert forall i :: 0 <= i < |l.log| ==> (l.log + [e])[i] == l.log[i];
  }

  lemma QuietStore(l: Ledger, s: S.State)
    requires SerialsSound(l) && s.serial == l.store.serial && SameIssueFields(l.store, s)
    ensures SerialsSound(l.(store := s))
  {
    hide LastIssue, SerialsExact, Increasing;
  }

  /** Every other operation leaves serials and what records remember of them alone. */
  lemma OtherKeeps(l: Ledger, ch: Change)
    requires SerialsSound(l) && !ch.Marks?
    ensures SerialsSound(Commit(l, ch)) && Commit(l, ch).store.serial == l.store.serial
  {
    var l' := Commit(l, ch);
    OtherEffect(l, ch);
    hide Commit, SerialsSound, SameIssueFields;
    var m := l.(store := l'.store);
    QuietStore(l, l'.store);
    var n := |l'.log| - |l.log|;
    if n >= 1 {
      QuietAppend(m, l'.log[|l.log|]);
      m := m.(log := m.log + [l'.log[|l.log|]]);
    }
    if n == 2 {
      QuietAppend(m, l'.log[|l.log| + 1]);
      m := m.(log := m.log + [l'.log[|l.log| + 1]]);
    }
    assert m.log == l'.log;
  }

  lemma OtherEffect(l: Ledger, ch: Change)
    requires !ch.Marks?
    ensures
      var l' := Commit(l, ch);
      && l'.store.serial == l.store.serial
      && l.log <= l'.log && |l'.log| <= |l.log| + 2
      && (forall i :: |l.log| <= i < |l'.log| ==> !l'.log[i].KeyIssued?)
      && SameIssueFields(l.store, l'.store)
  {
  }

  lemma {:induction false} RunSerials(changes: seq<Change>)
    requires |changes| < U64 - 1
    ensures SerialsSound(Run(changes)) && Run(changes).store.serial <= |changes|
  {
    if changes == [] {
      assert forall dev :: LastIssue([], dev) == -1;
    } else {
      var front, last := changes[..|changes| - 1], changes[|changes| - 1];
      RunSerials(front);
      if last.Marks? {
        MarkKeeps(Run(front), last.dev, last.epoch);
        MarkEffect(Run(front), last.dev, last.epoch);
      } else {
        OtherKeeps(Run(front), last);
      }
      hide Commit, SerialsSound;
    }
  }

  /** Serial discipline, over every run below the counter limit: equal serials mean the same device and
      epoch; and two issues to one (device, epoch) share their serial exactly when that device got no key
      for another epoch in between. */
  lemma SerialDiscipline(changes: seq<Change>, i: nat, j: nat)
    requires |changes| < U64 - 1
    requires i < j < |Run(changes).log| && Run(changes).log[i].KeyIssued? && Run(changes).log[j].KeyIssued?
    ensures
      var log := Run(changes).log;
      && (log[i].serial == log[j].serial ==> log[i] == log[j])
      && (log[i].dev == log[j].dev && log[i].epoch == log[j].epoch ==>
           (log[i].serial == log[j].serial <==> SameEpochBetween(log, i, j, log[i].dev, log[i].epoch)))
  {
    RunSerials(changes);
    var log := Run(changes).log;
    assert IsIssue(log, i) && IsIssue(log, j);
  }

  /** A serial never given before is above every serial given before. */
  lemma FreshSerialsIncrease(changes: seq<Change>, i: nat, j: nat)
    requires |changes| < U64 - 1
    requires i < j < |Run(changes).log| && Run(changes).log[i].KeyIssued? && Run(changes).log[j].KeyIssued?
    requires Run(changes).log[j] !in Run(changes).log[..j]
    ensures Run(changes).log[i].serial < Run(changes).log[j].serial
  {
    RunSerials(changes);
    var log := Run(changes).log;
    assert IsIssue(log, i) && IsIssue(log, j);
  }

  /** If a device's issues never go back to an earlier epoch, each of its epochs has exactly one serial,
      through any number of re-requests, revocations and re-enrollments. */
  lemma OneSerialPerEpoch(changes: seq<Change>, i: nat, j: nat)
    requires |changes| < U64 - 1
    requires i < j < |Run(changes).log| && Run(changes).log[i].KeyIssued? && Run(changes).log[j].KeyIssued?
    requires Run(changes).log[i].dev == Run(changes).log[j].dev
    requires Run(changes).log[i].epoch == Run(changes).log[j].epoch
    requires
      var log := Run(changes).log;
      forall a, b :: IsIssue(log, a) && IsIssue(log, b) && a < b && log[a].dev == log[b].dev == log[i].dev ==>
        log[a].epoch <= log[b].epoch
    ensures Run(changes).log[i].serial == Run(changes).log[j].serial
  {
    SerialDiscipline(changes, i, j);
    var log := Run(changes).log;
    hide Run;
    forall k | i <= k <= j && log[k].KeyIssued? && log[k].dev == log[i].dev
      ensures log[k].epoch == log[i].epoch
    {
      assert IsIssue(log, i) && IsIssue(log, j) && IsIssue(log, k);
    }
  }

  // ------------------------------------------------------------------ vouchers

  /** Redemptions of a voucher since it was last added. */
  function UsesSince(log: seq<Event>, id: Bytes): nat {
    if log == [] then 0
    else
      var e, front := log[|log| - 1], log[..|log| - 1];
      if e == Added(id) then 0 else UsesSince(front, id) + if e == Redeemed(id) then 1 else 0
  }

  /** Whether a voucher has been withdrawn since it was last added. */
  predicate WithdrawnSince(log: seq<Event>, id: Bytes) {
    log != [] &&
    (var e, front := log[|log| - 1], log[..|log| - 1];
     e == Withdrawn(id) || (e != Added(id) && WithdrawnSince(front, id)))
  }

  function Count(log: seq<Event>, e: Event): nat { multiset(log)[e] }

  lemma HistoryAppend(log: seq<Event>, e: Event, id: Bytes)
    ensures UsesSince(log + [e], id) ==
      if e == Added(id) then 0 else UsesSince(log, id) + if e == Redeemed(id) then 1 else 0
    ensures WithdrawnSince(log + [e], id) <==> e == Withdrawn(id) || (e != Added(id) && WithdrawnSince(log, id))
    ensures forall x :: Count(log + [e], x) == Count(log, x) + if x == e then 1 else 0
  {
    assert (log + [e])[..|log|] == log;
  }

  /** What the log says about one voucher. */
  ghost predicate VoucherSound(l: Ledger, id: Bytes) {
    var log := l.log;
    && (id in l.store.vouchers <==> Count(log, Added(id)) > 0)
    && (id !in l.store.vouchers ==> Count(log, Redeemed(id)) == 0)
    && (Count(log, Added(id)) <= 1 ==> Count(log, Redeemed(id)) == UsesSince(log, id))
    && (id in l.store.vouchers ==>
          var v := l.store.vouchers[id];
          && v.uses == UsesSince(log, id) && (v.maxUses > 0 ==> v.uses <= v.maxUses)
          && (v.revoked <==> WithdrawnSince(log, id)))
  }

  /** Vouchers are added unused and not revoked, as the create handler makes them. */
  predicate AddsNewVoucher(ch: Change) {
    ch.Adds? ==> ch.v.uses == 0 && !ch.v.revoked
  }

  lemma VoucherAppend(l: Ledger, l': Ledger, e: Event, id: Bytes)
    requires VoucherSound(l, id) && l'.log == l.log + [e]
    requires e != Added(id) && e != Redeemed(id) && e != Withdrawn(id)
    requires l'.store.vouchers == l.store.vouchers
    ensures VoucherSound(l', id)
  {
    HistoryAppend(l.log, e, id);
    hide UsesSince, WithdrawnSince, Count;
  }

  lemma RedeemKeepsVoucher(l: Ledger, found: Option<Bytes>, now: int, id: Bytes)
    requires VoucherSound(l, id)
    ensures VoucherSound(Commit(l, Redeems(found, now)), id)
  {
    var l' := Commit(l, Redeems(found, now));
    if found.Some? {
      HistoryAppend(l.log, Redeemed(found.value), id);
    }
    hide UsesSince, WithdrawnSince, Count;
  }

  lemma AddKeepsVoucher(l: Ledger, v: S.Voucher, id: Bytes)
    requires VoucherSound(l, id) && v.uses == 0 && !v.revoked
    ensures VoucherSound(Commit(l, Adds(v)), id)
  {
    HistoryAppend(l.log, Added(v.id), id);
    hide UsesSince, WithdrawnSince, Count;
  }

  lemma WithdrawKeepsVoucher(l: Ledger, w: Bytes, id: Bytes)
    requires VoucherSound(l, id)
    ensures VoucherSound(Commit(l, Withdraws(w)), id)
  {
    HistoryAppend(l.log, Withdrawn(w), id);
    hide UsesSince, WithdrawnSince, Count;
  }

  lemma DeviceEffect(l: Ledger, ch: Change)
    requires ch.Marks? || ch.Enrolls? || ch.Revokes? || ch.Nothing?
    ensures
      var l' := Commit(l, ch);
      && l'.store.vouchers == l.store.vouchers && l.log <= l'.log && |l'.log| <= |l.log| + 2
      && forall i :: |l.log| <= i < |l'.log| ==> !l'.log[i].Added? && !l'.log[i].Redeemed? && !l'.log[i].Withdrawn?
  {
  }

  lemma DeviceEventsKeepVoucher(l: Ledger, ch: Change, id: Bytes)
    requires VoucherSound(l, id) && (ch.Marks? || ch.Enrolls? || ch.Revokes? || ch.Nothing?)
    ensures VoucherSound(Commit(l, ch), id)
  {
    hide Commit, VoucherSound;
    var l' := Commit(l, ch);
    DeviceEffect(l, ch);
    var m, n := l.(store := l'.store), |l'.log| - |l.log|;
    VoucherStore(l, l'.store, id);
    if n >= 1 {
      var m' := m.(log := m.log + [l'.log[|l.log|]]);
      VoucherAppend(m, m', l'.log[|l.log|], id);
      m := m';
    }
    if n == 2 {
      var m' := m.(log := m.log + [l'.log[|l.log| + 1]]);
      VoucherAppend(m, m', l'.log[|l.log| + 1], id);
      m := m';
    }
    assert m.log == l'.log;
  }

  lemma VoucherStore(l: Ledger, s: S.State, id: Bytes)
    requires VoucherSound(l, id) && s.vouchers == l.store.vouchers
    ensures VoucherSound(l.(store := s), id)
  {
    hide UsesSince, WithdrawnSince, Count;
  }

  lemma CommitKeepsVoucher(l: Ledger, ch: Change, id: Bytes)
    requires VoucherSound(l, id) && AddsNewVoucher(ch)
    ensures VoucherSound(Commit(l, ch), id)
  {
    hide Commit, VoucherSound;
    match ch
    case Redeems(found, now) => RedeemKeepsVoucher(l, found, now, id);
    case Adds(v) => AddKeepsVoucher(l, v, id);
    case Withdraws(w) => WithdrawKeepsVoucher(l, w, id);
    case _ => DeviceEventsKeepVoucher(l, ch, id);
  }

  lemma {:induction false} RunVoucher(changes: seq<Change>, id: Bytes)
    requires forall i :: 0 <= i < |changes| ==> AddsNewVoucher(changes[i])
    ensures VoucherSound(Run(changes), id)
  {
    if changes != [] {
      RunVoucher(changes[..|changes| - 1], id);
      CommitKeepsVoucher(Run(changes[..|changes| - 1]), changes[|changes| - 1], id);
      hide Commit, VoucherSound;
    }
  }

  /** Voucher conservation: `Uses` is the number of redemptions since the voucher was added and never
      exceeds `MaxUses`; for an id added once, it is the number of all its redemptions. */
  lemma VoucherConservation(changes: seq<Change>, id: Bytes)
    requires forall i :: 0 <= i < |changes| ==> AddsNewVoucher(changes[i])
    requires id in Run(changes).store.vouchers
    ensures
      var l := Run(changes);
      var v := l.store.vouchers[id];
      && v.uses == UsesSince(l.log, id) && (v.maxUses > 0 ==> UsesSince(l.log, id) <= v.maxUses)
      && (Count(l.log, Added(id)) <= 1 ==> Count(l.log, Redeemed(id)) == v.uses)
  {
    RunVoucher(changes, id);
    hide UsesSince, WithdrawnSince, Run;
  }

  /** The id was never added after one of its redemptions. */
  ghost predicate NotAddedAgain(log: seq<Event>, id: Bytes) {
    forall i, j :: 0 <= i < j < |log| && log[i] == Redeemed(id) ==> log[j] != Added(id)
  }

  lemma NotAddedAgainSnoc(log: seq<Event>, e: Event, id: Bytes)
    ensures NotAddedAgain(log + [e], id) <==> NotAddedAgain(log, id) && !(e == Added(id) && Redeemed(id) in log)
  {
    var log' := log + [e];
    assert forall i :: 0 <= i < |log| ==> log'[i] == log[i];
    assert log'[|log|] == e;
    if e == Added(id) && Redeemed(id) in log {
      var i :| 0 <= i < |log| && log[i] == Redeemed(id);
      assert log'[i] == Redeemed(id);
    }
    if NotAddedAgain(log', id) {
      forall i, j | 0 <= i < j < |log| && log[i] == Redeemed(id)
        ensures log[j] != Added(id)
      {
        assert log'[i] == log[i] && log'[j] == log[j];
      }
    }
  }

  /** Counting since the last addition misses nothing if and only if there was nothing to miss. */
  lemma {:induction false} UsesSinceIsCountIff(log: seq<Event>, id: Bytes)
    ensures UsesSince(log, id) <= Count(log, Redeemed(id))
    ensures UsesSince(log, id) == Count(log, Redeemed(id)) <==> NotAddedAgain(log, id)
  {
    hide NotAddedAgain;
    if log == [] {
      NoEvents(id);
    } else {
      var front, e := log[..|log| - 1], log[|log| - 1];
      assert log == front + [e];
      hide UsesSince, WithdrawnSince, Count;
      UsesSinceIsCountIff(front, id);
      HistoryAppend(front, e, id);
      NotAddedAgainSnoc(front, e, id);
      CountMember(front, Redeemed(id));
    }
  }

  lemma NoEvents(id: Bytes)
    ensures UsesSince([], id) == 0 == Count([], Redeemed(id)) && NotAddedAgain([], id)
  {
  }

  lemma CountMember(log: seq<Event>, e: Event)
    ensures e in log <==> Count(log, e) > 0
  {
  }

  /** The redemptions of a voucher are its `Uses` if and only if its id was not added again after one. */
  lemma RedemptionsAreUsesIff(changes: seq<Change>, id: Bytes)
    requires forall i :: 0 <= i < |changes| ==> AddsNewVoucher(changes[i])
    requires id in Run(changes).store.vouchers
    ensures
      var l := Run(changes);
      Count(l.log, Redeemed(id)) == l.store.vouchers[id].uses <==> NotAddedAgain(l.log, id)
  {
    hide Run, UsesSince, Count, NotAddedAgain;
    VoucherConservation(changes, id);
    UsesSinceIsCountIff(Run(changes).log, id);
  }

  /** A redemption after a withdrawal needs the id to be added anew in between. */
  ghost predicate StopsForGood(log: seq<Event>, id: Bytes) {
    forall i, j :: 0 <= i < j < |log| && log[i] == Withdrawn(id) && log[j] == Redeemed(id) ==> Added(id) in log[i..j]
  }

  lemma {:induction false} WithdrawnAt(log: seq<Event>, i: nat, id: Bytes)
    requires i < |log| && log[i] == Withdrawn(id) && Added(id) !in log[i..]
    ensures WithdrawnSince(log, id)
  {
    if i < |log| - 1 {
      var front := log[..|log| - 1];
      assert log[i..] == front[i..] + [log[|log| - 1]];
      assert log[|log| - 1] in log[i..];
      WithdrawnAt(front, i, id);
    }
  }

  lemma StopsAppend(log: seq<Event>, e: Event, id: Bytes)
    requires StopsForGood(log, id) && (e == Redeemed(id) ==> !WithdrawnSince(log, id))
    ensures StopsForGood(log + [e], id)
  {
    var log' := log + [e];
    forall i, j | 0 <= i < j < |log'| && log'[i] == Withdrawn(id) && log'[j] == Redeemed(id)
      ensures Added(id) in log'[i..j]
    {
      assert log'[i..j] == log[i..j];
      if j == |log| {
        assert log[i..j] == log[i..];
        if Added(id) !in log[i..] {
          WithdrawnAt(log, i, id);
        }
      }
    }
  }

  lemma WithdrawnNotRedeemed(l: Ledger, ch: Change, id: Bytes)
    requires VoucherSound(l, id) && WithdrawnSince(l.log, id)
    ensures !(RedeemsVoucher(l, ch) && ch.found.value == id)
  {
  }

  lemma CommitStops(l: Ledger, ch: Change, id: Bytes)
    requires VoucherSound(l, id) && StopsForGood(l.log, id)
    ensures StopsForGood(Commit(l, ch).log, id)
  {
    var l' := Commit(l, ch);
    CommitEvents(l, ch);
    hide Commit, VoucherSound, StopsForGood, RedeemsVoucher, WithdrawnSince;
    if EnrollsDevice(ch) {
      var mid := l.log + [Enrolled(ch.req.deviceID)];
      StopsAppend(l.log, Enrolled(ch.req.deviceID), id);
      if ch.via.Some? {
        StopsAppend(mid, Admitted(ch.via.value), id);
      } else {
        assert l'.log == mid;
      }
    } else if |l'.log| == |l.log| + 1 {
      if WithdrawnSince(l.log, id) {
        WithdrawnNotRedeemed(l, ch, id);
      }
      StopsAppend(l.log, l'.log[|l.log|], id);
    }
  }

  /** After its revocation a voucher is never redeemed again, unless its id is added anew. */
  lemma {:induction false} RevocationStops(changes: seq<Change>, id: Bytes)
    requires forall i :: 0 <= i < |changes| ==> AddsNewVoucher(changes[i])
    ensures StopsForGood(Run(changes).log, id)
  {
    if changes != [] {
      var front := changes[..|changes| - 1];
      RevocationStops(front, id);
      RunVoucher(front, id);
      CommitStops(Run(front), changes[|changes| - 1], id);
      hide Commit, VoucherSound, StopsForGood;
    }
  }

  lemma RunSnoc(changes: seq<Change>, ch: Change)
    ensures Run(changes + [ch]) == Commit(Run(changes), ch)
  {
    assert (changes + [ch])[..|changes|] == changes;
    hide Commit;
  }

  lemma AddEffect(l: Ledger, v: S.Voucher)
    requires v.id != []
    ensures Commit(l, Adds(v)) == Ledger(l.store.(vouchers := l.store.vouchers[v.id := v]), l.log + [Added(v.id)])
  {
  }

  lemma RedeemEffect(l: Ledger, id: Bytes, now: int)
    requires id in l.store.vouchers && S.Refusal(l.store.vouchers[id], now).None?
    ensures
      var v := l.store.vouchers[id];
      Commit(l, Redeems(Some(id), now)) ==
        Ledger(l.store.(vouchers := l.store.vouchers[id := v.(uses := v.uses + 1)]), l.log + [Redeemed(id)])
  {
  }

  /** Whatever happened to this id before, adding it lets it be redeemed. */
  lemma AddedThenRedeemed(l: Ledger, v: S.Voucher)
    requires v.id != [] && v.maxUses == 1 && v.uses == 0 && !v.revoked && v.expiresAt == 0
    ensures Commit(Commit(l, Adds(v)), Redeems(Some(v.id), 0)).log == l.log + [Added(v.id)] + [Redeemed(v.id)]
  {
    AddEffect(l, v);
    RedeemEffect(Commit(l, Adds(v)), v.id, 0);
    hide Commit;
  }

  /** Why ids must be fresh: adding an id again resets its uses, so a one-use voucher is redeemed twice. */
  lemma ReusedIdRedeemedTwice(v: S.Voucher)
    requires v.id != [] && v.maxUses == 1 && v.uses == 0 && !v.revoked && v.expiresAt == 0
    ensures Run([Adds(v), Redeems(Some(v.id), 0), Adds(v), Redeems(Some(v.id), 0)]).log ==
      [Added(v.id), Redeemed(v.id), Added(v.id), Redeemed(v.id)]
  {
    var a, r := Adds(v), Redeems(Some(v.id), 0);
    assert Run([]) == NEW;
    hide Run, Commit;
    assert [] + [a] + [r] + [a] + [r] == [a, r, a, r];
    RunSnoc([], a);
    RunSnoc([] + [a], r);
    RunSnoc([] + [a] + [r], a);
    RunSnoc([] + [a] + [r] + [a], r);
    AddedThenRedeemed(NEW, v);
    AddedThenRedeemed(Run([] + [a] + [r]), v);
  }

  // ------------------------------------------------------------------ enrollment counters and key inputs

  /** Nothing but an enrollment touches a device's counter; below the limit, an enrollment raises it. */
  lemma CounterStep(l: Ledger, ch: Change, dev: Bytes)
    requires dev in l.store.devices
    ensures
      var l' := Commit(l, ch);
      var n := Count(l'.log, Enrolled(dev)) - Count(l.log, Enrolled(dev));
      && dev in l'.store.devices && 0 <= n <= 1
      && (n == 0 ==> l'.store.devices[dev].counter == l.store.devices[dev].counter)
      && (n == 1 <==> EnrollsDevice(ch) && ch.req.deviceID == dev)
      && (n == 1 ==> (l'.store.devices[dev].counter > l.store.devices[dev].counter <==>
                      l.store.devices[dev].counter < U32 - 1))
  {
    var l' := Commit(l, ch);
    EnrolledCount(l, ch, dev);
    hide Count;
    if EnrollsDevice(ch) && ch.req.deviceID == dev {
      S.ReenrollRaisesCounter(l.store.devices[dev], ch.req);
    }
  }

  /** Whether a change enrolls a device, and whether it redeems a voucher. */
  predicate EnrollsDevice(ch: Change) { ch.Enrolls? && S.RequestError(ch.req).None? }

  predicate RedeemsVoucher(l: Ledger, ch: Change) {
    ch.Redeems? && ch.found.Some? && ch.found.value in l.store.vouchers
    && S.Refusal(l.store.vouchers[ch.found.value], ch.now).None?
  }

  /** The events of one change, by kind. */
  lemma CommitEvents(l: Ledger, ch: Change)
    ensures
      var l' := Commit(l, ch);
      if EnrollsDevice(ch) then
        l'.log == l.log + [Enrolled(ch.req.deviceID)] + if ch.via.Some? then [Admitted(ch.via.value)] else []
      else if RedeemsVoucher(l, ch) then l'.log == l.log + [Redeemed(ch.found.value)]
      else l'.log == l.log ||
           (|l'.log| == |l.log| + 1 && l'.log == l.log + [l'.log[|l.log|]]
            && !l'.log[|l.log|].Enrolled? && !l'.log[|l.log|].Admitted? && !l'.log[|l.log|].Redeemed?)
  {
  }

  lemma CountAppend(log: seq<Event>, e: Event, x: Event)
    ensures Count(log + [e], x) == Count(log, x) + if x == e then 1 else 0
  {
  }

  lemma EnrolledCount(l: Ledger, ch: Change, dev: Bytes)
    ensures Count(Commit(l, ch).log, Enrolled(dev)) ==
      Count(l.log, Enrolled(dev)) + if EnrollsDevice(ch) && ch.req.deviceID == dev then 1 else 0
  {
    CountStep(l, ch, Enrolled(dev));
  }

  /** How one change moves the count of an enrollment, admission or redemption event. */
  lemma CountStep(l: Ledger, ch: Change, x: Event)
    requires x.Enrolled? || x.Admitted? || x.Redeemed?
    ensures Count(Commit(l, ch).log, x) == Count(l.log, x) +
      (if EnrollsDevice(ch) && x == Enrolled(ch.req.deviceID) then 1 else 0) +
      (if EnrollsDevice(ch) && ch.via.Some? && x == Admitted(ch.via.value) then 1 else 0) +
      (if RedeemsVoucher(l, ch) && x == Redeemed(ch.found.value) then 1 else 0)
  {
    var l' := Commit(l, ch);
    CommitEvents(l, ch);
    hide Commit, Count;
    if EnrollsDevice(ch) {
      var mid := l.log + [Enrolled(ch.req.deviceID)];
      CountAppend(l.log, Enrolled(ch.req.deviceID), x);
      if ch.via.Some? {
        CountAppend(mid, Admitted(ch.via.value), x);
      } else {
        assert l'.log == mid;
      }
    } else if |l'.log| == |l.log| + 1 {
      CountAppend(l.log, l'.log[|l.log|], x);
    }
  }

  lemma CommitKeyed(l: Ledger, ch: Change)
    requires S.Keyed(l.store)
    ensures S.Keyed(Commit(l, ch).store)
  {
  }

  lemma {:induction false} RunKeyed(changes: seq<Change>)
    ensures S.Keyed(Run(changes).store)
  {
    if changes != [] {
      RunKeyed(changes[..|changes| - 1]);
      CommitKeyed(Run(changes[..|changes| - 1]), changes[|changes| - 1]);
    }
  }

  /** A revoked device stays revoked until it is enrolled again. */
  lemma RevokedUntilEnrolled(l: Ledger, ch: Change, dev: Bytes)
    requires dev in l.store.devices && l.store.devices[dev].revoked
    requires !(EnrollsDevice(ch) && ch.req.deviceID == dev)
    ensures
      var s := Commit(l, ch).store;
      dev in s.devices && s.devices[dev].revoked
  {
  }

  /** One more change after a revocation at l. */
  lemma RevokedStep(l: Ledger, m: Ledger, ch: Change, dev: Bytes)
    requires Count(l.log, Enrolled(dev)) <= Count(m.log, Enrolled(dev))
    requires Count(l.log, Enrolled(dev)) == Count(m.log, Enrolled(dev)) ==>
      dev in m.store.devices && m.store.devices[dev].revoked
    ensures
      var m' := Commit(m, ch);
      && Count(l.log, Enrolled(dev)) <= Count(m'.log, Enrolled(dev))
      && (Count(l.log, Enrolled(dev)) == Count(m'.log, Enrolled(dev)) ==>
            dev in m'.store.devices && m'.store.devices[dev].revoked)
  {
    hide Commit, Count;
    EnrolledCount(m, ch, dev);
    if Count(l.log, Enrolled(dev)) == Count(m.log, Enrolled(dev)) && !(EnrollsDevice(ch) && ch.req.deviceID == dev) {
      RevokedUntilEnrolled(m, ch, dev);
    }
  }

  /** From l to m the device's counter grew by at least one per enrollment, and stood still without any. */
  ghost predicate CounterGrew(l: Ledger, m: Ledger, dev: Bytes) {
    var n := Count(m.log, Enrolled(dev)) - Count(l.log, Enrolled(dev));
    && dev in l.store.devices && dev in m.store.devices && n >= 0
    && m.store.devices[dev].counter >= l.store.devices[dev].counter + n
    && (n == 0 ==> m.store.devices[dev].counter == l.store.devices[dev].counter)
  }

  lemma CounterGrewNot(l: Ledger, dev: Bytes)
    requires dev in l.store.devices
    ensures CounterGrew(l, l, dev)
  {
  }

  lemma CounterGrewDevice(l: Ledger, m: Ledger, dev: Bytes)
    requires CounterGrew(l, m, dev)
    ensures dev in m.store.devices
  {
  }

  lemma CounterGrewStep(l: Ledger, m: Ledger, ch: Change, dev: Bytes)
    requires CounterGrew(l, m, dev) && !EnrollsAtLimit(m, ch, dev)
    ensures CounterGrew(l, Commit(m, ch), dev)
  {
    CounterStep(m, ch, dev);
    hide Commit, Count;
  }

  /** A change that enrolls a known device again although its counter is at the uint32 limit. */
  predicate EnrollsAtLimit(l: Ledger, ch: Change, dev: Bytes) {
    && EnrollsDevice(ch) && ch.req.deviceID == dev
    && dev in l.store.devices && l.store.devices[dev].counter == U32 - 1
  }

  /** From p up to q nobody enrolls dev again at the limit. */
  ghost predicate LimitRespected(changes: seq<Change>, p: nat, q: nat, dev: Bytes)
    requires q <= |changes|
  {
    forall k :: p <= k < q ==> !EnrollsAtLimit(Run(changes[..k]), changes[k], dev)
  }

  /** Change k enrolls dev, which is known, and raises its counter. */
  ghost predicate Raises(changes: seq<Change>, k: nat, dev: Bytes)
    requires k < |changes|
  {
    var l, m := Run(changes[..k]), Run(changes[..k + 1]);
    dev in l.store.devices && dev in m.store.devices && m.store.devices[dev].counter > l.store.devices[dev].counter
  }

  lemma {:induction false} DeviceStays(changes: seq<Change>, p: nat, k: nat, dev: Bytes)
    requires p <= k <= |changes| && dev in Run(changes[..p]).store.devices
    ensures dev in Run(changes[..k]).store.devices
    decreases k
  {
    hide Run, Commit, Count;
    if p < k {
      DeviceStays(changes, p, k - 1, dev);
      assert changes[..k] == changes[..k - 1] + [changes[k - 1]];
      RunSnoc(changes[..k - 1], changes[k - 1]);
      CounterStep(Run(changes[..k - 1]), changes[k - 1], dev);
    }
  }

  /** Exactly then does every enrollment of a stretch raise the counter. */
  lemma EveryEnrollmentRaisesIff(changes: seq<Change>, p: nat, q: nat, dev: Bytes)
    requires p <= q <= |changes| && dev in Run(changes[..p]).store.devices
    ensures LimitRespected(changes, p, q, dev) <==>
      forall k :: p <= k < q && EnrollsDevice(changes[k]) && changes[k].req.deviceID == dev ==> Raises(changes, k, dev)
  {
    hide Run, Commit, Count;
    forall k | p <= k < q && EnrollsDevice(changes[k]) && changes[k].req.deviceID == dev
      ensures Raises(changes, k, dev) <==> !EnrollsAtLimit(Run(changes[..k]), changes[k], dev)
    {
      DeviceStays(changes, p, k, dev);
      assert changes[..k + 1] == changes[..k] + [changes[k]];
      RunSnoc(changes[..k], changes[k]);
      CounterStep(Run(changes[..k]), changes[k], dev);
    }
  }

  function EnrollWith(dev: Bytes, pk: Bytes, counter: uint32): Change {
    Enrolls(S.EnrollRequest(dev, pk, [], [], [], counter, []), None)
  }

  lemma EnrollEffect(l: Ledger, dev: Bytes, pk: Bytes, counter: uint32)
    requires dev != [] && |pk| == 32
    ensures
      var s, req := Commit(l, EnrollWith(dev, pk, counter)).store, EnrollWith(dev, pk, counter).req;
      dev in s.devices && s.devices[dev] ==
        if dev in l.store.devices then S.Reenrolled(l.store.devices[dev], req) else S.FirstEnrolled(req)
  {
  }

  /** The limit can be reached at once, because a request may ask for any counter; and then a counter, and with
      it the key input of an epoch, comes back. */
  lemma CounterComesBack(dev: Bytes, pk: Bytes)
    requires dev != [] && |pk| == 32
    ensures
      var first := [] + [EnrollWith(dev, pk, 5)];
      var all := first + [EnrollWith(dev, pk, U32 - 1)] + [EnrollWith(dev, pk, 0)] + [EnrollWith(dev, pk, 5)];
      && dev in Run(first).store.devices && dev in Run(all).store.devices
      && Run(first).store.devices[dev].counter == 5 == Run(all).store.devices[dev].counter
  {
    var a, b, c := EnrollWith(dev, pk, 5), EnrollWith(dev, pk, U32 - 1), EnrollWith(dev, pk, 0);
    assert Run([]) == NEW;
    hide Run, Commit;
    RunSnoc([], a);
    EnrollEffect(NEW, dev, pk, 5);
    RunSnoc([] + [a], b);
    EnrollEffect(Run([] + [a]), dev, pk, U32 - 1);
    RunSnoc([] + [a] + [b], c);
    EnrollEffect(Run([] + [a] + [b]), dev, pk, 0);
    RunSnoc([] + [a] + [b] + [c], a);
    EnrollEffect(Run([] + [a] + [b] + [c]), dev, pk, 5);
  }

  /** The counter grows by at least one with every enrollment and otherwise stands still. */
  lemma {:induction false} CounterGrows(changes: seq<Change>, p: nat, q: nat, dev: Bytes)
    requires p <= q <= |changes| && dev in Run(changes[..p]).store.devices && LimitRespected(changes, p, q, dev)
    ensures CounterGrew(Run(changes[..p]), Run(changes[..q]), dev)
    decreases q
  {
    hide Commit, Run, Count, CounterGrew, EnrollsAtLimit;
    if p == q {
      CounterGrewNot(Run(changes[..p]), dev);
    } else {
      CounterGrows(changes, p, q - 1, dev);
      assert changes[..q] == changes[..q - 1] + [changes[q - 1]];
      RunSnoc(changes[..q - 1], changes[q - 1]);
      CounterGrewDevice(Run(changes[..p]), Run(changes[..q - 1]), dev);
      CounterGrewStep(Run(changes[..p]), Run(changes[..q - 1]), changes[q - 1], dev);
    }
  }

  /** Key inputs: while nobody enrolls a device again, its counter, and so the HKDF input of its key for an
      epoch, stays; after a new enrollment no input, for any epoch, equals one from before it; and no
      device input is an org-day input. */
  lemma FreshKeyInput(changes: seq<Change>, p: nat, q: nat, dev: Bytes, e: uint64, e': uint64, org: Bytes)
    requires p <= q <= |changes| && dev in Run(changes[..p]).store.devices && LimitRespected(changes, p, q, dev)
    ensures
      var l, m := Run(changes[..p]), Run(changes[..q]);
      && dev in m.store.devices
      && (Count(m.log, Enrolled(dev)) == Count(l.log, Enrolled(dev)) ==>
            KeySchedule.DeviceInfo(dev, m.store.devices[dev].counter)
            == KeySchedule.DeviceInfo(dev, l.store.devices[dev].counter))
      && (Count(m.log, Enrolled(dev)) > Count(l.log, Enrolled(dev)) ==>
            (KeySchedule.DaySalt(e), KeySchedule.DeviceInfo(dev, l.store.devices[dev].counter)) !=
            (KeySchedule.DaySalt(e'), KeySchedule.DeviceInfo(dev, m.store.devices[dev].counter)))
      && KeySchedule.DeviceInfo(dev, m.store.devices[dev].counter) != KeySchedule.OrgInfo(org)
  {
    CounterGrows(changes, p, q, dev);
    var l, m := Run(changes[..p]), Run(changes[..q]);
    hide Run, Count, KeySchedule.DaySalt, KeySchedule.DeviceInfo, KeySchedule.OrgInfo;
    var n, n' := l.store.devices[dev].counter, m.store.devices[dev].counter;
    if (KeySchedule.DaySalt(e), KeySchedule.DeviceInfo(dev, n))
       == (KeySchedule.DaySalt(e'), KeySchedule.DeviceInfo(dev, n')) {
      KeySchedule.DeviceInputInjective(e, dev, n, e', dev, n');
    }
    KeySchedule.DeviceInputNeverOrg(dev, n', org);
  }

  // ------------------------------------------------------------------ vouchers, from the calls alone

  /** The voucher last added under this id. */
  function LastAdded(changes: seq<Change>, id: Bytes): Option<S.Voucher> {
    if changes == [] then None
    else
      var front, ch := changes[..|changes| - 1], changes[|changes| - 1];
      if ch.Adds? && ch.v.id == id && id != [] then Some(ch.v) else LastAdded(front, id)
  }

  /** The stored voucher is the one last added, but for its uses and its revocation. */
  ghost predicate StoredAsAdded(s: S.State, added: Option<S.Voucher>, id: Bytes) {
    && (id in s.vouchers <==> added.Some?)
    && (added.Some? ==> s.vouchers[id] == added.value.(uses := s.vouchers[id].uses, revoked := s.vouchers[id].revoked))
  }

  lemma CommitStored(l: Ledger, ch: Change, added: Option<S.Voucher>, id: Bytes)
    requires StoredAsAdded(l.store, added, id)
    ensures StoredAsAdded(Commit(l, ch).store, if ch.Adds? && ch.v.id == id && id != [] then Some(ch.v) else added, id)
  {
  }

  lemma {:induction false} RunStored(changes: seq<Change>, id: Bytes)
    ensures StoredAsAdded(Run(changes).store, LastAdded(changes, id), id)
  {
    hide Commit, StoredAsAdded;
    if changes == [] {
      NothingStored(id);
    } else {
      var front, ch := changes[..|changes| - 1], changes[|changes| - 1];
      RunStored(front, id);
      CommitStored(Run(front), ch, LastAdded(front, id), id);
    }
  }

  lemma NothingStored(id: Bytes)
    ensures StoredAsAdded(S.EMPTY, None, id)
  {
  }

  /** When a redemption succeeds, after any calls: exactly if the voucher last added under this id has not been
      withdrawn since, has not expired, and has uses left. Otherwise nothing changes. */
  lemma RedemptionSucceedsIff(changes: seq<Change>, id: Bytes, now: int)
    requires forall i :: 0 <= i < |changes| ==> AddsNewVoucher(changes[i])
    ensures
      var l, v := Run(changes), LastAdded(changes, id);
      var m := Run(changes + [Redeems(Some(id), now)]);
      if v.Some? && !WithdrawnSince(l.log, id) && (v.value.expiresAt <= 0 || now <= v.value.expiresAt)
         && (v.value.maxUses <= 0 || UsesSince(l.log, id) < v.value.maxUses)
      then m.log == l.log + [Redeemed(id)] && id in l.store.vouchers && S.RedeemFound(l.store, Some(id), now).1.Ok?
      else m == l
  {
    hide Run, UsesSince, WithdrawnSince, LastAdded, VoucherSound, S.RedeemFound;
    var l, ch := Run(changes), Redeems(Some(id), now);
    RunSnoc(changes, ch);
    RunVoucher(changes, id);
    RunStored(changes, id);
    if id in l.store.vouchers {
      SoundParts(l, id);
      RedeemAnswers(l.store, id, now);
      if S.RedeemFound(l.store, Some(id), now).1.Err? {
        RefusedRedemption(l.store, id, now);
      }
    }
  }

  lemma RefusedRedemption(s: S.State, id: Bytes, now: int)
    requires id in s.vouchers && S.RedeemFound(s, Some(id), now).1.Err?
    ensures S.RedeemFound(s, Some(id), now).0 == s
  {
  }

  /** No redemption is later than a positive expiry. */
  lemma NoRedemptionAfterExpiry(changes: seq<Change>, k: nat, id: Bytes, now: int)
    requires forall i :: 0 <= i < |changes| ==> AddsNewVoucher(changes[i])
    requires k < |changes| && changes[k] == Redeems(Some(id), now)
    requires LastAdded(changes[..k], id).Some?
    requires 0 < LastAdded(changes[..k], id).value.expiresAt < now
    ensures Run(changes[..k + 1]) == Run(changes[..k])
  {
    hide Run, LastAdded;
    assert changes[..k + 1] == changes[..k] + [changes[k]];
    RedemptionSucceedsIff(changes[..k], id, now);
  }

  // ------------------------------------------------------------------ devices, from the calls alone

  /** What an enrollment must have: an id, an identity key of 32 bytes, a signing key of 32 bytes or none. */
  predicate WellFormed(req: S.EnrollRequest) {
    req.deviceID != [] && |req.identityPK| == 32 && (|req.signPK| == 0 || |req.signPK| == 32)
  }

  predicate EnrollsAs(ch: Change, dev: Bytes) { ch.Enrolls? && WellFormed(ch.req) && ch.req.deviceID == dev }

  function LastEnrollment(changes: seq<Change>, dev: Bytes): Option<S.EnrollRequest> {
    if changes == [] then None
    else
      var front, ch := changes[..|changes| - 1], changes[|changes| - 1];
      if EnrollsAs(ch, dev) then Some(ch.req) else LastEnrollment(front, dev)
  }

  /** Whether dev was revoked since it was last enrolled. */
  predicate RevokedSince(changes: seq<Change>, dev: Bytes) {
    changes != [] &&
    (var front, ch := changes[..|changes| - 1], changes[|changes| - 1];
     (ch.Revokes? && ch.dev == dev) || (!EnrollsAs(ch, dev) && RevokedSince(front, dev)))
  }

  /** The signing key of the last enrollment that named one. */
  function LastSignKey(changes: seq<Change>, dev: Bytes): Bytes {
    if changes == [] then []
    else
      var front, ch := changes[..|changes| - 1], changes[|changes| - 1];
      if EnrollsAs(ch, dev) && ch.req.signPK != [] then ch.req.signPK else LastSignKey(front, dev)
  }

  ghost predicate RecordTells(s: S.State, dev: Bytes, last: Option<S.EnrollRequest>, revoked: bool, signPK: Bytes) {
    && (dev in s.devices <==> last.Some?) && (last.None? ==> signPK == [])
    && (last.Some? ==>
          var d, req := s.devices[dev], last.value;
          && WellFormed(req) && d.id == dev && d.identityPK == req.identityPK && d.signPK == signPK
          && d.orgID == req.orgID && d.note == req.note
          && d.profile == (if req.profile == [] then Ascii("strong") else req.profile) && d.revoked == revoked)
  }

  lemma CommitTells(l: Ledger, ch: Change, dev: Bytes, last: Option<S.EnrollRequest>, revoked: bool, signPK: Bytes)
    requires RecordTells(l.store, dev, last, revoked, signPK)
    ensures RecordTells(
      Commit(l, ch).store, dev,
      if EnrollsAs(ch, dev) then Some(ch.req) else last,
      (ch.Revokes? && ch.dev == dev) || (!EnrollsAs(ch, dev) && revoked),
      if EnrollsAs(ch, dev) && ch.req.signPK != [] then ch.req.signPK else signPK)
  {
  }

  /** After any calls, a device is known exactly if it was enrolled; its record holds its last enrollment and the
      last signing key it named, and says that it is revoked exactly if it was since. */
  lemma {:induction false} RecordIsHistory(changes: seq<Change>, dev: Bytes)
    ensures RecordTells(Run(changes).store, dev, LastEnrollment(changes, dev),
                        RevokedSince(changes, dev), LastSignKey(changes, dev))
  {
    hide Commit, RecordTells, EnrollsAs;
    if changes == [] {
      NothingTold(dev);
    } else {
      var front, ch := changes[..|changes| - 1], changes[|changes| - 1];
      RecordIsHistory(front, dev);
      CommitTells(Run(front), ch, dev, LastEnrollment(front, dev), RevokedSince(front, dev), LastSignKey(front, dev));
    }
  }

  lemma NothingTold(dev: Bytes)
    ensures RecordTells(S.EMPTY, dev, None, false, [])
  {
  }

  /** An enrollment is refused exactly if it is malformed, and otherwise answered with the record it leaves. */
  lemma EnrollAnswers(s: S.State, req: S.EnrollRequest)
    ensures
      var (s', r) := S.Enroll(s, req);
      if WellFormed(req) then req.deviceID in s'.devices && r == S.Ok(s'.devices[req.deviceID]) else r.Err? && s' == s
  {
  }

  /** The answers after any calls, from the calls alone: who is known, who gets a serial and why not, and which
      revocations find something. */
  lemma AnswersAreHistory(changes: seq<Change>, dev: Bytes, epoch: uint64, id: Bytes)
    ensures
      var s, known, revoked := Run(changes).store, LastEnrollment(changes, dev).Some?, RevokedSince(changes, dev);
      && (S.Get(s, dev).Some? <==> known) && (known ==> S.Get(s, dev).value == s.devices[dev])
      && (S.Revoke(s, dev).1 == if known then S.Ok(()) else S.Err("not_enrolled"))
      && (!known ==> S.MarkIssued(s, dev, epoch) == (s, S.Err("not_enrolled")))
      && (known && revoked ==> S.MarkIssued(s, dev, epoch) == (s, S.Err("revoked")))
      && (known && !revoked ==> S.MarkIssued(s, dev, epoch).1.Ok?)
      && (S.RevokeVoucher(s, id).1 == if LastAdded(changes, id).Some? then S.Ok(()) else S.Err("not_found"))
  {
    RecordIsHistory(changes, dev);
    RunStored(changes, id);
    hide Run, LastEnrollment, RevokedSince, LastSignKey, LastAdded;
  }

  /** Why a redemption is refused, in the order of the tests. */
  lemma RefusalIsHistory(changes: seq<Change>, id: Bytes, now: int)
    requires forall i :: 0 <= i < |changes| ==> AddsNewVoucher(changes[i])
    requires LastAdded(changes, id).Some?
    ensures
      var l, v := Run(changes), LastAdded(changes, id).value;
      && id in l.store.vouchers
      && var r := S.RedeemFound(l.store, Some(id), now).1;
      && (WithdrawnSince(l.log, id) ==> r == S.Err("voucher_revoked"))
      && (!WithdrawnSince(l.log, id) && 0 < v.expiresAt < now ==> r == S.Err("voucher_expired"))
      && (!WithdrawnSince(l.log, id) && !(0 < v.expiresAt < now) && 0 < v.maxUses <= UsesSince(l.log, id) ==>
            r == S.Err("voucher_exhausted"))
      && (r.Ok? ==> r.value == v.(uses := UsesSince(l.log, id) + 1, revoked := false))
  {
    hide Run, UsesSince, WithdrawnSince, LastAdded, VoucherSound, S.RedeemFound;
    RunVoucher(changes, id);
    RunStored(changes, id);
    var l := Run(changes);
    SoundParts(l, id);
    RedeemAnswers(l.store, id, now);
  }

  lemma SoundParts(l: Ledger, id: Bytes)
    requires VoucherSound(l, id) && id in l.store.vouchers
    ensures
      var v := l.store.vouchers[id];
      v.uses == UsesSince(l.log, id) && (v.revoked <==> WithdrawnSince(l.log, id))
  {
    hide UsesSince, WithdrawnSince, Count;
  }

  lemma RedeemAnswers(s: S.State, id: Bytes, now: int)
    requires id in s.vouchers
    ensures
      var v, r := s.vouchers[id], S.RedeemFound(s, Some(id), now).1;
      && (v.revoked ==> r == S.Err("voucher_revoked"))
      && (!v.revoked && 0 < v.expiresAt < now ==> r == S.Err("voucher_expired"))
      && (!v.revoked && !(0 < v.expiresAt < now) && 0 < v.maxUses <= v.uses ==> r == S.Err("voucher_exhausted"))
      && (r.Ok? ==> r.value == v.(uses := v.uses + 1))
      && (r.Ok? <==> !v.revoked && (v.expiresAt <= 0 || now <= v.expiresAt) && (v.maxUses <= 0 || v.uses < v.maxUses))
  {
  }
}
