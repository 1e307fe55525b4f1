/** One device, one day: when two issued keys are the same (internal/kaapi/server.go, internal/kaapi/registry.go).

    The API promises the same key and the same serial for one device and epoch. `Ledger.SerialDiscipline` settles
    the serial; this module settles the key, over all interleavings of requests. */
module SameDay {
  import opened Octets
  import opened Crypto
  import opened KeySchedule
  import opened Authority
  import Epochs
  import S = Store
  import L = Ledger

  ghost predicate IsGranted(ka: KA, n: nat) { IsIssue(ka, n) && ka.reqs[n].issue.Granted? }

  /** The device record that gave a granted key. */
  ghost function KeyRecord(ka: KA, n: nat): (d: Option<S.Device>)
    requires IsGranted(ka, n)
  {
    var dev, at := ka.reqs[n].req.deviceID, ka.reqs[n].issue.keyAt;
    if at < |ka.past| && dev in ka.past[at].devices then Some(ka.past[at].devices[dev]) else None
  }

  /** The HKDF salt and info of a granted key of a profile other than simple. */
  ghost function KeyInput(ka: KA, n: nat): (Bytes, Bytes)
    requires IsGranted(ka, n) && KeyRecord(ka, n).Some?
  {
    (DaySalt(ka.reqs[n].issue.epoch), DeviceInfo(KeyRecord(ka, n).value.id, KeyRecord(ka, n).value.counter))
  }

  /** Every granted key of such a profile is derived from its input. */
  lemma GrantedFromInput(cfg: Config, acts: seq<Action>, n: nat)
    requires IsGranted(Run(cfg, acts), n) && Run(cfg, acts).reqs[n].issue.profile != PROFILE_SIMPLE
    ensures
      var ka := Run(cfg, acts);
      && KeyRecord(ka, n).Some? && |cfg.master| == KEY_SIZE
      && ka.reqs[n].issue.key == cfg.c.hkdf(cfg.master, KeyInput(ka, n).0, KeyInput(ka, n).1)
  {
    GrantedKeysWereDue(cfg, acts, n);
    hide Run, DaySalt, DeviceInfo;
  }

  /** The organisation whose day key a simple grant carries. */
  function OrgOf(d: S.Device): Bytes { if d.orgID == [] then Ascii("default") else d.orgID }

  /** Every granted key of the simple profile is the day key of the device's organisation; so two devices of one
      organisation get the same key for an epoch, which is what a simple handshake needs. */
  lemma SameOrgSameKey(cfg: Config, acts: seq<Action>, m: nat, n: nat)
    requires IsGranted(Run(cfg, acts), m) && Run(cfg, acts).reqs[m].issue.profile == PROFILE_SIMPLE
    requires IsGranted(Run(cfg, acts), n) && Run(cfg, acts).reqs[n].issue.profile == PROFILE_SIMPLE
    ensures
      var ka := Run(cfg, acts);
      && KeyRecord(ka, m).Some? && KeyRecord(ka, n).Some? && |cfg.master| == KEY_SIZE
      && ka.reqs[m].issue.key
         == cfg.c.hkdf(cfg.master, DaySalt(ka.reqs[m].issue.epoch), OrgInfo(OrgOf(KeyRecord(ka, m).value)))
      && (ka.reqs[m].issue.epoch == ka.reqs[n].issue.epoch
          && OrgOf(KeyRecord(ka, m).value) == OrgOf(KeyRecord(ka, n).value) ==>
            ka.reqs[m].issue.key == ka.reqs[n].issue.key)
  {
    GrantedKeysWereDue(cfg, acts, m);
    GrantedKeysWereDue(cfg, acts, n);
    hide Run, DaySalt, OrgInfo;
  }

  lemma {:induction false} CallsFront(cfg: Config, acts: seq<Action>, k: nat)
    requires k <= |acts|
    ensures Calls(cfg, acts)[..k] == Calls(cfg, acts[..k])
  {
    if k == |acts| {
      assert acts[..k] == acts;
    } else {
      var front := acts[..|acts| - 1];
      CallsFront(cfg, front, k);
      assert front[..k] == acts[..k];
      assert Calls(cfg, acts)[..k] == Calls(cfg, front)[..k];
    }
  }

  /** The store at a moment of the run, as a run of store calls. */
  lemma MomentIsLedgerRun(cfg: Config, acts: seq<Action>, k: nat)
    requires k <= |acts|
    ensures Run(cfg, acts[..k]).ledger == L.Run(Calls(cfg, acts)[..k])
    ensures Run(cfg, acts).past[k] == L.Run(Calls(cfg, acts)[..k]).store
  {
    CallsFront(cfg, acts, k);
    RunIsLedgerRun(cfg, acts[..k]);
    PastIsHistory(cfg, acts, k);
  }

  /** From moment p up to moment q no step enrolls dev again while its counter is at the uint32 limit. */
  ghost predicate LimitRespected(cfg: Config, acts: seq<Action>, p: nat, q: nat, dev: Bytes) {
    forall k :: p <= k < q && k < |acts| ==>
      !L.EnrollsAtLimit(Run(cfg, acts[..k]).ledger, Calls(cfg, acts)[k], dev)
  }

  ghost function Enrollments(cfg: Config, acts: seq<Action>, k: nat, dev: Bytes): nat
    requires k <= |acts|
  {
    L.Count(Run(cfg, acts[..k]).ledger.log, L.Enrolled(dev))
  }

  lemma RecordsGrow(cfg: Config, acts: seq<Action>, p: nat, q: nat, dev: Bytes)
    requires p <= q <= |acts| && dev in Run(cfg, acts).past[p].devices
    requires LimitRespected(cfg, acts, p, q, dev)
    ensures
      var past := Run(cfg, acts).past;
      && dev in past[q].devices && past[p].devices[dev].id == dev == past[q].devices[dev].id
      && (past[p].devices[dev].counter == past[q].devices[dev].counter <==>
          Enrollments(cfg, acts, p, dev) == Enrollments(cfg, acts, q, dev))
  {
    var past, calls := Run(cfg, acts).past, Calls(cfg, acts);
    MomentIsLedgerRun(cfg, acts, p);
    MomentIsLedgerRun(cfg, acts, q);
    hide Run, Calls, L.Run, L.Count, L.EnrollsAtLimit;
    forall k | p <= k < q
      ensures !L.EnrollsAtLimit(L.Run(calls[..k]), calls[k], dev)
    {
      MomentIsLedgerRun(cfg, acts, k);
    }
    L.CounterGrows(calls, p, q, dev);
    L.RunKeyed(calls[..p]);
    L.RunKeyed(calls[..q]);
  }

  /** Two keys granted to one device for one epoch, neither in the simple profile, come from the same input if
      and only if the device was not enrolled between the moments whose records gave them. */
  lemma SameInputIffNotReenrolled(cfg: Config, acts: seq<Action>, m: nat, n: nat)
    requires IsGranted(Run(cfg, acts), m) && IsGranted(Run(cfg, acts), n)
    requires
      var ka := Run(cfg, acts);
      var g, h := ka.reqs[m].issue, ka.reqs[n].issue;
      && ka.reqs[m].req.deviceID == ka.reqs[n].req.deviceID && g.epoch == h.epoch
      && g.profile != PROFILE_SIMPLE && h.profile != PROFILE_SIMPLE
      && g.keyAt <= h.keyAt && LimitRespected(cfg, acts, g.keyAt, h.keyAt, ka.reqs[m].req.deviceID)
    ensures
      var ka := Run(cfg, acts);
      var dev, p, q := ka.reqs[m].req.deviceID, ka.reqs[m].issue.keyAt, ka.reqs[n].issue.keyAt;
      && KeyRecord(ka, m).Some? && KeyRecord(ka, n).Some? && p <= q <= |acts|
      && (KeyInput(ka, m) == KeyInput(ka, n) <==> Enrollments(cfg, acts, p, dev) == Enrollments(cfg, acts, q, dev))
  {
    hide Run, KeyFor, Enrollments, DaySalt, DeviceInfo, LimitRespected;
    var ka := Run(cfg, acts);
    var dev, p, q := ka.reqs[m].req.deviceID, ka.reqs[m].issue.keyAt, ka.reqs[n].issue.keyAt;
    GrantedKeysWereDue(cfg, acts, m);
    GrantedKeysWereDue(cfg, acts, n);
    RecordsGrow(cfg, acts, p, q, dev);
    var c, d := ka.past[p].devices[dev].counter, ka.past[q].devices[dev].counter;
    if KeyInput(ka, m) == KeyInput(ka, n) {
      DeviceInputInjective(ka.reqs[m].issue.epoch, dev, c, ka.reqs[n].issue.epoch, dev, d);
    }
  }

  // ------------------------------------------------------------------ one serial, two keys

  /** A plain request for dev from its start to its answer. */
  function IssueSteps(n: nat, dev: Bytes, t: int64): seq<Action> { UpToDerive(n, dev, t) + [IssueMark(n)] }

  predicate Quiet(a: Action) { a.BeginIssue? || a.IssueGet? || a.IssueDerive? }

  /** Steps without a store call leave the ledger alone. */
  lemma {:induction false} QuietRun(cfg: Config, acts: seq<Action>, k: nat)
    requires k <= |acts| && forall i :: k <= i < |acts| ==> Quiet(acts[i])
    ensures Run(cfg, acts).ledger == Run(cfg, acts[..k]).ledger
  {
    if k == |acts| {
      assert acts[..k] == acts;
    } else {
      var front := acts[..|acts| - 1];
      QuietRun(cfg, front, k);
      assert front[..k] == acts[..k];
      assert Quiet(acts[|acts| - 1]);
      hide NextRequests;
    }
  }

  /** A request that began after these steps has its key from a later moment. */
  lemma KeyTakenLater(cfg: Config, acts: seq<Action>, k: nat, n: nat)
    requires k <= |acts| && n !in Run(cfg, acts[..k]).reqs
    requires IsIssue(Run(cfg, acts), n) && Run(cfg, acts).reqs[n].issue.Derived?
    ensures
      var ka := Run(cfg, acts);
      var at := ka.reqs[n].issue.keyAt;
      k <= at <= |acts| && ka.reqs[n].req.deviceID in ka.past[at].devices
  {
    hide KeyFor, Run, IssuesSound, Active;
    assert acts[..|acts|] == acts;
    RunIssueSound(cfg, acts, n);
    StartsLater(cfg, acts, k, |acts|, n);
  }

  lemma QuietUpTo(acts: seq<Action>, n: nat, dev: Bytes, t: int64)
    ensures
      var all := acts + UpToDerive(n, dev, t);
      forall i :: |acts| <= i < |all| ==> Quiet(all[i])
  {
  }

  /** A request in flight took its key from the record as it is. */
  lemma DerivedFromRecord(cfg: Config, acts: seq<Action>, n: nat, dev: Bytes, t: int64)
    requires n !in Run(cfg, acts).reqs && HoldsKey(Run(cfg, acts + UpToDerive(n, dev, t)), n, dev, Epochs.EpochID(t))
    ensures
      var ka := Run(cfg, acts + UpToDerive(n, dev, t));
      var at := ka.reqs[n].issue.keyAt;
      at < |ka.past| && ka.past[at] == Run(cfg, acts).ledger.store && dev in ka.past[at].devices
  {
    var all, k := acts + UpToDerive(n, dev, t), |acts|;
    var at := Run(cfg, all).reqs[n].issue.keyAt;
    QuietUpTo(acts, n, dev, t);
    hide Run, Epochs.EpochID, UpToDerive, Quiet;
    assert all[..k] == acts;
    KeyTakenLater(cfg, all, k, n);
    PastIsHistory(cfg, all, at);
    assert all[..at][..k] == acts;
    QuietRun(cfg, all[..at], k);
  }

  lemma MarkGrants(cfg: Config, ka: KA, n: nat, dev: Bytes, epoch: uint64)
    requires ka.past != [] && HoldsKey(ka, n, dev, epoch) && Active(ka.ledger.store, dev)
    ensures
      var ka' := Step(cfg, ka, IssueMark(n));
      && ka'.ledger == L.Commit(ka.ledger, L.Marks(dev, epoch))
      && IsGranted(ka', n) && ka'.reqs == ka.reqs[n := ka'.reqs[n]] && ka'.reqs[n].req == ka.reqs[n].req
      && var g, i := ka'.reqs[n].issue, ka.reqs[n].issue;
      && g.epoch == epoch && g.profile == i.profile && g.keyAt == i.keyAt
      && S.Ok(g.serial) == S.MarkIssued(ka.ledger.store, dev, epoch).1
  {
    hide L.Commit;
  }

  lemma PastStays(cfg: Config, ka: KA, a: Action, k: nat)
    requires k < |ka.past|
    ensures Step(cfg, ka, a).past[k] == ka.past[k]
  {
  }

  /** A plain request of an active device that runs undisturbed is granted the key of its record. */
  ghost predicate GrantedPlainly(ka: KA, ka': KA, n: nat, dev: Bytes, epoch: uint64) {
    && dev in ka.ledger.store.devices
    && ka'.ledger == L.Commit(ka.ledger, L.Marks(dev, epoch))
    && IsGranted(ka', n) && ka'.reqs == ka.reqs[n := ka'.reqs[n]]
    && ka'.reqs[n].req.deviceID == dev && ka'.reqs[n].issue.epoch == epoch
    && ka'.reqs[n].issue.profile == EffectiveProfile(ka.ledger.store.devices[dev].profile)
    && KeyRecord(ka', n) == Some(ka.ledger.store.devices[dev])
    && S.Ok(ka'.reqs[n].issue.serial) == S.MarkIssued(ka.ledger.store, dev, epoch).1
  }

  lemma PlainIssue(cfg: Config, acts: seq<Action>, n: nat, dev: Bytes, t: int64)
    requires n !in Run(cfg, acts).reqs && Unsigned(cfg, Run(cfg, acts).ledger.store, dev) && 0 <= t < I63 / 2
    ensures GrantedPlainly(Run(cfg, acts), Run(cfg, acts + IssueSteps(n, dev, t)), n, dev, Epochs.EpochID(t))
  {
    var all := acts + UpToDerive(n, dev, t);
    assert acts + IssueSteps(n, dev, t) == all + [IssueMark(n)];
    hide Run, Step, UpToDerive, IssueSteps, Epochs.EpochID, EffectiveProfile, S.MarkIssued, L.Commit;
    ReachesDerived(cfg, acts, n, dev, t);
    DerivedFromRecord(cfg, acts, n, dev, t);
    RunSnoc(cfg, all, IssueMark(n));
    var ka := Run(cfg, all);
    MarkGrants(cfg, ka, n, dev, Epochs.EpochID(t));
    PastStays(cfg, ka, IssueMark(n), ka.reqs[n].issue.keyAt);
  }

  /** What a granted request got, it keeps. */
  lemma KeyRecordStays(cfg: Config, acts: seq<Action>, more: seq<Action>, n: nat)
    requires IsGranted(Run(cfg, acts), n) && KeyRecord(Run(cfg, acts), n).Some?
    requires n in Run(cfg, acts + more).reqs && Run(cfg, acts + more).reqs[n] == Run(cfg, acts).reqs[n]
    ensures KeyRecord(Run(cfg, acts + more), n) == KeyRecord(Run(cfg, acts), n)
  {
    var at := Run(cfg, acts).reqs[n].issue.keyAt;
    PastIsHistory(cfg, acts, at);
    PastIsHistory(cfg, acts + more, at);
    assert (acts + more)[..at] == acts[..at];
    hide Run;
  }

  /** The ledger through enrollment, issue, re-enrollment and issue on one day. */
  lemma SameDayLedger(dev: Bytes, pk: Bytes)
    requires dev != [] && |pk| == 32
    ensures
      var req := Enrollee(dev, pk);
      var l1 := L.Commit(L.NEW, L.Enrolls(req, None));
      var l2 := L.Commit(l1, L.Marks(dev, 5));
      var l3 := L.Commit(l2, L.Enrolls(req, None));
      && dev in l1.store.devices && dev in l3.store.devices
      && l1.store.devices[dev] == S.FirstEnrolled(req)
      && l3.store.devices[dev] == S.FirstEnrolled(req).(counter := 2, issuedEpoch := 5, lastEpoch := 5, lastSerial := 1)
      && S.MarkIssued(l1.store, dev, 5).1 == S.Ok(1) && S.MarkIssued(l3.store, dev, 5).1 == S.Ok(1)
  {
    var req := Enrollee(dev, pk);
    FirstEnrollment(dev, pk);
    var l1 := L.Commit(L.NEW, L.Enrolls(req, None));
    L.MarkEffect(l1, dev, 5);
    var l2 := L.Commit(l1, L.Marks(dev, 5));
    EnrollEffect(l2, req);
    hide L.Commit;
  }

  lemma EnrollEffect(l: L.Ledger, req: S.EnrollRequest)
    requires S.RequestError(req).None? && req.deviceID in l.store.devices
    ensures
      var s := L.Commit(l, L.Enrolls(req, None)).store;
      req.deviceID in s.devices && s.devices[req.deviceID] == S.Reenrolled(l.store.devices[req.deviceID], req)
  {
  }

  const NOON: int64 := 5 * 86400 + 43200

  function FirstIssue(dev: Bytes, pk: Bytes): seq<Action> { EnrollSteps(0, dev, pk) + IssueSteps(1, dev, NOON) }
  function Again(dev: Bytes, pk: Bytes): seq<Action> { FirstIssue(dev, pk) + EnrollSteps(2, dev, pk) }

  /** The device is enrolled, gets its key of day 5, is enrolled again and asks once more at the same hour. */
  function SameDaySteps(dev: Bytes, pk: Bytes): seq<Action> { Again(dev, pk) + IssueSteps(3, dev, NOON) }

  lemma NoonOfDayFive()
    ensures Epochs.EpochID(NOON) == 5
  {
  }

  lemma StrongStays()
    ensures EffectiveProfile(S.STRONG) == S.STRONG
  {
  }

  /** The first request. */
  lemma FirstGranted(cfg: Config, dev: Bytes, pk: Bytes)
    requires dev != [] && |pk| == 32 && |cfg.master| == KEY_SIZE && !cfg.requireSignature
    ensures
      var ka := Run(cfg, FirstIssue(dev, pk));
      && ka.ledger == L.Commit(L.Commit(L.NEW, L.Enrolls(Enrollee(dev, pk), None)), L.Marks(dev, 5))
      && ka.reqs.Keys == {0, 1} && IsGranted(ka, 1) && ka.reqs[1].req.deviceID == dev
      && ka.reqs[1].issue.epoch == 5 && ka.reqs[1].issue.serial == 1 && ka.reqs[1].issue.profile == S.STRONG
      && KeyRecord(ka, 1) == Some(S.FirstEnrolled(Enrollee(dev, pk)))
  {
    hide Run, L.Commit, S.MarkIssued, EnrollSteps, IssueSteps, Epochs.EpochID, EffectiveProfile, KeyRecord;
    SameDayLedger(dev, pk);
    NoonOfDayFive();
    StrongStays();
    EnrolledFirst(cfg, dev, pk);
    PlainIssue(cfg, EnrollSteps(0, dev, pk), 1, dev, NOON);
  }

  /** The second request, and what it leaves of the first. */
  lemma SecondGranted(cfg: Config, dev: Bytes, pk: Bytes)
    requires dev != [] && |pk| == 32 && |cfg.master| == KEY_SIZE && !cfg.requireSignature
    ensures
      var ka, ka' := Run(cfg, FirstIssue(dev, pk)), Run(cfg, SameDaySteps(dev, pk));
      && 1 in ka.reqs && 1 in ka'.reqs && ka'.reqs[1] == ka.reqs[1]
      && IsGranted(ka', 3) && ka'.reqs[3].req.deviceID == dev
      && ka'.reqs[3].issue.epoch == 5 && ka'.reqs[3].issue.serial == 1 && ka'.reqs[3].issue.profile == S.STRONG
      && KeyRecord(ka', 3).Some? && KeyRecord(ka', 3).value.id == dev && KeyRecord(ka', 3).value.counter == 2
  {
    hide Run, L.Commit, S.MarkIssued, EnrollSteps, IssueSteps, Epochs.EpochID, EffectiveProfile, KeyRecord, FirstIssue;
    SameDayLedger(dev, pk);
    NoonOfDayFive();
    StrongStays();
    FirstGranted(cfg, dev, pk);
    AdminEnrolls(cfg, FirstIssue(dev, pk), 2, dev, pk);
    PlainIssue(cfg, Again(dev, pk), 3, dev, NOON);
  }

  lemma SameDaySplit(dev: Bytes, pk: Bytes)
    ensures SameDaySteps(dev, pk) == FirstIssue(dev, pk) + (EnrollSteps(2, dev, pk) + IssueSteps(3, dev, NOON))
  {
    hide FirstIssue, EnrollSteps, IssueSteps;
  }

  /** Both requests carry serial 1 of day 5, but their keys come from different inputs. */
  lemma OneSerialTwoKeys(cfg: Config, dev: Bytes, pk: Bytes)
    requires dev != [] && |pk| == 32 && |cfg.master| == KEY_SIZE && !cfg.requireSignature
    ensures
      var ka := Run(cfg, SameDaySteps(dev, pk));
      && IsGranted(ka, 1) && IsGranted(ka, 3)
      && ka.reqs[1].req.deviceID == dev == ka.reqs[3].req.deviceID
      && ka.reqs[1].issue.epoch == 5 == ka.reqs[3].issue.epoch
      && ka.reqs[1].issue.serial == 1 == ka.reqs[3].issue.serial
      && ka.reqs[1].issue.profile == S.STRONG == ka.reqs[3].issue.profile
      && KeyRecord(ka, 1).Some? && KeyRecord(ka, 3).Some? && KeyInput(ka, 1) != KeyInput(ka, 3)
  {
    hide Run, L.Commit, SameDaySteps, FirstIssue, EnrollSteps, IssueSteps, KeyRecord, DaySalt, DeviceInfo;
    FirstGranted(cfg, dev, pk);
    SecondGranted(cfg, dev, pk);
    var more := EnrollSteps(2, dev, pk) + IssueSteps(3, dev, NOON);
    SameDaySplit(dev, pk);
    KeyRecordStays(cfg, FirstIssue(dev, pk), more, 1);
    var ka := Run(cfg, SameDaySteps(dev, pk));
    if KeyInput(ka, 1) == KeyInput(ka, 3) {
      DeviceInputInjective(5, dev, 1, 5, dev, 2);
    }
  }
}
