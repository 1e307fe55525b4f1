/** The Key Authority's requests under concurrency: internal/kaapi/server.go.

    A handler makes several store calls, each under its own lock, so other requests run between them. Every
    store call is one atomic step here. Clocks, voucher ids, code hashes, signature checks and the order of
    all steps are chosen by the environment. Requests that fail before their first store call (no admin
    token, malformed JSON) change nothing and are not represented. */
module Authority {
  import opened Octets
  import opened Crypto
  import opened KeySchedule
  import Epochs
  import DeviceClock
  import S = Store
  import L = Ledger

  datatype IssueRequest = IssueRequest(
    deviceID: Bytes, headerID: Bytes, epochHint: uint64, clientTime: int64, profile: Bytes, signed: bool)

  /** `live` tells the two backends apart: the file registry hands out its own record, so that a later
      read sees later changes; the SQL store hands out a copy. */
  datatype Config = Config(
    c: Suite, master: Bytes, requireSignature: bool, verify: (Bytes, IssueRequest, Bytes) -> bool, live: bool)

  // ------------------------------------------------------------------ what the handlers compute

  /** `authenticateIssue` on the record it got: the effective profile or an error code. */
  function Authenticate(cfg: Config, req: IssueRequest, rec: Option<S.Device>): S.Result<Bytes> {
    if req.deviceID == [] then S.Err("unauthorized")
    else if req.headerID != [] && req.headerID != req.deviceID then S.Err("unauthorized")
    else
      match rec
      case None => S.Err("not_enrolled")
      case Some(d) =>
        if d.revoked then S.Err("revoked")
        else
          var profile := EffectiveProfile(if req.profile == [] then d.profile else req.profile);
          if !cfg.requireSignature && |d.signPK| != 32 then S.Ok(profile)
          else if !req.signed || |d.signPK| != 32 || !cfg.verify(d.signPK, req, profile) then S.Err("unauthorized")
          else S.Ok(profile)
  }

  function KeyFor(cfg: Config, profile: Bytes, epoch: uint64, d: S.Device): Option<Bytes> {
    if profile == PROFILE_SIMPLE then
      DeriveOrgDayKey(cfg.c, cfg.master, epoch, if d.orgID == [] then Ascii("default") else d.orgID)
    else DeriveGeneralKey(cfg.c, cfg.master, epoch, d.id, d.counter)
  }

  predicate HintOK(hint: uint64, epoch: uint64) {
    hint == 0 ||
    (var diff: int := Wrap64(Wrap64(hint) - Wrap64(epoch));
     var abs: int := if diff < 0 then Wrap64(-diff) else diff;
     abs <= 1)
  }

  /** Skew, epoch hint and derivation at KA time now. */
  function Derive(cfg: Config, req: IssueRequest, profile: Bytes, d: S.Device, now: int64): S.Result<(uint64, Bytes)> {
    if !DeviceClock.SkewOK(req.clientTime, now) then S.Err("clock_skew")
    else
      var epoch := Epochs.EpochID(now);
      if !HintOK(req.epochHint, epoch) then S.Err("epoch_mismatch")
      else
        match KeyFor(cfg, profile, epoch, d)
        case None => S.Err("internal")
        case Some(key) => S.Ok((epoch, key))
  }

  /** A voucher fills in what an enroll request leaves open. */
  function WithDefaults(req: S.EnrollRequest, v: S.Voucher): S.EnrollRequest {
    req.(orgID := if req.orgID == [] then v.orgID else req.orgID,
         profile := if req.profile == [] then v.profile else req.profile,
         note := if req.note == [] then v.note else req.note)
  }

  datatype VoucherRequest = VoucherRequest(note: Bytes, orgID: Bytes, profile: Bytes, maxUses: int, ttlHours: int)

  function NewVoucher(req: VoucherRequest, id: Bytes, hash: Bytes, now: int): (v: S.Voucher)
    ensures v.uses == 0 && !v.revoked && v.maxUses >= 1
  {
    var ttl := if req.ttlHours == 0 then 168 else req.ttlHours;
    S.Voucher(id, hash, req.note, req.orgID, EffectiveProfile(req.profile),
              if req.maxUses <= 0 then 1 else req.maxUses, 0, if ttl > 0 then now + 3600 * ttl else 0, now, false)
  }

  // ------------------------------------------------------------------ requests and steps

  /** An issue request: `at` is the moment of its Get, `keyAt` the moment whose record gave the key, `now` the KA
      time it read, `end` the moment of its MarkIssued. Moments index the history of store states. */
  datatype Issue =
    | Begun
    | Authenticated(profile: Bytes, rec: S.Device, at: nat)
    | Derived(profile: Bytes, epoch: uint64, key: Bytes, at: nat, keyAt: nat, now: int64)
    | Granted(profile: Bytes, epoch: uint64, key: Bytes, at: nat, keyAt: nat, now: int64, end: nat, serial: uint64)
    | Denied(code: string)

  datatype Enrollment =
    | Asked(req: S.EnrollRequest, admin: bool, hash: Bytes)
    | Paid(req: S.EnrollRequest, voucher: Bytes)
    | Finished
    | Turned(code: string)

  datatype Request = IssueOf(req: IssueRequest, start: nat, issue: Issue) | EnrollOf(enrollment: Enrollment)

  datatype KA = KA(ledger: L.Ledger, past: seq<S.State>, reqs: map<nat, Request>)

  const START := KA(L.NEW, [S.EMPTY], map[])

  datatype Action =
    | BeginIssue(n: nat, issueReq: IssueRequest)
    | IssueGet(n: nat)
    | IssueDerive(n: nat, now: int64)
    | IssueMark(n: nat)
    | BeginEnroll(n: nat, enrollReq: S.EnrollRequest, admin: bool, hash: Bytes)
    | EnrollRedeem(n: nat, found: Option<Bytes>, at: int)
    | EnrollStore(n: nat)
    | CreateVoucher(voucherReq: VoucherRequest, id: Bytes, codeHash: Bytes, at: int)
    | RevokeVoucher(id: Bytes)
    | RevokeDevice(dev: Bytes)

  ghost predicate IsIssue(ka: KA, n: nat) { n in ka.reqs && ka.reqs[n].IssueOf? }
  ghost predicate IsEnroll(ka: KA, n: nat) { n in ka.reqs && ka.reqs[n].EnrollOf? }

  /** The store call an action makes; `Nothing` when the action is not enabled or only reads. */
  ghost function Call(cfg: Config, ka: KA, a: Action): L.Change {
    match a
    case IssueMark(n) =>
      if IsIssue(ka, n) && ka.reqs[n].issue.Derived? then L.Marks(ka.reqs[n].req.deviceID, ka.reqs[n].issue.epoch)
      else L.Nothing
    case EnrollRedeem(n, found, now) =>
      if IsEnroll(ka, n) && ka.reqs[n].enrollment.Asked? && !ka.reqs[n].enrollment.admin
         && S.Finds(ka.ledger.store, ka.reqs[n].enrollment.hash, found) then L.Redeems(found, now)
      else L.Nothing
    case EnrollStore(n) =>
      if !IsEnroll(ka, n) then L.Nothing
      else if ka.reqs[n].enrollment.Asked? && ka.reqs[n].enrollment.admin then
        L.Enrolls(ka.reqs[n].enrollment.req, None)
      else if ka.reqs[n].enrollment.Paid? then L.Enrolls(ka.reqs[n].enrollment.req, Some(ka.reqs[n].enrollment.voucher))
      else L.Nothing
    case CreateVoucher(req, id, hash, now) => L.Adds(NewVoucher(req, id, hash, now))
    case RevokeVoucher(id) => L.Withdraws(id)
    case RevokeDevice(dev) => L.Revokes(dev)
    case _ => L.Nothing
  }

  /** The record the handler reads when it derives, and the moment it belongs to. */
  function RecordAtDerive(cfg: Config, ka: KA, dev: Bytes, i: Issue): (S.Device, nat)
    requires i.Authenticated? && ka.past != []
  {
    if cfg.live && dev in ka.ledger.store.devices then (ka.ledger.store.devices[dev], |ka.past| - 1) else (i.rec, i.at)
  }

  /** How an issue request moves on. */
  function AdvanceIssue(cfg: Config, ka: KA, a: Action, req: IssueRequest, i: Issue): Issue
    requires ka.past != []
  {
    var s := ka.ledger.store;
    match a
    case IssueGet(_) =>
      if !i.Begun? then i
      else
        (match Authenticate(cfg, req, S.Get(s, req.deviceID))
         case Err(e) => Denied(e)
         case Ok(profile) =>
           if req.deviceID in s.devices then Authenticated(profile, s.devices[req.deviceID], |ka.past| - 1) else i)
    case IssueDerive(_, now) =>
      if !i.Authenticated? then i
      else
        var (d, keyAt) := RecordAtDerive(cfg, ka, req.deviceID, i);
        (match Derive(cfg, req, i.profile, d, now)
         case Err(e) => Denied(e)
         case Ok(k) => Derived(i.profile, k.0, k.1, i.at, keyAt, now))
    case IssueMark(_) =>
      if !i.Derived? then i
      else
        (match S.MarkIssued(s, req.deviceID, i.epoch).1
         case Err(e) => Denied(e)
         case Ok(serial) => Granted(i.profile, i.epoch, i.key, i.at, i.keyAt, i.now, |ka.past| - 1, serial))
    case _ => i
  }

  /** How an enroll request moves on. */
  ghost function AdvanceEnroll(ka: KA, a: Action, e: Enrollment): Enrollment {
    var s := ka.ledger.store;
    match a
    case EnrollRedeem(_, found, now) =>
      if e.Asked? && !e.admin && S.Finds(s, e.hash, found) then
        (match S.RedeemFound(s, found, now).1
         case Err(code) => Turned(code)
         case Ok(v) => if found.Some? then Paid(WithDefaults(e.req, v), found.value) else e)
      else e
    case EnrollStore(_) =>
      if (e.Asked? && e.admin) || e.Paid? then
        if S.Enroll(s, e.req).1.Ok? then Finished else Turned("bad_request")
      else e
    case _ => e
  }

  ghost function NextRequests(cfg: Config, ka: KA, a: Action): map<nat, Request>
    requires ka.past != []
  {
    match a
    case BeginIssue(n, req) => if n in ka.reqs then ka.reqs else ka.reqs[n := IssueOf(req, |ka.past| - 1, Begun)]
    case BeginEnroll(n, req, admin, hash) =>
      if n in ka.reqs then ka.reqs else ka.reqs[n := EnrollOf(Asked(req, admin, hash))]
    case CreateVoucher(_, _, _, _) => ka.reqs
    case RevokeVoucher(_) => ka.reqs
    case RevokeDevice(_) => ka.reqs
    case _ =>
      if a.n !in ka.reqs then ka.reqs
      else
        match ka.reqs[a.n]
        case IssueOf(req, start, i) => ka.reqs[a.n := IssueOf(req, start, AdvanceIssue(cfg, ka, a, req, i))]
        case EnrollOf(e) => ka.reqs[a.n := EnrollOf(AdvanceEnroll(ka, a, e))]
  }

  ghost function Step(cfg: Config, ka: KA, a: Action): (ka': KA)
    requires ka.past != []
    ensures |ka'.past| == |ka.past| + 1
  {
    var l := L.Commit(ka.ledger, Call(cfg, ka, a));
    KA(l, ka.past + [l.store], NextRequests(cfg, ka, a))
  }

  ghost function Run(cfg: Config, acts: seq<Action>): (ka: KA)
    ensures |ka.past| == |acts| + 1
  {
    if acts == [] then START else Step(cfg, Run(cfg, acts[..|acts| - 1]), acts[|acts| - 1])
  }

  /** The store calls of a run, one per step. */
  ghost function Calls(cfg: Config, acts: seq<Action>): (r: seq<L.Change>)
    ensures |r| == |acts|
  {
    if acts == [] then []
    else Calls(cfg, acts[..|acts| - 1]) + [Call(cfg, Run(cfg, acts[..|acts| - 1]), acts[|acts| - 1])]
  }

  /** Every interleaving of requests is, for the registry, one sequence of store calls; vouchers enter it
      unused. So serial discipline, voucher conservation and fresh key inputs hold for all interleavings. */
  lemma {:induction false} RunIsLedgerRun(cfg: Config, acts: seq<Action>)
    ensures Run(cfg, acts).ledger == L.Run(Calls(cfg, acts))
    ensures forall i :: 0 <= i < |acts| ==> L.AddsNewVoucher(Calls(cfg, acts)[i])
  {
    if acts != [] {
      var front, last := acts[..|acts| - 1], acts[|acts| - 1];
      RunIsLedgerRun(cfg, front);
      var calls := Calls(cfg, acts);
      assert calls[..|calls| - 1] == Calls(cfg, front);
      assert calls[|calls| - 1] == Call(cfg, Run(cfg, front), last);
      CallAddsNew(cfg, Run(cfg, front), last);
      hide Call, L.Commit, NextRequests;
      forall i | 0 <= i < |acts|
        ensures L.AddsNewVoucher(calls[i])
      {
        if i < |front| {
          assert calls[i] == Calls(cfg, front)[i];
        }
      }
    }
  }

  lemma CallAddsNew(cfg: Config, ka: KA, a: Action)
    ensures L.AddsNewVoucher(Call(cfg, ka, a))
  {
  }

  /** The k-th moment of a run is the store after its first k steps. */
  lemma {:induction false} PastIsHistory(cfg: Config, acts: seq<Action>, k: nat)
    requires k <= |acts|
    ensures Run(cfg, acts).past[k] == Run(cfg, acts[..k]).ledger.store
  {
    if k < |acts| {
      var front := acts[..|acts| - 1];
      PastIsHistory(cfg, front, k);
      assert front[..k] == acts[..k];
      assert Run(cfg, acts).past[k] == Run(cfg, front).past[k];
    } else {
      assert acts[..k] == acts;
    }
  }

  // ------------------------------------------------------------------ issuing

  predicate Active(s: S.State, dev: Bytes) {
    dev in s.devices && !s.devices[dev].revoked
  }

  /** The request may speak for the device with record d: it names the device consistently, it is signed where the
      KA or the device's record demands it, and it asks for its own profile or else for the recorded one. */
  ghost predicate Authorised(cfg: Config, req: IssueRequest, profile: Bytes, d: S.Device) {
    && req.deviceID != [] && (req.headerID == [] || req.headerID == req.deviceID)
    && (cfg.requireSignature || |d.signPK| == 32 ==>
          req.signed && |d.signPK| == 32 && cfg.verify(d.signPK, req, profile))
    && profile == (if req.profile != [] then req.profile else if d.profile != [] then d.profile else Ascii("strong"))
  }

  /** The client's clock and its epoch hint suit the KA time now, whose epoch this is. */
  ghost predicate Timely(req: IssueRequest, epoch: uint64, now: int64) {
    epoch == Epochs.EpochID(now) && DeviceClock.SkewOK(req.clientTime, now) && HintOK(req.epochHint, epoch)
  }

  /** What an issue request may rely on. */
  ghost predicate IssueSound(cfg: Config, past: seq<S.State>, req: IssueRequest, start: nat, i: Issue) {
    match i
    case Begun => start < |past|
    case Authenticated(profile, rec, at) =>
      && start <= at < |past| && Active(past[at], req.deviceID) && past[at].devices[req.deviceID] == rec
      && Authorised(cfg, req, profile, rec)
    case Derived(profile, epoch, key, at, keyAt, now) =>
      && start <= at <= keyAt < |past| && KeyOrigin(cfg, past, req.deviceID, profile, epoch, key, at, keyAt)
      && Authorised(cfg, req, profile, past[at].devices[req.deviceID]) && Timely(req, epoch, now)
    case Granted(profile, epoch, key, at, keyAt, now, end, _) =>
      && start <= at <= keyAt <= end < |past| && KeyOrigin(cfg, past, req.deviceID, profile, epoch, key, at, keyAt)
      && Authorised(cfg, req, profile, past[at].devices[req.deviceID]) && Timely(req, epoch, now)
      && Active(past[end], req.deviceID)
    case Denied(_) => true
  }

  /** The device was active when looked up, and the key comes from its record at keyAt: the same moment
      when the backend hands out copies. */
  ghost predicate KeyOrigin(cfg: Config, past: seq<S.State>, dev: Bytes, profile: Bytes, epoch: uint64, key: Bytes,
                            at: nat, keyAt: nat)
  {
    && at <= keyAt < |past| && Active(past[at], dev) && dev in past[keyAt].devices
    && KeyFor(cfg, profile, epoch, past[keyAt].devices[dev]) == Some(key)
    && (!cfg.live ==> keyAt == at)
  }

  ghost predicate IssuesSound(cfg: Config, ka: KA) {
    && ka.past != [] && ka.past[|ka.past| - 1] == ka.ledger.store
    && forall n :: IsIssue(ka, n) ==> IssueSound(cfg, ka.past, ka.reqs[n].req, ka.reqs[n].start, ka.reqs[n].issue)
  }

  lemma IssueSoundLater(cfg: Config, past: seq<S.State>, s: S.State, req: IssueRequest, start: nat, i: Issue)
    requires IssueSound(cfg, past, req, start, i)
    ensures IssueSound(cfg, past + [s], req, start, i)
  {
    assert forall k :: 0 <= k < |past| ==> (past + [s])[k] == past[k];
    hide KeyFor;
  }

  lemma AdvanceSound(cfg: Config, ka: KA, a: Action, req: IssueRequest, start: nat, i: Issue)
    requires ka.past != [] && ka.past[|ka.past| - 1] == ka.ledger.store
    requires IssueSound(cfg, ka.past, req, start, i)
    ensures IssueSound(cfg, ka.past, req, start, AdvanceIssue(cfg, ka, a, req, i))
  {
    hide KeyFor, DeviceClock.SkewOK, HintOK, Epochs.EpochID;
    if a.IssueDerive? && i.Authenticated? {
      var (d, keyAt) := RecordAtDerive(cfg, ka, req.deviceID, i);
      assert req.deviceID in ka.past[keyAt].devices && d == ka.past[keyAt].devices[req.deviceID];
    }
  }

  lemma StepIssuesSound(cfg: Config, ka: KA, a: Action)
    requires IssuesSound(cfg, ka)
    ensures IssuesSound(cfg, Step(cfg, ka, a))
  {
    var ka' := Step(cfg, ka, a);
    hide AdvanceIssue, AdvanceEnroll, L.Commit, Call, IssueSound;
    forall n | IsIssue(ka', n)
      ensures IssueSound(cfg, ka'.past, ka'.reqs[n].req, ka'.reqs[n].start, ka'.reqs[n].issue)
    {
      if IsIssue(ka, n) {
        var IssueOf(req, start, i) := ka.reqs[n];
        AdvanceSound(cfg, ka, a, req, start, i);
        IssueSoundLater(cfg, ka.past, ka'.ledger.store, req, start, i);
        IssueSoundLater(cfg, ka.past, ka'.ledger.store, req, start, AdvanceIssue(cfg, ka, a, req, i));
      } else {
        assert ka'.reqs[n].issue == Begun && ka'.reqs[n].start < |ka'.past|;
        BegunSound(cfg, ka'.past, ka'.reqs[n].req, ka'.reqs[n].start);
      }
    }
  }

  lemma BegunSound(cfg: Config, past: seq<S.State>, req: IssueRequest, start: nat)
    requires start < |past|
    ensures IssueSound(cfg, past, req, start, Begun)
  {
  }

  lemma {:induction false} RunIssuesSound(cfg: Config, acts: seq<Action>)
    ensures IssuesSound(cfg, Run(cfg, acts))
  {
    if acts != [] {
      RunIssuesSound(cfg, acts[..|acts| - 1]);
      StepIssuesSound(cfg, Run(cfg, acts[..|acts| - 1]), acts[|acts| - 1]);
    }
  }

  /** Every granted key, in every interleaving: between the start of its request and its answer there is a
      moment when the device was enrolled and not revoked, the key is the one for the device's record at a
      moment of the request, and at the moment of marking the device was active again. */
  lemma GrantedKeysWereDue(cfg: Config, acts: seq<Action>, n: nat)
    requires IsIssue(Run(cfg, acts), n) && Run(cfg, acts).reqs[n].issue.Granted?
    ensures
      var ka := Run(cfg, acts);
      var IssueOf(req, start, g) := ka.reqs[n];
      && start <= g.at <= g.keyAt <= g.end < |ka.past|
      && Active(ka.past[g.at], req.deviceID) && Active(ka.past[g.end], req.deviceID)
      && req.deviceID in ka.past[g.keyAt].devices
      && KeyFor(cfg, g.profile, g.epoch, ka.past[g.keyAt].devices[req.deviceID]) == Some(g.key)
      && (!cfg.live ==> g.keyAt == g.at)
  {
    RunIssuesSound(cfg, acts);
    hide Run, KeyFor;
  }

  /** The epoch hint, in numbers: none, or within one of the KA's epoch, reading 2^64-1 as the day before day 0; or
      exactly 2^63 above it, whose difference is its own negation. */
  lemma HintTest(hint: uint64, epoch: uint64)
    requires epoch < I63 / 2
    ensures HintOK(hint, epoch) <==>
      hint == 0 || -1 <= hint - epoch <= 1 || hint == epoch + I63 || (hint == Epochs.LAST_ID && epoch == 0)
  {
    assert Wrap64(epoch) == epoch;
    if hint < I63 {
      assert Wrap64(hint) == hint;
    } else {
      assert Wrap64(hint) == hint - U64;
    }
  }

  /** The exception is real: a hint 2^63 days ahead passes. */
  lemma HugeHintPasses(epoch: uint64)
    requires epoch < I63 / 2
    ensures HintOK(epoch + I63, epoch)
  {
    HintTest(epoch + I63, epoch);
  }

  /** Who gets a key, in every interleaving: with d the record at the moment of Get, the request named the device
      consistently, was signed and verified against d's key wherever the KA or d demands a signature, and took its
      profile from itself, else from d; and with now the KA time it met, the epoch is that of now, the client's
      clock was within 120 seconds, and its hint, if any, within one epoch; but for the two wrapped differences. */
  lemma GrantedWasAuthorised(cfg: Config, acts: seq<Action>, n: nat)
    requires IsIssue(Run(cfg, acts), n) && Run(cfg, acts).reqs[n].issue.Granted?
    ensures
      var ka := Run(cfg, acts);
      var IssueOf(req, _, g) := ka.reqs[n];
      && g.at < |ka.past| && req.deviceID in ka.past[g.at].devices
      && var d := ka.past[g.at].devices[req.deviceID];
      && !d.revoked && req.deviceID != [] && (req.headerID == [] || req.headerID == req.deviceID)
      && (cfg.requireSignature || |d.signPK| == 32 ==>
            req.signed && |d.signPK| == 32 && cfg.verify(d.signPK, req, g.profile))
      && g.profile == (if req.profile != [] then req.profile
                       else if d.profile != [] then d.profile else Ascii("strong"))
    ensures
      var IssueOf(req, _, g) := Run(cfg, acts).reqs[n];
      0 <= g.now < I63 / 2 ==>
        && g.epoch * 86400 <= g.now < (g.epoch + 1) * 86400
        && (-120 <= req.clientTime - g.now <= 120 || req.clientTime - g.now == -I63)
        && (g.epoch > 0 ==>
              req.epochHint == 0 || -1 <= req.epochHint - g.epoch <= 1 || req.epochHint == g.epoch + I63)
  {
    hide Run, KeyFor, IssuesSound, HintOK, DeviceClock.SkewOK, Epochs.EpochID;
    RunIssueSound(cfg, acts, n);
    var IssueOf(req, _, g) := Run(cfg, acts).reqs[n];
    if 0 <= g.now < I63 / 2 {
      Epochs.NonNegativeEpoch(g.now);
      DeviceClock.SkewTest(req.clientTime, g.now);
      HintTest(req.epochHint, g.epoch);
    }
  }

  /** The test of the handler, both ways: a request passes with this profile exactly if its device is active and it
      may speak for it. An unknown device and a revoked one are told so. */
  lemma AuthenticateIff(cfg: Config, req: IssueRequest, s: S.State, profile: Bytes)
    ensures
      var r := Authenticate(cfg, req, S.Get(s, req.deviceID));
      && (r == S.Ok(profile) <==>
          Active(s, req.deviceID) && Authorised(cfg, req, profile, s.devices[req.deviceID]))
      && (req.deviceID != [] && (req.headerID == [] || req.headerID == req.deviceID) ==>
            && (req.deviceID !in s.devices ==> r == S.Err("not_enrolled"))
            && (req.deviceID in s.devices && !Active(s, req.deviceID) ==> r == S.Err("revoked")))
  {
  }

  /** So is the derivation: it succeeds exactly for a timely request under a master key of 32 bytes. */
  lemma DeriveIff(cfg: Config, req: IssueRequest, profile: Bytes, d: S.Device, now: int64)
    ensures
      var r, epoch := Derive(cfg, req, profile, d, now), Epochs.EpochID(now);
      && (r.Ok? <==> Timely(req, epoch, now) && |cfg.master| == 32)
      && (r.Ok? ==> r.value.0 == epoch && KeyFor(cfg, profile, epoch, d) == Some(r.value.1))
  {
    hide HintOK, DeviceClock.SkewOK, Epochs.EpochID, DaySalt, DeviceInfo, OrgInfo;
  }

  lemma RunIssueSound(cfg: Config, acts: seq<Action>, n: nat)
    requires IsIssue(Run(cfg, acts), n)
    ensures
      var ka := Run(cfg, acts);
      IssueSound(cfg, ka.past, ka.reqs[n].req, ka.reqs[n].start, ka.reqs[n].issue)
  {
    hide Run, IssueSound;
    RunIssuesSound(cfg, acts);
  }

  lemma RunStep(cfg: Config, acts: seq<Action>, q: nat)
    requires 0 < q <= |acts|
    ensures Run(cfg, acts[..q]) == Step(cfg, Run(cfg, acts[..q - 1]), acts[q - 1])
  {
    assert acts[..q][..q - 1] == acts[..q - 1];
    hide Step;
  }

  lemma LedgerStep(cfg: Config, acts: seq<Action>, q: nat)
    requires 0 < q <= |acts|
    ensures
      var ka := Run(cfg, acts[..q - 1]);
      Run(cfg, acts[..q]).ledger == L.Commit(ka.ledger, Call(cfg, ka, acts[q - 1]))
  {
    hide Run, L.Commit, Call, NextRequests;
    RunStep(cfg, acts, q);
  }

  /** From p on, as long as no new enrollment of dev is logged, it stays revoked. */
  lemma {:induction false} StaysRevoked(cfg: Config, acts: seq<Action>, p: nat, q: nat, dev: Bytes)
    requires p <= q <= |acts|
    requires dev in Run(cfg, acts[..p]).ledger.store.devices && Run(cfg, acts[..p]).ledger.store.devices[dev].revoked
    ensures
      var l, m := Run(cfg, acts[..p]).ledger, Run(cfg, acts[..q]).ledger;
      && L.Count(l.log, L.Enrolled(dev)) <= L.Count(m.log, L.Enrolled(dev))
      && (L.Count(l.log, L.Enrolled(dev)) == L.Count(m.log, L.Enrolled(dev)) ==>
            dev in m.store.devices && m.store.devices[dev].revoked)
    decreases q
  {
    hide Run, Call, L.Commit, L.Count;
    if p < q {
      StaysRevoked(cfg, acts, p, q - 1, dev);
      LedgerStep(cfg, acts, q);
      var ka := Run(cfg, acts[..q - 1]);
      L.RevokedStep(Run(cfg, acts[..p]).ledger, ka.ledger, Call(cfg, ka, acts[q - 1]), dev);
    }
  }

  /** A request that is not there after p steps starts at moment p or later. */
  lemma StartOfNew(cfg: Config, ka: KA, a: Action, n: nat)
    requires ka.past != [] && IsIssue(Step(cfg, ka, a), n)
    ensures if IsIssue(ka, n) then Step(cfg, ka, a).reqs[n].start == ka.reqs[n].start
            else n !in ka.reqs && Step(cfg, ka, a).reqs[n].start == |ka.past| - 1
  {
    hide Call, L.Commit, AdvanceIssue, AdvanceEnroll;
  }

  lemma {:induction false} StartsLater(cfg: Config, acts: seq<Action>, p: nat, q: nat, n: nat)
    requires p <= q <= |acts| && n !in Run(cfg, acts[..p]).reqs && IsIssue(Run(cfg, acts[..q]), n)
    ensures Run(cfg, acts[..q]).reqs[n].start >= p
    decreases q
  {
    if p < q {
      RunStep(cfg, acts, q);
      var ka := Run(cfg, acts[..q - 1]);
      hide Run, Step;
      StartOfNew(cfg, ka, acts[q - 1], n);
      if IsIssue(ka, n) {
        StartsLater(cfg, acts, p, q - 1, n);
      }
    }
  }

  /** Revocation holds: a request begun after a device was revoked, with no new enrollment of that device
      since, is never granted a key. */
  lemma NoKeyAfterRevocation(cfg: Config, acts: seq<Action>, p: nat, n: nat)
    requires p <= |acts| && n !in Run(cfg, acts[..p]).reqs && IsIssue(Run(cfg, acts), n)
    requires
      var dev := Run(cfg, acts).reqs[n].req.deviceID;
      && dev in Run(cfg, acts[..p]).ledger.store.devices && Run(cfg, acts[..p]).ledger.store.devices[dev].revoked
      && L.Count(Run(cfg, acts).ledger.log, L.Enrolled(dev)) == L.Count(Run(cfg, acts[..p]).ledger.log, L.Enrolled(dev))
    ensures !Run(cfg, acts).reqs[n].issue.Granted?
  {
    var ka := Run(cfg, acts);
    var IssueOf(req, start, g) := ka.reqs[n];
    if g.Granted? {
      GrantedKeysWereDue(cfg, acts, n);
      assert acts[..|acts|] == acts;
      StartsLater(cfg, acts, p, |acts|, n);
      PastIsHistory(cfg, acts, g.at);
      StaysRevoked(cfg, acts, p, g.at, req.deviceID);
      EnrolledMonotone(cfg, acts, g.at, |acts|, req.deviceID);
      hide Run, L.Count;
    }
  }

  lemma {:induction false} EnrolledMonotone(cfg: Config, acts: seq<Action>, p: nat, q: nat, dev: Bytes)
    requires p <= q <= |acts|
    ensures L.Count(Run(cfg, acts[..p]).ledger.log, L.Enrolled(dev))
      <= L.Count(Run(cfg, acts[..q]).ledger.log, L.Enrolled(dev))
    decreases q
  {
    hide Run, Call, L.Commit, L.Count;
    if p < q {
      EnrolledMonotone(cfg, acts, p, q - 1, dev);
      LedgerStep(cfg, acts, q);
      var ka := Run(cfg, acts[..q - 1]);
      L.EnrolledCount(ka.ledger, Call(cfg, ka, acts[q - 1]), dev);
    }
  }

  // ------------------------------------------------------------------ granted serials

  ghost predicate GrantLogged(ka: KA, n: nat) {
    IsIssue(ka, n) && ka.reqs[n].issue.Granted? ==>
      L.KeyIssued(ka.reqs[n].req.deviceID, ka.reqs[n].issue.epoch, ka.reqs[n].issue.serial) in ka.ledger.log
  }

  lemma CommitExtendsLog(l: L.Ledger, ch: L.Change)
    ensures l.log <= L.Commit(l, ch).log
  {
  }

  lemma StepGrantLogged(cfg: Config, ka: KA, a: Action, n: nat)
    requires ka.past != [] && GrantLogged(ka, n)
    ensures GrantLogged(Step(cfg, ka, a), n)
  {
    var ka' := Step(cfg, ka, a);
    var ch := Call(cfg, ka, a);
    CommitExtendsLog(ka.ledger, ch);
    if IsIssue(ka', n) && ka'.reqs[n].issue.Granted? {
      if IsIssue(ka, n) && ka.reqs[n].issue.Granted? {
        var e := L.KeyIssued(ka.reqs[n].req.deviceID, ka.reqs[n].issue.epoch, ka.reqs[n].issue.serial);
        hide L.Commit, Call;
        assert e in ka'.ledger.log;
      } else {
        var IssueOf(req, start, i) := ka.reqs[n];
        assert a == IssueMark(n) && i.Derived?;
        assert ch == L.Marks(req.deviceID, i.epoch);
        var e := L.KeyIssued(req.deviceID, i.epoch, ka'.reqs[n].issue.serial);
        assert ka'.ledger.log == ka.ledger.log + [e];
        assert ka'.ledger.log[|ka.ledger.log|] == e;
      }
    }
  }

  lemma {:induction false} RunGrantLogged(cfg: Config, acts: seq<Action>, n: nat)
    ensures GrantLogged(Run(cfg, acts), n)
  {
    if acts != [] {
      RunGrantLogged(cfg, acts[..|acts| - 1], n);
      StepGrantLogged(cfg, Run(cfg, acts[..|acts| - 1]), acts[|acts| - 1], n);
      hide Step, GrantLogged;
    }
  }

  /** In no interleaving do two granted requests for different devices or epochs carry the same serial. */
  lemma GrantedSerialsDistinct(cfg: Config, acts: seq<Action>, m: nat, n: nat)
    requires |acts| < U64 - 1
    requires IsIssue(Run(cfg, acts), m) && Run(cfg, acts).reqs[m].issue.Granted?
    requires IsIssue(Run(cfg, acts), n) && Run(cfg, acts).reqs[n].issue.Granted?
    requires Run(cfg, acts).reqs[m].issue.serial == Run(cfg, acts).reqs[n].issue.serial
    ensures Run(cfg, acts).reqs[m].req.deviceID == Run(cfg, acts).reqs[n].req.deviceID
    ensures Run(cfg, acts).reqs[m].issue.epoch == Run(cfg, acts).reqs[n].issue.epoch
  {
    RunGrantLogged(cfg, acts, m);
    RunGrantLogged(cfg, acts, n);
    RunIsLedgerRun(cfg, acts);
    var ka := Run(cfg, acts);
    var log := ka.ledger.log;
    hide Run, Calls;
    var a, b := ka.reqs[m].issue, ka.reqs[n].issue;
    var i :| 0 <= i < |log| && log[i] == L.KeyIssued(ka.reqs[m].req.deviceID, a.epoch, a.serial);
    var j :| 0 <= j < |log| && log[j] == L.KeyIssued(ka.reqs[n].req.deviceID, b.epoch, b.serial);
    if i < j {
      L.SerialDiscipline(Calls(cfg, acts), i, j);
    } else if j < i {
      L.SerialDiscipline(Calls(cfg, acts), j, i);
    }
  }

  // ------------------------------------------------------------------ vouchers and admissions

  /** Enroll requests that have redeemed this voucher and not yet enrolled. */
  ghost function Pending(ka: KA, v: Bytes): set<nat> {
    set n | n in ka.reqs && ka.reqs[n].EnrollOf? && ka.reqs[n].enrollment.Paid? && ka.reqs[n].enrollment.voucher == v
  }

  ghost predicate AdmissionsPaid(ka: KA, v: Bytes) {
    L.Count(ka.ledger.log, L.Admitted(v)) + |Pending(ka, v)| <= L.Count(ka.ledger.log, L.Redeemed(v))
  }

  /** A step changes the pending set of a voucher only by paying with it or by spending what was paid. */
  ghost predicate PendingMoves(ka: KA, ka': KA, ch: L.Change, v: Bytes) {
    if L.RedeemsVoucher(ka.ledger, ch) && ch.found == Some(v) then |Pending(ka', v)| <= |Pending(ka, v)| + 1
    else if ch.Enrolls? && ch.via == Some(v) then |Pending(ka', v)| < |Pending(ka, v)|
    else Pending(ka', v) <= Pending(ka, v)
  }

  lemma PendingRedeem(cfg: Config, ka: KA, n: nat, found: Option<Bytes>, now: int, v: Bytes)
    requires ka.past != []
    ensures
      var a := EnrollRedeem(n, found, now);
      PendingMoves(ka, Step(cfg, ka, a), Call(cfg, ka, a), v)
  {
    var a := EnrollRedeem(n, found, now);
    var ka', ch := Step(cfg, ka, a), Call(cfg, ka, a);
    assert ka'.reqs == NextRequests(cfg, ka, a);
    hide L.Commit, AdvanceIssue, Step, S.Finds;
    if L.RedeemsVoucher(ka.ledger, ch) && ch.found == Some(v) {
      assert Pending(ka', v) <= Pending(ka, v) + {n};
      SubsetCard(Pending(ka', v), Pending(ka, v) + {n});
    } else {
      assert Pending(ka', v) <= Pending(ka, v);
    }
  }

  lemma PendingSpent(cfg: Config, ka: KA, n: nat, v: Bytes)
    requires ka.past != []
    ensures PendingMoves(ka, Step(cfg, ka, EnrollStore(n)), Call(cfg, ka, EnrollStore(n)), v)
  {
    var ka', ch := Step(cfg, ka, EnrollStore(n)), Call(cfg, ka, EnrollStore(n));
    assert ka'.reqs == NextRequests(cfg, ka, EnrollStore(n));
    hide L.Commit, AdvanceIssue, Step, S.Enroll;
    if ch.Enrolls? && ch.via == Some(v) {
      assert n in Pending(ka, v);
      assert Pending(ka', v) == Pending(ka, v) - {n};
    } else {
      assert Pending(ka', v) <= Pending(ka, v);
    }
  }

  lemma PendingStep(cfg: Config, ka: KA, a: Action, v: Bytes)
    requires ka.past != []
    ensures PendingMoves(ka, Step(cfg, ka, a), Call(cfg, ka, a), v)
  {
    match a
    case EnrollRedeem(n, found, now) => PendingRedeem(cfg, ka, n, found, now, v);
    case EnrollStore(n) => PendingSpent(cfg, ka, n, v);
    case _ =>
      hide L.Commit, AdvanceIssue;
      assert Pending(Step(cfg, ka, a), v) <= Pending(ka, v);
  }

  lemma SubsetCard(a: set<nat>, b: set<nat>)
    requires a <= b
    ensures |a| <= |b|
  {
    assert b == a + (b - a);
  }

  lemma StepAdmissionsPaid(cfg: Config, ka: KA, a: Action, v: Bytes)
    requires ka.past != [] && AdmissionsPaid(ka, v)
    ensures AdmissionsPaid(Step(cfg, ka, a), v)
  {
    var ka', ch := Step(cfg, ka, a), Call(cfg, ka, a);
    assert ka'.ledger == L.Commit(ka.ledger, ch);
    PendingStep(cfg, ka, a, v);
    L.CountStep(ka.ledger, ch, L.Admitted(v));
    L.CountStep(ka.ledger, ch, L.Redeemed(v));
    hide Step, Call, Pending, L.Commit, L.Count;
    if Pending(ka', v) <= Pending(ka, v) {
      SubsetCard(Pending(ka', v), Pending(ka, v));
    }
  }

  lemma {:induction false} RunAdmissionsPaid(cfg: Config, acts: seq<Action>, v: Bytes)
    ensures AdmissionsPaid(Run(cfg, acts), v)
  {
    if acts == [] {
      assert Pending(START, v) == {};
    } else {
      RunAdmissionsPaid(cfg, acts[..|acts| - 1], v);
      StepAdmissionsPaid(cfg, Run(cfg, acts[..|acts| - 1]), acts[|acts| - 1], v);
      hide Step, AdmissionsPaid;
    }
  }

  /** In every interleaving, the redemptions of a voucher are its `Uses` if and only if its id was not added
      again after a redemption. */
  lemma RedemptionsAreUsesIff(cfg: Config, acts: seq<Action>, v: Bytes)
    requires v in Run(cfg, acts).ledger.store.vouchers
    ensures
      var l := Run(cfg, acts).ledger;
      L.Count(l.log, L.Redeemed(v)) == l.store.vouchers[v].uses <==> L.NotAddedAgain(l.log, v)
  {
    RunIsLedgerRun(cfg, acts);
    hide Run, Calls, L.Count, L.NotAddedAgain;
    L.RedemptionsAreUsesIff(Calls(cfg, acts), v);
  }

  /** In every interleaving, a voucher whose id was not added again after a redemption admits at most as many
      devices as it has been redeemed, which is its `Uses` and at most its `MaxUses`. */
  lemma AdmissionsWithinMaxUses(cfg: Config, acts: seq<Action>, v: Bytes)
    requires v in Run(cfg, acts).ledger.store.vouchers && L.NotAddedAgain(Run(cfg, acts).ledger.log, v)
    ensures
      var l := Run(cfg, acts).ledger;
      L.Count(l.log, L.Admitted(v)) <= L.Count(l.log, L.Redeemed(v)) == l.store.vouchers[v].uses
    ensures
      var l := Run(cfg, acts).ledger;
      l.store.vouchers[v].maxUses > 0 ==> L.Count(l.log, L.Redeemed(v)) <= l.store.vouchers[v].maxUses
  {
    RunIsLedgerRun(cfg, acts);
    hide Run, Calls, L.Count, L.NotAddedAgain, Pending;
    RunAdmissionsPaid(cfg, acts, v);
    RedemptionsAreUsesIff(cfg, acts, v);
    L.VoucherConservation(Calls(cfg, acts), v);
  }

  /** How long a new voucher lives: the hours asked for, a week if none are, for ever if they are negative; and how
      often it can be used. */
  lemma NewVoucherLives(req: VoucherRequest, id: Bytes, hash: Bytes, created: int, now: int)
    requires created >= 0
    ensures
      var v := NewVoucher(req, id, hash, created);
      && v.id == id && v.codeHash == hash && v.orgID == req.orgID && v.note == req.note
      && v.profile == (if req.profile == [] then Ascii("strong") else req.profile)
      && v.maxUses == (if req.maxUses > 0 then req.maxUses else 1)
      && (S.Refusal(v, now).None? <==>
          req.ttlHours < 0 || now <= created + 3600 * (if req.ttlHours == 0 then 168 else req.ttlHours))
  {
  }

  /** What a voucher fills in: only what the request leaves open, and never whom it enrolls. */
  lemma DefaultsFillIn(req: S.EnrollRequest, v: S.Voucher)
    ensures
      var r := WithDefaults(req, v);
      && r.deviceID == req.deviceID && r.identityPK == req.identityPK && r.signPK == req.signPK
      && r.counter == req.counter
      && r.orgID == (if req.orgID != [] then req.orgID else v.orgID)
      && r.profile == (if req.profile != [] then req.profile else v.profile)
      && r.note == (if req.note != [] then req.note else v.note)
  {
  }

  /** Administration takes effect at once: a revoked device and a revoked voucher are so, and a created voucher is
      there as it was made. */
  lemma AdministrationTakesEffect(cfg: Config, ka: KA, dev: Bytes, id: Bytes, req: VoucherRequest, hash: Bytes, at: int)
    requires ka.past != []
    ensures dev in ka.ledger.store.devices ==>
      var s := Step(cfg, ka, RevokeDevice(dev)).ledger.store;
      dev in s.devices && s.devices[dev] == ka.ledger.store.devices[dev].(revoked := true)
    ensures id in ka.ledger.store.vouchers ==>
      var s := Step(cfg, ka, RevokeVoucher(id)).ledger.store;
      id in s.vouchers && s.vouchers[id] == ka.ledger.store.vouchers[id].(revoked := true)
    ensures id != [] ==>
      var s := Step(cfg, ka, CreateVoucher(req, id, hash, at)).ledger.store;
      id in s.vouchers && s.vouchers[id] == NewVoucher(req, id, hash, at)
  {
    hide NextRequests;
  }

  /** A voucher that is good admits: the request that finds it pays with it, and then is enrolled. */
  lemma GoodVoucherPays(cfg: Config, ka: KA, n: nat, v: Bytes, at: int)
    requires ka.past != [] && IsEnroll(ka, n) && ka.reqs[n].enrollment.Asked? && !ka.reqs[n].enrollment.admin
    requires v in ka.ledger.store.vouchers && S.Finds(ka.ledger.store, ka.reqs[n].enrollment.hash, Some(v))
    requires S.Refusal(ka.ledger.store.vouchers[v], at).None?
    ensures
      var ka', asked := Step(cfg, ka, EnrollRedeem(n, Some(v), at)), ka.reqs[n].enrollment.req;
      && IsEnroll(ka', n) && ka'.reqs[n].enrollment.Paid? && ka'.reqs[n].enrollment.voucher == v
      && Fills(asked, ka'.reqs[n].enrollment.req, ka.ledger.store.vouchers[v])
      && ka'.ledger == L.Commit(ka.ledger, L.Redeems(Some(v), at))
      && Call(cfg, ka', EnrollStore(n)) == L.Enrolls(ka'.reqs[n].enrollment.req, Some(v))
  {
    hide L.Commit, S.Finds;
  }

  // ------------------------------------------------------------------ who is enrolled

  /** Request n came in with these contents. */
  ghost predicate CameIn(acts: seq<Action>, n: nat, req: S.EnrollRequest, admin: bool, hash: Bytes) {
    exists j :: 0 <= j < |acts| && acts[j] == BeginEnroll(n, req, admin, hash)
  }

  /** At step i, request n redeemed voucher v, found by this code hash. */
  ghost predicate PaysAt(cfg: Config, acts: seq<Action>, i: nat, n: nat, hash: Bytes, v: Bytes) {
    && i < |acts| && acts[i].EnrollRedeem? && acts[i].n == n && acts[i].found == Some(v)
    && var l := Run(cfg, acts[..i]).ledger;
    && S.Finds(l.store, hash, Some(v)) && L.RedeemsVoucher(l, L.Redeems(Some(v), acts[i].at))
  }

  /** Request n came in without the administrator's token, and paid with voucher v for what it enrolls. */
  ghost predicate PaidWith(cfg: Config, acts: seq<Action>, n: nat, req: S.EnrollRequest, v: Bytes) {
    exists asked: S.EnrollRequest, hash: Bytes, i: nat ::
      && CameIn(acts, n, asked, false, hash) && PaysAt(cfg, acts, i, n, hash, v)
      && v in Run(cfg, acts[..i]).ledger.store.vouchers
      && Fills(asked, req, Run(cfg, acts[..i]).ledger.store.vouchers[v])
  }

  /** req is what was asked, with the voucher's organisation, profile and note where it left them open. */
  predicate Fills(asked: S.EnrollRequest, req: S.EnrollRequest, v: S.Voucher) {
    req == asked.(orgID := if asked.orgID == [] then v.orgID else asked.orgID,
                  profile := if asked.profile == [] then v.profile else asked.profile,
                  note := if asked.note == [] then v.note else asked.note)
  }

  ghost predicate EnrollSound(cfg: Config, acts: seq<Action>, n: nat, e: Enrollment) {
    match e
    case Asked(req, admin, hash) => CameIn(acts, n, req, admin, hash)
    case Paid(req, v) => PaidWith(cfg, acts, n, req, v)
    case _ => true
  }

  lemma CameInLater(acts: seq<Action>, a: Action, n: nat, req: S.EnrollRequest, admin: bool, hash: Bytes)
    requires CameIn(acts, n, req, admin, hash)
    ensures CameIn(acts + [a], n, req, admin, hash)
  {
    var j :| 0 <= j < |acts| && acts[j] == BeginEnroll(n, req, admin, hash);
    assert (acts + [a])[j] == acts[j];
  }

  lemma PaidLater(cfg: Config, acts: seq<Action>, a: Action, n: nat, req: S.EnrollRequest, v: Bytes)
    requires PaidWith(cfg, acts, n, req, v)
    ensures PaidWith(cfg, acts + [a], n, req, v)
  {
    hide Run, CameIn, Fills, L.RedeemsVoucher, S.Finds;
    var asked: S.EnrollRequest, hash: Bytes, i: nat :|
      && CameIn(acts, n, asked, false, hash) && PaysAt(cfg, acts, i, n, hash, v)
      && v in Run(cfg, acts[..i]).ledger.store.vouchers
      && Fills(asked, req, Run(cfg, acts[..i]).ledger.store.vouchers[v]);
    CameInLater(acts, a, n, asked, false, hash);
    assert (acts + [a])[..i] == acts[..i] && (acts + [a])[i] == acts[i];
    assert PaysAt(cfg, acts + [a], i, n, hash, v);
  }

  lemma EnrollSoundLater(cfg: Config, acts: seq<Action>, a: Action, n: nat, e: Enrollment)
    requires EnrollSound(cfg, acts, n, e)
    ensures EnrollSound(cfg, acts + [a], n, e)
  {
    hide CameIn, PaidWith;
    match e
    case Asked(req, admin, hash) => CameInLater(acts, a, n, req, admin, hash);
    case Paid(req, v) => PaidLater(cfg, acts, a, n, req, v);
    case _ =>
  }

  /** A request that moves from asked to paid has just redeemed. */
  lemma PayingStep(cfg: Config, acts: seq<Action>, n: nat, found: Option<Bytes>, at: int,
                   asked: S.EnrollRequest, hash: Bytes, e': Enrollment)
    requires CameIn(acts, n, asked, false, hash)
    requires e' == AdvanceEnroll(Run(cfg, acts), EnrollRedeem(n, found, at), Asked(asked, false, hash)) && e'.Paid?
    ensures PaidWith(cfg, acts + [EnrollRedeem(n, found, at)], n, e'.req, e'.voucher)
  {
    var a := EnrollRedeem(n, found, at);
    var ka := Run(cfg, acts);
    assert S.Finds(ka.ledger.store, hash, found) && found == Some(e'.voucher);
    assert L.RedeemsVoucher(ka.ledger, L.Redeems(found, at));
    assert Fills(asked, e'.req, ka.ledger.store.vouchers[e'.voucher]);
    hide Run, AdvanceEnroll, CameIn, Fills, S.Finds, L.RedeemsVoucher;
    CameInLater(acts, a, n, asked, false, hash);
    var all, i := acts + [a], |acts|;
    assert all[..i] == acts && all[i] == a;
    assert PaysAt(cfg, all, i, n, hash, e'.voucher);
  }

  lemma AdvanceEnrollSound(cfg: Config, acts: seq<Action>, a: Action, n: nat, e: Enrollment)
    requires EnrollSound(cfg, acts, n, e) && (a.EnrollRedeem? || a.EnrollStore? ==> a.n == n)
    ensures EnrollSound(cfg, acts + [a], n, AdvanceEnroll(Run(cfg, acts), a, e))
  {
    var e' := AdvanceEnroll(Run(cfg, acts), a, e);
    EnrollSoundLater(cfg, acts, a, n, e);
    if a.EnrollRedeem? && e.Asked? && e'.Paid? {
      PayingStep(cfg, acts, n, a.found, a.at, e.req, e.hash, e');
    }
    hide Run, CameIn, PaidWith, S.Finds, S.Enroll, S.RedeemFound;
  }

  lemma EnrollRequestMoves(cfg: Config, ka: KA, a: Action, n: nat)
    requires ka.past != [] && IsEnroll(Step(cfg, ka, a), n)
    ensures
      var e' := Step(cfg, ka, a).reqs[n].enrollment;
      if IsEnroll(ka, n) then
        || e' == ka.reqs[n].enrollment
        || ((a.EnrollRedeem? || a.EnrollStore?) && a.n == n && e' == AdvanceEnroll(ka, a, ka.reqs[n].enrollment))
      else a.BeginEnroll? && a.n == n && e' == Asked(a.enrollReq, a.admin, a.hash)
  {
    hide L.Commit, AdvanceIssue, Call, S.Finds, S.Enroll, S.RedeemFound;
  }

  lemma {:induction false} RunEnrollSound(cfg: Config, acts: seq<Action>, n: nat)
    requires IsEnroll(Run(cfg, acts), n)
    ensures EnrollSound(cfg, acts, n, Run(cfg, acts).reqs[n].enrollment)
  {
    if acts != [] {
      var front, a := acts[..|acts| - 1], acts[|acts| - 1];
      assert acts == front + [a];
      var ka := Run(cfg, front);
      hide Run, Step, EnrollSound, AdvanceEnroll;
      RunSnoc(cfg, front, a);
      EnrollRequestMoves(cfg, ka, a, n);
      if IsEnroll(ka, n) {
        RunEnrollSound(cfg, front, n);
        EnrollSoundLater(cfg, front, a, n, ka.reqs[n].enrollment);
        if (a.EnrollRedeem? || a.EnrollStore?) && a.n == n {
          AdvanceEnrollSound(cfg, front, a, n, ka.reqs[n].enrollment);
        }
      } else {
        AskedSound(cfg, front, a, n);
      }
    }
  }

  lemma AskedSound(cfg: Config, acts: seq<Action>, a: Action, n: nat)
    requires a.BeginEnroll? && a.n == n
    ensures EnrollSound(cfg, acts + [a], n, Asked(a.enrollReq, a.admin, a.hash))
  {
    assert (acts + [a])[|acts|] == a;
  }

  /** Who is enrolled, in every interleaving: every store call that enrolls serves a request that came in with the
      administrator's token, or one that paid: before, it redeemed the voucher its code hash finds, and what is
      enrolled is what it asked for with that voucher's defaults. */
  lemma EnrollmentWasAuthorised(cfg: Config, acts: seq<Action>, k: nat)
    requires k < |acts| && Calls(cfg, acts)[k].Enrolls?
    ensures
      var ch := Calls(cfg, acts)[k];
      && acts[k].EnrollStore?
      && (ch.via.None? ==> exists hash :: CameIn(acts[..k], acts[k].n, ch.req, true, hash))
      && (ch.via.Some? ==> PaidWith(cfg, acts[..k], acts[k].n, ch.req, ch.via.value))
  {
    CallAt(cfg, acts, k);
    var ka := Run(cfg, acts[..k]);
    var n := acts[k].n;
    hide Run, Calls, CameIn, PaidWith;
    RunEnrollSound(cfg, acts[..k], n);
  }

  lemma {:induction false} CallAt(cfg: Config, acts: seq<Action>, k: nat)
    requires k < |acts|
    ensures Calls(cfg, acts)[k] == Call(cfg, Run(cfg, acts[..k]), acts[k])
  {
    hide Call, Run;
    if k < |acts| - 1 {
      var front := acts[..|acts| - 1];
      CallAt(cfg, front, k);
      assert front[..k] == acts[..k];
    }
  }

  // ------------------------------------------------------------------ one epoch, two serials

  lemma RunSnoc(cfg: Config, acts: seq<Action>, a: Action)
    ensures Run(cfg, acts + [a]) == Step(cfg, Run(cfg, acts), a)
  {
    assert (acts + [a])[..|acts|] == acts;
    hide Step;
  }

  /** A plain request for dev, stamped t. */
  function Plain(dev: Bytes, t: int64): IssueRequest { IssueRequest(dev, [], 0, t, [], false) }

  /** Its first three steps. */
  function UpToDerive(n: nat, dev: Bytes, t: int64): seq<Action> {
    [BeginIssue(n, Plain(dev, t)), IssueGet(n), IssueDerive(n, t)]
  }

  ghost predicate Unsigned(cfg: Config, s: S.State, dev: Bytes) {
    dev != [] && Active(s, dev) && |s.devices[dev].signPK| != 32 && !cfg.requireSignature && |cfg.master| == KEY_SIZE
  }

  lemma PlainBegins(cfg: Config, ka: KA, n: nat, dev: Bytes, t: int64)
    requires ka.past != [] && n !in ka.reqs
    ensures
      var ka' := Step(cfg, ka, BeginIssue(n, Plain(dev, t)));
      ka'.ledger == ka.ledger && ka'.reqs == ka.reqs[n := IssueOf(Plain(dev, t), |ka.past| - 1, Begun)]
  {
  }

  lemma PlainAuthenticates(cfg: Config, ka: KA, n: nat, dev: Bytes, t: int64)
    requires ka.past != [] && IsIssue(ka, n) && ka.reqs[n].req == Plain(dev, t) && ka.reqs[n].issue == Begun
    requires Unsigned(cfg, ka.ledger.store, dev)
    ensures
      var ka' := Step(cfg, ka, IssueGet(n));
      && ka'.ledger == ka.ledger && IsIssue(ka', n) && ka'.reqs == ka.reqs[n := ka'.reqs[n]]
      && ka'.reqs[n].req == Plain(dev, t) && ka'.reqs[n].issue.Authenticated?
      && ka'.reqs[n].issue.profile == EffectiveProfile(ka.ledger.store.devices[dev].profile)
  {
    hide EffectiveProfile;
  }

  lemma PlainDerives(cfg: Config, ka: KA, n: nat, dev: Bytes, t: int64)
    requires ka.past != [] && IsIssue(ka, n) && ka.reqs[n].req == Plain(dev, t) && ka.reqs[n].issue.Authenticated?
    requires |cfg.master| == KEY_SIZE && 0 <= t < I63 / 2
    ensures
      var ka' := Step(cfg, ka, IssueDerive(n, t));
      && ka'.ledger == ka.ledger && IsIssue(ka', n) && ka'.reqs == ka.reqs[n := ka'.reqs[n]]
      && ka'.reqs[n].req == Plain(dev, t)
      && ka'.reqs[n].issue.Derived? && ka'.reqs[n].issue.epoch == Epochs.EpochID(t)
      && ka'.reqs[n].issue.profile == ka.reqs[n].issue.profile
  {
    DeviceClock.SkewTest(t, t);
    hide Epochs.EpochID, DeviceClock.SkewOK, EffectiveProfile, Digits;
    var (d, keyAt) := RecordAtDerive(cfg, ka, dev, ka.reqs[n].issue);
    assert KeyFor(cfg, ka.reqs[n].issue.profile, Epochs.EpochID(t), d).Some?;
    hide KeyFor;
    assert HintOK(0, Epochs.EpochID(t));
  }

  /** Request n of dev holds a derived key for this epoch. */
  ghost predicate HoldsKey(ka: KA, n: nat, dev: Bytes, epoch: uint64) {
    IsIssue(ka, n) && ka.reqs[n].req.deviceID == dev && ka.reqs[n].issue.Derived? && ka.reqs[n].issue.epoch == epoch
  }

  lemma OthersHold(ka: KA, ka': KA, n: nat, dev: Bytes)
    requires n !in ka.reqs && n in ka'.reqs && ka'.reqs == ka.reqs[n := ka'.reqs[n]]
    ensures ka'.reqs.Keys == ka.reqs.Keys + {n}
    ensures forall m: nat, g: uint64 :: HoldsKey(ka, m, dev, g) ==> HoldsKey(ka', m, dev, g)
  {
  }

  /** An active device's plain request gets as far as holding a derived key, and disturbs nothing. */
  lemma ReachesDerived(cfg: Config, acts: seq<Action>, n: nat, dev: Bytes, t: int64)
    requires n !in Run(cfg, acts).reqs && Unsigned(cfg, Run(cfg, acts).ledger.store, dev) && 0 <= t < I63 / 2
    ensures
      var ka, ka' := Run(cfg, acts), Run(cfg, acts + UpToDerive(n, dev, t));
      && ka'.ledger == ka.ledger && HoldsKey(ka', n, dev, Epochs.EpochID(t))
      && dev in ka.ledger.store.devices
      && ka'.reqs[n].issue.profile == EffectiveProfile(ka.ledger.store.devices[dev].profile)
      && ka'.reqs == ka.reqs[n := ka'.reqs[n]] && ka'.reqs.Keys == ka.reqs.Keys + {n}
      && forall m: nat, g: uint64 :: HoldsKey(ka, m, dev, g) ==> HoldsKey(ka', m, dev, g)
  {
    hide Run, Step, Unsigned, Epochs.EpochID, EffectiveProfile;
    var a1, a2, a3 := BeginIssue(n, Plain(dev, t)), IssueGet(n), IssueDerive(n, t);
    assert acts + UpToDerive(n, dev, t) == acts + [a1] + [a2] + [a3];
    hide UpToDerive;
    RunSnoc(cfg, acts, a1);
    RunSnoc(cfg, acts + [a1], a2);
    RunSnoc(cfg, acts + [a1] + [a2], a3);
    var k0 := Run(cfg, acts);
    PlainBegins(cfg, k0, n, dev, t);
    var k1 := Step(cfg, k0, a1);
    PlainAuthenticates(cfg, k1, n, dev, t);
    var k2 := Step(cfg, k1, a2);
    UnsignedParts(cfg, k0.ledger.store, dev);
    PlainDerives(cfg, k2, n, dev, t);
    OthersHold(k0, Run(cfg, acts + UpToDerive(n, dev, t)), n, dev);
  }

  lemma UnsignedParts(cfg: Config, s: S.State, dev: Bytes)
    requires Unsigned(cfg, s, dev)
    ensures |cfg.master| == KEY_SIZE && dev in s.devices
  {
  }

  /** A derived request that marks files its epoch and leaves the other requests alone. */
  lemma Marked(cfg: Config, acts: seq<Action>, n: nat, dev: Bytes, epoch: uint64)
    requires HoldsKey(Run(cfg, acts), n, dev, epoch)
    ensures
      var ka, ka' := Run(cfg, acts), Run(cfg, acts + [IssueMark(n)]);
      && ka'.ledger == L.Commit(ka.ledger, L.Marks(dev, epoch))
      && forall m: nat, g: uint64 :: m != n && HoldsKey(ka, m, dev, g) ==> HoldsKey(ka', m, dev, g)
  {
    RunSnoc(cfg, acts, IssueMark(n));
    hide Run, L.Commit, AdvanceIssue;
  }

  function Enrollee(dev: Bytes, pk: Bytes): S.EnrollRequest { S.EnrollRequest(dev, pk, [], [], [], 1, []) }

  function EnrollSteps(n: nat, dev: Bytes, pk: Bytes): seq<Action> {
    [BeginEnroll(n, Enrollee(dev, pk), true, []), EnrollStore(n)]
  }

  lemma EnrollBegins(cfg: Config, ka: KA, n: nat, req: S.EnrollRequest)
    requires ka.past != [] && n !in ka.reqs
    ensures
      var ka' := Step(cfg, ka, BeginEnroll(n, req, true, []));
      ka'.ledger == ka.ledger && ka'.reqs == ka.reqs[n := EnrollOf(Asked(req, true, []))]
  {
  }

  lemma EnrollStores(cfg: Config, ka: KA, n: nat, req: S.EnrollRequest)
    requires ka.past != [] && n in ka.reqs && ka.reqs[n] == EnrollOf(Asked(req, true, []))
    ensures
      var ka' := Step(cfg, ka, EnrollStore(n));
      && ka'.ledger == L.Commit(ka.ledger, L.Enrolls(req, None))
      && n in ka'.reqs && ka'.reqs == ka.reqs[n := ka'.reqs[n]]
  {
    hide L.Commit, AdvanceEnroll;
  }

  lemma FirstEnrollment(dev: Bytes, pk: Bytes)
    requires dev != [] && |pk| == 32
    ensures
      var l := L.Commit(L.NEW, L.Enrolls(Enrollee(dev, pk), None));
      && l.log == [L.Enrolled(dev)] && l.store.serial == 0
      && Active(l.store, dev) && l.store.devices[dev] == S.FirstEnrolled(Enrollee(dev, pk))
  {
    var l := L.Commit(L.NEW, L.Enrolls(Enrollee(dev, pk), None));
    assert l.store.devices[dev] == S.FirstEnrolled(Enrollee(dev, pk));
  }

  /** An enrollment by the administrator, and what it leaves alone. */
  lemma AdminEnrolls(cfg: Config, acts: seq<Action>, n: nat, dev: Bytes, pk: Bytes)
    requires n !in Run(cfg, acts).reqs
    ensures
      var ka, ka' := Run(cfg, acts), Run(cfg, acts + EnrollSteps(n, dev, pk));
      && ka'.ledger == L.Commit(ka.ledger, L.Enrolls(Enrollee(dev, pk), None))
      && n in ka'.reqs && ka'.reqs == ka.reqs[n := ka'.reqs[n]]
  {
    var req := Enrollee(dev, pk);
    var a, b := BeginEnroll(n, req, true, []), EnrollStore(n);
    assert acts + EnrollSteps(n, dev, pk) == acts + [a] + [b];
    hide Run, Step, L.Commit, EnrollSteps;
    RunSnoc(cfg, acts, a);
    RunSnoc(cfg, acts + [a], b);
    EnrollBegins(cfg, Run(cfg, acts), n, req);
    EnrollStores(cfg, Run(cfg, acts + [a]), n, req);
  }

  lemma EnrolledFirst(cfg: Config, dev: Bytes, pk: Bytes)
    ensures
      var ka := Run(cfg, EnrollSteps(0, dev, pk));
      ka.ledger == L.Commit(L.NEW, L.Enrolls(Enrollee(dev, pk), None)) && ka.reqs.Keys == {0}
  {
    assert Run(cfg, []) == START && [] + EnrollSteps(0, dev, pk) == EnrollSteps(0, dev, pk);
    hide Run, L.Commit, EnrollSteps;
    AdminEnrolls(cfg, [], 0, dev, pk);
  }

  /** A request that derives one second before midnight of day 6, and two that derive at midnight. */
  function HoldingSteps(dev: Bytes): seq<Action> {
    UpToDerive(1, dev, 6 * 86400 - 1) + UpToDerive(2, dev, 6 * 86400) + UpToDerive(3, dev, 6 * 86400)
  }

  /** The steps of the race: an enrollment, three requests, and then the second marks, the first, the third. */
  function MidnightSteps(dev: Bytes, pk: Bytes): seq<Action> {
    EnrollSteps(0, dev, pk) + HoldingSteps(dev) + [IssueMark(2)] + [IssueMark(1)] + [IssueMark(3)]
  }

  ghost predicate ThreeHold(ka: KA, dev: Bytes) {
    HoldsKey(ka, 1, dev, 5) && HoldsKey(ka, 2, dev, 6) && HoldsKey(ka, 3, dev, 6)
  }

  lemma AllDerive(cfg: Config, e: seq<Action>, dev: Bytes)
    requires Run(cfg, e).reqs.Keys == {0} && Unsigned(cfg, Run(cfg, e).ledger.store, dev)
    ensures
      var ka := Run(cfg, e + HoldingSteps(dev));
      ka.ledger == Run(cfg, e).ledger && ThreeHold(ka, dev)
  {
    hide Run, UpToDerive, Epochs.EpochID, Unsigned, HoldsKey, HoldingSteps;
    var t, u := 6 * 86400 - 1, 6 * 86400;
    var a := e + UpToDerive(1, dev, t);
    var b := a + UpToDerive(2, dev, u);
    EpochsAround();
    HoldingSplit(e, dev);
    ReachesDerived(cfg, e, 1, dev, t);
    ReachesDerived(cfg, a, 2, dev, u);
    ReachesDerived(cfg, b, 3, dev, u);
  }

  lemma EpochsAround()
    ensures Epochs.EpochID(6 * 86400 - 1) == 5 && Epochs.EpochID(6 * 86400) == 6
  {
  }

  lemma HoldingSplit(e: seq<Action>, dev: Bytes)
    ensures e + HoldingSteps(dev)
      == e + UpToDerive(1, dev, 6 * 86400 - 1) + UpToDerive(2, dev, 6 * 86400) + UpToDerive(3, dev, 6 * 86400)
  {
    hide UpToDerive;
  }

  lemma AllMark(cfg: Config, d: seq<Action>, dev: Bytes)
    requires ThreeHold(Run(cfg, d), dev)
    ensures Run(cfg, d + [IssueMark(2)] + [IssueMark(1)] + [IssueMark(3)]).ledger
      == L.Commit(L.Commit(L.Commit(Run(cfg, d).ledger, L.Marks(dev, 6)), L.Marks(dev, 5)), L.Marks(dev, 6))
  {
    hide Run, L.Commit, HoldsKey;
    Marked(cfg, d, 2, dev, 6);
    Marked(cfg, d + [IssueMark(2)], 1, dev, 5);
    Marked(cfg, d + [IssueMark(2)] + [IssueMark(1)], 3, dev, 6);
  }

  lemma ThreeMarks(l: L.Ledger, dev: Bytes)
    requires Active(l.store, dev) && l.store.devices[dev].lastSerial == 0 && l.store.serial == 0
    ensures
      var m := L.Commit(L.Commit(L.Commit(l, L.Marks(dev, 6)), L.Marks(dev, 5)), L.Marks(dev, 6));
      m.log == l.log + [L.KeyIssued(dev, 6, 1), L.KeyIssued(dev, 5, 2), L.KeyIssued(dev, 6, 3)]
  {
    hide L.Commit;
    L.MarkEffect(l, dev, 6);
    var l1 := L.Commit(l, L.Marks(dev, 6));
    L.MarkEffect(l1, dev, 5);
    var l2 := L.Commit(l1, L.Marks(dev, 5));
    L.MarkEffect(l2, dev, 6);
  }

  /** "At most one serial per device and epoch" fails although the KA's clock never goes back: an epoch is read
      before it is marked, and marks can overtake each other around midnight. Day 6 ends up with serials 1 and 3. */
  lemma MidnightRace(cfg: Config, dev: Bytes, pk: Bytes)
    requires dev != [] && |pk| == 32 && |cfg.master| == KEY_SIZE && !cfg.requireSignature
    ensures Run(cfg, MidnightSteps(dev, pk)).ledger.log ==
      [L.Enrolled(dev), L.KeyIssued(dev, 6, 1), L.KeyIssued(dev, 5, 2), L.KeyIssued(dev, 6, 3)]
  {
    hide Run, L.Commit, EnrollSteps, HoldingSteps, ThreeHold;
    EnrolledFirst(cfg, dev, pk);
    FirstEnrollment(dev, pk);
    AllDerive(cfg, EnrollSteps(0, dev, pk), dev);
    AllMark(cfg, EnrollSteps(0, dev, pk) + HoldingSteps(dev), dev);
    ThreeMarks(Run(cfg, EnrollSteps(0, dev, pk)).ledger, dev);
  }
}
