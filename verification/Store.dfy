/** The device and voucher registry as one abstract state: what both backends of the `Store` interface
    (internal/kaapi/store.go) compute. Storage is assumed to succeed. */
module Store {
  import opened Octets

  datatype Result<+T> = Ok(value: T) | Err(error: string)

  datatype Device = Device(
    id: Bytes, identityPK: Bytes, signPK: Bytes, orgID: Bytes, note: Bytes, counter: uint32,
    profile: Bytes, revoked: bool, lastEpoch: uint64, lastSerial: uint64, issuedEpoch: uint64)

  datatype Voucher = Voucher(
    id: Bytes, codeHash: Bytes, note: Bytes, orgID: Bytes, profile: Bytes, maxUses: int, uses: int,
    expiresAt: int, createdAt: int, revoked: bool)

  /** A voucher as listed, without its code hash. */
  datatype VoucherInfo = VoucherInfo(
    id: Bytes, note: Bytes, orgID: Bytes, profile: Bytes, maxUses: int, uses: int, expiresAt: int,
    createdAt: int, revoked: bool)

  datatype EnrollRequest = EnrollRequest(
    deviceID: Bytes, identityPK: Bytes, signPK: Bytes, orgID: Bytes, note: Bytes, counter: uint32, profile: Bytes)

  datatype State = State(devices: map<Bytes, Device>, vouchers: map<Bytes, Voucher>, serial: uint64)

  const EMPTY := State(map[], map[], 0)

  /** Records are filed under their own ids. */
  ghost predicate Keyed(s: State) {
    && (forall id :: id in s.devices ==> s.devices[id].id == id)
    && (forall id :: id in s.vouchers ==> s.vouchers[id].id == id)
  }

  const STRONG: Bytes := Ascii("strong")

  // ------------------------------------------------------------------ devices

  function RequestError(req: EnrollRequest): Option<string> {
    if req.deviceID == [] then Some("device_id required")
    else if |req.identityPK| != 32 then Some("identity_pk must be 32 bytes")
    else if |req.signPK| != 0 && |req.signPK| != 32 then Some("sign_pk must be 32 bytes")
    else None
  }

  /** uint32 increment. */
  function Bump(n: uint32): uint32 { if n == U32 - 1 then 0 else n + 1 }

  function Reenrolled(d: Device, req: EnrollRequest): Device {
    d.(counter := if req.counter > d.counter then req.counter else Bump(d.counter),
       identityPK := req.identityPK,
       signPK := if req.signPK != [] then req.signPK else d.signPK,
       orgID := req.orgID, note := req.note,
       profile := if req.profile == [] then STRONG else req.profile,
       revoked := false)
  }

  function FirstEnrolled(req: EnrollRequest): Device {
    Device(req.deviceID, req.identityPK, req.signPK, req.orgID, req.note,
           if req.counter == 0 then 1 else req.counter,
           if req.profile == [] then STRONG else req.profile, false, 0, 0, 0)
  }

  function Enroll(s: State, req: EnrollRequest): (State, Result<Device>) {
    match RequestError(req)
    case Some(e) => (s, Err(e))
    case None =>
      var d := if req.deviceID in s.devices then Reenrolled(s.devices[req.deviceID], req) else FirstEnrolled(req);
      (s.(devices := s.devices[req.deviceID := d]), Ok(d))
  }

  function Get(s: State, id: Bytes): Option<Device> {
    if id in s.devices then Some(s.devices[id]) else None
  }

  function Revoke(s: State, id: Bytes): (State, Result<()>) {
    if id !in s.devices then (s, Err("not_enrolled"))
    else (s.(devices := s.devices[id := s.devices[id].(revoked := true)]), Ok(()))
  }

  function MarkIssued(s: State, id: Bytes, epoch: uint64): (State, Result<uint64>) {
    if id !in s.devices then (s, Err("not_enrolled"))
    else if s.devices[id].revoked then (s, Err("revoked"))
    else if s.devices[id].issuedEpoch == epoch && s.devices[id].lastSerial != 0 then (s, Ok(s.devices[id].lastSerial))
    else
      var serial := Succ64(s.serial);
      var d := s.devices[id].(issuedEpoch := epoch, lastEpoch := epoch, lastSerial := serial);
      (s.(serial := serial, devices := s.devices[id := d]), Ok(serial))
  }

  /** A mark that is neither refused nor a repetition. */
  predicate TakesSerial(s: State, id: Bytes, epoch: uint64) {
    && id in s.devices && !s.devices[id].revoked
    && !(s.devices[id].issuedEpoch == epoch && s.devices[id].lastSerial != 0)
  }

  /** What a map files under these keys. */
  function Values<T(==)>(m: map<Bytes, T>, keys: set<Bytes>): multiset<T>
    requires keys <= m.Keys
  {
    multiset(set k | k in keys :: m[k])
  }

  ghost predicate Injective<T(!new)>(m: map<Bytes, T>) {
    forall x, y :: x in m && y in m && m[x] == m[y] ==> x == y
  }

  lemma ValuesAdd<T(!new)>(m: map<Bytes, T>, keys: set<Bytes>, k: Bytes)
    requires keys <= m.Keys && k in m && k !in keys && Injective(m)
    ensures Values(m, keys + {k}) == Values(m, keys) + multiset{m[k]}
  {
    var listed := set x | x in keys :: m[x];
    assert m[k] !in listed;
    assert (set x | x in keys + {k} :: m[x]) == listed + {m[k]};
  }

  /** Iterating over a map lists every value once, in any order. */
  method ListValues<T(!new)>(m: map<Bytes, T>) returns (out: seq<T>)
    requires Injective(m)
    ensures multiset(out) == Values(m, m.Keys)
  {
    out := [];
    var todo := m.Keys;
    ghost var done: set<Bytes> := {};
    assert Values(m, done) == multiset{};
    hide Values, Injective;
    while todo != {}
      invariant done + todo == m.Keys && done !! todo
      invariant multiset(out) == Values(m, done)
      decreases |todo|
    {
      var id :| id in todo;
      ValuesAdd(m, done, id);
      out := out + [m[id]];
      todo, done := todo - {id}, done + {id};
    }
    assert done == m.Keys;
  }

  function Devices(s: State): multiset<Device> {
    Values(s.devices, s.devices.Keys)
  }

  // ------------------------------------------------------------------ vouchers

  /** Looking a code hash up finds some voucher that has it, or nothing if none has. */
  ghost predicate Finds(s: State, hash: Bytes, found: Option<Bytes>) {
    match found
    case Some(id) => id in s.vouchers && s.vouchers[id].codeHash == hash
    case None => forall id :: id in s.vouchers ==> s.vouchers[id].codeHash != hash
  }

  function Refusal(v: Voucher, now: int): Option<string> {
    if v.revoked then Some("voucher_revoked")
    else if v.expiresAt > 0 && now > v.expiresAt then Some("voucher_expired")
    else if v.maxUses > 0 && v.uses >= v.maxUses then Some("voucher_exhausted")
    else None
  }

  function RedeemFound(s: State, found: Option<Bytes>, now: int): (State, Result<Voucher>)
    requires found.Some? ==> found.value in s.vouchers
  {
    match found
    case None => (s, Err("invalid_voucher"))
    case Some(id) =>
      match Refusal(s.vouchers[id], now)
      case Some(e) => (s, Err(e))
      case None =>
        var v := s.vouchers[id].(uses := s.vouchers[id].uses + 1);
        (s.(vouchers := s.vouchers[id := v]), Ok(v))
  }

  /** The file backend stores the voucher whatever is there already. */
  function AddVoucher(s: State, v: Voucher): (State, Result<()>) {
    if v.id == [] then (s, Err("id required"))
    else (s.(vouchers := s.vouchers[v.id := v]), Ok(()))
  }

  function RevokeVoucher(s: State, id: Bytes): (State, Result<()>) {
    if id !in s.vouchers then (s, Err("not_found"))
    else (s.(vouchers := s.vouchers[id := s.vouchers[id].(revoked := true)]), Ok(()))
  }

  function Info(v: Voucher): VoucherInfo {
    VoucherInfo(v.id, v.note, v.orgID, v.profile, v.maxUses, v.uses, v.expiresAt, v.createdAt, v.revoked)
  }

  /** A listing shows all of a voucher but its code hash. */
  lemma InfoShowsAll(v: Voucher, w: Voucher)
    ensures Info(v) == Info(w) <==> v == w.(codeHash := v.codeHash)
    ensures
      var i := Info(v);
      i.uses == v.uses && i.maxUses == v.maxUses && i.expiresAt == v.expiresAt && i.createdAt == v.createdAt
  {
  }

  function Infos(vouchers: map<Bytes, Voucher>): map<Bytes, VoucherInfo> {
    map id | id in vouchers :: Info(vouchers[id])
  }

  function Vouchers(s: State): multiset<VoucherInfo> {
    Values(Infos(s.vouchers), s.vouchers.Keys)
  }

  /** No other voucher has this id or this code hash. */
  ghost predicate FreshVoucher(s: State, v: Voucher) {
    v.id !in s.vouchers && forall id :: id in s.vouchers ==> s.vouchers[id].codeHash != v.codeHash
  }

  ghost predicate UniqueHashes(s: State) {
    forall id, id' :: id in s.vouchers && id' in s.vouchers && s.vouchers[id].codeHash == s.vouchers[id'].codeHash ==>
      id == id'
  }

  /** The listings, entry by entry: every record once, and nothing else. */
  lemma ListingsAreComplete(s: State, d: Device, i: VoucherInfo)
    requires Keyed(s)
    ensures Devices(s)[d] == if d.id in s.devices && s.devices[d.id] == d then 1 else 0
    ensures Vouchers(s)[i] == if i.id in s.vouchers && Info(s.vouchers[i.id]) == i then 1 else 0
  {
  }

  lemma FindsUnique(s: State, hash: Bytes, f: Option<Bytes>, g: Option<Bytes>)
    requires UniqueHashes(s) && Finds(s, hash, f) && Finds(s, hash, g)
    ensures f == g
  {
  }

  // ------------------------------------------------------------------ enrollment counters over runs

  /** A re-enrollment raises the counter exactly while it is below the uint32 limit. */
  lemma ReenrollRaisesCounter(d: Device, req: EnrollRequest)
    ensures Reenrolled(d, req).counter > d.counter <==> d.counter < U32 - 1
  {
  }
}
