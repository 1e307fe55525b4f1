/** The table-backed registry: internal/kaapi/sql_store.go.

    `meta` holds the serial counter as decimal text; `devices` and `vouchers` are tables with nullable
    columns, 0/1 flags and unique keys. Every method is proved against the same abstract state as the
    file-backed registry. Integer columns are signed 64-bit, so larger unsigned values are refused. */
module SqlStore {
  import opened Octets
  import opened Tables
  import S = Store

  datatype DeviceRow = DeviceRow(
    deviceID: Bytes, identityPK: Bytes, signPK: Option<Bytes>, orgID: Bytes, note: Bytes, counter: uint32,
    profile: Bytes, revoked: int, lastEpoch: Option<uint64>, lastSerial: Option<uint64>, issuedEpoch: Option<uint64>)

  datatype VoucherRow = VoucherRow(
    id: Bytes, codeHash: Bytes, note: Bytes, orgID: Bytes, profile: Bytes, maxUses: int, uses: int,
    expiresAt: int, createdAt: int, revoked: int)

  const DeviceKey: DeviceRow -> Bytes := (r: DeviceRow) => r.deviceID
  const VoucherKey: VoucherRow -> Bytes := (r: VoucherRow) => r.id
  const HashKey: VoucherRow -> Bytes := (r: VoucherRow) => r.codeHash

  /** A nil slice is stored as NULL. */
  function Blob(b: Bytes): Option<Bytes> { if b == [] then None else Some(b) }
  function Unblob(b: Option<Bytes>): Bytes { if b.None? then [] else b.value }

  /** COALESCE(column, 0). */
  function Coalesce(n: Option<uint64>): uint64 { if n.None? then 0 else n.value }

  const ReadDevice: DeviceRow -> S.Device := (r: DeviceRow) =>
    S.Device(r.deviceID, r.identityPK, Unblob(r.signPK), r.orgID, r.note, r.counter, r.profile, r.revoked != 0,
             Coalesce(r.lastEpoch), Coalesce(r.lastSerial), Coalesce(r.issuedEpoch))

  const ReadVoucher: VoucherRow -> S.Voucher := (r: VoucherRow) =>
    S.Voucher(r.id, r.codeHash, r.note, r.orgID, r.profile, r.maxUses, r.uses, r.expiresAt, r.createdAt, r.revoked != 0)

  const ReadInfo: VoucherRow -> S.VoucherInfo := (r: VoucherRow) => S.Info(ReadVoucher(r))

  function SerialOf(meta: map<string, string>): int {
    if "serial" in meta then Scan(meta["serial"], 0) else 0
  }

  lemma HashesStay(rows: seq<VoucherRow>, id: Bytes, f: VoucherRow -> VoucherRow)
    requires UniqueKeys(rows, HashKey) && forall x :: f(x).codeHash == x.codeHash
    ensures UniqueKeys(Update(rows, VoucherKey, id, f), HashKey)
  {
    var rows' := Update(rows, VoucherKey, id, f);
    hide Update;
    assert forall i :: 0 <= i < |rows| ==> HashKey(rows'[i]) == HashKey(rows[i]);
  }

  lemma DeviceExec(rows: seq<DeviceRow>, id: Bytes, f: DeviceRow -> DeviceRow, effect: S.Device -> S.Device)
    requires UniqueKeys(rows, DeviceKey)
    requires forall x :: f(x).deviceID == x.deviceID && ReadDevice(f(x)) == effect(ReadDevice(x))
    ensures UniqueKeys(Update(rows, DeviceKey, id, f), DeviceKey)
    ensures View(Update(rows, DeviceKey, id, f), DeviceKey, ReadDevice)
      == Stored(View(rows, DeviceKey, ReadDevice), id, effect)
    ensures Select(rows, DeviceKey, id).Some? <==> id in View(rows, DeviceKey, ReadDevice)
  {
    ViewExec(rows, DeviceKey, ReadDevice, id, f, effect);
  }

  lemma VoucherExec(rows: seq<VoucherRow>, id: Bytes, f: VoucherRow -> VoucherRow, effect: S.Voucher -> S.Voucher)
    requires UniqueKeys(rows, VoucherKey) && UniqueKeys(rows, HashKey)
    requires forall x :: f(x).id == x.id && f(x).codeHash == x.codeHash
    requires forall x :: ReadVoucher(f(x)) == effect(ReadVoucher(x))
    ensures UniqueKeys(Update(rows, VoucherKey, id, f), VoucherKey)
    ensures UniqueKeys(Update(rows, VoucherKey, id, f), HashKey)
    ensures View(Update(rows, VoucherKey, id, f), VoucherKey, ReadVoucher)
      == Stored(View(rows, VoucherKey, ReadVoucher), id, effect)
    ensures Select(rows, VoucherKey, id).Some? <==> id in View(rows, VoucherKey, ReadVoucher)
  {
    ViewExec(rows, VoucherKey, ReadVoucher, id, f, effect);
    HashesStay(rows, id, f);
  }

  class SqlStore {
    var meta: map<string, string>
    var devices: seq<DeviceRow>
    var vouchers: seq<VoucherRow>

    ghost predicate Valid()
      reads this
    {
      && "serial" in meta && 0 <= SerialOf(meta) < U64
      && UniqueKeys(devices, DeviceKey) && UniqueKeys(vouchers, VoucherKey) && UniqueKeys(vouchers, HashKey)
    }

    ghost function State(): S.State
      reads this
      requires Valid()
    {
      S.State(View(devices, DeviceKey, ReadDevice), View(vouchers, VoucherKey, ReadVoucher), SerialOf(meta))
    }

    /** `migrate` on an empty database. */
    constructor ()
      ensures Valid() && State() == S.EMPTY
    {
      meta, devices, vouchers := map["serial" := "0"], [], [];
      new;
      assert "0"[1..] == "";
      assert Scan("0", 0) == Scan("", 0) == 0;
    }

    /** Read, scan, add one, print and write back. */
    method NextSerial() returns (n: uint64)
      requires Valid()
      modifies this`meta
      ensures Valid() && n == Succ64(old(SerialOf(meta))) && SerialOf(meta) == n
    {
      n := Succ64(Scan(meta["serial"], 0));
      meta := meta["serial" := Print(n)];
      ScanPrint(n);
    }

    /** UPDATE devices SET ... WHERE device_id = id; reports whether a row was affected. `effect` is what
        the assignment does to a record. */
    method ExecDevices(id: Bytes, write: DeviceRow -> DeviceRow, ghost effect: S.Device -> S.Device)
      returns (affected: bool)
      requires Valid()
      requires forall x :: write(x).deviceID == x.deviceID && ReadDevice(write(x)) == effect(ReadDevice(x))
      modifies this`devices
      ensures Valid() && affected == (id in old(State()).devices)
      ensures
        var s := old(State());
        State() == if affected then s.(devices := s.devices[id := effect(s.devices[id])]) else s
    {
      var row := Select(devices, DeviceKey, id);
      DeviceExec(devices, id, write, effect);
      hide View, Select, Update, UniqueKeys, ReadDevice, DeviceKey;
      devices := Update(devices, DeviceKey, id, write);
      affected := row.Some?;
    }

    /** INSERT INTO devices. */
    method InsertDevice(row: DeviceRow)
      requires Valid() && row.deviceID !in State().devices
      modifies this`devices
      ensures Valid()
      ensures
        var s := old(State());
        State() == s.(devices := s.devices[row.deviceID := ReadDevice(row)])
    {
      ViewSelect(devices, DeviceKey, ReadDevice, row.deviceID);
      ViewInsert(devices, DeviceKey, ReadDevice, row);
      hide View, Select, UniqueKeys, ReadDevice;
      devices := devices + [row];
    }

    method Enroll(req: S.EnrollRequest) returns (r: S.Result<S.Device>)
      requires Valid()
      modifies this`devices
      ensures Valid() && (State(), r) == S.Enroll(old(State()), req)
    {
      hide View, SerialOf, Valid, State;
      if req.deviceID == [] {
        return S.Err("device_id required");
      }
      if |req.identityPK| != 32 {
        return S.Err("identity_pk must be 32 bytes");
      }
      if |req.signPK| != 0 && |req.signPK| != 32 {
        return S.Err("sign_pk must be 32 bytes");
      }
      var profile := if req.profile == [] then S.STRONG else req.profile;
      var existing := Get(req.deviceID);
      if existing.Some? {
        var e := existing.value;
        e := e.(counter := if req.counter > e.counter then req.counter else S.Bump(e.counter));
        e := e.(identityPK := req.identityPK);
        if |req.signPK| > 0 {
          e := e.(signPK := req.signPK);
        }
        e := e.(orgID := req.orgID, note := req.note, profile := profile, revoked := false);
        var write := (x: DeviceRow) => x.(identityPK := e.identityPK, signPK := Blob(e.signPK), orgID := e.orgID,
          note := e.note, counter := e.counter, profile := e.profile, revoked := 0);
        var _ := ExecDevices(req.deviceID, write, (d: S.Device) =>
          e.(id := d.id, lastEpoch := d.lastEpoch, lastSerial := d.lastSerial, issuedEpoch := d.issuedEpoch));
        return S.Ok(e);
      }
      var counter := if req.counter == 0 then 1 else req.counter;
      var row := DeviceRow(req.deviceID, req.identityPK, Blob(req.signPK), req.orgID, req.note, counter, profile,
                           0, None, None, None);
      InsertDevice(row);
      r := S.Ok(ReadDevice(row));
    }

    method Get(id: Bytes) returns (r: Option<S.Device>)
      requires Valid()
      ensures r == S.Get(State(), id)
    {
      ViewSelect(devices, DeviceKey, ReadDevice, id);
      var row := Select(devices, DeviceKey, id);
      r := if row.None? then None else Some(ReadDevice(row.value));
    }

    method ListDevices() returns (out: seq<S.Device>)
      requires Valid()
      ensures multiset(out) == S.Devices(State())
    {
      out := [];
      for i := 0 to |devices|
        invariant out == ReadAll(devices[..i], ReadDevice)
      {
        out := out + [ReadDevice(devices[i])];
        assert devices[..i + 1][..i] == devices[..i];
      }
      assert devices[..|devices|] == devices;
      ReadAllLists(devices, DeviceKey, ReadDevice, (d: S.Device) => d.id);
    }

    /** UPDATE, then look at the number of rows affected. */
    method Revoke(id: Bytes) returns (r: S.Result<()>)
      requires Valid()
      modifies this`devices
      ensures Valid() && (State(), r) == S.Revoke(old(State()), id)
    {
      var affected := ExecDevices(id, (x: DeviceRow) => x.(revoked := 1), (d: S.Device) => d.(revoked := true));
      r := if affected then S.Ok(()) else S.Err("not_enrolled");
    }

    /** Where a new serial is due and epoch or serial exceeds a signed column, the driver refuses the row; the
        serial is used up all the same. */
    method MarkIssued(id: Bytes, epoch: uint64) returns (r: S.Result<uint64>)
      requires Valid()
      modifies this`devices, this`meta
      ensures Valid()
      ensures
        var s := old(State());
        if S.TakesSerial(s, id, epoch) && (epoch >= I63 || Succ64(s.serial) >= I63) then
          r.Err? && State() == s.(serial := Succ64(s.serial))
        else (State(), r) == S.MarkIssued(s, id, epoch)
    {
      var rec := Get(id);
      if rec.None? {
        return S.Err("not_enrolled");
      }
      if rec.value.revoked {
        return S.Err("revoked");
      }
      if rec.value.issuedEpoch == epoch && rec.value.lastSerial != 0 {
        return S.Ok(rec.value.lastSerial);
      }
      hide View, SerialOf;
      var serial := NextSerial();
      if epoch >= I63 || serial >= I63 {
        return S.Err("integer column overflow");
      }
      var _ := ExecDevices(
        id,
        (x: DeviceRow) => x.(issuedEpoch := Some(epoch), lastEpoch := Some(epoch), lastSerial := Some(serial)),
        (d: S.Device) => d.(issuedEpoch := epoch, lastEpoch := epoch, lastSerial := serial));
      r := S.Ok(serial);
    }

    ghost function FoundIn(hash: Bytes): Option<Bytes>
      reads this
    {
      match Select(vouchers, HashKey, hash)
      case None => None
      case Some(row) => Some(row.id)
    }

    lemma SelectByHash(hash: Bytes)
      requires Valid()
      ensures S.Finds(State(), hash, FoundIn(hash))
      ensures FoundIn(hash).Some? ==>
        State().vouchers[FoundIn(hash).value] == ReadVoucher(Select(vouchers, HashKey, hash).value)
    {
      var row := Select(vouchers, HashKey, hash);
      if row.Some? {
        ViewHolds(vouchers, VoucherKey, ReadVoucher, row.value);
      } else {
        forall id | id in State().vouchers
          ensures State().vouchers[id].codeHash != hash
        {
          ViewComesFromRow(vouchers, VoucherKey, ReadVoucher, id);
        }
      }
    }

    /** UPDATE vouchers SET ... WHERE id = id, for assignments that leave id and code hash alone. */
    method ExecVouchers(id: Bytes, write: VoucherRow -> VoucherRow, ghost effect: S.Voucher -> S.Voucher)
      returns (affected: bool)
      requires Valid()
      requires forall x :: write(x).id == x.id && write(x).codeHash == x.codeHash
      requires forall x :: ReadVoucher(write(x)) == effect(ReadVoucher(x))
      modifies this`vouchers
      ensures Valid() && affected == (id in old(State()).vouchers)
      ensures
        var s := old(State());
        State() == if affected then s.(vouchers := s.vouchers[id := effect(s.vouchers[id])]) else s
    {
      var row := Select(vouchers, VoucherKey, id);
      VoucherExec(vouchers, id, write, effect);
      hide View, Select, Update, UniqueKeys, ReadVoucher, VoucherKey, HashKey;
      vouchers := Update(vouchers, VoucherKey, id, write);
      affected := row.Some?;
    }

    /** SELECT ... WHERE code_hash = hash. */
    method FindByHash(hash: Bytes) returns (v: Option<S.Voucher>, ghost found: Option<Bytes>)
      requires Valid()
      ensures S.Finds(State(), hash, found) && v.Some? == found.Some?
      ensures v.Some? ==> v.value == State().vouchers[found.value] && v.value.id == found.value
    {
      found := FoundIn(hash);
      SelectByHash(hash);
      hide View, UniqueKeys;
      var row := Select(vouchers, HashKey, hash);
      v := if row.None? then None else Some(ReadVoucher(row.value));
    }

    method RedeemVoucher(hash: Bytes, now: int) returns (r: S.Result<S.Voucher>, ghost found: Option<Bytes>)
      requires Valid()
      modifies this`vouchers
      ensures Valid() && S.Finds(old(State()), hash, found)
      ensures (State(), r) == S.RedeemFound(old(State()), found, now)
    {
      hide Valid, State, View;
      var hit: Option<S.Voucher>;
      hit, found := FindByHash(hash);
      if hit.None? {
        return S.Err("invalid_voucher"), found;
      }
      var v := hit.value;
      if v.revoked {
        return S.Err("voucher_revoked"), found;
      }
      if v.expiresAt > 0 && now > v.expiresAt {
        return S.Err("voucher_expired"), found;
      }
      if v.maxUses > 0 && v.uses >= v.maxUses {
        return S.Err("voucher_exhausted"), found;
      }
      v := v.(uses := v.uses + 1);
      var _ := ExecVouchers(v.id, (x: VoucherRow) => x.(uses := v.uses), (x: S.Voucher) => x.(uses := v.uses));
      r := S.Ok(v);
    }

    /** INSERT fails on an id or a code hash that is already there; otherwise it does what the file
        backend does. */
    method AddVoucher(v: S.Voucher) returns (r: S.Result<()>)
      requires Valid()
      modifies this`vouchers
      ensures Valid()
      ensures v.id == [] || S.FreshVoucher(old(State()), v) ==> (State(), r) == S.AddVoucher(old(State()), v)
      ensures v.id != [] && !S.FreshVoucher(old(State()), v) ==> State() == old(State()) && r.Err?
    {
      if v.id == [] {
        return S.Err("id required");
      }
      var row := VoucherRow(v.id, v.codeHash, v.note, v.orgID, v.profile, v.maxUses, v.uses, v.expiresAt, v.createdAt,
                            if v.revoked then 1 else 0);
      ViewSelect(vouchers, VoucherKey, ReadVoucher, v.id);
      SelectByHash(v.codeHash);
      if Select(vouchers, VoucherKey, v.id).Some? || Select(vouchers, HashKey, v.codeHash).Some? {
        return S.Err("UNIQUE constraint failed");
      }
      ViewInsert(vouchers, VoucherKey, ReadVoucher, row);
      ViewInsert(vouchers, HashKey, ReadVoucher, row);
      assert ReadVoucher(row) == v;
      hide View, Select, UniqueKeys;
      vouchers := vouchers + [row];
      r := S.Ok(());
    }

    method ListVouchers() returns (out: seq<S.VoucherInfo>)
      requires Valid()
      ensures multiset(out) == S.Vouchers(State())
    {
      out := [];
      for i := 0 to |vouchers|
        invariant out == ReadAll(vouchers[..i], ReadInfo)
      {
        out := out + [ReadInfo(vouchers[i])];
        assert vouchers[..i + 1][..i] == vouchers[..i];
      }
      assert vouchers[..|vouchers|] == vouchers;
      ReadAllLists(vouchers, VoucherKey, ReadInfo, (d: S.VoucherInfo) => d.id);
      assert View(vouchers, VoucherKey, ReadInfo) == S.Infos(State().vouchers);
      assert S.Infos(State().vouchers).Keys == State().vouchers.Keys;
    }

    method RevokeVoucher(id: Bytes) returns (r: S.Result<()>)
      requires Valid()
      modifies this`vouchers
      ensures Valid() && (State(), r) == S.RevokeVoucher(old(State()), id)
    {
      var affected := ExecVouchers(id, (x: VoucherRow) => x.(revoked := 1), (x: S.Voucher) => x.(revoked := true));
      r := if affected then S.Ok(()) else S.Err("not_found");
    }
  }
}
