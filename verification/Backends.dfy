/** The two implementations of the `Store` interface side by side: internal/kaapi/store.go,
    registry.go and voucher.go against sql_store.go. */
module Backends {
  import opened Octets
  import S = Store
  import R = Registry
  import Q = SqlStore

  datatype Op =
    | Enroll(req: S.EnrollRequest)
    | Get(id: Bytes)
    | ListDevices
    | Revoke(id: Bytes)
    | MarkIssued(id: Bytes, epoch: uint64)
    | Redeem(hash: Bytes, now: int)
    | AddVoucher(v: S.Voucher)
    | ListVouchers
    | RevokeVoucher(id: Bytes)

  /** Lists are compared as multisets. */
  datatype Reply =
    | Record(rec: S.Result<S.Device>)
    | Lookup(found: Option<S.Device>)
    | DeviceList(devices: multiset<S.Device>)
    | Done(done: S.Result<()>)
    | Serial(serial: S.Result<uint64>)
    | Redeemed(voucher: S.Result<S.Voucher>)
    | VoucherList(vouchers: multiset<S.VoucherInfo>)

  /** The voucher a lookup by code hash finds. */
  ghost function ByHash(s: S.State, hash: Bytes): (found: Option<Bytes>)
    ensures S.Finds(s, hash, found)
  {
    if id :| id in s.vouchers && s.vouchers[id].codeHash == hash then Some(id) else None
  }

  ghost function Apply(s: S.State, op: Op): (S.State, Reply) {
    match op
    case Enroll(req) => var (s', r) := S.Enroll(s, req); (s', Record(r))
    case Get(id) => (s, Lookup(S.Get(s, id)))
    case ListDevices => (s, DeviceList(S.Devices(s)))
    case Revoke(id) => var (s', r) := S.Revoke(s, id); (s', Done(r))
    case MarkIssued(id, epoch) => var (s', r) := S.MarkIssued(s, id, epoch); (s', Serial(r))
    case Redeem(hash, now) => var (s', r) := S.RedeemFound(s, ByHash(s, hash), now); (s', Redeemed(r))
    case AddVoucher(v) => var (s', r) := S.AddVoucher(s, v); (s', Done(r))
    case ListVouchers => (s, VoucherList(S.Vouchers(s)))
    case RevokeVoucher(id) => var (s', r) := S.RevokeVoucher(s, id); (s', Done(r))
  }

  /** Voucher ids and code hashes are fresh, and numbers fit a signed 64-bit column. */
  ghost predicate Admissible(s: S.State, op: Op) {
    match op
    case MarkIssued(_, epoch) => epoch < I63 && s.serial < I63 - 1
    case AddVoucher(v) => v.id == [] || S.FreshVoucher(s, v)
    case _ => true
  }

  ghost function After(s: S.State, ops: seq<Op>): S.State {
    if ops == [] then s else Apply(After(s, ops[..|ops| - 1]), ops[|ops| - 1]).0
  }

  ghost function Replies(s: S.State, ops: seq<Op>): seq<Reply> {
    if ops == [] then []
    else Replies(s, ops[..|ops| - 1]) + [Apply(After(s, ops[..|ops| - 1]), ops[|ops| - 1]).1]
  }

  ghost predicate AllAdmissible(s: S.State, ops: seq<Op>) {
    forall i :: 0 <= i < |ops| ==> Admissible(After(s, ops[..i]), ops[i])
  }

  lemma ApplyKeepsHashes(s: S.State, op: Op)
    requires S.UniqueHashes(s) && Admissible(s, op)
    ensures S.UniqueHashes(Apply(s, op).0)
  {
    hide S.Enroll, S.Revoke, S.MarkIssued;
    match op
    case Enroll(req) => assert S.Enroll(s, req).0.vouchers == s.vouchers by { EnrollKeepsVouchers(s, req); }
    case Revoke(id) => assert S.Revoke(s, id).0.vouchers == s.vouchers by { RevokeKeepsVouchers(s, id); }
    case MarkIssued(id, epoch) =>
      assert S.MarkIssued(s, id, epoch).0.vouchers == s.vouchers by { MarkKeepsVouchers(s, id, epoch); }
    case _ =>
  }

  lemma EnrollKeepsVouchers(s: S.State, req: S.EnrollRequest)
    ensures S.Enroll(s, req).0.vouchers == s.vouchers
  {
  }

  lemma RevokeKeepsVouchers(s: S.State, id: Bytes)
    ensures S.Revoke(s, id).0.vouchers == s.vouchers
  {
  }

  lemma MarkKeepsVouchers(s: S.State, id: Bytes, epoch: uint64)
    ensures S.MarkIssued(s, id, epoch).0.vouchers == s.vouchers
  {
  }

  method DoJson(reg: R.Registry, op: Op) returns (reply: Reply)
    requires reg.Valid() && S.UniqueHashes(reg.State())
    modifies reg
    ensures reg.Valid() && (reg.State(), reply) == Apply(old(reg.State()), op)
  {
    hide S.Enroll, S.Revoke, S.MarkIssued, S.RedeemFound, S.AddVoucher, S.RevokeVoucher, S.Devices, S.Vouchers, S.Keyed,
         S.Get;
    match op {
      case Enroll(req) => var r := reg.Enroll(req); reply := Record(r);
      case Get(id) => var r := reg.Get(id); reply := Lookup(r);
      case ListDevices => var r := reg.ListDevices(); reply := DeviceList(multiset(r));
      case Revoke(id) => var r := reg.Revoke(id); reply := Done(r);
      case MarkIssued(id, epoch) => var r := reg.MarkIssued(id, epoch); reply := Serial(r);
      case Redeem(hash, now) =>
        ghost var s := reg.State();
        var r, found := reg.RedeemVoucher(hash, now);
        S.FindsUnique(s, hash, found, ByHash(s, hash));
        reply := Redeemed(r);
      case AddVoucher(v) => var r := reg.AddVoucher(v); reply := Done(r);
      case ListVouchers => var r := reg.ListVouchers(); reply := VoucherList(multiset(r));
      case RevokeVoucher(id) => var r := reg.RevokeVoucher(id); reply := Done(r);
    }
  }

  method DoSql(db: Q.SqlStore, op: Op) returns (reply: Reply)
    requires db.Valid() && S.UniqueHashes(db.State()) && Admissible(db.State(), op)
    modifies db
    ensures db.Valid() && (db.State(), reply) == Apply(old(db.State()), op)
  {
    hide S.Enroll, S.Revoke, S.MarkIssued, S.RedeemFound, S.AddVoucher, S.RevokeVoucher, S.Devices, S.Vouchers, S.Get,
         Q.SqlStore.Valid;
    match op {
      case Enroll(req) => var r := db.Enroll(req); reply := Record(r);
      case Get(id) => var r := db.Get(id); reply := Lookup(r);
      case ListDevices => var r := db.ListDevices(); reply := DeviceList(multiset(r));
      case Revoke(id) => var r := db.Revoke(id); reply := Done(r);
      case MarkIssued(id, epoch) => var r := db.MarkIssued(id, epoch); reply := Serial(r);
      case Redeem(hash, now) =>
        ghost var s := db.State();
        var r, found := db.RedeemVoucher(hash, now);
        S.FindsUnique(s, hash, found, ByHash(s, hash));
        reply := Redeemed(r);
      case AddVoucher(v) => var r := db.AddVoucher(v); reply := Done(r);
      case ListVouchers => var r := db.ListVouchers(); reply := VoucherList(multiset(r));
      case RevokeVoucher(id) => var r := db.RevokeVoucher(id); reply := Done(r);
    }
  }

  lemma AfterSnoc(s: S.State, ops: seq<Op>, i: nat)
    requires i < |ops|
    ensures After(s, ops[..i + 1]) == Apply(After(s, ops[..i]), ops[i]).0
    ensures Replies(s, ops[..i + 1]) == Replies(s, ops[..i]) + [Apply(After(s, ops[..i]), ops[i]).1]
  {
    assert ops[..i + 1][..i] == ops[..i];
    hide Apply;
  }

  /** On every admissible operation sequence, from equal contents, both backends give the same replies and
      end with equal contents. */
  method RunBoth(reg: R.Registry, db: Q.SqlStore, ops: seq<Op>) returns (json: seq<Reply>, sql: seq<Reply>)
    requires reg.Valid() && db.Valid() && reg.State() == db.State() && S.UniqueHashes(reg.State())
    requires AllAdmissible(reg.State(), ops)
    modifies reg, db
    ensures reg.Valid() && db.Valid() && reg.State() == db.State() == After(old(reg.State()), ops)
    ensures json == sql == Replies(old(reg.State()), ops)
  {
    hide Apply, Admissible, S.UniqueHashes, Q.SqlStore.Valid, Q.SqlStore.State, R.Registry.State, S.Keyed;
    ghost var s := reg.State();
    json, sql := [], [];
    assert ops[..0] == [];
    for i := 0 to |ops|
      invariant reg.Valid() && db.Valid() && reg.State() == db.State() == After(s, ops[..i])
      invariant S.UniqueHashes(reg.State())
      invariant json == sql == Replies(s, ops[..i])
    {
      ApplyKeepsHashes(reg.State(), ops[i]);
      AfterSnoc(s, ops, i);
      var a := DoJson(reg, ops[i]);
      var b := DoSql(db, ops[i]);
      json, sql := json + [a], sql + [b];
    }
    assert ops[..|ops|] == ops;
  }

  /** The freshness condition is exact: adding a voucher gets the same answer from both backends if and
      only if its id is empty or it is fresh. */
  method AddToBoth(reg: R.Registry, db: Q.SqlStore, v: S.Voucher) returns (json: S.Result<()>, sql: S.Result<()>)
    requires reg.Valid() && db.Valid() && reg.State() == db.State()
    modifies reg, db
    ensures reg.Valid() && db.Valid()
    ensures json == sql <==> v.id == [] || S.FreshVoucher(old(reg.State()), v)
    ensures json == sql ==> reg.State() == db.State()
  {
    hide Q.SqlStore.Valid, Q.SqlStore.State, S.FreshVoucher, S.Keyed;
    json := reg.AddVoucher(v);
    sql := db.AddVoucher(v);
  }

  /** So is the bound on numbers: a mark gets the same answer from both backends if and only if no new serial
      is due or epoch and serial fit a signed column. */
  method MarkOnBoth(reg: R.Registry, db: Q.SqlStore, id: Bytes, epoch: uint64)
    returns (json: S.Result<uint64>, sql: S.Result<uint64>)
    requires reg.Valid() && db.Valid() && reg.State() == db.State()
    modifies reg, db
    ensures reg.Valid() && db.Valid()
    ensures
      var s := old(reg.State());
      json == sql <==> !S.TakesSerial(s, id, epoch) || (epoch < I63 && Succ64(s.serial) < I63)
    ensures json == sql ==> reg.State() == db.State()
  {
    json := reg.MarkIssued(id, epoch);
    sql := db.MarkIssued(id, epoch);
  }

  /** The bound matters: on new backends, after one enrollment, a mark of epoch 2^63 gets serial 1 from the file
      backend and an error from the SQL backend. */
  method HugeEpochDiffers(dev: Bytes, pk: Bytes) returns (json: S.Result<uint64>, sql: S.Result<uint64>)
    requires dev != [] && |pk| == 32
    ensures json == S.Ok(1) && sql.Err?
  {
    var reg := new R.Registry();
    var db := new Q.SqlStore();
    hide Q.SqlStore.Valid, Q.SqlStore.State;
    var req := S.EnrollRequest(dev, pk, [], [], [], 1, []);
    var a := reg.Enroll(req);
    var b := db.Enroll(req);
    json := reg.MarkIssued(dev, I63);
    sql := db.MarkIssued(dev, I63);
  }

  /** So does freshness: on new backends, the second addition of one voucher succeeds in the file backend only. */
  method SecondAddDiffers(v: S.Voucher) returns (json: S.Result<()>, sql: S.Result<()>)
    requires v.id != []
    ensures json.Ok? && sql.Err?
  {
    var reg := new R.Registry();
    var db := new Q.SqlStore();
    hide Q.SqlStore.Valid, Q.SqlStore.State;
    var a := reg.AddVoucher(v);
    var b := db.AddVoucher(v);
    json := reg.AddVoucher(v);
    sql := db.AddVoucher(v);
  }
}
