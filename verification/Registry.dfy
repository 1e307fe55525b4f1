/** The file-backed registry: internal/kaapi/registry.go and internal/kaapi/voucher.go. Saving is assumed
    to succeed; records are held as values. */
module Registry {
  import opened Octets
  import S = Store

  class Registry {
    var devices: map<Bytes, S.Device>
    var vouchers: map<Bytes, S.Voucher>
    var serial: uint64

    function State(): S.State
      reads this
    {
      S.State(devices, vouchers, serial)
    }

    ghost predicate Valid()
      reads this
    {
      S.Keyed(State())
    }

    constructor ()
      ensures Valid() && State() == S.EMPTY
    {
      devices, vouchers, serial := map[], map[], 0;
    }

    method Enroll(req: S.EnrollRequest) returns (r: S.Result<S.Device>)
      requires Valid()
      modifies this
      ensures Valid() && (State(), r) == S.Enroll(old(State()), req)
    {
      if req.deviceID == [] {
        return S.Err("device_id required");
      }
      if |req.identityPK| != 32 {
        return S.Err("identity_pk must be 32 bytes");
      }
      if |req.signPK| != 0 && |req.signPK| != 32 {
        return S.Err("sign_pk must be 32 bytes");
      }
      var profile := if req.profile == [] then S.STRONG else req.profile;
      if req.deviceID in devices {
        var existing := devices[req.deviceID];
        if req.counter > existing.counter {
          existing := existing.(counter := req.counter);
        } else {
          existing := existing.(counter := S.Bump(existing.counter));
        }
        existing := existing.(identityPK := req.identityPK);
        if |req.signPK| > 0 {
          existing := existing.(signPK := req.signPK);
        }
        existing := existing.(orgID := req.orgID, note := req.note, profile := profile, revoked := false);
        devices := devices[req.deviceID := existing];
        return S.Ok(existing);
      }
      var counter := if req.counter == 0 then 1 else req.counter;
      var rec := S.Device(req.deviceID, req.identityPK, req.signPK, req.orgID, req.note, counter, profile,
                          false, 0, 0, 0);
      devices := devices[req.deviceID := rec];
      r := S.Ok(rec);
    }

    method Get(id: Bytes) returns (r: Option<S.Device>)
      ensures r == S.Get(State(), id)
    {
      r := if id in devices then Some(devices[id]) else None;
    }

    /** Every record once, in any order. */
    method ListDevices() returns (out: seq<S.Device>)
      requires Valid()
      ensures multiset(out) == S.Devices(State())
    {
      out := S.ListValues(devices);
    }

    method Revoke(id: Bytes) returns (r: S.Result<()>)
      requires Valid()
      modifies this
      ensures Valid() && (State(), r) == S.Revoke(old(State()), id)
    {
      if id !in devices {
        return S.Err("not_enrolled");
      }
      devices := devices[id := devices[id].(revoked := true)];
      r := S.Ok(());
    }

    method MarkIssued(id: Bytes, epoch: uint64) returns (r: S.Result<uint64>)
      requires Valid()
      modifies this
      ensures Valid() && (State(), r) == S.MarkIssued(old(State()), id, epoch)
    {
      if id !in devices {
        return S.Err("not_enrolled");
      }
      var rec := devices[id];
      if rec.revoked {
        return S.Err("revoked");
      }
      if rec.issuedEpoch == epoch && rec.lastSerial != 0 {
        return S.Ok(rec.lastSerial);
      }
      serial := Succ64(serial);
      devices := devices[id := rec.(issuedEpoch := epoch, lastEpoch := epoch, lastSerial := serial)];
      r := S.Ok(serial);
    }

    /** The search visits the vouchers in no particular order and stops at the first match. */
    method RedeemVoucher(hash: Bytes, now: int) returns (r: S.Result<S.Voucher>, ghost found: Option<Bytes>)
      requires Valid()
      modifies this
      ensures Valid() && S.Finds(old(State()), hash, found)
      ensures (State(), r) == S.RedeemFound(old(State()), found, now)
    {
      var todo := vouchers.Keys;
      var hit: Option<Bytes> := None;
      while todo != {} && hit.None?
        invariant todo <= vouchers.Keys
        invariant hit.Some? ==> hit.value in vouchers && vouchers[hit.value].codeHash == hash
        invariant hit.None? ==> forall id :: id in vouchers && id !in todo ==> vouchers[id].codeHash != hash
        decreases |todo|
      {
        var id :| id in todo;
        todo := todo - {id};
        if vouchers[id].codeHash == hash {
          hit := Some(id);
        }
      }
      found := hit;
      if hit.None? {
        return S.Err("invalid_voucher"), found;
      }
      var v := vouchers[hit.value];
      if v.revoked {
        return S.Err("voucher_revoked"), found;
      }
      if v.expiresAt > 0 && now > v.expiresAt {
        return S.Err("voucher_expired"), found;
      }
      if v.maxUses > 0 && v.uses >= v.maxUses {
        return S.Err("voucher_exhausted"), found;
      }
      v := v.(uses := v.uses + 1);
      vouchers := vouchers[hit.value := v];
      r := S.Ok(v);
    }

    method AddVoucher(v: S.Voucher) returns (r: S.Result<()>)
      requires Valid()
      modifies this
      ensures Valid() && (State(), r) == S.AddVoucher(old(State()), v)
    {
      if v.id == [] {
        return S.Err("id required");
      }
      vouchers := vouchers[v.id := v];
      r := S.Ok(());
    }

    method ListVouchers() returns (out: seq<S.VoucherInfo>)
      requires Valid()
      ensures multiset(out) == S.Vouchers(State())
    {
      out := S.ListValues(S.Infos(vouchers));
      assert S.Infos(vouchers).Keys == vouchers.Keys;
    }

    method RevokeVoucher(id: Bytes) returns (r: S.Result<()>)
      requires Valid()
      modifies this
      ensures Valid() && (State(), r) == S.RevokeVoucher(old(State()), id)
    {
      if id !in vouchers {
        return S.Err("not_found");
      }
      vouchers := vouchers[id := vouchers[id].(revoked := true)];
      r := S.Ok(());
    }
  }
}
