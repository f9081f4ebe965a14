/** The database as the server mutates it: one object holding both tables
    and their counters, with one method per mutating handler. Each method
    issues the handler's statements in the handler's order and is proved to
    have the effect the matching Api transition states. */
module Store {
  import opened Records
  import Sql
  import Api

  class DeviceStore {
    var devices: map<int, Device>
    var users: map<int, User>
    var nextDeviceId: int
    var nextUserId: int

    ghost predicate Valid()
      reads this
    {
      Consistent(Tables(devices, users, nextDeviceId, nextUserId))
    }

    /** The database as a value. */
    ghost function Snapshot(): State
      reads this
      requires Valid()
    {
      Tables(devices, users, nextDeviceId, nextUserId)
    }

    constructor ()
      ensures Valid()
      ensures Snapshot() == Tables(map[], map[], 1, 1)
    {
      devices, users := map[], map[];
      nextDeviceId, nextUserId := 1, 1;
    }

    /** POST /devices: an INSERT; `id` is the driver's insertId. */
    method CreateDevice(info: DeviceInfo, fault: bool) returns (code: int, id: Option<int>)
      requires Valid()
      modifies this
      ensures Valid()
      ensures Snapshot() == Api.CreateDevice(old(Snapshot()), info, fault).state
      ensures code == Api.CreateDevice(old(Snapshot()), info, fault).code
      ensures id.Some? <==> code == CREATED
      ensures id.Some? ==> id.value == old(nextDeviceId) && id.value in devices
    {
      if fault {
        return SERVER_ERROR, None;
      }
      var newId := nextDeviceId;
      devices := devices[newId := Device(info, None, None)];
      nextDeviceId := newId + 1;
      code, id := CREATED, Some(newId);
    }

    /** PUT /devices/:id */
    method UpdateDevice(id: int, info: DeviceInfo, fault: bool) returns (code: int)
      requires Valid()
      modifies this
      ensures Valid()
      ensures Snapshot() == Api.UpdateDevice(old(Snapshot()), id, info, fault).state
      ensures code == Api.UpdateDevice(old(Snapshot()), id, info, fault).code
    {
      if fault {
        return SERVER_ERROR;
      }
      var w := Sql.SetInfo(devices, id, info);
      devices := w.rows;
      code := if w.affected > 0 then OK else NOT_FOUND;
    }

    /** DELETE /devices/:id */
    method DeleteDevice(id: int, fault: bool) returns (code: int)
      requires Valid()
      modifies this
      ensures Valid()
      ensures Snapshot() == Api.DeleteDevice(old(Snapshot()), id, fault).state
      ensures code == Api.DeleteDevice(old(Snapshot()), id, fault).code
    {
      if fault {
        return SERVER_ERROR;
      }
      var w := Sql.DeleteRow(devices, id);
      devices := w.rows;
      code := if w.affected > 0 then OK else NOT_FOUND;
    }

    /** POST /upload/:deviceId */
    method UploadDeviceImage(id: int, file: Option<string>, fault: bool) returns (code: int)
      requires Valid()
      modifies this
      ensures Valid()
      ensures Snapshot() == Api.UploadDeviceImage(old(Snapshot()), id, file, fault).state
      ensures code == Api.UploadDeviceImage(old(Snapshot()), id, file, fault).code
    {
      if file.None? || fault {
        return SERVER_ERROR;
      }
      var w := Sql.SetDeviceImage(devices, id, file.value);
      devices := w.rows;
      code := if w.affected > 0 then OK else NOT_FOUND;
    }

    /** POST /register: validate, hash (its result is `digest`), INSERT. */
    method Register(username: Option<string>, password: Option<string>, email: Option<string>,
                    digest: string, fault: bool) returns (code: int, id: Option<int>)
      requires Valid()
      modifies this
      ensures Valid()
      ensures Snapshot() == Api.Register(old(Snapshot()), username, password, email, digest, fault).state
      ensures code == Api.Register(old(Snapshot()), username, password, email, digest, fault).code
      ensures id.Some? <==> code == CREATED
      ensures id.Some? ==> id.value == old(nextUserId) && id.value in users
    {
      if !Present(username) || !Present(password) || !Present(email) {
        return BAD_REQUEST, None;
      }
      if fault {
        return SERVER_ERROR, None;
      }
      var newId := nextUserId;
      users := users[newId := User(username.value, digest, email.value, None)];
      nextUserId := newId + 1;
      code, id := CREATED, Some(newId);
    }

    /** POST /upload-user-image/:userId */
    method UploadUserImage(id: int, file: Option<string>, fault: bool) returns (code: int)
      requires Valid()
      modifies this
      ensures Valid()
      ensures Snapshot() == Api.UploadUserImage(old(Snapshot()), id, file, fault).state
      ensures code == Api.UploadUserImage(old(Snapshot()), id, file, fault).code
    {
      if file.None? || fault {
        return SERVER_ERROR;
      }
      var w := Sql.SetUserImage(users, id, file.value);
      users := w.rows;
      code := if w.affected > 0 then OK else NOT_FOUND;
    }

    /** POST /devices/:id/checkout: the conditional UPDATE, and after a
        success the handler's second, unconditional UPDATE of the same
        holder (whose own error is only logged). */
    method Checkout(id: int, userId: Option<int>, fault: bool) returns (code: int)
      requires Valid()
      modifies this
      ensures Valid()
      ensures Snapshot() == Api.Checkout(old(Snapshot()), id, userId, fault).state
      ensures code == Api.Checkout(old(Snapshot()), id, userId, fault).code
    {
      if !GivenId(userId) {
        return BAD_REQUEST;
      }
      if fault {
        return SERVER_ERROR;
      }
      var w := Sql.SetHolderIfFree(devices, id, userId.value);
      devices := w.rows;
      if w.affected > 0 {
        code := OK;
        var again := Sql.SetHolder(devices, id, userId.value);
        devices := again.rows;
      } else {
        code := BAD_REQUEST;
      }
    }

    /** POST /devices/:id/checkin: SELECT the holder, then, when there is
        one, an unconditional UPDATE that clears it. */
    method Checkin(id: int, fault: bool) returns (code: int)
      requires Valid()
      modifies this
      ensures Valid()
      ensures Snapshot() == Api.Checkin(old(Snapshot()), id, fault).state
      ensures code == Api.Checkin(old(Snapshot()), id, fault).code
    {
      if fault {
        return SERVER_ERROR;
      }
      if id !in devices || devices[id].holder.None? {
        return BAD_REQUEST;
      }
      var w := Sql.ClearHolder(devices, id);
      devices := w.rows;
      code := if w.affected > 0 then OK else BAD_REQUEST;
    }
  }

  /** The walk-through of a device's life: create it, check it out to 42,
      refuse 99, check it in, check it out to 99. */
  method CheckoutScenario() returns (codes: seq<int>, holders: seq<Option<int>>)
    ensures codes == [CREATED, OK, BAD_REQUEST, OK, OK]
    ensures holders == [None, Some(42), Some(42), None, Some(99)]
  {
    var store := new DeviceStore();
    var created, id := store.CreateDevice(DeviceInfo("Laptop-1", "", "SN1", ""), false);
    var d := id.value;
    holders := [store.devices[d].holder];
    var first := store.Checkout(d, Some(42), false);
    holders := holders + [store.devices[d].holder];
    var second := store.Checkout(d, Some(99), false);
    holders := holders + [store.devices[d].holder];
    var back := store.Checkin(d, false);
    holders := holders + [store.devices[d].holder];
    var third := store.Checkout(d, Some(99), false);
    holders := holders + [store.devices[d].holder];
    codes := [created, first, second, back, third];
  }
}
