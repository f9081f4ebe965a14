/** The rows of the two MySQL tables, the database as a value, and the
    response codes the handlers send. */
module Records {

  datatype Option<T> = None | Some(value: T)

  /** The four descriptive columns a client sends on create and on update. */
  datatype DeviceInfo = DeviceInfo(
    deviceName: string,
    description: string,
    serialNumber: string,
    manufacturer: string)

  /** A row of `devices`. `holder` is the `user_id` column: None (SQL NULL)
      means the device is available, Some(u) that it is checked out to u. */
  datatype Device = Device(info: DeviceInfo, imagePath: Option<string>, holder: Option<int>)

  /** A row of `users`. The `password` column holds the bcrypt digest. */
  datatype User = User(username: string, passwordDigest: string, email: string, imagePath: Option<string>)

  /** Both tables and their AUTO_INCREMENT counters. */
  datatype Tables = Tables(
    devices: map<int, Device>,
    users: map<int, User>,
    nextDeviceId: int,
    nextUserId: int)

  /** Auto-increment ids start at 1 and every id in a table is below that
      table's counter, so the counter's value is never in use. */
  predicate Consistent(t: Tables) {
    && 1 <= t.nextDeviceId
    && 1 <= t.nextUserId
    && (forall id :: id in t.devices ==> 1 <= id < t.nextDeviceId)
    && (forall id :: id in t.users ==> 1 <= id < t.nextUserId)
  }

  type State = t: Tables | Consistent(t) witness Tables(map[], map[], 1, 1)

  const OK: int := 200
  const CREATED: int := 201
  const BAD_REQUEST: int := 400
  const UNAUTHORIZED: int := 401
  const NOT_FOUND: int := 404
  const SERVER_ERROR: int := 500

  /** A text field of a JSON body passes the handler's `!field` test exactly
      when it is present and not the empty string. */
  predicate Present(field: Option<string>) {
    field.Some? && field.value != ""
  }

  /** A numeric `userId` passes `!userId` exactly when it is present and not 0. */
  predicate GivenId(field: Option<int>) {
    field.Some? && field.value != 0
  }

  predicate Available(t: Tables, id: int) {
    id in t.devices && t.devices[id].holder.None?
  }

  predicate CheckedOut(t: Tables, id: int) {
    id in t.devices && t.devices[id].holder.Some?
  }

  /** `after` differs from `before` in no row but `id`, and in that row only
      in the `user_id` column, which now holds `h`. */
  predicate OnlyHolderChanged(before: map<int, Device>, after: map<int, Device>, id: int, h: Option<int>) {
    && id in before
    && after.Keys == before.Keys
    && after[id].info == before[id].info
    && after[id].imagePath == before[id].imagePath
    && after[id].holder == h
    && (forall k :: k in before && k != id ==> after[k] == before[k])
  }

  /** Only the four descriptive columns of row `id` changed, to `info`. */
  predicate OnlyInfoChanged(before: map<int, Device>, after: map<int, Device>, id: int, info: DeviceInfo) {
    && id in before
    && after.Keys == before.Keys
    && after[id].info == info
    && after[id].imagePath == before[id].imagePath
    && after[id].holder == before[id].holder
    && (forall k :: k in before && k != id ==> after[k] == before[k])
  }

  /** Only `image_path` of device `id` changed, to `path`. */
  predicate OnlyDeviceImageChanged(before: map<int, Device>, after: map<int, Device>, id: int, path: string) {
    && id in before
    && after.Keys == before.Keys
    && after[id].info == before[id].info
    && after[id].imagePath == Some(path)
    && after[id].holder == before[id].holder
    && (forall k :: k in before && k != id ==> after[k] == before[k])
  }

  /** Only `image_path` of user `id` changed, to `path`. */
  predicate OnlyUserImageChanged(before: map<int, User>, after: map<int, User>, id: int, path: string) {
    && id in before
    && after.Keys == before.Keys
    && after[id].username == before[id].username
    && after[id].passwordDigest == before[id].passwordDigest
    && after[id].email == before[id].email
    && after[id].imagePath == Some(path)
    && (forall k :: k in before && k != id ==> after[k] == before[k])
  }

  /** The users table and both counters are as they were. */
  predicate UsersKept(t: Tables, t': Tables) {
    t'.users == t.users && t'.nextDeviceId == t.nextDeviceId && t'.nextUserId == t.nextUserId
  }

  /** The devices table and both counters are as they were. */
  predicate DevicesKept(t: Tables, t': Tables) {
    t'.devices == t.devices && t'.nextDeviceId == t.nextDeviceId && t'.nextUserId == t.nextUserId
  }
}
