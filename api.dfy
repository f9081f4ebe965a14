/** What each HTTP handler does to the database and which status it sends,
    stated as one transition of the database value. `fault` says that the
    store (or bcrypt) reported an error; the handler then sends 500. */
module Api {
  import opened Records

  /** The state after a request and the status sent. */
  datatype Outcome = Outcome(state: State, code: int)

  /** The status of a read-only request and, on 200, the rows sent back. */
  datatype Response<T> = Response(code: int, body: Option<T>)

  // ---------------------------------------------------------------------
  // Devices

  /** GET /devices */
  function ListDevices(t: State, fault: bool): (r: Response<map<int, Device>>)
    ensures r.code == (if fault then SERVER_ERROR else OK)
    ensures r.body.Some? <==> r.code == OK
    ensures r.code == OK ==> r.body.value == t.devices
  {
    if fault then Response(SERVER_ERROR, None) else Response(OK, Some(t.devices))
  }

  /** GET /devices/:id */
  function GetDevice(t: State, id: int, fault: bool): (r: Response<Device>)
    ensures fault ==> r.code == SERVER_ERROR
    ensures !fault ==> (r.code == OK <==> id in t.devices)
    ensures !fault && id !in t.devices ==> r.code == NOT_FOUND
    ensures r.body.Some? <==> r.code == OK
    ensures r.code == OK ==> id in t.devices && r.body.value == t.devices[id]
  {
    if fault then Response(SERVER_ERROR, None)
    else if id in t.devices then Response(OK, Some(t.devices[id]))
    else Response(NOT_FOUND, None)
  }

  /** POST /devices: insert under the next auto-increment id. */
  function CreateDevice(t: State, info: DeviceInfo, fault: bool): (r: Outcome)
    ensures fault ==> r == Outcome(t, SERVER_ERROR)
    ensures !fault ==> r.code == CREATED
    ensures r.code == CREATED ==>
      && t.nextDeviceId !in t.devices
      && r.state.devices.Keys == t.devices.Keys + {t.nextDeviceId}
      && r.state.devices[t.nextDeviceId] == Device(info, None, None)
      && (forall k :: k in t.devices ==> r.state.devices[k] == t.devices[k])
      && r.state.users == t.users
      && r.state.nextUserId == t.nextUserId
      && r.state.nextDeviceId > t.nextDeviceId
  {
    if fault then Outcome(t, SERVER_ERROR)
    else
      var id := t.nextDeviceId;
      Outcome(t.(devices := t.devices[id := Device(info, None, None)], nextDeviceId := id + 1), CREATED)
  }

  /** PUT /devices/:id */
  function UpdateDevice(t: State, id: int, info: DeviceInfo, fault: bool): (r: Outcome)
    ensures fault ==> r == Outcome(t, SERVER_ERROR)
    ensures !fault ==> (r.code == OK <==> id in t.devices)
    ensures !fault && id !in t.devices ==> r == Outcome(t, NOT_FOUND)
    ensures r.code == OK ==> UsersKept(t, r.state) && OnlyInfoChanged(t.devices, r.state.devices, id, info)
  {
    if fault then Outcome(t, SERVER_ERROR)
    else if id in t.devices then Outcome(t.(devices := t.devices[id := t.devices[id].(info := info)]), OK)
    else Outcome(t, NOT_FOUND)
  }

  /** DELETE /devices/:id */
  function DeleteDevice(t: State, id: int, fault: bool): (r: Outcome)
    ensures fault ==> r == Outcome(t, SERVER_ERROR)
    ensures !fault ==> (r.code == OK <==> id in t.devices)
    ensures !fault && id !in t.devices ==> r == Outcome(t, NOT_FOUND)
    ensures r.code == OK ==>
      && UsersKept(t, r.state)
      && r.state.devices.Keys == t.devices.Keys - {id}
      && (forall k :: k in r.state.devices ==> r.state.devices[k] == t.devices[k])
  {
    if fault then Outcome(t, SERVER_ERROR)
    else if id in t.devices then Outcome(t.(devices := t.devices - {id}), OK)
    else Outcome(t, NOT_FOUND)
  }

  /** POST /upload/:deviceId. `file` is the path multer stored the upload
      under; None when the request carried no file, so that `req.file.path`
      throws and Express answers 500 before the store is asked. */
  function UploadDeviceImage(t: State, id: int, file: Option<string>, fault: bool): (r: Outcome)
    ensures file.None? || fault ==> r == Outcome(t, SERVER_ERROR)
    ensures file.Some? && !fault ==> (r.code == OK <==> id in t.devices)
    ensures file.Some? && !fault && id !in t.devices ==> r == Outcome(t, NOT_FOUND)
    ensures r.code == OK ==>
      file.Some? && UsersKept(t, r.state) && OnlyDeviceImageChanged(t.devices, r.state.devices, id, file.value)
  {
    if file.None? || fault then Outcome(t, SERVER_ERROR)
    else if id in t.devices then
      Outcome(t.(devices := t.devices[id := t.devices[id].(imagePath := Some(file.value))]), OK)
    else Outcome(t, NOT_FOUND)
  }

  // ---------------------------------------------------------------------
  // Users

  /** POST /register. `digest` is what bcrypt.hash returned for the
      password (it is salted, so it is an input rather than a function). */
  function Register(t: State, username: Option<string>, password: Option<string>, email: Option<string>,
                    digest: string, fault: bool): (r: Outcome)
    ensures !(Present(username) && Present(password) && Present(email)) ==> r == Outcome(t, BAD_REQUEST)
    ensures Present(username) && Present(password) && Present(email) && fault ==> r == Outcome(t, SERVER_ERROR)
    ensures Present(username) && Present(password) && Present(email) && !fault ==> r.code == CREATED
    ensures r.code == CREATED ==>
      && t.nextUserId !in t.users
      && r.state.users.Keys == t.users.Keys + {t.nextUserId}
      && r.state.users[t.nextUserId] == User(username.value, digest, email.value, None)
      && (forall k :: k in t.users ==> r.state.users[k] == t.users[k])
      && r.state.devices == t.devices
      && r.state.nextDeviceId == t.nextDeviceId
      && r.state.nextUserId > t.nextUserId
  {
    if !(Present(username) && Present(password) && Present(email)) then Outcome(t, BAD_REQUEST)
    else if fault then Outcome(t, SERVER_ERROR)
    else
      var id := t.nextUserId;
      Outcome(t.(users := t.users[id := User(username.value, digest, email.value, None)], nextUserId := id + 1),
              CREATED)
  }

  /** GET /users. The rows are sent as stored, password digests included. */
  function ListUsers(t: State, fault: bool): (r: Response<map<int, User>>)
    ensures r.code == (if fault then SERVER_ERROR else OK)
    ensures r.body.Some? <==> r.code == OK
    ensures r.code == OK ==> r.body.value == t.users
    ensures r.code == OK ==> forall k :: k in t.users ==> r.body.value[k].passwordDigest == t.users[k].passwordDigest
  {
    if fault then Response(SERVER_ERROR, None) else Response(OK, Some(t.users))
  }

  // The lookups below compare usernames with `sameName(stored, given)`: the
  // equality of the `username` column's collation, which decides what
  // `WHERE username = ?` matches. MySQL's default collations ignore case
  // (and, depending on the version, trailing spaces or accents), so it is a
  // parameter rather than string equality.

  predicate HasUserNamed(users: map<int, User>, name: string, sameName: (string, string) -> bool) {
    exists k :: k in users && sameName(users[k].username, name)
  }

  /** `k` is the lowest id whose username matches `name`: the row MySQL
      returns first for `SELECT * FROM users WHERE username = ?` (a
      primary-key order scan, since `username` has no index). */
  predicate IsFirstUserNamed(users: map<int, User>, k: int, name: string, sameName: (string, string) -> bool) {
    && k in users
    && sameName(users[k].username, name)
    && (forall j :: j in users && j < k ==> !sameName(users[j].username, name))
  }

  /** Scans ids from..bound-1 upward for the first user whose name matches. */
  function FirstUserNamed(users: map<int, User>, name: string, sameName: (string, string) -> bool,
                          from: int, bound: int): (r: Option<int>)
    decreases bound - from
    ensures r.Some? ==>
      && from <= r.value < bound
      && r.value in users && sameName(users[r.value].username, name)
      && (forall j :: from <= j < r.value && j in users ==> !sameName(users[j].username, name))
    ensures r.None? ==> forall j :: from <= j < bound && j in users ==> !sameName(users[j].username, name)
  {
    if from >= bound then None
    else if from in users && sameName(users[from].username, name) then Some(from)
    else FirstUserNamed(users, name, sameName, from + 1, bound)
  }

  /** POST /login, with bcrypt.compare(plain, digest) as `compare`. */
  function Login(t: State, username: Option<string>, password: Option<string>,
                 compare: (string, string) -> bool, sameName: (string, string) -> bool, fault: bool): (code: int)
    ensures !(Present(username) && Present(password)) ==> code == BAD_REQUEST
    ensures Present(username) && Present(password) && fault ==> code == SERVER_ERROR
    ensures Present(username) && Present(password) && !fault ==>
      (code == NOT_FOUND <==> !HasUserNamed(t.users, username.value, sameName))
    ensures Present(username) && Present(password) && !fault ==>
      forall k :: IsFirstUserNamed(t.users, k, username.value, sameName) ==>
        code == (if compare(password.value, t.users[k].passwordDigest) then OK else UNAUTHORIZED)
  {
    if !(Present(username) && Present(password)) then BAD_REQUEST
    else if fault then SERVER_ERROR
    else
      match FirstUserNamed(t.users, username.value, sameName, 1, t.nextUserId)
      case None => NOT_FOUND
      case Some(k) => if compare(password.value, t.users[k].passwordDigest) then OK else UNAUTHORIZED
  }

  /** POST /upload-user-image/:userId */
  function UploadUserImage(t: State, id: int, file: Option<string>, fault: bool): (r: Outcome)
    ensures file.None? || fault ==> r == Outcome(t, SERVER_ERROR)
    ensures file.Some? && !fault ==> (r.code == OK <==> id in t.users)
    ensures file.Some? && !fault && id !in t.users ==> r == Outcome(t, NOT_FOUND)
    ensures r.code == OK ==>
      file.Some? && DevicesKept(t, r.state) && OnlyUserImageChanged(t.users, r.state.users, id, file.value)
  {
    if file.None? || fault then Outcome(t, SERVER_ERROR)
    else if id in t.users then
      Outcome(t.(users := t.users[id := t.users[id].(imagePath := Some(file.value))]), OK)
    else Outcome(t, NOT_FOUND)
  }

  // ---------------------------------------------------------------------
  // Assignment

  /** POST /devices/:id/checkout: allowed only from the available state. */
  function Checkout(t: State, id: int, userId: Option<int>, fault: bool): (r: Outcome)
    // a missing userId is refused before the store is asked
    ensures !GivenId(userId) ==> r == Outcome(t, BAD_REQUEST)
    ensures GivenId(userId) && fault ==> r == Outcome(t, SERVER_ERROR)
    ensures GivenId(userId) && !fault ==> (r.code == OK <==> Available(t, id))
    ensures GivenId(userId) && !fault && !Available(t, id) ==> r == Outcome(t, BAD_REQUEST)
    ensures r.code == OK ==>
      UsersKept(t, r.state) && OnlyHolderChanged(t.devices, r.state.devices, id, Some(userId.value))
    // a holder, once recorded, is never overwritten
    ensures forall k :: CheckedOut(t, k) ==> k in r.state.devices && r.state.devices[k] == t.devices[k]
  {
    if !GivenId(userId) then Outcome(t, BAD_REQUEST)
    else if fault then Outcome(t, SERVER_ERROR)
    else if Available(t, id) then
      Outcome(t.(devices := t.devices[id := t.devices[id].(holder := Some(userId.value))]), OK)
    else Outcome(t, BAD_REQUEST)
  }

  /** POST /devices/:id/checkin: allowed only from the checked-out state. */
  function Checkin(t: State, id: int, fault: bool): (r: Outcome)
    ensures fault ==> r == Outcome(t, SERVER_ERROR)
    ensures !fault ==> (r.code == OK <==> CheckedOut(t, id))
    ensures !fault && !CheckedOut(t, id) ==> r == Outcome(t, BAD_REQUEST)
    ensures r.code == OK ==> UsersKept(t, r.state) && OnlyHolderChanged(t.devices, r.state.devices, id, None)
  {
    if fault then Outcome(t, SERVER_ERROR)
    else if CheckedOut(t, id) then Outcome(t.(devices := t.devices[id := t.devices[id].(holder := None)]), OK)
    else Outcome(t, BAD_REQUEST)
  }

  /** GET /user/:userId/devices */
  function DevicesOfUser(t: State, userId: int, fault: bool): (r: Response<map<int, Device>>)
    ensures r.code == (if fault then SERVER_ERROR else OK)
    ensures r.body.Some? <==> r.code == OK
    ensures r.code == OK ==> forall k :: k in r.body.value <==> k in t.devices && t.devices[k].holder == Some(userId)
    ensures r.code == OK ==> forall k :: k in r.body.value ==> r.body.value[k] == t.devices[k]
  {
    if fault then Response(SERVER_ERROR, None)
    else Response(OK, Some(map k | k in t.devices && t.devices[k].holder == Some(userId) :: t.devices[k]))
  }
}
