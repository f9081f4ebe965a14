# Device inventory: tables, handlers and the checkout state machine

This project models the REST server of a small device-inventory service
(`index.js`). The server keeps devices and users in two MySQL tables. Devices
can be created, read, updated, deleted and given an image; users register,
log in and get an image. A device is *checked out* to a user and later *checked
in*. The `user_id` column of a device holds the user who has it. NULL means
the device is available.

The model has six modules:

- `Records` (records.dfy): the rows, the database value `Tables` and its
  invariant `Consistent`. Every id is at least 1 and below its table's
  auto-increment counter. `State` is the type of consistent databases. The
  module also defines the status codes and the JavaScript truthiness tests
  the handlers apply to request fields (`Present`, `GivenId`).
- `Sql` (sql.dfy): each UPDATE and DELETE statement the handlers issue, as a
  function. It returns the new table and the driver's `affectedRows`, the
  number of rows the WHERE clause matched.
- `Api` (api.dfy): every handler as one transition of the database value,
  with the status it sends. These functions are the specification.
- `Store` (store.dfy): class `DeviceStore`. It holds the two tables and the
  two counters as fields. Each mutating handler is a method. The method
  issues the handler's statements in the handler's order: for checkout, the
  conditional UPDATE and then the redundant second UPDATE; for check-in, the
  SELECT and then the UPDATE. Each method is proved to have exactly the
  effect of the matching `Api` function.
- `Trace` (trace.dfy): runs of requests handled one after another. It proves
  that a device never has two holders: between two successful checkouts of
  one device, some check-in of that device succeeded.
- `Properties` (properties.dfy): lemmas that relate handlers to each other.
  They cover the register/login round trip, check-in undoing checkout,
  commuting updates and create/read/delete.

The environment enters as inputs:

- `fault` stands for the `error` argument of a query callback, or a
  rejected `bcrypt.hash`. The handler then answers 500 and changes nothing.
- `digest` is bcrypt's salted hash of the password.
- `compare` stands for `bcrypt.compare`.
- `sameName(stored, given)` is the equality of the `username` column's
  collation, which decides the rows `WHERE username = ?` matches. MySQL's
  default collations ignore case, and depending on the version trailing
  spaces or accents, so this is a parameter rather than string equality.
- `file` is the path multer stored the upload under. It is `None` when the
  request has no file. Then `req.file.path` throws and Express answers 500.

Where the intended design and the code differ, the model follows the code:

- Checkout refuses a `userId` of 0 as well as a missing one, because the code
  tests `!userId`.
- Neither checkout nor anything else checks that the holder is an existing
  user. The "holder references an existing user" invariant is therefore not
  a property of this code, and it is not claimed.
- Login answers with a status only. It does not return the user record.

## Model

| member | source | states |
|---|---|---|
| `Sql.SetHolderIfFree` | index.js:233-241 | matches (affected = 1) exactly when the row exists with a NULL holder; then only that row's `user_id` changes, to the user; otherwise the table is unchanged |
| `Sql.SetHolder` | index.js:244-252 | matches exactly when the row exists and changes only its `user_id`; writing the holder the row already has leaves the table unchanged (the second write after checkout is idempotent) |
| `Sql.ClearHolder` | index.js:274-282 | matches exactly when the row exists; only that row's `user_id` becomes NULL |
| `Sql.SetInfo` | index.js:66-73 | matches exactly when the row exists; only its four descriptive columns change, to the given values |
| `Sql.SetDeviceImage` | index.js:111-116 | matches exactly when the device exists; only its `image_path` changes |
| `Sql.SetUserImage` | index.js:299-304 | matches exactly when the user exists; only its `image_path` changes |
| `Sql.DeleteRow` | index.js:83-88 | matches exactly when the row exists; the row set loses exactly that id and every other row is unchanged |
| `Api.ListDevices` | index.js:25-33 | 500 on a store error, otherwise 200 with every device row |
| `Api.GetDevice` | index.js:35-48 | 500 on a store error; 200 with the row exactly when the id exists; otherwise 404 |
| `Api.CreateDevice` | index.js:50-61 | 500 and nothing changed on a store error; otherwise 201: a row under the counter's id (not previously in use), with no image and no holder; the other rows and the users are unchanged and the counter advances |
| `Api.UpdateDevice` | index.js:63-79 | 500 on a store error; 404 with the state unchanged for a missing id; otherwise 200, and only the four descriptive columns of that row change (image and holder are kept) |
| `Api.DeleteDevice` | index.js:81-94 | 500 on a store error; 404 with the state unchanged for a missing id; otherwise 200 and exactly that row is removed |
| `Api.UploadDeviceImage` | index.js:108-122 | 500 with nothing changed when there is no file or the store fails; 404 unchanged for a missing device; otherwise 200 and only that device's `image_path` is set |
| `Api.Register` | index.js:161-182 | 400 with nothing inserted when username, password or email is missing or empty; 500 unchanged on a hash or store error; otherwise 201 and one new user under a fresh id, holding the digest, with no image; nothing else changes |
| `Api.ListUsers` | index.js:184-192 | 500 on a store error, otherwise 200 with every user row, password digests included |
| `Api.FirstUserNamed` | index.js:200-209 | returns the lowest id in the range whose username matches the given name under the collation's `sameName` (the row answered first), or none when no id in the range matches |
| `Api.Login` | index.js:194-221 | 400 when username or password is missing or empty; 500 on a store error; 404 exactly when no username matches under the collation; otherwise 200 or 401 according to `compare` of the password against the digest of the lowest-id matching user |
| `Api.UploadUserImage` | index.js:295-310 | 500 with nothing changed when there is no file or the store fails; 404 unchanged for a missing user; otherwise 200 and only that user's `image_path` is set |
| `Api.Checkout` | index.js:225-258 | a missing or zero `userId` gives 400 with both tables unchanged, before the store is asked; 500 unchanged on a store error; otherwise 200 exactly when the device exists and is available, and then only its `user_id` changes, to the user; otherwise 400 unchanged; an existing holder is never overwritten |
| `Api.Checkin` | index.js:260-293 | 500 unchanged on a store error; 200 exactly when the device exists and has a holder, and then only its `user_id` becomes NULL; otherwise 400 unchanged |
| `Api.DevicesOfUser` | index.js:330-340 | 500 on a store error; otherwise 200 with exactly the devices whose `user_id` is the given user, as stored |
| `Store.DeviceStore.constructor` | index.js:16-23 | the store starts with both tables empty and both counters at 1 |
| `Store.DeviceStore.CreateDevice` | index.js:50-61 | the INSERT has the effect and status of `Api.CreateDevice`; the returned id is the old counter value, now a row |
| `Store.DeviceStore.UpdateDevice` | index.js:63-79 | the UPDATE and its `affectedRows` test have the effect and status of `Api.UpdateDevice` |
| `Store.DeviceStore.DeleteDevice` | index.js:81-94 | the DELETE and its `affectedRows` test have the effect and status of `Api.DeleteDevice` |
| `Store.DeviceStore.UploadDeviceImage` | index.js:108-122 | the file check, the UPDATE and its `affectedRows` test have the effect and status of `Api.UploadDeviceImage` |
| `Store.DeviceStore.Register` | index.js:161-182 | validation, hashing and INSERT have the effect and status of `Api.Register`; the returned id is the new user's |
| `Store.DeviceStore.UploadUserImage` | index.js:295-310 | the file check, the UPDATE and its `affectedRows` test have the effect and status of `Api.UploadUserImage` |
| `Store.DeviceStore.Checkout` | index.js:225-258 | the conditional UPDATE followed by the second, unconditional UPDATE leaves the state `Api.Checkout` states, which has a single write, so the second write changes nothing |
| `Store.DeviceStore.Checkin` | index.js:260-293 | the SELECT, then the UPDATE and its `affectedRows` test, have the effect and status of `Api.Checkin` |
| `Store.CheckoutScenario` | index.js:225-293 | create a device, check it out to 42, refuse 99, check it in, check it out to 99: statuses 201, 200, 400, 200, 200, and the holder after each step |
| `Trace.StepKeepsHold` | index.js:225-293 | any one request keeps a checked-out (or deleted) device so unless it is a successful check-in of it, and a checkout of it never succeeds |
| `Trace.HoldPersists` | index.js:233-243 | from a checked-out device, while no check-in of it succeeds, no checkout of it succeeds, whatever other requests come between |
| `Trace.AtMostOneHolder` | index.js:233-243 | between two successful checkouts of one device in any run, some check-in of that device succeeded |
| `Properties.RegisterThenLogin` | index.js:161-221 | after registering a username that no existing username matches under the collation, login with it gives 200 or 401 exactly as `compare` judges the attempt against the new digest |
| `Properties.DuplicateUsernameShadowed` | index.js:170-209 | registering a username that an existing username already matches under the collation (e.g. differing only in case) does not change what login answers for it: login keeps using the earliest matching user |
| `Properties.CheckinUndoesCheckout` | index.js:233-289 | checking out an available device and then checking it in restores the original state, with statuses 200 and 200 |
| `Properties.SecondCheckoutRefused` | index.js:233-255 | two checkouts of an available device in a row: the first succeeds, the second gets 400 with nothing changed, and the first user keeps it |
| `Properties.CheckinOfAvailableRefused` | index.js:271-272 | check-in of a device that is missing or available gives 400 and changes nothing |
| `Properties.UpdateCommutesWithCheckin` | index.js:63-79 | update and check-in of a checked-out device give the same state in either order (disjoint columns) |
| `Properties.CheckoutListedForUser` | index.js:330-340 | after a checkout the device is in its user's list; after the check-in it is in no user's list |
| `Properties.CreateGetDelete` | index.js:35-94 | a created device reads back under its new id as available with no image; after deleting it, reading it gives 404 |

## Left out

- Express routing, JSON body parsing, static serving of `uploads/` and the API documentation page (index.js:11-14, 124, 342-347): framework plumbing.
- The MySQL connection (index.js:16-23) and the content of store errors: every error is the `fault` input, answered by 500 with nothing changed. The model covers only an error in a handler's first statement. A later error has the same visible result. In check-in, an error in the UPDATE gives 500 with nothing changed. In checkout, an error in the second UPDATE is only logged, and the first write already made the state final.
- bcrypt (index.js:169, 210): the hash is the input `digest`, since bcrypt salts it at random. The comparison is the opaque `compare`. The model does not cover `compare` rejecting. That rejection escapes the `async` query callback unhandled (index.js:203, 210). Since Node 15 an unhandled rejection ends the whole server process by default, not just the request.
- multer's disk storage and its `Date.now()` file names (index.js:97-106): the stored path is the input `file`. A file written for a device or user that does not exist stays on disk; the model does not represent the disk.
- GET /device-image/:deviceId and GET /user-image/:userId (index.js:126-157, 312-328): they only present a stored path as HTML or send the file.
- Concurrency: each request is one atomic step and runs of requests are sequential. The model does not cover the window between check-in's SELECT and its UPDATE, or the row-level atomicity that decides between simultaneous checkouts.
- Response bodies and message strings: only status codes and state are modelled.
- `Api.ListDevices`, `Api.ListUsers`, `Api.DevicesOfUser`: rows come back keyed by id. The order of the JSON array is not modelled, because the queries have no ORDER BY.
- `Api.FirstUserNamed`: the first row of the login query is taken to be the one with the lowest id. InnoDB returns rows in primary-key order when there is no index on `username`, but no SQL standard promises this.
- Values in the request: ids are unbounded integers. The model does not cover MySQL converting a URL parameter such as `7abc` to the number 7. It also does not cover body fields of other JSON types, or descriptive fields missing from the body (bound as NULL); the table's nullability is not known here, and a rejected insert is the `fault` path.
- An AUTO_INCREMENT value used up by a failed insert is not modelled; the counter moves only on success.
- Unique usernames and serial numbers are not enforced by the code, so they are not assumed. `Properties.DuplicateUsernameShadowed` states what that means for login.
