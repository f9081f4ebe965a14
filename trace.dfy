/** Requests handled one after another, and what holds of every such run:
    a device that is checked out stays checked out (or deleted) until a
    check-in of it succeeds, so no two checkouts of it succeed in between. */
module Trace {
  import opened Records
  import Api

  /** One HTTP request together with what the environment answers it with:
      `fault` for a store error, `digest` for bcrypt's hash, `file` for the
      path multer wrote the upload to. `compare` is bcrypt.compare and
      `sameName` the username collation's equality. */
  datatype Request =
    | ListDevices(fault: bool)
    | GetDevice(id: int, fault: bool)
    | CreateDevice(info: DeviceInfo, fault: bool)
    | UpdateDevice(id: int, info: DeviceInfo, fault: bool)
    | DeleteDevice(id: int, fault: bool)
    | UploadDeviceImage(id: int, file: Option<string>, fault: bool)
    | Register(username: Option<string>, password: Option<string>, email: Option<string>, digest: string, fault: bool)
    | ListUsers(fault: bool)
    | Login(username: Option<string>, password: Option<string>, fault: bool)
    | Checkout(id: int, userId: Option<int>, fault: bool)
    | Checkin(id: int, fault: bool)
    | UploadUserImage(id: int, file: Option<string>, fault: bool)
    | DevicesOfUser(holder: int, fault: bool)

  /** The route the request reaches. */
  function Step(t: State, req: Request, compare: (string, string) -> bool, sameName: (string, string) -> bool): Api.Outcome {
    match req
    case ListDevices(fault) => Api.Outcome(t, Api.ListDevices(t, fault).code)
    case GetDevice(id, fault) => Api.Outcome(t, Api.GetDevice(t, id, fault).code)
    case CreateDevice(info, fault) => Api.CreateDevice(t, info, fault)
    case UpdateDevice(id, info, fault) => Api.UpdateDevice(t, id, info, fault)
    case DeleteDevice(id, fault) => Api.DeleteDevice(t, id, fault)
    case UploadDeviceImage(id, file, fault) => Api.UploadDeviceImage(t, id, file, fault)
    case Register(u, p, e, digest, fault) => Api.Register(t, u, p, e, digest, fault)
    case ListUsers(fault) => Api.Outcome(t, Api.ListUsers(t, fault).code)
    case Login(u, p, fault) => Api.Outcome(t, Api.Login(t, u, p, compare, sameName, fault))
    case Checkout(id, userId, fault) => Api.Checkout(t, id, userId, fault)
    case Checkin(id, fault) => Api.Checkin(t, id, fault)
    case UploadUserImage(id, file, fault) => Api.UploadUserImage(t, id, file, fault)
    case DevicesOfUser(holder, fault) => Api.Outcome(t, Api.DevicesOfUser(t, holder, fault).code)
  }

  datatype Run = Run(codes: seq<int>, final: State)

  /** The statuses of a sequence of requests handled in order from `t`. */
  function Execute(t: State, reqs: seq<Request>, compare: (string, string) -> bool, sameName: (string, string) -> bool): (r: Run)
    decreases |reqs|
    ensures |r.codes| == |reqs|
  {
    if reqs == [] then Run([], t)
    else
      var o := Step(t, reqs[0], compare, sameName);
      var rest := Execute(o.state, reqs[1..], compare, sameName);
      Run([o.code] + rest.codes, rest.final)
  }

  /** The state before request `i` of a run. */
  function Before(t: State, reqs: seq<Request>, i: nat, compare: (string, string) -> bool, sameName: (string, string) -> bool): State
    requires i <= |reqs|
  {
    Execute(t, reqs[..i], compare, sameName).final
  }

  predicate IsCheckoutOf(req: Request, id: int) {
    req.Checkout? && req.id == id
  }

  predicate IsCheckinOf(req: Request, id: int) {
    req.Checkin? && req.id == id
  }

  /** The device is checked out, or it was deleted: its id is below the
      counter but no longer a row, so no insert can bring it back. */
  predicate HeldOrRetired(t: State, id: int) {
    CheckedOut(t, id) || (id !in t.devices && id < t.nextDeviceId)
  }

  /** Request `i` of the run answered with status `code` from the state
      `Before(t, reqs, i)`, and the rest of the run continues from there. */
  lemma {:induction false} ExecuteAt(t: State, reqs: seq<Request>, i: nat, compare: (string, string) -> bool, sameName: (string, string) -> bool)
    requires i < |reqs|
    decreases i
    ensures Execute(t, reqs, compare, sameName).codes[i] == Step(Before(t, reqs, i, compare, sameName), reqs[i], compare, sameName).code
    ensures Execute(t, reqs, compare, sameName).codes[i + 1..]
         == Execute(Step(Before(t, reqs, i, compare, sameName), reqs[i], compare, sameName).state, reqs[i + 1..], compare, sameName).codes
  {
    if i > 0 {
      var o := Step(t, reqs[0], compare, sameName);
      assert reqs[1..][..i - 1] == reqs[..i][1..];
      assert reqs[1..][i - 1..] == reqs[i..];
      assert reqs[1..][i..] == reqs[i + 1..];
      assert Before(o.state, reqs[1..], i - 1, compare, sameName) == Before(t, reqs, i, compare, sameName);
      ExecuteAt(o.state, reqs[1..], i - 1, compare, sameName);
    } else {
      assert reqs[..0] == [];
    }
  }

  /** A single request keeps a held or retired device so, unless it is a
      check-in of that device that succeeds; a checkout of it never succeeds. */
  lemma StepKeepsHold(t: State, req: Request, compare: (string, string) -> bool, sameName: (string, string) -> bool, id: int)
    requires HeldOrRetired(t, id)
    requires !(IsCheckinOf(req, id) && Step(t, req, compare, sameName).code == OK)
    ensures HeldOrRetired(Step(t, req, compare, sameName).state, id)
    ensures IsCheckoutOf(req, id) ==> Step(t, req, compare, sameName).code != OK
  {
  }

  /** From a state where the device is held (or retired), as long as no
      check-in of it succeeds among the first `n` requests, none of the
      first `n` requests is a successful checkout of it. */
  lemma {:induction false} HoldPersists(t: State, reqs: seq<Request>, compare: (string, string) -> bool, sameName: (string, string) -> bool, id: int, n: nat)
    requires n <= |reqs|
    decreases n
    requires HeldOrRetired(t, id)
    requires forall k :: 0 <= k < n && IsCheckinOf(reqs[k], id) ==> Execute(t, reqs, compare, sameName).codes[k] != OK
    ensures forall k :: 0 <= k < n && IsCheckoutOf(reqs[k], id) ==> Execute(t, reqs, compare, sameName).codes[k] != OK
  {
    if n > 0 {
      var o := Step(t, reqs[0], compare, sameName);
      var codes := Execute(t, reqs, compare, sameName).codes;
      var rest := Execute(o.state, reqs[1..], compare, sameName).codes;
      assert codes == [o.code] + rest;
      StepKeepsHold(t, reqs[0], compare, sameName, id);
      forall k | 0 <= k < n - 1 && IsCheckinOf(reqs[1..][k], id)
        ensures rest[k] != OK
      {
        assert codes[k + 1] == rest[k];
      }
      HoldPersists(o.state, reqs[1..], compare, sameName, id, n - 1);
      forall k | 0 <= k < n && IsCheckoutOf(reqs[k], id)
        ensures codes[k] != OK
      {
        if k > 0 {
          assert reqs[1..][k - 1] == reqs[k];
          assert codes[k] == rest[k - 1];
        }
      }
    }
  }

  /** Between two successful checkouts of the same device some check-in of
      that device succeeded: a device never has two holders at once. */
  lemma AtMostOneHolder(t: State, reqs: seq<Request>, compare: (string, string) -> bool, sameName: (string, string) -> bool, id: int, i: nat, j: nat)
    requires i < j < |reqs|
    requires IsCheckoutOf(reqs[i], id) && IsCheckoutOf(reqs[j], id)
    requires Execute(t, reqs, compare, sameName).codes[i] == OK
    ensures Execute(t, reqs, compare, sameName).codes[j] == OK ==>
      exists k :: i < k < j && IsCheckinOf(reqs[k], id) && Execute(t, reqs, compare, sameName).codes[k] == OK
  {
    var codes := Execute(t, reqs, compare, sameName).codes;
    ExecuteAt(t, reqs, i, compare, sameName);
    var pre := Before(t, reqs, i, compare, sameName);
    var post := Step(pre, reqs[i], compare, sameName).state;
    assert CheckedOut(post, id);
    var suffix := reqs[i + 1..];
    var later := Execute(post, suffix, compare, sameName).codes;
    assert later == codes[i + 1..];
    if forall k :: i < k < j && IsCheckinOf(reqs[k], id) ==> codes[k] != OK {
      forall m | 0 <= m < j - i && IsCheckinOf(suffix[m], id)
        ensures later[m] != OK
      {
        assert suffix[m] == reqs[i + 1 + m];
        assert later[m] == codes[i + 1 + m];
      }
      HoldPersists(post, suffix, compare, sameName, id, j - i);
      assert suffix[j - i - 1] == reqs[j];
      assert later[j - i - 1] == codes[j];
    }
  }
}
