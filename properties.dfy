/** Properties that relate several handlers to one another. */
module Properties {
  import opened Records
  import Api

  /** A registration followed by a login with the same username: login
      consults the new user's digest, so it succeeds exactly when bcrypt
      accepts the password against it, provided no existing username matches
      the new one under the column's collation (which matches a name with
      itself). */
  lemma RegisterThenLogin(t: State, username: string, password: string, email: string, digest: string,
                          attempt: string, compare: (string, string) -> bool, sameName: (string, string) -> bool)
    requires username != "" && password != "" && email != "" && attempt != ""
    requires sameName(username, username)
    requires !Api.HasUserNamed(t.users, username, sameName)
    ensures Api.Register(t, Some(username), Some(password), Some(email), digest, false).code == CREATED
    ensures Api.Login(Api.Register(t, Some(username), Some(password), Some(email), digest, false).state,
                      Some(username), Some(attempt), compare, sameName, false)
         == (if compare(attempt, digest) then OK else UNAUTHORIZED)
  {
  }

  /** Usernames are not unique: when an existing username already matches
      (for instance differing only in case under a case-insensitive
      collation), a new registration under it is invisible to login, which
      keeps checking the password against the earliest matching user. */
  lemma DuplicateUsernameShadowed(t: State, username: string, password: string, email: string, digest: string,
                                  attempt: string, compare: (string, string) -> bool, sameName: (string, string) -> bool)
    requires username != "" && password != "" && email != "" && attempt != ""
    requires Api.HasUserNamed(t.users, username, sameName)
    ensures Api.Login(Api.Register(t, Some(username), Some(password), Some(email), digest, false).state,
                      Some(username), Some(attempt), compare, sameName, false)
         == Api.Login(t, Some(username), Some(attempt), compare, sameName, false)
  {
  }

  /** Check-in undoes checkout: from an available device, a successful
      checkout followed by a check-in gives back the state it started from. */
  lemma CheckinUndoesCheckout(t: State, id: int, user: int)
    requires Available(t, id) && user != 0
    ensures Api.Checkout(t, id, Some(user), false).code == OK
    ensures Api.Checkin(Api.Checkout(t, id, Some(user), false).state, id, false) == Api.Outcome(t, OK)
  {
  }

  /** Two checkouts of one available device in a row: the first wins, the
      second is refused and the device stays with the first user. */
  lemma SecondCheckoutRefused(t: State, id: int, first: int, second: int)
    requires Available(t, id) && first != 0 && second != 0
    ensures Api.Checkout(t, id, Some(first), false).code == OK
    ensures Api.Checkout(Api.Checkout(t, id, Some(first), false).state, id, Some(second), false)
         == Api.Outcome(Api.Checkout(t, id, Some(first), false).state, BAD_REQUEST)
    ensures Api.Checkout(t, id, Some(first), false).state.devices[id].holder == Some(first)
  {
  }

  /** Check-in of a device that is not checked out is refused and changes nothing. */
  lemma CheckinOfAvailableRefused(t: State, id: int)
    requires !CheckedOut(t, id)
    ensures Api.Checkin(t, id, false) == Api.Outcome(t, BAD_REQUEST)
  {
  }

  /** Update and check-in touch disjoint columns, so either order of the two
      leaves the same state. */
  lemma UpdateCommutesWithCheckin(t: State, id: int, info: DeviceInfo)
    requires CheckedOut(t, id)
    ensures Api.Checkin(Api.UpdateDevice(t, id, info, false).state, id, false).state
         == Api.UpdateDevice(Api.Checkin(t, id, false).state, id, info, false).state
  {
  }

  /** A successful checkout puts the device in the user's list; the
      following check-in takes it out of every user's list. */
  lemma CheckoutListedForUser(t: State, id: int, user: int, other: int)
    requires Available(t, id) && user != 0
    ensures id in Api.DevicesOfUser(Api.Checkout(t, id, Some(user), false).state, user, false).body.value
    ensures id !in Api.DevicesOfUser(Api.Checkin(Api.Checkout(t, id, Some(user), false).state, id, false).state,
                                     other, false).body.value
  {
  }

  /** A created device can be read back under the id it was given, as
      available and without an image; once deleted it is not found. */
  lemma CreateGetDelete(t: State, info: DeviceInfo)
    ensures Api.GetDevice(Api.CreateDevice(t, info, false).state, t.nextDeviceId, false)
         == Api.Response(OK, Some(Device(info, None, None)))
    ensures Api.GetDevice(Api.DeleteDevice(Api.CreateDevice(t, info, false).state, t.nextDeviceId, false).state,
                          t.nextDeviceId, false).code
         == NOT_FOUND
  {
  }
}
