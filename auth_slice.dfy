/** The authentication slice of src/store/authSlice.js: the record
    `{ userInfo, isAuthenticated, status }`, its reducers, and the "userInfo"
    entry of local storage that they write and remove.

    The reducers assign the slice's fields in place, so the slice is a class
    and each reducer a method. The request behind `checkAuthStatus` is not
    modelled; its three outcomes are the methods `AuthPending`,
    `AuthFulfilled` and `AuthRejected`. */
module Auth {
  import opened JsValues

  datatype Status = Idle | Loading | Succeeded | Failed

  /** The profile the server returns for a signed-in user. */
  datatype UserInfo = UserInfo(id: string, name: string, email: string)

  class AuthSlice {
    var userInfo: Option<UserInfo>
    var isAuthenticated: bool
    var status: Status
    /** The "userInfo" entry of local storage: None when there is no entry,
        Some(None) when it holds the JSON text `null`. */
    var storedUserInfo: Option<Option<UserInfo>>

    /** Signed in exactly when there is a profile. */
    ghost predicate Valid()
      reads this
    {
      isAuthenticated <==> userInfo.Some?
    }

    /** The stored entry is there exactly when signed in, and holds the profile. */
    ghost predicate Persisted()
      reads this
    {
      storedUserInfo == if isAuthenticated then Some(userInfo) else None
    }

    /** `initialState`: signed in when local storage has a "userInfo" entry,
        with the profile it holds; status "idle". */
    constructor (stored: Option<Option<UserInfo>>)
      ensures isAuthenticated == stored.Some?
      ensures userInfo == (if stored.Some? then stored.value else None)
      ensures status == Idle && storedUserInfo == stored
      ensures Persisted()
      ensures Valid() <==> stored != Some(None)
    {
      isAuthenticated := stored.Some?;
      userInfo := if stored.Some? then stored.value else None;
      status := Idle;
      storedUserInfo := stored;
    }

    /** `setCredentials(payload)`: signed in with the payload, status
        "succeeded", and the payload stored. The slice is consistent
        afterwards exactly when the payload is not null. */
    method SetCredentials(payload: Option<UserInfo>)
      modifies this
      ensures userInfo == payload && isAuthenticated && status == Succeeded
      ensures storedUserInfo == Some(payload)
      ensures Persisted()
      ensures Valid() <==> payload.Some?
    {
      userInfo := payload;
      isAuthenticated := true;
      status := Succeeded;
      storedUserInfo := Some(payload);
    }

    /** `logout()`: no profile, signed out, status "idle", entry removed. */
    method Logout()
      modifies this
      ensures userInfo == None && !isAuthenticated && status == Idle
      ensures storedUserInfo == None
      ensures Persisted() && Valid()
    {
      userInfo := None;
      isAuthenticated := false;
      status := Idle;
      storedUserInfo := None;
    }

    /** `checkAuthStatus.pending`: only the status changes, to "loading". */
    method AuthPending()
      modifies this
      ensures status == Loading
      ensures userInfo == old(userInfo) && isAuthenticated == old(isAuthenticated)
      ensures storedUserInfo == old(storedUserInfo)
      ensures Persisted() <==> old(Persisted())
      ensures Valid() <==> old(Valid())
    {
      status := Loading;
    }

    /** `checkAuthStatus.fulfilled`: the same state as `setCredentials`
        with the profile the server returned. */
    method AuthFulfilled(payload: Option<UserInfo>)
      modifies this
      ensures userInfo == payload && isAuthenticated && status == Succeeded
      ensures storedUserInfo == Some(payload)
      ensures Persisted()
      ensures Valid() <==> payload.Some?
    {
      userInfo := payload;
      isAuthenticated := true;
      status := Succeeded;
      storedUserInfo := Some(payload);
    }

    /** `checkAuthStatus.rejected`: no profile, signed out, status
        "failed", entry removed. */
    method AuthRejected()
      modifies this
      ensures userInfo == None && !isAuthenticated && status == Failed
      ensures storedUserInfo == None
      ensures Persisted() && Valid()
    {
      userInfo := None;
      isAuthenticated := false;
      status := Failed;
      storedUserInfo := None;
    }
  }

  /** A session that starts from a consistent stored entry and only ever
      receives profiles stays consistent and persisted after every step:
      sign-in, a status check that succeeds, one that is rejected, sign-out. */
  method Session(stored: Option<Option<UserInfo>>, user: UserInfo, profile: UserInfo)
    returns (final: AuthSlice)
    requires stored != Some(None)
    ensures final.Valid() && final.Persisted()
    ensures !final.isAuthenticated && final.status == Idle && final.storedUserInfo == None
  {
    final := new AuthSlice(stored);
    assert final.Valid();
    final.SetCredentials(Some(user));
    assert final.Valid() && final.userInfo == Some(user);
    final.AuthPending();
    assert final.Valid() && final.status == Loading;
    final.AuthFulfilled(Some(profile));
    assert final.Valid() && final.userInfo == Some(profile) && final.storedUserInfo == Some(Some(profile));
    final.AuthPending();
    final.AuthRejected();
    assert final.Valid() && final.status == Failed;
    final.Logout();
  }
}
