/** The browser's `localStorage`, reduced to what the session code observes:
    the stored strings, and whether every access throws (storage disabled). */
module BrowserStorage {
  import opened Common

  datatype Storage = Storage(items: map<string, string>, throws: bool)

  /** `getItem(key)`: the stored string, or `null`. */
  function GetItem(s: Storage, key: string): Option<string>
    requires !s.throws
  {
    if key in s.items then Some(s.items[key]) else None
  }
}

/** The session check of src/App.jsx: restoring a stored login on mount,
    `clearAuthState`, `handleLoginSuccess` and `handleLogout`. */
module App {
  import opened Common
  import opened BrowserStorage
  import Decimal

  const ExpirationKey := "loginExpiration"
  const UserKey := "loggedInUserEmail"

  datatype Auth = Auth(isAuthenticated: bool, userInfo: Option<string>, isLoading: bool)

  /** Not authenticated, no user, still checking storage. */
  function InitialAuth(): (a: Auth)
    ensures !a.isAuthenticated && a.userInfo.None? && a.isLoading
  {
    Auth(false, None, true)
  }

  datatype AuthStep = AuthStep(auth: Auth, storage: Storage)

  /** `clearAuthState`: both keys are removed and every other key is kept (a
      throwing storage is left as it is); the user is logged out either way. */
  function ClearAuthState(a: Auth, s: Storage): (r: AuthStep)
    ensures !r.auth.isAuthenticated && r.auth.userInfo.None? && r.auth.isLoading == a.isLoading
    ensures ExpirationKey !in r.storage.items || s.throws
    ensures UserKey !in r.storage.items || s.throws
    ensures s.throws ==> r.storage == s
    ensures forall k :: k in r.storage.items ==> k in s.items && r.storage.items[k] == s.items[k]
    ensures forall k :: k in s.items && k != UserKey && k != ExpirationKey ==> k in r.storage.items
    ensures r.storage.throws == s.throws
  {
    var storage := if s.throws then s else s.(items := s.items - {UserKey, ExpirationKey});
    AuthStep(a.(isAuthenticated := false, userInfo := None), storage)
  }

  /** The conditions under which a stored session is still valid at `now`. */
  ghost predicate ValidSession(s: Storage, now: int) {
    && !s.throws
    && ExpirationKey in s.items && s.items[ExpirationKey] != ""
    && UserKey in s.items && s.items[UserKey] != ""
    && Decimal.ParseInt(s.items[ExpirationKey]).Some?
    && now < Decimal.ParseInt(s.items[ExpirationKey]).value
  }

  /** The mount effect: with both keys non-empty, a numeric expiration and
      `now` strictly before it, the stored user is logged in; every other
      path (missing or empty key, NaN, expired, storage throwing) runs
      `clearAuthState`. Loading ends on every path. */
  function RestoreSession(a: Auth, s: Storage, now: int): (r: AuthStep)
    ensures !r.auth.isLoading
    ensures r.auth.isAuthenticated <==> ValidSession(s, now)
    ensures ValidSession(s, now) ==> r.auth.userInfo == Some(s.items[UserKey]) && r.storage == s
    ensures !ValidSession(s, now) ==> r == ClearAuthState(a.(isLoading := false), s)
  {
    var a' := a.(isLoading := false);
    if s.throws then ClearAuthState(a', s)
    else
      var storedExpiration := GetItem(s, ExpirationKey);
      var storedUser := GetItem(s, UserKey);
      if storedExpiration.Some? && storedExpiration.value != "" && storedUser.Some? && storedUser.value != "" then
        var expirationTime := Decimal.ParseInt(storedExpiration.value);
        if expirationTime.Some? && now < expirationTime.value then
          AuthStep(a'.(isAuthenticated := true, userInfo := Some(storedUser.value)), s)
        else
          ClearAuthState(a', s)
      else
        ClearAuthState(a', s)
  }

  /** The expiry boundary is strict: at `now == expiration` the session is over. */
  lemma ExpiredAtBoundary(a: Auth, s: Storage, t: int)
    requires !s.throws && ExpirationKey in s.items && s.items[ExpirationKey] == Decimal.IntToString(t)
    ensures !RestoreSession(a, s, t).auth.isAuthenticated
  {
    Decimal.ParseIntOfIntToString(t);
  }

  /** `handleLoginSuccess`: logs the user in without touching storage. */
  function HandleLoginSuccess(a: Auth, user: string): (r: Auth)
    ensures r.isAuthenticated && r.userInfo == Some(user) && r.isLoading == a.isLoading
  {
    a.(isAuthenticated := true, userInfo := Some(user))
  }

  /** `handleLogout` is exactly `clearAuthState`. */
  function HandleLogout(a: Auth, s: Storage): (r: AuthStep)
    ensures r == ClearAuthState(a, s)
    ensures !r.auth.isAuthenticated
  {
    ClearAuthState(a, s)
  }

  /** After a logout, a restore at any time finds no session: either both
      keys are gone, or storage throws and the restore fails as well. */
  lemma LogoutEndsSession(a: Auth, s: Storage, now: int)
    ensures var out := HandleLogout(a, s);
      !RestoreSession(out.auth, out.storage, now).auth.isAuthenticated
  {
  }
}

/** The login form of src/components/LoginPage.jsx. */
module LoginPage {
  import opened Common
  import opened BrowserStorage
  import Decimal

  /** Five days in milliseconds. */
  const LoginDurationMs := 5 * 24 * 60 * 60 * 1000
  const ExpirationKey := "loginExpiration"
  const UserKey := "loggedInUserEmail"

  const ValidEmail := "abc@testmail.com"
  const ValidPassword := "abc"
  const InvalidCredentials := "Invalid email or password."
  const StorageFailure := "Could not save login session. Please ensure browser storage is enabled."

  datatype Form = Form(email: string, password: string, error: string)

  /** The form after the attempt, the storage, and the argument passed to
      `onLoginSuccess` if it was called. */
  datatype Attempt = Attempt(form: Form, storage: Storage, loggedIn: Option<string>)

  /** `handleLogin` at time `now`. */
  function HandleLogin(f: Form, now: int, s: Storage): (r: Attempt)
    ensures r.form.email == f.email && r.form.password == f.password
    ensures r.loggedIn.Some? <==> f.email == ValidEmail && f.password == ValidPassword && !s.throws
    ensures r.loggedIn.Some? ==>
      && r.loggedIn.value == f.email && r.form.error == ""
      && r.storage.items == s.items[UserKey := f.email][ExpirationKey := Decimal.IntToString(now + LoginDurationMs)]
      && r.storage.throws == s.throws
    ensures r.loggedIn.None? ==> r.storage == s && r.form.error != ""
    ensures !(f.email == ValidEmail && f.password == ValidPassword) ==> r.form.error == InvalidCredentials
    ensures f.email == ValidEmail && f.password == ValidPassword && s.throws ==> r.form.error == StorageFailure
  {
    var cleared := f.(error := "");
    if f.email == ValidEmail && f.password == ValidPassword then
      var expirationTime := now + LoginDurationMs;
      if s.throws then Attempt(cleared.(error := StorageFailure), s, None)
      else
        var items := s.items[UserKey := f.email][ExpirationKey := Decimal.IntToString(expirationTime)];
        Attempt(cleared, s.(items := items), Some(f.email))
    else
      Attempt(cleared.(error := InvalidCredentials), s, None)
  }

  lemma DurationIsFiveDays()
    ensures LoginDurationMs == 432000000
  {
  }
}

/** How the two files meet through storage. */
module SessionLifecycle {
  import opened Common
  import opened BrowserStorage
  import App
  import LoginPage
  import Decimal

  /** A login at time `t` is restored at time `t2` iff `t2 < t + 432000000`,
      and then as the user who logged in. Both files name the keys alike,
      and `toString` followed by `parseInt` gives the expiration back. */
  lemma LoginThenRestore(f: LoginPage.Form, t: int, s: Storage, a: App.Auth, t2: int)
    requires f.email == LoginPage.ValidEmail && f.password == LoginPage.ValidPassword && !s.throws
    ensures var stored := LoginPage.HandleLogin(f, t, s).storage;
      var r := App.RestoreSession(a, stored, t2);
      && (r.auth.isAuthenticated <==> t2 < t + 432000000)
      && (r.auth.isAuthenticated ==> r.auth.userInfo == Some(LoginPage.ValidEmail))
  {
    var stored := LoginPage.HandleLogin(f, t, s).storage;
    assert App.ExpirationKey == LoginPage.ExpirationKey && App.UserKey == LoginPage.UserKey;
    Decimal.ParseIntOfIntToString(t + LoginPage.LoginDurationMs);
    assert stored.items[App.ExpirationKey] == Decimal.IntToString(t + 432000000);
  }

  /** A failed attempt leaves a logged-out app logged out on the next restore
      whenever storage held no valid session before. */
  lemma FailedLoginRestoresNothing(f: LoginPage.Form, t: int, s: Storage, a: App.Auth, t2: int)
    requires !App.ValidSession(s, t2)
    ensures var attempt := LoginPage.HandleLogin(f, t, s);
      attempt.loggedIn.None? ==> !App.RestoreSession(a, attempt.storage, t2).auth.isAuthenticated
  {
  }
}
