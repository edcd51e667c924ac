/**
 * The session store of `Frontend/src/contexts/AuthContext.jsx`: the React
 * state `user` and the `localStorage` keys `jwt` and `username`.
 *
 * The backend's answer to a `fetch` is the parameter `reply`: whether the
 * response was `ok`, and its body, `None` when the body is not JSON. A
 * promise that rejects is a `Rejected` result; the request body (email and
 * password) is only sent, so it appears here only where it is stored.
 */
module AuthContext {
  import opened Wrappers
  import LocalStorage
  import Js

  const JwtKey := "jwt"
  const UsernameKey := "username"

  /** The `user` object: `{ username }`. */
  datatype User = User(username: string)

  /** The fields of a response body the provider reads. */
  datatype Json = Json(detail: Option<string>, accessToken: Option<string>)

  datatype Reply = Reply(ok: bool, body: Option<Json>)

  /** What a rejected promise carries: a thrown `Error`, or the parse error of a body that is not JSON. */
  datatype Thrown = Error(message: string) | SyntaxError

  datatype Settled<T> = Resolved(value: T) | Rejected(error: Thrown)

  /** `data.detail || fallback`, where a body that is not JSON reads as `{}`. */
  function FailureMessage(body: Option<Json>, fallback: string): (m: string)
    ensures fallback != "" ==> m != ""
    ensures m != fallback ==> body.Some? && body.value.detail == Some(m)
    ensures (body.Some? && body.value.detail.Some? && body.value.detail.value != "") ==> m == body.value.detail.value
  {
    if body.Some? && body.value.detail.Some? && body.value.detail.value != "" then body.value.detail.value else fallback
  }

  /** The user the startup effect restores from storage: one exactly when both keys are non-empty. */
  function StartupUser(items: map<string, string>): (u: Option<User>)
    ensures u.Some? <==> Js.Truthy(LocalStorage.Get(items, JwtKey)) && Js.Truthy(LocalStorage.Get(items, UsernameKey))
    ensures u.Some? ==> u.value == User(items[UsernameKey])
  {
    var token := LocalStorage.Get(items, JwtKey);
    var username := LocalStorage.Get(items, UsernameKey);
    if Js.Truthy(token) && Js.Truthy(username) then Some(User(username.value)) else None
  }

  /** `setItem` turns a missing `access_token` into the string `"undefined"`. */
  function StoredToken(accessToken: Option<string>): string {
    accessToken.GetOr("undefined")
  }

  /** Storage after a successful login: both session keys set, every other key as it was. */
  function LoggedInItems(items: map<string, string>, email: string, accessToken: Option<string>): (r: map<string, string>)
    ensures JwtKey in r && r[JwtKey] == StoredToken(accessToken)
    ensures UsernameKey in r && r[UsernameKey] == email
    ensures r.Keys == items.Keys + {JwtKey, UsernameKey}
  {
    items[JwtKey := StoredToken(accessToken)][UsernameKey := email]
  }

  /** Storage after logout: both session keys gone, every other key as it was. */
  function LoggedOutItems(items: map<string, string>): (r: map<string, string>)
    ensures r.Keys == items.Keys - {JwtKey, UsernameKey}
    ensures forall k :: k in r ==> r[k] == items[k]
  {
    items - {JwtKey, UsernameKey}
  }

  class AuthProvider {
    var user: Option<User>
    const storage: LocalStorage.Storage

    /** `useState(null)`. */
    constructor (storage: LocalStorage.Storage)
      ensures user == None && this.storage == storage
    {
      user := None;
      this.storage := storage;
    }

    /**
     * The corrected initial state, a lazy `useState` initialiser: `user`
     * starts as the stored session, read as the mount effect reads it.
     */
    constructor FromStorage(storage: LocalStorage.Storage)
      ensures user == StartupUser(storage.items) && this.storage == storage
    {
      var token := storage.GetItem(JwtKey);
      var username := storage.GetItem(UsernameKey);
      user := if Js.Truthy(token) && Js.Truthy(username) then Some(User(username.value)) else None;
      this.storage := storage;
    }

    /** The mount effect: `user` becomes the stored user when both keys are set, and is left alone otherwise. */
    method Startup()
      modifies this
      ensures StartupUser(storage.items).Some? ==> user == StartupUser(storage.items)
      ensures StartupUser(storage.items).None? ==> user == old(user)
    {
      var token := storage.GetItem(JwtKey);
      var username := storage.GetItem(UsernameKey);
      if Js.Truthy(token) && Js.Truthy(username) {
        user := Some(User(username.value));
      }
    }

    /**
     * `register`: touches neither `user` nor storage. A failure rejects with
     * `detail` or "Registration failed"; a success resolves to the body.
     */
    method Register(reply: Reply) returns (r: Settled<Json>)
      ensures !reply.ok ==> r == Rejected(Error(FailureMessage(reply.body, "Registration failed")))
      ensures reply.ok && reply.body.None? ==> r == Rejected(SyntaxError)
      ensures reply.ok && reply.body.Some? ==> r == Resolved(reply.body.value)
    {
      if !reply.ok {
        return Rejected(Error(FailureMessage(reply.body, "Registration failed")));
      }
      if reply.body.None? {
        return Rejected(SyntaxError);
      }
      r := Resolved(reply.body.value);
    }

    /**
     * `login`: a failure rejects with `detail` or "Login failed" and changes
     * nothing, as does a success whose body is not JSON. Otherwise `jwt` is
     * the access token, `username` the submitted email, and `user` that email.
     */
    method Login(email: string, reply: Reply) returns (r: Settled<()>)
      modifies this, storage
      ensures !reply.ok ==>
        && r == Rejected(Error(FailureMessage(reply.body, "Login failed")))
        && user == old(user) && storage.items == old(storage.items)
      ensures reply.ok && reply.body.None? ==>
        r == Rejected(SyntaxError) && user == old(user) && storage.items == old(storage.items)
      ensures reply.ok && reply.body.Some? ==>
        && r == Resolved(())
        && storage.items == LoggedInItems(old(storage.items), email, reply.body.value.accessToken)
        && user == Some(User(email))
    {
      if !reply.ok {
        return Rejected(Error(FailureMessage(reply.body, "Login failed")));
      }
      if reply.body.None? {
        return Rejected(SyntaxError);
      }
      storage.SetItem(JwtKey, StoredToken(reply.body.value.accessToken));
      storage.SetItem(UsernameKey, email);
      user := Some(User(email));
      r := Resolved(());
    }

    /** `logout`: both keys removed and `user` cleared. */
    method Logout()
      modifies this, storage
      ensures storage.items == LoggedOutItems(old(storage.items))
      ensures user == None
    {
      storage.RemoveItem(JwtKey);
      storage.RemoveItem(UsernameKey);
      user := None;
    }
  }

  // ----- Properties of the session store -----

  /** After a successful login with a non-empty email and token, the startup read restores that user. */
  lemma LoginThenStartup(items: map<string, string>, email: string, accessToken: Option<string>)
    requires email != "" && accessToken != Some("")
    ensures StartupUser(LoggedInItems(items, email, accessToken)) == Some(User(email))
  {
  }

  /** After logout the startup read restores nobody, and a second logout changes nothing. */
  lemma LogoutLaws(items: map<string, string>)
    ensures StartupUser(LoggedOutItems(items)) == None
    ensures LoggedOutItems(LoggedOutItems(items)) == LoggedOutItems(items)
  {
  }

  /** Login and logout leave every other key, such as `theme`, as it was. */
  lemma SessionKeepsOtherKeys(items: map<string, string>, email: string, accessToken: Option<string>, key: string)
    requires key != JwtKey && key != UsernameKey
    ensures LocalStorage.Get(LoggedInItems(items, email, accessToken), key) == LocalStorage.Get(items, key)
    ensures LocalStorage.Get(LoggedOutItems(items), key) == LocalStorage.Get(items, key)
  {
  }
}
