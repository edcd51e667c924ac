/**
 * Registration and login of `Backend/app/api/users.py` over the `users`
 * collection, kept in insertion order. Password hashing, password checking
 * and token signing are the parameters `hash`, `verify` and `mint`.
 */
module Users {
  import opened Wrappers
  import opened Http

  datatype UserDoc = UserDoc(email: string, hashedPassword: string)

  /** The `UserPublic` response body: the email only. */
  datatype UserPublic = UserPublic(email: string)

  /** The body of a successful login. */
  datatype TokenReply = TokenReply(accessToken: string, tokenType: string)

  const InvalidCredentials := HttpError(401, "Invalid email or password")

  /** `find_one({"email": email})`: the first document at or after `from` holding that email. */
  function FindByEmail(docs: seq<UserDoc>, email: string, from: nat := 0): (r: Option<nat>)
    requires from <= |docs|
    ensures r.Some? ==> from <= r.value < |docs| && docs[r.value].email == email
    ensures r.Some? ==> forall j :: from <= j < r.value ==> docs[j].email != email
    ensures r.None? ==> forall j :: from <= j < |docs| ==> docs[j].email != email
    decreases |docs| - from
  {
    if from == |docs| then None
    else if docs[from].email == email then Some(from)
    else FindByEmail(docs, email, from + 1)
  }

  /** No two documents share an email. */
  ghost predicate EmailsUnique(docs: seq<UserDoc>) {
    forall i, j :: 0 <= i < j < |docs| ==> docs[i].email != docs[j].email
  }

  class UserCollection {
    var docs: seq<UserDoc>

    ghost predicate Valid()
      reads this
    {
      EmailsUnique(docs)
    }

    constructor ()
      ensures Valid() && docs == []
    {
      docs := [];
    }

    /**
     * `register`: an email already present gives 400 and changes nothing;
     * otherwise the email is stored with `hash(password)`, never the password
     * itself, and only the email is returned. Emails stay unique.
     */
    method Register(email: string, password: string, hash: string -> string) returns (r: Result<UserPublic>)
      requires Valid()
      modifies this
      ensures Valid()
      ensures FindByEmail(old(docs), email).Some? ==>
        r == Err(HttpError(400, "Email already registered")) && docs == old(docs)
      ensures FindByEmail(old(docs), email).None? ==>
        r == Ok(UserPublic(email)) && docs == old(docs) + [UserDoc(email, hash(password))]
    {
      if FindByEmail(docs, email).Some? {
        return Err(HttpError(400, "Email already registered"));
      }
      docs := docs + [UserDoc(email, hash(password))];
      r := Ok(UserPublic(email));
    }

    /**
     * `login`: succeeds exactly when a user with that email exists and
     * `verify` accepts the password against the stored hash; an unknown email
     * and a wrong password give the same 401. The token is minted for the
     * submitted email, with type `"bearer"`. Nothing is written.
     */
    method Login(email: string, password: string, verify: (string, string) -> bool, mint: string -> string)
      returns (r: Result<TokenReply>)
      requires Valid()
      ensures r.Ok? <==> exists i :: 0 <= i < |docs| && docs[i].email == email && verify(password, docs[i].hashedPassword)
      ensures r.Ok? ==> r.value == TokenReply(mint(email), "bearer")
      ensures r.Err? ==> r.error == InvalidCredentials
    {
      var found := FindByEmail(docs, email);
      if found.None? || !verify(password, docs[found.value].hashedPassword) {
        return Err(InvalidCredentials);
      }
      r := Ok(TokenReply(mint(email), "bearer"));
    }
  }

  /** Appending a user whose email is not yet present makes it the one `find_one` finds. */
  lemma {:induction false} FindAfterAppend(docs: seq<UserDoc>, u: UserDoc, email: string, from: nat)
    requires from <= |docs|
    requires FindByEmail(docs, email, from).None?
    ensures FindByEmail(docs + [u], email, from) == if u.email == email then Some(|docs|) else None
    decreases |docs| - from
  {
    if from < |docs| {
      assert (docs + [u])[from] == docs[from];
      FindAfterAppend(docs, u, email, from + 1);
    }
  }

  /** After a successful registration, the new user is the one a login for that email checks against. */
  lemma RegisteredUserIsFound(docs: seq<UserDoc>, email: string, hashed: string)
    requires FindByEmail(docs, email).None?
    ensures FindByEmail(docs + [UserDoc(email, hashed)], email) == Some(|docs|)
    ensures (docs + [UserDoc(email, hashed)])[|docs|].hashedPassword == hashed
  {
    FindAfterAppend(docs, UserDoc(email, hashed), email, 0);
  }
}
