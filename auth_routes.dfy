/**
 * The credential routes (backend/routes/auth.js): `POST /signup` and
 * `POST /login` over a user table.
 *
 * The User model is not part of this model: the one-way hash applied when a
 * user is saved, `comparePassword`, and whether `save()` succeeds are
 * parameters. `jwt.sign` is represented by the payload and options it signs;
 * it fails exactly when the secret is missing or empty.
 */
module AuthRoutes {
  import opened Common

  const RequiredMessage := "Email and password are required"
  const ExistsMessage := "User already exists"
  const SaveErrorMessage := "Error saving user"
  const TokenErrorMessage := "Error generating authentication token"
  const InvalidCredentialsMessage := "Invalid credentials"
  const LoginErrorMessage := "Error logging in"
  const TokenExpiry := "24h"

  /** A stored user: id, email (compared exactly) and the stored password hash. */
  datatype User = User(id: nat, email: string, passwordHash: string)

  /** The public projection sent back: id and email, never the hash. */
  datatype PublicUser = PublicUser(id: nat, email: string)

  /** What the token signs: the user id, with the expiry option. */
  datatype TokenPayload = TokenPayload(userId: nat, expiresIn: string)

  datatype AuthReply =
    | Authenticated(status: int, token: TokenPayload, user: PublicUser)
    | Failure(status: int, message: string)

  function Project(u: User): (p: PublicUser)
    ensures p.id == u.id && p.email == u.email
  {
    PublicUser(u.id, u.email)
  }

  /** The successful reply for user `u`: a 24h token for its id and its projection. */
  function Issue(status: int, u: User): AuthReply {
    Authenticated(status, TokenPayload(u.id, TokenExpiry), Project(u))
  }

  function HasEmail(email: string): User -> bool {
    (u: User) => u.email == email
  }

  /** `User.findOne({ email })`: the first user with exactly that email. */
  function FindByEmail(users: seq<User>, email: string): (r: Option<nat>)
    ensures r.Some? ==> r.value < |users| && users[r.value].email == email
    ensures r.None? <==> forall j :: 0 <= j < |users| ==> users[j].email != email
  {
    FirstIndex(users, HasEmail(email))
  }

  predicate UniqueEmails(users: seq<User>) {
    forall i, j :: 0 <= i < j < |users| ==> users[i].email != users[j].email
  }

  /** Under unique emails the lookup finds the one user with that email, wherever it is. */
  lemma FindByEmailUnique(users: seq<User>, j: nat)
    requires UniqueEmails(users) && j < |users|
    ensures FindByEmail(users, users[j].email) == Some(j)
  {
    var r := FindByEmail(users, users[j].email);
    assert r.Some?;
  }

  class UserTable {
    var users: seq<User>
    var nextId: nat

    ghost predicate Valid()
      reads this
    {
      UniqueEmails(users) &&
      (forall i, j :: 0 <= i < j < |users| ==> users[i].id != users[j].id) &&
      forall j :: 0 <= j < |users| ==> users[j].id < nextId
    }

    constructor ()
      ensures Valid() && users == [] && nextId == 0
    {
      users := [];
      nextId := 0;
    }

    /**
     * `POST /signup`. A missing or empty email or password, or an email
     * already present, is refused with 400 and nothing changes; a failing
     * save answers 500 and nothing changes. Otherwise exactly one user is
     * added, and it stays added even when token signing then fails with 500.
     */
    method Signup(email: Option<string>, password: Option<string>,
                  hash: string -> string, saveSucceeds: bool, secret: Option<string>)
      returns (r: AuthReply)
      requires Valid()
      modifies this
      ensures Valid()
      ensures !Truthy(email) || !Truthy(password) ==>
        r == Failure(400, RequiredMessage) && users == old(users) && nextId == old(nextId)
      ensures Truthy(email) && Truthy(password) && FindByEmail(old(users), email.value).Some? ==>
        r == Failure(400, ExistsMessage) && users == old(users) && nextId == old(nextId)
      ensures Truthy(email) && Truthy(password) && FindByEmail(old(users), email.value).None? ==>
        var u := User(old(nextId), email.value, hash(password.value));
        && (!saveSucceeds ==> r == Failure(500, SaveErrorMessage) && users == old(users))
        && (saveSucceeds ==> users == old(users) + [u])
        && (saveSucceeds && !Truthy(secret) ==> r == Failure(500, TokenErrorMessage))
        && (saveSucceeds && Truthy(secret) ==> r == Issue(201, u))
    {
      if !Truthy(email) || !Truthy(password) {
        return Failure(400, RequiredMessage);
      }
      if FindByEmail(users, email.value).Some? {
        return Failure(400, ExistsMessage);
      }
      var u := User(nextId, email.value, hash(password.value));
      if !saveSucceeds {
        return Failure(500, SaveErrorMessage);
      }
      users := users + [u];
      nextId := nextId + 1;
      if !Truthy(secret) {
        return Failure(500, TokenErrorMessage);
      }
      r := Issue(201, u);
    }

    /**
     * `POST /login`: read-only. An unknown email and a wrong password give
     * the same 401; a comparison that throws (`compare` returns `None`) or
     * a missing secret gives 500; otherwise 200 with a token for the user.
     * An absent email matches no stored user.
     */
    method Login(email: Option<string>, password: Option<string>,
                 compare: (Option<string>, string) -> Option<bool>, secret: Option<string>)
      returns (r: AuthReply)
      ensures r.Failure? && r.status == 401 <==>
        email.None? || FindByEmail(users, email.value).None? ||
        compare(password, users[FindByEmail(users, email.value).value].passwordHash) == Some(false)
      ensures r.Failure? && r.status == 401 ==> r.message == InvalidCredentialsMessage
      ensures r.Authenticated? <==>
        email.Some? && FindByEmail(users, email.value).Some? &&
        compare(password, users[FindByEmail(users, email.value).value].passwordHash) == Some(true) &&
        Truthy(secret)
      ensures r.Authenticated? ==>
        r == Issue(200, users[FindByEmail(users, email.value).value]) && r.user.email == email.value
      ensures r.Failure? && r.status != 401 ==> r == Failure(500, LoginErrorMessage)
    {
      if email.None? {
        return Failure(401, InvalidCredentialsMessage);
      }
      var found := FindByEmail(users, email.value);
      if found.None? {
        return Failure(401, InvalidCredentialsMessage);
      }
      var u := users[found.value];
      var isMatch := compare(password, u.passwordHash);
      if isMatch.None? {
        return Failure(500, LoginErrorMessage);
      }
      if !isMatch.value {
        return Failure(401, InvalidCredentialsMessage);
      }
      if !Truthy(secret) {
        return Failure(500, LoginErrorMessage);
      }
      r := Issue(200, u);
    }
  }

  /** Signup and login sign the same kind of token: the user id, expiring after 24h. */
  lemma TokensAgree(u: User)
    ensures Issue(201, u).token == Issue(200, u).token == TokenPayload(u.id, "24h")
    ensures Issue(201, u).user == Issue(200, u).user == PublicUser(u.id, u.email)
  {
  }

  /** After a signup followed by a login with the matching password, the login finds the new user. */
  method SignupThenLogin(table: UserTable, email: string, password: string,
                         hash: string -> string, compare: (Option<string>, string) -> Option<bool>, secret: string)
    returns (signedUp: AuthReply, loggedIn: AuthReply)
    requires table.Valid()
    requires email != "" && password != "" && secret != ""
    requires FindByEmail(table.users, email).None?
    requires compare(Some(password), hash(password)) == Some(true)
    modifies table
    ensures signedUp.Authenticated? && loggedIn.Authenticated?
    ensures loggedIn.user == signedUp.user && loggedIn.token == signedUp.token
  {
    signedUp := table.Signup(Some(email), Some(password), hash, true, Some(secret));
    var u := User(old(table.nextId), email, hash(password));
    assert table.users == old(table.users) + [u];
    FindByEmailUnique(table.users, |table.users| - 1);
    loggedIn := table.Login(Some(email), Some(password), compare, Some(secret));
  }
}
