/** The two stores the authentication handler works on, reached in the
    source through the thin `AuthRepository` (routes/auth/repository.go):
    the activation-token table, one row per (email, token type), and the
    user table, one row per email. The database layer behind that
    repository is not part of this model's source; its behaviour here is
    the collaborator contract the handler relies on: saving a token
    replaces the previous one for the same key, a missing token or user is
    a 404, and a second account for the same email is a 409. */
module AuthStore {
  import opened Http

  /** A token row as the handler writes it: the code is already hashed. */
  datatype ActivationTokenRequest = ActivationTokenRequest(
    email: string,
    activationCode: string,
    tokenType: string,
    expiryMinutes: int)

  datatype User = User(id: string, email: string, fullname: string, passwordHash: string)

  datatype CreateUserRequest = CreateUserRequest(email: string, fullname: string, passwordHash: string)

  datatype UpdatePasswordRequest = UpdatePasswordRequest(email: string, newPasswordHash: string)

  const EmailRegistered := CustomError(StatusConflict, "Email already registered")
  const TokenNotFound := CustomError(StatusNotFound, "Activation token not found")
  const UserNotFound := CustomError(StatusNotFound, "User not found")

  class AuthDb {
    /** Activation tokens keyed by (email, token type). */
    var tokens: map<(string, string), ActivationTokenRequest>
    /** Users keyed by their (unique) email. */
    var users: map<string, User>

    /** Every row sits under the key it describes. */
    ghost predicate Valid()
      reads this
    {
      && (forall key | key in tokens :: tokens[key].email == key.0 && tokens[key].tokenType == key.1)
      && (forall email | email in users :: users[email].email == email)
    }

    constructor ()
      ensures Valid() && tokens == map[] && users == map[]
    {
      tokens := map[];
      users := map[];
    }

    /** `fault` is the error the database reports for the query, if any; it
        is returned as it is. Without one: an error exactly when the email
        already belongs to a user. */
    function CheckExistingEmail(email: string, fault: Option<CustomError>): (r: Option<CustomError>)
      requires Valid()
      reads this
      ensures fault.Some? ==> r == fault
      ensures fault.None? ==> (r.Some? <==> exists u :: u in users.Values && u.email == email)
      ensures fault.None? && r.Some? ==> r.value == EmailRegistered
    {
      if fault.Some? then fault
      else if email in users then Some(EmailRegistered) else None
    }

    /** Upsert: the new row replaces any earlier one for (email, type). */
    method SaveActivationToken(req: ActivationTokenRequest)
      requires Valid()
      modifies this
      ensures Valid()
      ensures tokens == old(tokens)[(req.email, req.tokenType) := req]
      ensures users == old(users)
    {
      tokens := tokens[(req.email, req.tokenType) := req];
    }

    /** The stored (hashed) code for (email, type), or 404. */
    function GetActivationToken(email: string, tokenType: string): (r: Result<string>)
      requires Valid()
      reads this
      ensures r.Ok? ==> exists t :: t in tokens.Values && t.email == email && t.tokenType == tokenType && t.activationCode == r.value
      ensures r.Err? ==> r.error == TokenNotFound && forall t :: t in tokens.Values ==> !(t.email == email && t.tokenType == tokenType)
    {
      if (email, tokenType) in tokens then Ok(tokens[(email, tokenType)].activationCode)
      else Err(TokenNotFound)
    }

    method CreateUser(req: CreateUserRequest, newId: string) returns (err: Option<CustomError>)
      requires Valid()
      modifies this
      ensures Valid()
      ensures tokens == old(tokens)
      ensures req.email in old(users) ==> err == Some(EmailRegistered) && users == old(users)
      ensures req.email !in old(users) ==>
        err == None && users == old(users)[req.email := User(newId, req.email, req.fullname, req.passwordHash)]
    {
      if req.email in users {
        return Some(EmailRegistered);
      }
      users := users[req.email := User(newId, req.email, req.fullname, req.passwordHash)];
      err := None;
    }

    /** `fault` is the error the database reports for the query, if any.
        Without one, the user returned is the one whose email was asked for. */
    function GetUserByEmail(email: string, fault: Option<CustomError>): (r: Result<User>)
      requires Valid()
      reads this
      ensures fault.Some? ==> r == Err(fault.value)
      ensures fault.None? && r.Ok? ==> r.value.email == email && r.value in users.Values
      ensures fault.None? && r.Err? ==> r.error == UserNotFound && forall u :: u in users.Values ==> u.email != email
    {
      if fault.Some? then Err(fault.value)
      else if email in users then Ok(users[email]) else Err(UserNotFound)
    }

    /** Replaces the password hash of an existing user; 404 otherwise. */
    method UpdateUserPassword(req: UpdatePasswordRequest) returns (err: Option<CustomError>)
      requires Valid()
      modifies this
      ensures Valid()
      ensures tokens == old(tokens)
      ensures req.email !in old(users) ==> err == Some(UserNotFound) && users == old(users)
      ensures req.email in old(users) ==>
        err == None && users == old(users)[req.email := old(users)[req.email].(passwordHash := req.newPasswordHash)]
    {
      if req.email !in users {
        return Some(UserNotFound);
      }
      users := users[req.email := users[req.email].(passwordHash := req.newPasswordHash)];
      err := None;
    }
  }
}
