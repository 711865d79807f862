/** The register and login routes over the user table. Password hashing and
    token signing are opaque: the hash is a function fixed when the table is
    built, and a token is the signed user id. */
module AuthRoutes {
  import opened Wrappers
  import opened JsValues
  import opened Http
  import opened TravelModel

  datatype User = User(id: Id, email: string, name: string, passwordHash: string)

  /** The user object a response carries: id, email and name, no password. */
  datatype PublicUser = PublicUser(id: Id, email: string, name: string)

  /** `jwt.sign({ userId }, ...)`; the secret and the expiry are not modelled. */
  datatype Token = Token(userId: Id)

  datatype Session = Session(token: Token, user: PublicUser)

  /** The minimum password length the register route accepts. */
  const MinPasswordLength: nat := 6

  function Public(u: User): PublicUser
  {
    PublicUser(u.id, u.email, u.name)
  }

  class UserTable {
    var users: seq<User>
    var nextId: Id
    const hash: string -> string

    /** Emails are unique and ids are unique and below `nextId`. */
    ghost predicate Valid()
      reads this
    {
      && (forall i, j :: 0 <= i < j < |users| ==> users[i].email != users[j].email)
      && (forall i :: 0 <= i < |users| ==> users[i].id < nextId)
    }

    constructor (hash: string -> string)
      ensures Valid() && users == [] && this.hash == hash
    {
      users := [];
      nextId := 0;
      this.hash := hash;
    }

    /** `User.findOne({ email })`, as the position of the match. */
    method FindByEmail(email: string) returns (r: Option<nat>)
      ensures r.Some? ==> r.value < |users| && users[r.value].email == email
      ensures r.None? ==> forall i :: 0 <= i < |users| ==> users[i].email != email
    {
      var k := 0;
      while k < |users|
        invariant 0 <= k <= |users|
        invariant forall i :: 0 <= i < k ==> users[i].email != email
      {
        if users[k].email == email {
          return Some(k);
        }
        k := k + 1;
      }
      return None;
    }

    /** POST /register: the checks run in the order missing field, short
        password, email in use; only a request that passes all three adds a
        user, and the answer leaves the password out. */
    method Register(email: Option<string>, name: Option<string>, password: Option<string>)
      returns (r: Result<Session, ApiError>)
      requires Valid()
      modifies this
      ensures Valid()
      ensures FalsyText(email) || FalsyText(name) || FalsyText(password) ==> r == Failure(BadRequest(MissingFields))
      ensures !(FalsyText(email) || FalsyText(name) || FalsyText(password)) && |password.value| < MinPasswordLength ==>
                r == Failure(BadRequest(PasswordTooShort))
      ensures !(FalsyText(email) || FalsyText(name) || FalsyText(password)) && |password.value| >= MinPasswordLength ==>
                ((exists i :: 0 <= i < |old(users)| && old(users)[i].email == email.value) <==>
                 r == Failure(BadRequest(EmailInUse)))
      ensures !(FalsyText(email) || FalsyText(name) || FalsyText(password)) && |password.value| >= MinPasswordLength &&
              (forall i :: 0 <= i < |old(users)| ==> old(users)[i].email != email.value) ==>
                r.Success?
      ensures r.Success? ==>
        var u := User(old(nextId), email.value, name.value, hash(password.value));
        users == old(users) + [u] && r.value == Session(Token(u.id), Public(u))
      ensures r.Failure? ==> users == old(users)
    {
      if FalsyText(email) || FalsyText(name) || FalsyText(password) {
        return Failure(BadRequest(MissingFields));
      }
      if |password.value| < MinPasswordLength {
        return Failure(BadRequest(PasswordTooShort));
      }
      var existing := FindByEmail(email.value);
      if existing.Some? {
        return Failure(BadRequest(EmailInUse));
      }
      var u := User(nextId, email.value, name.value, hash(password.value));
      users := users + [u];
      nextId := nextId + 1;
      r := Success(Session(Token(u.id), Public(u)));
    }

    /** POST /login: a missing field answers 400; an unknown email and a wrong
        password give one and the same 401 answer. */
    method Login(email: Option<string>, password: Option<string>) returns (r: Result<Session, ApiError>)
      requires Valid()
      ensures FalsyText(email) || FalsyText(password) ==> r == Failure(BadRequest(MissingCredentials))
      ensures !(FalsyText(email) || FalsyText(password)) ==>
        ((exists i :: 0 <= i < |users| && users[i].email == email.value && users[i].passwordHash == hash(password.value))
         <==> r.Success?)
      ensures !(FalsyText(email) || FalsyText(password)) && !r.Success? ==> r == Failure(Unauthorized(InvalidCredentials))
      ensures r.Success? ==>
        exists i :: 0 <= i < |users| && users[i].email == email.value &&
          r.value == Session(Token(users[i].id), Public(users[i]))
    {
      if FalsyText(email) || FalsyText(password) {
        return Failure(BadRequest(MissingCredentials));
      }
      var k := FindByEmail(email.value);
      if k.None? {
        return Failure(Unauthorized(InvalidCredentials));
      }
      var u := users[k.value];
      if u.passwordHash != hash(password.value) {
        return Failure(Unauthorized(InvalidCredentials));
      }
      r := Success(Session(Token(u.id), Public(u)));
    }
  }
}
