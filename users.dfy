/** The user table and the registration, login and current-user handlers. */
module Users {
  import opened Common
  import opened Externals

  /** A stored user document; `password` holds the bcrypt hash. */
  datatype User = User(id: string, name: string, email: string, avatar: string, password: string)

  /** The fields of a registration body. */
  datatype RegisterRequest = RegisterRequest(name: string, email: string, password: string, password2: string)

  /** The fields of a login body. */
  datatype LoginRequest = LoginRequest(email: string, password: string)

  const EmailRegistered := "Email already registered"
  const UserNotFoundMessage := "User not found"
  const PasswordIncorrectMessage := "Password incorrect"
  const BearerPrefix := "Bearer "
  /** The token lifetime, in seconds, passed as `expiresIn`. */
  const ExpiresIn: nat := 3600

  /** The answers of the registration handler. */
  datatype RegisterReply =
    | RegisterInvalid(errors: ErrorMap)   // the validator's errors, sent with status 200
    | EmailTaken(message: string)         // only the message string is sent, with status 400
    | Registered(user: User)              // the saved document
  {
    function Status(): nat
    {
      if EmailTaken? then 400 else 200
    }
  }

  /** The answers of the login handler. */
  datatype LoginReply =
    | LoginInvalid(errors: ErrorMap)        // the validator's errors, sent with status 200
    | UserNotFound(errors: ErrorMap)        // status 404
    | PasswordIncorrect(errors: ErrorMap)   // status 400
    | LoggedIn(success: bool, token: string)
  {
    function Status(): nat
    {
      match this
      case UserNotFound(_) => 404
      case PasswordIncorrect(_) => 400
      case _ => 200
    }
  }

  /** The body of `GET /users/current`. */
  datatype CurrentUserView = CurrentUserView(id: string, name: string, email: string, avatar: string)

  /** No two users share an id. */
  ghost predicate UniqueIds(users: seq<User>)
  {
    forall i, j :: 0 <= i < j < |users| ==> users[i].id != users[j].id
  }

  /** No two users share an email. */
  ghost predicate UniqueEmails(users: seq<User>)
  {
    forall i, j :: 0 <= i < j < |users| ==> users[i].email != users[j].email
  }

  /** `findOne({email})`: the first user in the collection with that email. */
  function FindByEmail(users: seq<User>, email: string): (r: Option<User>)
    ensures r.None? <==> forall i :: 0 <= i < |users| ==> users[i].email != email
    ensures r.Some? ==> r.value in users && r.value.email == email
    decreases |users|
  {
    if |users| == 0 then None
    else if users[0].email == email then Some(users[0])
    else FindByEmail(users[1..], email)
  }

  /** `findById(id)`: the first user in the collection with that id. */
  function FindById(users: seq<User>, id: string): (r: Option<User>)
    ensures r.None? <==> forall i :: 0 <= i < |users| ==> users[i].id != id
    ensures r.Some? ==> r.value in users && r.value.id == id
    decreases |users|
  {
    if |users| == 0 then None
    else if users[0].id == id then Some(users[0])
    else FindById(users[1..], id)
  }

  /** The lookup by email finds the first user with that email. */
  lemma {:induction false} FindByEmailFirst(users: seq<User>, email: string, i: nat)
    requires i < |users| && users[i].email == email
    requires forall j :: 0 <= j < i ==> users[j].email != email
    ensures FindByEmail(users, email) == Some(users[i])
    decreases i
  {
    if i > 0 {
      assert users[0].email != email;
      FindByEmailFirst(users[1..], email, i - 1);
    }
  }

  /** The lookup by id finds the first user with that id. */
  lemma {:induction false} FindByIdFirst(users: seq<User>, id: string, i: nat)
    requires i < |users| && users[i].id == id
    requires forall j :: 0 <= j < i ==> users[j].id != id
    ensures FindById(users, id) == Some(users[i])
    decreases i
  {
    if i > 0 {
      assert users[0].id != id;
      FindByIdFirst(users[1..], id, i - 1);
    }
  }

  /** After a user is appended whose email was not yet taken, looking that email up finds it. */
  lemma FindAppended(users: seq<User>, u: User)
    requires forall i :: 0 <= i < |users| ==> users[i].email != u.email
    requires forall i :: 0 <= i < |users| ==> users[i].id != u.id
    ensures FindByEmail(users + [u], u.email) == Some(u)
    ensures FindById(users + [u], u.id) == Some(u)
  {
    var all := users + [u];
    assert all[|users|] == u;
    FindByEmailFirst(all, u.email, |users|);
    FindByIdFirst(all, u.id, |users|);
  }

  /** `findOneAndDelete({_id: id})`: the collection without the first user with that id. */
  function RemoveFirstId(users: seq<User>, id: string): (r: seq<User>)
    ensures forall u :: u in r ==> u in users
    ensures |r| == if FindById(users, id).Some? then |users| - 1 else |users|
    decreases |users|
  {
    if |users| == 0 then []
    else if users[0].id == id then users[1..]
    else [users[0]] + RemoveFirstId(users[1..], id)
  }

  /** Removing a user keeps ids and emails unique, and with unique ids no user with
      the removed id is left, while every other id is still found as before. */
  lemma {:induction false} RemoveFirstIdEffect(users: seq<User>, id: string)
    requires UniqueIds(users) && UniqueEmails(users)
    ensures var r := RemoveFirstId(users, id);
      UniqueIds(r) && UniqueEmails(r) && FindById(r, id).None?
      && forall other :: other != id ==> FindById(r, other) == FindById(users, other)
    decreases |users|
  {
    if |users| > 0 {
      var rest := users[1..];
      assert UniqueIds(rest) && UniqueEmails(rest) by {
        forall i, j | 0 <= i < j < |rest| ensures rest[i].id != rest[j].id && rest[i].email != rest[j].email {
          assert rest[i] == users[i + 1] && rest[j] == users[j + 1];
        }
      }
      assert forall k :: 0 <= k < |rest| ==> rest[k].id != users[0].id && rest[k].email != users[0].email by {
        forall k | 0 <= k < |rest| ensures rest[k].id != users[0].id && rest[k].email != users[0].email {
          assert rest[k] == users[k + 1];
        }
      }
      if users[0].id != id {
        RemoveFirstIdEffect(rest, id);
        var tail := RemoveFirstId(rest, id);
        var r := [users[0]] + tail;
        assert RemoveFirstId(users, id) == r;
        forall i, j | 0 <= i < j < |r| ensures r[i].id != r[j].id && r[i].email != r[j].email {
          if i == 0 {
            assert r[j] == tail[j - 1] && r[j] in rest;
          } else {
            assert r[i] == tail[i - 1] && r[j] == tail[j - 1];
          }
        }
        forall other | other != id ensures FindById(r, other) == FindById(users, other) {
          assert r[1..] == tail;
        }
        assert r[1..] == tail;
      }
    }
  }

  /** The signed claims of a user: exactly their id, name and avatar. */
  function TokenPayload(u: User): Payload
  {
    Payload(u.id, u.name, u.avatar)
  }

  /** `POST /users/login`. */
  function Login(users: seq<User>, c: Crypto, keys: Keys, validate: LoginRequest -> Validation,
                 req: LoginRequest): (r: LoginReply)
    ensures r.LoginInvalid? <==> !validate(req).isValid
    ensures r.LoginInvalid? ==> r.errors == validate(req).errors && r.Status() == 200
    ensures r.UserNotFound? <==>
      validate(req).isValid && forall i :: 0 <= i < |users| ==> users[i].email != req.email
    ensures r.UserNotFound? ==>
      r.errors == validate(req).errors["email" := UserNotFoundMessage] && r.Status() == 404
    ensures r.PasswordIncorrect? <==>
      && validate(req).isValid && FindByEmail(users, req.email).Some?
      && !c.compare(req.password, FindByEmail(users, req.email).value.password)
    ensures r.PasswordIncorrect? ==>
      r.errors == validate(req).errors["password" := PasswordIncorrectMessage] && r.Status() == 400
    ensures r.LoggedIn? ==>
      var u := FindByEmail(users, req.email).value;
      && u in users && u.email == req.email
      && c.compare(req.password, u.password)
      && r.success && r.Status() == 200
      && |r.token| >= |BearerPrefix| && r.token[..|BearerPrefix|] == BearerPrefix
      && r.token[|BearerPrefix|..] == c.sign(TokenPayload(u), keys.secretOrKey, ExpiresIn)
  {
    var v := validate(req);
    if !v.isValid then LoginInvalid(v.errors)
    else
      match FindByEmail(users, req.email)
      case None => UserNotFound(v.errors["email" := UserNotFoundMessage])
      case Some(u) =>
        if c.compare(req.password, u.password) then
          var token := BearerPrefix + c.sign(TokenPayload(u), keys.secretOrKey, ExpiresIn);
          assert token[..|BearerPrefix|] == BearerPrefix && token[|BearerPrefix|..] == c.sign(TokenPayload(u), keys.secretOrKey, ExpiresIn);
          LoggedIn(true, token)
        else PasswordIncorrect(v.errors["password" := PasswordIncorrectMessage])
  }

  /** The user document a successful registration stores. */
  function RegisteredUser(req: RegisterRequest, c: Crypto, gravatar: string -> string,
                          salt: string, freshId: string): User
  {
    User(freshId, req.name, req.email, gravatar(req.email), c.hash(req.password, salt))
  }

  /** Registering and then logging in with the same email and password succeeds, provided
      bcrypt matches a password against its own hash: the token is "Bearer " followed by
      the signature of the new user's id, name and avatar. */
  lemma RegisterThenLogin(users: seq<User>, req: RegisterRequest, c: Crypto, keys: Keys,
                          gravatar: string -> string, salt: string, freshId: string,
                          validate: LoginRequest -> Validation)
    requires HashMatches(c)
    requires forall i :: 0 <= i < |users| ==> users[i].email != req.email
    requires validate(LoginRequest(req.email, req.password)).isValid
    ensures var u := RegisteredUser(req, c, gravatar, salt, freshId);
      Login(users + [u], c, keys, validate, LoginRequest(req.email, req.password))
        == LoggedIn(true, BearerPrefix + c.sign(TokenPayload(u), keys.secretOrKey, ExpiresIn))
  {
    var u := RegisteredUser(req, c, gravatar, salt, freshId);
    var all := users + [u];
    assert all[|users|] == u;
    FindByEmailFirst(all, req.email, |users|);
    assert c.compare(req.password, c.hash(req.password, salt));
  }

  /** `GET /users/current`: the authenticated user's id, name, email and avatar. */
  function CurrentUser(u: User): CurrentUserView
  {
    CurrentUserView(u.id, u.name, u.email, u.avatar)
  }

  /** The current-user answer does not depend on the stored password hash. */
  lemma CurrentUserHidesPassword(u: User, password: string)
    ensures CurrentUser(u.(password := password)) == CurrentUser(u)
  {
  }

  /** The users collection. */
  class UserStore {
    var users: seq<User>

    ghost predicate Valid()
      reads this
    {
      UniqueIds(users) && UniqueEmails(users)
    }

    constructor ()
      ensures Valid() && users == []
    {
      users := [];
    }

    /** `POST /users/register`. `gravatar` is the avatar URL generator, `salt` the result of
        `bcrypt.genSalt(10)`, `freshId` the id the database gives the new document. */
    method Register(req: RegisterRequest, validate: RegisterRequest -> Validation, c: Crypto,
                    gravatar: string -> string, salt: string, freshId: string)
      returns (r: RegisterReply)
      requires Valid()
      requires forall i :: 0 <= i < |users| ==> users[i].id != freshId
      modifies this
      ensures Valid()
      ensures r.RegisterInvalid? <==> !validate(req).isValid
      ensures r.RegisterInvalid? ==> r.errors == validate(req).errors && r.Status() == 200
      ensures r.EmailTaken? <==>
        validate(req).isValid && exists i :: 0 <= i < |old(users)| && old(users)[i].email == req.email
      ensures r.EmailTaken? ==> r.message == EmailRegistered && r.Status() == 400
      ensures !r.Registered? ==> users == old(users)
      ensures r.Registered? ==>
        && r.user == RegisteredUser(req, c, gravatar, salt, freshId)
        && users == old(users) + [r.user]
    {
      var v := validate(req);
      if !v.isValid {
        return RegisterInvalid(v.errors);
      }
      var existing := FindByEmail(users, req.email);
      if existing.Some? {
        var errors := v.errors["email" := EmailRegistered];
        return EmailTaken(errors["email"]);
      }
      var avatar := gravatar(req.email);
      var newUser := User(freshId, req.name, req.email, avatar, req.password);
      newUser := newUser.(password := c.hash(newUser.password, salt));
      users := users + [newUser];
      r := Registered(newUser);
    }

    /** `findOneAndDelete({_id: id})`. */
    method DeleteById(id: string)
      requires Valid()
      modifies this
      ensures Valid()
      ensures users == RemoveFirstId(old(users), id)
      ensures FindById(users, id).None?
    {
      RemoveFirstIdEffect(users, id);
      users := RemoveFirstId(users, id);
    }
  }
}
