/** The JWT strategy of `config/passport.js`: where the token is taken from, which secret
    checks it, and the verify callback that maps the token's payload to a user. */
module Passport {
  import opened Common
  import opened Externals
  import opened Users
  import opened AuthHeader

  /** The strategy options: the token comes from the `Authorization: Bearer <token>`
      header, and it is checked with `secretOrKey`. */
  datatype StrategyOptions = StrategyOptions(secretOrKey: string)

  /** `opts`, built from the key configuration. */
  function Options(keys: Keys): StrategyOptions
  {
    StrategyOptions(keys.secretOrKey)
  }

  /** How `userModel.findById(id)` settles: a user, no user, or a rejected promise. */
  datatype Lookup = Hit(user: User) | Miss | LookupFailed(error: string)

  /** `findById` on the in-memory users collection, which never fails. */
  function TableLookup(users: seq<User>): string -> Lookup
  {
    id => if FindById(users, id).Some? then Hit(FindById(users, id).value) else Miss
  }

  /** The arguments of `done(err, user)`; a `user` of `None` stands for `false`. */
  datatype Done = Done(err: Option<string>, user: Option<User>)

  /** Whether the verify callback calls `done`, and with what. When the lookup fails,
      the error is only logged and `done` is never called. */
  datatype Verdict = Called(done: Done) | NotCalled

  /** The verify callback `(jwt_payload, done) => …`, given the lookup it runs. */
  function VerifyCallback(payload: Payload, findById: string -> Lookup): (r: Verdict)
    ensures r.Called? ==> r.done.err.None?
    ensures (r.Called? && r.done.user.Some?) <==> findById(payload.id).Hit?
    ensures r.Called? && r.done.user.Some? ==> r.done.user.value == findById(payload.id).user
    ensures (r.Called? && r.done.user.None?) <==> findById(payload.id).Miss?
    ensures r.NotCalled? <==> findById(payload.id).LookupFailed?
  {
    match findById(payload.id)
    case Hit(u) => Called(Done(None, Some(u)))
    case Miss => Called(Done(None, None))
    case LookupFailed(_) => NotCalled
  }

  /** Only the payload's `id` claim is consulted: payloads with the same id resolve alike. */
  lemma ResolvesByIdOnly(p: Payload, q: Payload, findById: string -> Lookup)
    requires p.id == q.id
    ensures VerifyCallback(p, findById) == VerifyCallback(q, findById)
  {
  }

  /** On the users collection, the callback succeeds with the user who has the
      payload's id. */
  lemma {:induction false} TableHit(users: seq<User>, p: Payload, i: nat)
    requires UniqueIds(users) && i < |users| && users[i].id == p.id
    ensures VerifyCallback(p, TableLookup(users)) == Called(Done(None, Some(users[i])))
  {
    FindByIdFirst(users, p.id, i);
  }

  /** On the users collection, the callback fails with `false` when no user has the
      payload's id, the empty collection included. */
  lemma TableMiss(users: seq<User>, p: Payload)
    requires forall j :: 0 <= j < |users| ==> users[j].id != p.id
    ensures VerifyCallback(p, TableLookup(users)) == Called(Done(None, None))
  {
  }

  /** What the strategy makes of a request. */
  datatype AuthOutcome =
    | Authenticated(user: User)   // `req.user` is set and the handler runs
    | Unauthorized                // answered with status 401
    | NoAnswer                    // `done` was never called, so no answer is sent

  /** `passport.authenticate('jwt', {session: false})` with this strategy: extract the token,
      check it with the options' secret, and run the verify callback on its payload. */
  function Authenticate(header: Option<string>, opts: StrategyOptions, c: Crypto,
                        findById: string -> Lookup): (r: AuthOutcome)
    ensures FromAuthHeaderAsBearerToken(header).None? ==> r == Unauthorized
    ensures FromAuthHeaderAsBearerToken(header).Some? ==>
      var t := FromAuthHeaderAsBearerToken(header).value;
      match c.verify(t, opts.secretOrKey)
      case None => r == Unauthorized
      case Some(p) =>
        match findById(p.id)
        case Hit(u) => r == Authenticated(u)
        case Miss => r == Unauthorized
        case LookupFailed(_) => r == NoAnswer
  {
    match FromAuthHeaderAsBearerToken(header)
    case None => Unauthorized
    case Some(token) =>
      match c.verify(token, opts.secretOrKey)
      case None => Unauthorized
      case Some(p) =>
        match VerifyCallback(p, findById)
        case NotCalled => NoAnswer
        case Called(d) => if d.user.Some? then Authenticated(d.user.value) else Unauthorized
  }

  /** The token login issues authenticates its holder: with the strategy built from the same
      key configuration that login signs with, and primitives whose check gives back what was
      signed, the header "Bearer <token>" resolves to the user who logged in, as long as that
      user is still in the collection. */
  lemma {:induction false} LoginTokenAuthenticates(users: seq<User>, c: Crypto, keys: Keys,
                                                   validate: LoginRequest -> Validation,
                                                   req: LoginRequest)
    requires TokensVerify(c) && SignsWords(c)
    requires UniqueIds(users)
    requires Login(users, c, keys, validate, req).LoggedIn?
    ensures Authenticate(Some(Login(users, c, keys, validate, req).token), Options(keys), c,
                         TableLookup(users))
            == Authenticated(FindByEmail(users, req.email).value)
  {
    var u := FindByEmail(users, req.email).value;
    var signed := c.sign(TokenPayload(u), keys.secretOrKey, ExpiresIn);
    var token := Login(users, c, keys, validate, req).token;
    assert token == BearerPrefix + signed by {
      assert token == token[..|BearerPrefix|] + token[|BearerPrefix|..];
    }
    assert IsWord(signed);
    ExtractBearerToken(signed);
    assert FromAuthHeaderAsBearerToken(Some(token)) == Some(signed);
    assert c.verify(signed, Options(keys).secretOrKey) == Some(TokenPayload(u));
    var i :| 0 <= i < |users| && users[i] == u;
    TableHit(users, TokenPayload(u), i);
    assert TableLookup(users)(u.id) == Hit(u);
  }

  /** After a user is deleted, no header authenticates as that user, however valid the
      signature of its token. */
  lemma DeletedAccountRejected(users: seq<User>, id: string, header: Option<string>, c: Crypto,
                               keys: Keys)
    requires UniqueIds(users)
    requires UniqueEmails(users)
    ensures var r := Authenticate(header, Options(keys), c, TableLookup(RemoveFirstId(users, id)));
      r.Authenticated? ==> r.user.id != id
  {
    var remaining := RemoveFirstId(users, id);
    var r := Authenticate(header, Options(keys), c, TableLookup(remaining));
    if r.Authenticated? {
      var t := FromAuthHeaderAsBearerToken(header).value;
      var p := c.verify(t, keys.secretOrKey).value;
      assert TableLookup(remaining)(p.id) == Hit(r.user);
      assert FindById(remaining, p.id) == Some(r.user);
      RemoveFirstIdEffect(users, id);
    }
  }
}
