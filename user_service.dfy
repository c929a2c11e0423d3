/**
  * service/user.ts: resolving the session from the credential header,
  * the role check, and the user operations (login, registration, lookup,
  * update, deletion). The token verifier and issuer and the password
  * hasher are library calls and come in as function parameters.
  */
module UserService {
  import opened Text
  import opened Errors
  import opened Store
  import DbErrors

  /** What the token verifier reports: one of its three failure kinds, or the subject and roles claims. */
  datatype VerifyOutcome =
    | TokenExpired(message: string)
    | InvalidToken(message: string)
    | OtherFailure(message: string)
    | Verified(sub: string, roles: seq<string>)

  /** The session of one request: `userId` is `Number(sub)`. */
  datatype SessionInfo = SessionInfo(userId: JsNumber, roles: seq<string>)

  /** What the API shows of a user. */
  datatype PublicUser = PublicUser(id: int, name: string, email: string)

  const BearerPrefix := "Bearer "
  const SignInRequired := "You need to be signed in"
  const InvalidAuthToken := "Invalid authentication token"
  const TokenHasExpired := "The token has expired"
  const NotAllowed := "You are not allowed to view this part of the application"
  const LoginMismatch := "The given email and password do not match"

  /** The session a verifier outcome gives, or the `Unauthorized` error its failure maps to. */
  function FromVerifier(outcome: VerifyOutcome): (r: Result<SessionInfo>)
    ensures r.Ok? <==> outcome.Verified?
    ensures r.Err? ==> r.error.Service? && r.error.kind == Unauthorized
  {
    match outcome
    case Verified(sub, roles) => Ok(SessionInfo(ToNumber(sub), roles))
    case TokenExpired(_) => Err(Service(Unauthorized, TokenHasExpired))
    case InvalidToken(message) => Err(Service(Unauthorized, InvalidAuthToken + ": " + message))
    case OtherFailure(message) => Err(Service(Unauthorized, message))
  }

  /**
    * `checkAndParseSession`: no header (or an empty one) and a header
    * without the `Bearer ` scheme are refused before the verifier is asked;
    * otherwise the verifier decides on the text after the scheme.
    */
  function CheckAndParseSession(authHeader: Option<string>, verify: string -> VerifyOutcome): (r: Result<SessionInfo>)
    ensures r.Ok? <==> authHeader.Some? && StartsWith(authHeader.value, BearerPrefix)
                       && verify(authHeader.value[|BearerPrefix|..]).Verified?
    ensures r.Err? ==> r.error.Service? && r.error.kind == Unauthorized
  {
    if authHeader.None? || authHeader.value == "" then Err(Service(Unauthorized, SignInRequired))
    else if !StartsWith(authHeader.value, BearerPrefix) then Err(Service(Unauthorized, InvalidAuthToken))
    else FromVerifier(verify(authHeader.value[7..]))
  }

  /** Without a header the answer is fixed, whatever the verifier would have said. */
  lemma MissingHeaderNeedsNoVerifier(authHeader: Option<string>, verify1: string -> VerifyOutcome, verify2: string -> VerifyOutcome)
    requires authHeader.None? || authHeader == Some("")
    ensures CheckAndParseSession(authHeader, verify1) == CheckAndParseSession(authHeader, verify2)
                                                     == Err(Service(Unauthorized, SignInRequired))
  {
  }

  /** A header without the exact, case-sensitive `Bearer ` prefix is an invalid token, whatever the verifier. */
  lemma WrongSchemeNeedsNoVerifier(header: string, verify1: string -> VerifyOutcome, verify2: string -> VerifyOutcome)
    requires header != "" && !StartsWith(header, BearerPrefix)
    ensures CheckAndParseSession(Some(header), verify1) == CheckAndParseSession(Some(header), verify2)
                                                      == Err(Service(Unauthorized, InvalidAuthToken))
  {
  }

  /** The verifier sees exactly the token after the scheme, and its verdict is the answer. */
  lemma {:induction false} VerifierSeesToken(token: string, verify: string -> VerifyOutcome)
    ensures CheckAndParseSession(Some(BearerPrefix + token), verify) == FromVerifier(verify(token))
  {
    var header := BearerPrefix + token;
    assert header[..|BearerPrefix|] == BearerPrefix;
    assert header[7..] == token;
  }

  /** The failure messages: expiry, then an invalid token with its detail, then the library's own message. */
  lemma VerifierFailureMessages(message: string)
    ensures FromVerifier(TokenExpired(message)) == Err(Service(Unauthorized, TokenHasExpired))
    ensures FromVerifier(InvalidToken(message)) == Err(Service(Unauthorized, "Invalid authentication token: " + message))
    ensures FromVerifier(OtherFailure(message)) == Err(Service(Unauthorized, message))
  {
  }

  /**
    * A token whose subject is the decimal id `n` resolves to the session of
    * user `n` with the token's roles.
    */
  lemma {:induction false} IssuedTokenResolves(n: nat, roles: seq<string>, token: string, verify: string -> VerifyOutcome)
    requires verify(token) == Verified(DecimalString(n), roles)
    ensures CheckAndParseSession(Some(BearerPrefix + token), verify) == Ok(SessionInfo(Finite(n), roles))
  {
    VerifierSeesToken(token, verify);
    ToNumberOfDecimal(n);
  }

  /** `checkRole`: passes exactly when the role is held. */
  function CheckRole(role: string, roles: seq<string>): (r: Outcome)
    ensures r.Pass? <==> role in roles
    ensures r.Fail? ==> r.error == Service(Forbidden, NotAllowed)
  {
    if role in roles then Pass else Fail(Service(Forbidden, NotAllowed))
  }

  /** `makeExposedUser`: only id, name and email leave the service. */
  function MakeExposedUser(id: int, user: User): (r: PublicUser)
    ensures r.id == id && r.name == user.name && r.email == user.email
  {
    PublicUser(id, user.name, user.email)
  }

  /** Two users that differ only in password hash and roles look the same from outside. */
  lemma ExposedUserHidesSecrets(id: int, user: User, hash: string, roles: seq<string>)
    ensures MakeExposedUser(id, user) == MakeExposedUser(id, user.(passwordHash := hash, roles := roles))
  {
  }

  /** `getAll`: every user, exposed. */
  function GetAll(db: Db): (r: map<int, PublicUser>)
    reads db
    ensures r.Keys == db.users.Keys
    ensures forall id :: id in r ==> r[id] == MakeExposedUser(id, db.users[id])
  {
    map id | id in db.users :: MakeExposedUser(id, db.users[id])
  }

  /** `getById`: the exposed user, or `NotFound` when the id is unknown. */
  function GetById(db: Db, id: int): (r: Result<PublicUser>)
    reads db
    ensures r.Ok? <==> id in db.users
    ensures r.Ok? ==> r.value == MakeExposedUser(id, db.users[id])
    ensures r.Err? ==> r.error == Service(NotFound, DbErrors.NoUserWithId)
  {
    if id in db.users then Ok(MakeExposedUser(id, db.users[id])) else Err(Service(NotFound, DbErrors.NoUserWithId))
  }

  /**
    * `login`: a token only for a known email whose password verifies; an
    * unknown email and a wrong password give the same error.
    */
  method Login(db: Db, email: string, password: string,
               verifyPassword: (string, string) -> bool, generateJWT: (int, seq<string>) -> string)
    returns (r: Result<string>)
    requires db.Valid()
    ensures r.Ok? <==> exists id :: id in db.users && db.users[id].email == email
                                    && verifyPassword(password, db.users[id].passwordHash)
    ensures r.Ok? ==> exists id :: id in db.users && db.users[id].email == email
                                   && r.value == generateJWT(id, db.users[id].roles)
    ensures r.Err? ==> r.error == Service(Unauthorized, LoginMismatch)
  {
    if !EmailInUse(db.users, email) {
      return Err(Service(Unauthorized, LoginMismatch));
    }
    var id :| id in db.users && db.users[id].email == email;
    var user := db.users[id];
    // the email index makes `id` the only user with this email
    assert forall other :: other in db.users && db.users[other].email == email ==> other == id by {
      assert !EmailClash(db.users, id, email);
    }
    if !verifyPassword(password, user.passwordHash) {
      return Err(Service(Unauthorized, LoginMismatch));
    }
    return Ok(generateJWT(id, user.roles));
  }

  /**
    * `register`: stores the hash of the password, never the password, with
    * the single role `user`, and answers with a token for the new user; a
    * taken email goes through `handleDBError` and becomes a validation error.
    */
  method Register(db: Db, name: string, email: string, password: string,
                  hashPassword: string -> string, generateJWT: (int, seq<string>) -> string)
    returns (r: Result<string>)
    requires db.Valid()
    modifies db
    ensures db.Valid()
    ensures r.Ok? <==> !EmailInUse(old(db.users), email)
    ensures r.Ok? ==> exists id :: id !in old(db.users)
                        && db.users == old(db.users)[id := User(name, email, hashPassword(password), [USER])]
                        && r.value == generateJWT(id, [USER])
    ensures r.Err? ==> r.error == Service(ValidationFailed, DbErrors.EmailExists) && db.users == old(db.users)
    ensures db.teams == old(db.teams) && db.players == old(db.players) && db.stats == old(db.stats)
  {
    var passwordHash := hashPassword(password);
    if EmailInUse(db.users, email) {
      EmailIndexError();
      return Err(DbErrors.HandleDBError(Db(UniqueFailed(EmailIndex))));
    }
    var id := db.nextUserId;
    var user := User(name, email, passwordHash, [USER]);
    db.users := db.users[id := user];
    db.nextUserId := id + 1;
    forall u | u in db.users
      ensures !EmailClash(db.users, u, db.users[u].email)
    {
      if u != id {
        assert !EmailClash(old(db.users), u, db.users[u].email);
      }
    }
    r := Ok(generateJWT(id, user.roles));
  }

  /**
    * `updateById`: changes only the fields given; an unknown id is the
    * mapper's record-not-found error, with message `notFound`, as
    * `handleDBError` translates it, and an email of another user is a
    * validation error.
    */
  method UpdateById(db: Db, id: int, name: Option<string>, email: Option<string>, notFound: string)
    returns (r: Result<PublicUser>)
    requires db.Valid()
    modifies db
    ensures db.Valid()
    ensures id !in old(db.users) ==> r == Err(DbErrors.HandleDBError(Db(RecordMissing(notFound))))
    ensures id !in old(db.users) && Contains(notFound, "user") && !DbErrors.NamesForeignKey(notFound)
            ==> r == Err(Service(NotFound, DbErrors.NoUserWithId))
    ensures id in old(db.users) && email.Some? && EmailClash(old(db.users), id, email.value)
            ==> r == Err(Service(ValidationFailed, DbErrors.EmailExists))
    ensures r.Ok? <==> id in old(db.users) && !(email.Some? && EmailClash(old(db.users), id, email.value))
    ensures r.Ok? ==> var before := old(db.users)[id];
                      var after := before.(name := if name.Some? then name.value else before.name,
                                           email := if email.Some? then email.value else before.email);
                      db.users == old(db.users)[id := after] && r.value == MakeExposedUser(id, after)
    ensures r.Err? ==> db.users == old(db.users)
    ensures db.teams == old(db.teams) && db.players == old(db.players) && db.stats == old(db.stats)
  {
    if id !in db.users {
      if Contains(notFound, "user") && !DbErrors.NamesForeignKey(notFound) {
        DbErrors.NotFoundNamesUser(notFound);
      }
      return Err(DbErrors.HandleDBError(Db(RecordMissing(notFound))));
    }
    if email.Some? && EmailClash(db.users, id, email.value) {
      EmailIndexError();
      return Err(DbErrors.HandleDBError(Db(UniqueFailed(EmailIndex))));
    }
    var before := db.users[id];
    var after := before.(name := if name.Some? then name.value else before.name,
                         email := if email.Some? then email.value else before.email);
    db.users := db.users[id := after];
    forall u | u in db.users
      ensures !EmailClash(db.users, u, db.users[u].email)
    {
      if u != id {
        assert !EmailClash(old(db.users), u, db.users[u].email);
      }
    }
    r := Ok(MakeExposedUser(id, after));
  }

  /**
    * `deleteById`: removes exactly that user; an unknown id is the mapper's
    * record-not-found error, with message `notFound`, as `handleDBError`
    * translates it.
    */
  method DeleteById(db: Db, id: int, notFound: string) returns (r: Outcome)
    requires db.Valid()
    modifies db
    ensures db.Valid()
    ensures r.Pass? <==> id in old(db.users)
    ensures r.Pass? ==> db.users == old(db.users) - {id}
    ensures r.Fail? ==> r.error == DbErrors.HandleDBError(Db(RecordMissing(notFound))) && db.users == old(db.users)
    ensures r.Fail? && Contains(notFound, "user") && !DbErrors.NamesForeignKey(notFound)
            ==> r.error == Service(NotFound, DbErrors.NoUserWithId)
    ensures db.teams == old(db.teams) && db.players == old(db.players) && db.stats == old(db.stats)
  {
    if id !in db.users {
      if Contains(notFound, "user") && !DbErrors.NamesForeignKey(notFound) {
        DbErrors.NotFoundNamesUser(notFound);
      }
      return Fail(DbErrors.HandleDBError(Db(RecordMissing(notFound))));
    }
    db.users := db.users - {id};
    r := Pass;
  }
}
