/**
  * rest/user.ts: the `/users` routes as ordered middleware chains. Each
  * step either hands the request context on, stops the chain with an
  * error, or (the final handler) answers the request. `checkUserId` lets a
  * caller past only for `me`, their own id, or with the admin role.
  */
module UserRoutes {
  import opened Text
  import opened Errors
  import opened Store
  import UserService

  /**
    * The `:id` route parameter. Before validation it is the raw path text;
    * validation turns it into `me` or a positive number.
    */
  datatype IdParam = Raw(text: string) | Me | UserId(n: int)

  const ForbiddenStatus := 403
  const ForbiddenCode := "FORBIDDEN"
  const NotYourRecord := "You are not allowed to view this user's information"

  /** The report of a request the validation middleware rejects. */
  const InvalidRequest := "Validation failed"

  /** The stopped request when a step reads a session no earlier step stored. */
  const NoSession := "Cannot destructure 'ctx.state.session' as it is undefined."

  /**
    * `checkUserId`: `id !== 'me' && id !== userId && !roles.includes(ADMIN)`
    * rejects. A converted id is compared with the session's numeric user
    * id; an unconverted path string is never strictly equal to a number.
    */
  function CheckUserId(session: UserService.SessionInfo, id: IdParam): (r: Outcome)
    ensures r.Pass? <==> id == Raw("me") || id.Me? || (id.UserId? && session.userId == Finite(id.n))
                         || ADMIN in session.roles
    ensures r.Fail? ==> r.error == Http(ForbiddenStatus, ForbiddenCode, NotYourRecord)
  {
    var isMe := match id
      case Raw(text) => text == "me"
      case Me => true
      case UserId(n) => false;
    var isOwn := match id
      case UserId(n) => session.userId == Finite(n)
      case _ => false;
    if !isMe && !isOwn && ADMIN !in session.roles then Fail(Http(ForbiddenStatus, ForbiddenCode, NotYourRecord))
    else Pass
  }

  /** `me` passes whatever the session holds. */
  lemma MePasses(session: UserService.SessionInfo)
    ensures CheckUserId(session, Me) == Pass
  {
  }

  /** An admin passes for every id. */
  lemma AdminPassesAnyId(session: UserService.SessionInfo, id: IdParam)
    requires ADMIN in session.roles
    ensures CheckUserId(session, id) == Pass
  {
  }

  /** Without the admin role, a numeric id passes exactly when it is the caller's own. */
  lemma NonAdminOwnIdOnly(session: UserService.SessionInfo, n: int)
    requires ADMIN !in session.roles
    ensures CheckUserId(session, UserId(n)).Pass? <==> session.userId == Finite(n)
  {
  }

  /** `getUserById` looks up the session's user for `me`, the given id otherwise. */
  function ResolveUserId(session: UserService.SessionInfo, id: IdParam): (r: JsNumber)
    requires !id.Raw?
    ensures id.Me? ==> r == session.userId
    ensures id.UserId? ==> r == Finite(id.n)
  {
    if id.Me? then session.userId else Finite(id.n)
  }

  /** What a route validates in the `:id` parameter. */
  datatype ParamRule =
    | NoParam        // the route has no `:id`, or its scheme is `null`
    | MeOrPositive   // `Joi.alternatives(number().integer().positive(), 'me')`
    | PositiveOnly   // `Joi.number().integer().positive()`

  /** A positive integer written in decimal digits. */
  function ParsePositive(text: string): (r: Option<int>)
    ensures r.Some? <==> AllDigits(text) && DecimalValue(text) > 0
    ensures r.Some? ==> r.value == DecimalValue(text) && r.value > 0
  {
    if AllDigits(text) && DecimalValue(text) > 0 then Some(DecimalValue(text)) else None
  }

  function ValidateParam(rule: ParamRule, text: string): (r: Option<IdParam>)
    ensures rule.NoParam? ==> r == Some(Raw(text))
    ensures rule.MeOrPositive? ==> (r.Some? <==> text == "me" || ParsePositive(text).Some?)
    ensures rule.PositiveOnly? ==> (r.Some? <==> ParsePositive(text).Some?)
    ensures r.Some? && !rule.NoParam? ==> !r.value.Raw?
    ensures r.Some? && r.value.UserId? ==> Some(r.value.n) == ParsePositive(text)
    ensures r.Some? && r.value.Me? ==> rule.MeOrPositive? && text == "me"
  {
    match rule
    case NoParam => Some(Raw(text))
    case MeOrPositive =>
      if text == "me" then Some(Me)
      else if ParsePositive(text).Some? then Some(UserId(ParsePositive(text).value))
      else None
    case PositiveOnly =>
      if ParsePositive(text).Some? then Some(UserId(ParsePositive(text).value))
      else None
  }

  /**
    * The parts of a request the chains look at. `inputValid` says whether
    * the body and the query string hold only what the route's scheme
    * allows; a scheme of `null` allows neither a body key nor a query key.
    */
  datatype Request = Request(authHeader: Option<string>, idText: string, inputValid: bool)

  /** `ctx.state.session` and `ctx.params.id` as the chain builds them up. */
  datatype Ctx = Ctx(session: Option<UserService.SessionInfo>, id: IdParam)

  function Initial(req: Request): Ctx {
    Ctx(None, Raw(req.idText))
  }

  datatype Step =
    | AuthDelay
    | RequireAuthentication
    | RequireRole(role: string)
    | Validate(rule: ParamRule)
    | CheckUserIdStep
    | Handler

  /** How far a request got: still going, stopped with an error, or answered by the handler. */
  datatype Progress = Continue(ctx: Ctx) | Stop(error: Error) | Reached(final: Ctx)

  /** One middleware step. */
  function RunStep(step: Step, req: Request, verify: string -> UserService.VerifyOutcome, ctx: Ctx): (r: Progress)
    ensures step.Handler? ==> r == Reached(ctx)
    ensures r.Continue? ==> r.ctx.session.Some? || r.ctx.session == ctx.session
    ensures r.Reached? ==> step.Handler?
  {
    match step
    case AuthDelay => Continue(ctx)
    case RequireAuthentication =>
      var auth := UserService.CheckAndParseSession(req.authHeader, verify);
      if auth.Ok? then Continue(ctx.(session := Some(auth.value))) else Stop(auth.error)
    case RequireRole(role) =>
      if ctx.session.None? then Stop(TypeError(NoSession))
      else
        var check := UserService.CheckRole(role, ctx.session.value.roles);
        if check.Pass? then Continue(ctx) else Stop(check.error)
    case Validate(rule) =>
      var id := ValidateParam(rule, req.idText);
      if id.None? || !req.inputValid then Stop(Service(ValidationFailed, InvalidRequest))
      else Continue(ctx.(id := id.value))
    case CheckUserIdStep =>
      if ctx.session.None? then Stop(TypeError(NoSession))
      else
        var check := CheckUserId(ctx.session.value, ctx.id);
        if check.Pass? then Continue(ctx) else Stop(check.error)
    case Handler => Reached(ctx)
  }

  /** The chain run step by step; the first step that does not continue decides. */
  function Run(chain: seq<Step>, req: Request, verify: string -> UserService.VerifyOutcome, ctx: Ctx): (r: Progress)
    ensures r.Reached? ==> Handler in chain
    ensures Handler !in chain ==> !r.Reached?
    decreases |chain|
  {
    if chain == [] then Continue(ctx)
    else
      var step := RunStep(chain[0], req, verify, ctx);
      if step.Continue? then Run(chain[1..], req, verify, step.ctx) else step
  }

  /** Running a chain in two pieces is running it whole. */
  lemma {:induction false} RunAppend(a: seq<Step>, b: seq<Step>, req: Request,
                                     verify: string -> UserService.VerifyOutcome, ctx: Ctx)
    ensures var first := Run(a, req, verify, ctx);
            Run(a + b, req, verify, ctx) == if first.Continue? then Run(b, req, verify, first.ctx) else first
    decreases |a|
  {
    if a == [] {
      assert a + b == b;
    } else {
      assert (a + b)[0] == a[0];
      assert (a + b)[1..] == a[1..] + b;
      var step := RunStep(a[0], req, verify, ctx);
      if step.Continue? {
        RunAppend(a[1..], b, req, verify, step.ctx);
      }
    }
  }

  /** The router runs a route's middleware in order, moving on only while each step continues. */
  method RunChain(chain: seq<Step>, req: Request, verify: string -> UserService.VerifyOutcome) returns (r: Progress)
    ensures r == Run(chain, req, verify, Initial(req))
  {
    var ctx := Initial(req);
    var i := 0;
    while i < |chain|
      invariant 0 <= i <= |chain|
      invariant Run(chain, req, verify, Initial(req)) == Run(chain[i..], req, verify, ctx)
      decreases |chain| - i
    {
      var step := RunStep(chain[i], req, verify, ctx);
      assert chain[i..][0] == chain[i];
      assert chain[i..][1..] == chain[i + 1..];
      if !step.Continue? {
        return step;
      }
      ctx := step.ctx;
      i := i + 1;
    }
    r := Continue(ctx);
  }

  /** `router.post('/', authDelay, validate(registerUser.validationScheme), registerUser)`. */
  const RegisterChain := [AuthDelay, Validate(NoParam), Handler]
  /** `router.get('/', requireAuthentication, requireAdmin, validate(null), getAllUsers)`. */
  const ListUsersChain := [RequireAuthentication, RequireRole(ADMIN), Validate(NoParam), Handler]
  /** `router.get('/:id', requireAuthentication, validate(...), checkUserId, getUserById)`. */
  const GetUserChain := [RequireAuthentication, Validate(MeOrPositive), CheckUserIdStep, Handler]
  /** `router.put('/:id', requireAuthentication, validate(...), checkUserId, updateUserById)`. */
  const UpdateUserChain := [RequireAuthentication, Validate(PositiveOnly), CheckUserIdStep, Handler]
  /** `router.delete('/:id', requireAuthentication, validate(...), checkUserId, deleteUserById)`. */
  const DeleteUserChain := [RequireAuthentication, Validate(PositiveOnly), CheckUserIdStep, Handler]

  /** Registration needs no session: only the body and query decide whether the handler runs. */
  lemma RegisterNeedsNoSession(req: Request, verify: string -> UserService.VerifyOutcome)
    ensures Run(RegisterChain, req, verify, Initial(req)) ==
            if req.inputValid then Reached(Initial(req)) else Stop(Service(ValidationFailed, InvalidRequest))
  {
    assert RegisterChain[1..] == [Validate(NoParam), Handler];
    assert RegisterChain[2..] == [Handler];
  }

  /**
    * Listing users: an authentication failure stops the chain with that
    * error, a non-admin is refused, an admin's request with a body or query
    * key is a validation error, and the handler runs exactly for an
    * authenticated admin whose request carries nothing extra.
    */
  lemma ListUsersNeedsAdmin(req: Request, verify: string -> UserService.VerifyOutcome)
    ensures var auth := UserService.CheckAndParseSession(req.authHeader, verify);
            && (auth.Err? ==> Run(ListUsersChain, req, verify, Initial(req)) == Stop(auth.error))
            && (auth.Ok? && ADMIN !in auth.value.roles ==>
                  Run(ListUsersChain, req, verify, Initial(req)) == Stop(Service(Forbidden, UserService.NotAllowed)))
            && (auth.Ok? && ADMIN in auth.value.roles && !req.inputValid ==>
                  Run(ListUsersChain, req, verify, Initial(req)) == Stop(Service(ValidationFailed, InvalidRequest)))
            && (Run(ListUsersChain, req, verify, Initial(req)).Reached? <==>
                  auth.Ok? && ADMIN in auth.value.roles && req.inputValid)
  {
    var auth := UserService.CheckAndParseSession(req.authHeader, verify);
    var rest := [RequireRole(ADMIN), Validate(NoParam), Handler];
    assert ListUsersChain == [RequireAuthentication] + rest;
    RunAppend([RequireAuthentication], rest, req, verify, Initial(req));
    assert Run([RequireAuthentication], req, verify, Initial(req)) == RunStep(RequireAuthentication, req, verify, Initial(req));
    if auth.Ok? {
      var c := Initial(req).(session := Some(auth.value));
      assert rest[1..] == [Validate(NoParam), Handler];
      assert rest[1..][1..] == [Handler];
      if ADMIN in auth.value.roles && req.inputValid {
        var c2 := c.(id := Raw(req.idText));
        assert Run([Handler], req, verify, c2) == Reached(c2);
        assert Run(rest[1..], req, verify, c) == Run([Handler], req, verify, c2);
      }
      assert Run(rest, req, verify, c) == if ADMIN !in auth.value.roles then Stop(Service(Forbidden, UserService.NotAllowed))
                                          else if req.inputValid then Reached(c.(id := Raw(req.idText)))
                                          else Stop(Service(ValidationFailed, InvalidRequest));
    }
  }

  /** The chains for one user's record: authenticate, validate the id, `checkUserId`, then the handler. */
  predicate ByIdChain(chain: seq<Step>) {
    chain == GetUserChain || chain == UpdateUserChain || chain == DeleteUserChain
  }

  /** After authentication, a by-id chain validates the id, runs `checkUserId`, and answers. */
  lemma GuardedTail(rule: ParamRule, req: Request, verify: string -> UserService.VerifyOutcome,
                    session: UserService.SessionInfo)
    ensures var id := ValidateParam(rule, req.idText);
            var r := Run([Validate(rule), CheckUserIdStep, Handler], req, verify, Ctx(Some(session), Raw(req.idText)));
            && (r.Reached? <==> id.Some? && req.inputValid && CheckUserId(session, id.value).Pass?)
            && (r.Reached? ==> r.final == Ctx(Some(session), id.value))
  {
    var tail := [Validate(rule), CheckUserIdStep, Handler];
    var ctx := Ctx(Some(session), Raw(req.idText));
    var id := ValidateParam(rule, req.idText);
    assert tail[1..] == [CheckUserIdStep, Handler];
    assert tail[1..][1..] == [Handler];
    if id.Some? && req.inputValid {
      var validated := ctx.(id := id.value);
      assert Run(tail, req, verify, ctx) == Run(tail[1..], req, verify, validated);
      if CheckUserId(session, id.value).Pass? {
        assert Run(tail[1..], req, verify, validated) == Run([Handler], req, verify, validated);
        assert Run([Handler], req, verify, validated) == Reached(validated);
      }
    }
  }

  /**
    * The handler of a by-id route runs exactly when the caller is signed
    * in, the id validates, the body and query hold nothing the route's
    * scheme forbids, and checkUserId lets the caller through.
    */
  lemma {:induction false} ByIdReached(chain: seq<Step>, req: Request, verify: string -> UserService.VerifyOutcome)
    requires ByIdChain(chain)
    ensures var auth := UserService.CheckAndParseSession(req.authHeader, verify);
            var id := ValidateParam(chain[1].rule, req.idText);
            var r := Run(chain, req, verify, Initial(req));
            && (auth.Err? ==> r == Stop(auth.error))
            && (r.Reached? <==> auth.Ok? && id.Some? && req.inputValid
                                && CheckUserId(auth.value, id.value).Pass?)
            && (r.Reached? ==> r.final == Ctx(Some(auth.value), id.value))
  {
    var auth := UserService.CheckAndParseSession(req.authHeader, verify);
    var rest := chain[1..];
    assert chain == [RequireAuthentication] + rest;
    assert rest == [Validate(chain[1].rule), CheckUserIdStep, Handler];
    RunAppend([RequireAuthentication], rest, req, verify, Initial(req));
    assert Run([RequireAuthentication], req, verify, Initial(req)) == RunStep(RequireAuthentication, req, verify, Initial(req));
    if auth.Ok? {
      GuardedTail(chain[1].rule, req, verify, auth.value);
    }
  }

  /** A caller without the admin role reaches a by-id handler only for their own record. */
  lemma NonAdminOwnRecordOnly(chain: seq<Step>, req: Request, verify: string -> UserService.VerifyOutcome)
    requires ByIdChain(chain)
    requires Run(chain, req, verify, Initial(req)).Reached?
    ensures var final := Run(chain, req, verify, Initial(req)).final;
            && final.session.Some? && !final.id.Raw?
            && (ADMIN !in final.session.value.roles ==>
                  ResolveUserId(final.session.value, final.id) == final.session.value.userId)
  {
    ByIdReached(chain, req, verify);
  }

  /** Updating and deleting never accept `me`: their handler always sees a positive number. */
  lemma WritesNeedNumericId(chain: seq<Step>, req: Request, verify: string -> UserService.VerifyOutcome)
    requires chain == UpdateUserChain || chain == DeleteUserChain
    requires Run(chain, req, verify, Initial(req)).Reached?
    ensures var id := Run(chain, req, verify, Initial(req)).final.id;
            id.UserId? && id.n > 0 && Some(id.n) == ParsePositive(req.idText)
  {
    ByIdReached(chain, req, verify);
  }
}
