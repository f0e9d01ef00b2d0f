/** Role-based access (middleware/roleMiddleware.js): `verifyRole(allowed)` lets a
    request through when the caller's role is one of the allowed ones, taking the
    role from the access token and reading the User collection only when the token
    carries none. */
module Roles {
  import opened Outcomes
  import opened Tokens
  import opened Users

  /** The argument of `verifyRole`: omitted (an empty list), one role, or a list. */
  datatype Allowed = NoRoles | OneRole(role: string) | RoleList(roles: seq<string>)

  function AllowedRoles(a: Allowed): (rs: seq<string>)
    ensures a.NoRoles? ==> rs == []
    ensures a.OneRole? ==> rs == [a.role]
    ensures a.RoleList? ==> rs == a.roles
  {
    match a
    case NoRoles => []
    case OneRole(r) => [r]
    case RoleList(rs) => rs
  }

  /** What the middleware attaches as `req.user`. */
  datatype ReqUser = ReqUser(id: string, role: string)

  const MsgUnauthorized := "Unauthorized"
  const MsgInsufficient := "Insufficient privileges"

  /** The role the middleware decides on: the token's when it is truthy, otherwise
      the stored user's; `None` when it has to look the user up and finds nobody. */
  function EffectiveRole(t: Jwt, users: UserStore): Option<string> {
    if Truthy(t.role) then t.role
    else
      match FindById(users, t.aud)
      case None => None
      case Some(j) => Some(users[j].role)
  }

  /** The middleware returned by `verifyRole(allowed)`, applied to `req.payload`
      (`None` when no token was verified). Looking up an audience that is not an
      ObjectId makes Mongoose throw, which is passed on. */
  function VerifyRole(allowed: Allowed, payload: Option<Jwt>, users: UserStore): (r: Result<ReqUser>)
    ensures payload.None? ==> r == Err(Unauthorized(MsgUnauthorized))
    ensures payload.Some? && payload.value.aud == "" ==> r == Err(Unauthorized(MsgUnauthorized))
    ensures r.Ok? ==> payload.Some? && r.value.id == payload.value.aud && r.value.role in AllowedRoles(allowed)
    ensures allowed.NoRoles? ==> r.Err?
    ensures (payload.Some? && Truthy(payload.value.role)) ==>
              (r.Ok? <==> payload.value.aud != "" && payload.value.role.value in AllowedRoles(allowed))
    ensures r.Ok? && Truthy(payload.value.role) ==> r.value.role == payload.value.role.value
  {
    if payload.None? || payload.value.aud == "" then Err(Unauthorized(MsgUnauthorized))
    else
      var t := payload.value;
      var role :- if Truthy(t.role) then Ok(t.role.value)
                  else if !ValidObjectId(t.aud) then Err(Internal(MsgCastError))
                  else match FindById(users, t.aud)
                       case None => Err(Unauthorized(MsgUnauthorized))
                       case Some(j) => Ok(users[j].role);
      if role !in AllowedRoles(allowed) then Err(Forbidden(MsgInsufficient))
      else Ok(ReqUser(t.aud, role))
  }

  /** The gate in one statement: a request passes exactly when it carries a token
      with an audience, whose effective role (token first, then database) exists
      and is allowed; a token with a truthy role never needs the database, and a
      missing user or a disallowed role are told apart by status. */
  lemma VerifyRoleIff(allowed: Allowed, t: Jwt, users: UserStore)
    requires t.aud != ""
    ensures var r := VerifyRole(allowed, Some(t), users);
            var eff := EffectiveRole(t, users);
            && (r.Ok? <==> (Truthy(t.role) || ValidObjectId(t.aud)) && eff.Some? && eff.value in AllowedRoles(allowed))
            && (r.Ok? ==> r.value == ReqUser(t.aud, eff.value))
            && ((Truthy(t.role) || ValidObjectId(t.aud)) && eff.None? ==> r == Err(Unauthorized(MsgUnauthorized)))
            && ((Truthy(t.role) || ValidObjectId(t.aud)) && eff.Some? && eff.value !in AllowedRoles(allowed) ==>
                  r == Err(Forbidden(MsgInsufficient)))
  {
  }

  /** A truthy role in the token decides alone: the stored users, and the role
      stored for the caller, make no difference. */
  lemma TokenRoleWins(allowed: Allowed, t: Jwt, users: UserStore, users': UserStore)
    requires Truthy(t.role)
    ensures VerifyRole(allowed, Some(t), users) == VerifyRole(allowed, Some(t), users')
  {
  }

  /** The sales-report route runs `verifyAccessToken` and then `verifyRole('admin')`:
      it reaches the controller only with a live access token whose effective
      role is "admin". */
  function AdminGate(header: Option<string>, decode: string -> Option<Jwt>, now: int, users: UserStore): (r: Result<ReqUser>)
    ensures r.Ok? ==> && VerifyAccessToken(header, decode, now).Ok?
                      && r.value.role == "admin"
                      && r.value.id == VerifyAccessToken(header, decode, now).value.aud
    ensures VerifyAccessToken(header, decode, now).Err? ==> r == Err(VerifyAccessToken(header, decode, now).error)
  {
    var t :- VerifyAccessToken(header, decode, now);
    VerifyRole(OneRole("admin"), Some(t), users)
  }

  /** An access token signed with role "user" never reaches the report, whatever
      the database says. */
  lemma UserTokenNeverAdmin(header: Option<string>, decode: string -> Option<Jwt>, now: int, users: UserStore)
    requires VerifyAccessToken(header, decode, now).Ok?
    requires VerifyAccessToken(header, decode, now).value.role == Some("user")
    ensures AdminGate(header, decode, now, users).Err?
  {
  }
}
