/** Accounts (controllers/authController.js): registration, login, refreshing the
    token pair, and the forgotten-password flow built on one-time reset tokens.

    The User collection and the symbolic bcrypt digests are those of `Users`; the
    tokens, and the reset-token store, are those of `Tokens`. New user ids come
    from Mongoose and are a parameter. A token's text in a request body is turned
    into a token by a `decode` parameter, and a token is written into a reset link
    by an `encode` parameter. */
module Auth {
  import opened Outcomes
  import opened Tokens
  import opened Users

  const DefaultRole := "client"

  const MsgRegisterRequired := "username, email, password required"
  const MsgEmailInUse := "Email already in use"
  const MsgLoginRequired := "email and password required"
  const MsgInvalidCredentials := "Invalid credentials"
  const MsgRefreshRequired := "refreshToken required"
  const MsgEmailRequired := "email required"
  const MsgResetSent := "If that account exists, a reset link has been sent"
  const MsgResetRequired := "token and newPassword required"
  const MsgResetDone := "Password reset successful"

  // ---------------------------------------------------------------------------
  // register

  /** The body of `register`; `role` is read by nobody. */
  datatype RegisterBody = RegisterBody(username: Option<string>, email: Option<string>, password: Option<string>, role: Option<string>)

  datatype Registration = Registration(result: Result<PublicUser>, store: UserStore)

  function Register(b: RegisterBody, newId: string, st: UserStore): (g: Registration)
    ensures !Truthy(b.username) || !Truthy(b.email) || !Truthy(b.password) ==>
              g == Registration(Err(BadRequest(MsgRegisterRequired)), st)
    ensures (Truthy(b.username) && Truthy(b.email) && Truthy(b.password) && FindByEmail(st, b.email.value).Some?) ==>
              g == Registration(Err(Conflict(MsgEmailInUse)), st)
    ensures g.result.Err? ==> g.store == st
    ensures g.result.Ok? <==> (Truthy(b.username) && Truthy(b.email) && Truthy(b.password)
                               && forall j :: 0 <= j < |st| ==> st[j].email != b.email.value)
    ensures g.result.Ok? ==> && g.store == st + [User(newId, b.username.value, b.email.value, Some(Hash(b.password.value)), DefaultRole)]
                             && g.result.value == PublicUser(newId, b.username.value, b.email.value, DefaultRole)
  {
    if !Truthy(b.username) || !Truthy(b.email) || !Truthy(b.password) then Registration(Err(BadRequest(MsgRegisterRequired)), st)
    else if FindByEmail(st, b.email.value).Some? then Registration(Err(Conflict(MsgEmailInUse)), st)
    else
      var u := User(newId, b.username.value, b.email.value, Some(Hash(b.password.value)), DefaultRole);
      Registration(Ok(Public(u)), st + [u])
  }

  /** The `role` a client sends makes no difference: every new account is a
      "client". */
  lemma RegisterIgnoresRole(b: RegisterBody, role: Option<string>, newId: string, st: UserStore)
    ensures Register(b.(role := role), newId, st) == Register(b, newId, st)
    ensures Register(b, newId, st).result.Ok? ==> Register(b, newId, st).result.value.role == DefaultRole
  {
  }

  /** With a fresh id, registering keeps ids and emails unique. */
  lemma RegisterPreservesWellFormed(b: RegisterBody, newId: string, st: UserStore)
    requires WellFormed(st)
    requires forall j :: 0 <= j < |st| ==> st[j].id != newId
    ensures WellFormed(Register(b, newId, st).store)
  {
    var g := Register(b, newId, st);
    if g.result.Ok? {
      var st' := g.store;
      forall i, j | 0 <= i < j < |st'|
        ensures st'[i].id != st'[j].id && st'[i].email != st'[j].email
      {
        if j == |st| {
          assert st'[i] == st[i];
        } else {
          assert st'[i] == st[i] && st'[j] == st[j];
        }
      }
    }
  }

  // ---------------------------------------------------------------------------
  // login

  datatype Session = Session(accessToken: Jwt, refreshToken: Jwt, user: PublicUser)

  /** Access and refresh tokens for a user, the access token carrying the role. */
  function Issue(u: User, now: int): (s: Session)
    ensures s.accessToken.aud == u.id && s.refreshToken.aud == u.id
    ensures s.accessToken.role == Some(u.role) && s.accessToken.key == AccessKey && s.refreshToken.key == RefreshKey
    ensures s.user == Public(u)
  {
    Session(SignAccessToken(u.id, Some(u.role), now), SignRefreshToken(u.id, now), Public(u))
  }

  /** `bcrypt.compare`'s refusal when the stored password is missing. */
  const MsgIllegalArguments := "Illegal arguments: string, undefined"

  function Login(email: Option<string>, password: Option<string>, now: int, st: UserStore): (r: Result<Session>)
    ensures !Truthy(email) || !Truthy(password) ==> r == Err(BadRequest(MsgLoginRequired))
    ensures r.Err? ==> r.error in {BadRequest(MsgLoginRequired), Unauthorized(MsgInvalidCredentials), Internal(MsgIllegalArguments)}
    ensures r == Err(Internal(MsgIllegalArguments)) <==>
              && Truthy(email) && Truthy(password) && FindByEmail(st, email.value).Some?
              && st[FindByEmail(st, email.value).value].password.None?
    ensures r.Ok? <==> && Truthy(email) && Truthy(password) && FindByEmail(st, email.value).Some?
                       && st[FindByEmail(st, email.value).value].password.Some?
                       && Matches(password.value, st[FindByEmail(st, email.value).value].password.value)
    ensures r.Ok? ==> r.value == Issue(st[FindByEmail(st, email.value).value], now)
  {
    if !Truthy(email) || !Truthy(password) then Err(BadRequest(MsgLoginRequired))
    else
      match FindByEmail(st, email.value)
      case None => Err(Unauthorized(MsgInvalidCredentials))
      case Some(j) =>
        match st[j].password
        case None => Err(Internal(MsgIllegalArguments))
        case Some(stored) =>
          if !Matches(password.value, stored) then Err(Unauthorized(MsgInvalidCredentials))
          else Ok(Issue(st[j], now))
  }

  /** An unknown email and a wrong password get the same reply, so the reply does
      not tell whether an account exists, as long as it has a password. */
  lemma LoginDoesNotRevealAccounts(email: string, password: string, now: int, st: UserStore)
    requires email != "" && password != ""
    requires || FindByEmail(st, email).None?
             || (st[FindByEmail(st, email).value].password.Some?
                 && !Matches(password, st[FindByEmail(st, email).value].password.value))
    ensures Login(Some(email), Some(password), now, st) == Err(Unauthorized(MsgInvalidCredentials))
  {
  }

  /** Right after registering, the account logs in with its password, and with
      another password exactly when bcrypt sees the same key. */
  lemma RegisterThenLogin(b: RegisterBody, newId: string, st: UserStore, other: string, now: int)
    requires Register(b, newId, st).result.Ok?
    requires other != ""
    ensures var st' := Register(b, newId, st).store;
            && Login(b.email, b.password, now, st') == Ok(Issue(st'[|st|], now))
            && Login(b.email, b.password, now, st').value.user == Register(b, newId, st).result.value
            && (Login(b.email, Some(other), now, st').Ok? <==> BcryptKey(other) == BcryptKey(b.password.value))
            && (BcryptKey(other) != BcryptKey(b.password.value) ==>
                  Login(b.email, Some(other), now, st') == Err(Unauthorized(MsgInvalidCredentials)))
  {
    var st' := Register(b, newId, st).store;
    var found := FindByEmail(st', b.email.value);
    assert st'[|st|].email == b.email.value;
    assert forall i :: 0 <= i < |st| ==> st'[i] == st[i];
    assert found == Some(|st|);
  }

  /** bcrypt's 72-byte limit in practice: an account registered with a long ASCII
      password of 72 characters or more also logs in with that password
      followed by anything, while no ASCII password shorter than 72 characters
      gets in, when neither contains a NUL character. */
  lemma LongPasswordLoginIgnoresSuffix(b: RegisterBody, newId: string, st: UserStore, suffix: string,
                                       other: string, now: int)
    requires Register(b, newId, st).result.Ok?
    requires IsAscii(b.password.value) && NulFree(b.password.value) && |b.password.value| >= BcryptMaxBytes
    requires IsAscii(other) && NulFree(other) && 0 < |other| < BcryptMaxBytes
    ensures var st' := Register(b, newId, st).store;
            && Login(b.email, Some(b.password.value + suffix), now, st').Ok?
            && Login(b.email, Some(other), now, st') == Err(Unauthorized(MsgInvalidCredentials))
  {
    var pw := b.password.value;
    LongPasswordKeyIgnoresSuffix(pw, suffix);
    RegisterThenLogin(b, newId, st, pw + suffix, now);
    AsciiKeyAt(other, |other|);
    AsciiKeyAt(pw, |other|);
    RegisterThenLogin(b, newId, st, other, now);
  }

  /** The NUL bcryptjs appends in practice: an account registered with "ab"
      also logs in with "ab", NUL, "ab". */
  lemma NulPasswordLogsIn(b: RegisterBody, newId: string, st: UserStore, now: int)
    requires Register(b, newId, st).result.Ok? && b.password == Some("ab")
    ensures Login(b.email, Some("ab\0ab"), now, Register(b, newId, st).store).Ok?
  {
    NulPasswordsCollide();
    RegisterThenLogin(b, newId, st, "ab\0ab", now);
  }

  /** A user found by id is the one found by its email when emails are unique,
      and stays so while no email changes. */
  lemma FoundByEmail(st: UserStore, st': UserStore, j: nat)
    requires WellFormed(st) && j < |st| && |st'| == |st|
    requires forall k :: 0 <= k < |st| ==> st'[k].email == st[k].email
    ensures FindByEmail(st', st[j].email) == Some(j)
  {
    assert st'[j].email == st[j].email;
  }

  /** What `updateUser` lets through: any caller holding an access token can
      send `{"$set": {"password": <digest of a password they chose>}}` for
      another user's id, and then log in as that user with that password. */
  lemma UpdateTakesOverAccount(id: string, st: UserStore, chosen: string, now: int)
    requires WellFormed(st) && ValidObjectId(id) && FindById(st, id).Some?
    requires chosen != "" && st[FindById(st, id).value].email != ""
    ensures var j := FindById(st, id).value;
            var st' := UpdateUser(id, Update(map[], map["password" := Hash(chosen)], {}), st).store;
            && st'[j].password == Some(Hash(chosen))
            && Login(Some(st[j].email), Some(chosen), now, st').Ok?
            && Login(Some(st[j].email), Some(chosen), now, st').value.user.id == id
  {
    var j := FindById(st, id).value;
    var st' := UpdateUser(id, Update(map[], map["password" := Hash(chosen)], {}), st).store;
    FoundByEmail(st, st', j);
  }

  /** An update whose `$unset` names `password` leaves an account no password
      can open: every login to it fails inside `bcrypt.compare`. */
  lemma RemovedPasswordBreaksLogin(id: string, st: UserStore, password: string, now: int)
    requires WellFormed(st) && ValidObjectId(id) && FindById(st, id).Some?
    requires password != "" && st[FindById(st, id).value].email != ""
    ensures var j := FindById(st, id).value;
            var st' := UpdateUser(id, Update(map[], map[], {"password"}), st).store;
            Login(Some(st[j].email), Some(password), now, st') == Err(Internal(MsgIllegalArguments))
  {
    var j := FindById(st, id).value;
    var st' := UpdateUser(id, Update(map[], map[], {"password"}), st).store;
    FoundByEmail(st, st', j);
  }

  // ---------------------------------------------------------------------------
  // refreshToken

  datatype TokenPair = TokenPair(accessToken: Jwt, refreshToken: Jwt)

  /** The body's `refreshToken` is present and decodes to a live refresh token. */
  predicate RefreshVerified(text: Option<string>, decode: string -> Option<Jwt>, now: int) {
    Truthy(text) && decode(text.value).Some? && VerifyRefreshToken(decode(text.value).value, now).Ok?
  }

  /** `refreshToken`: a valid refresh token for an existing user is exchanged for a
      new pair, the access token carrying the user's current role. */
  function Refresh(text: Option<string>, decode: string -> Option<Jwt>, now: int, st: UserStore): (r: Result<TokenPair>)
    ensures !Truthy(text) ==> r == Err(BadRequest(MsgRefreshRequired))
    ensures r.Ok? ==> && Truthy(text) && decode(text.value).Some?
                      && VerifyRefreshToken(decode(text.value).value, now).Ok?
                      && var id := decode(text.value).value.aud;
                         && FindById(st, id).Some?
                         && r.value.accessToken == SignAccessToken(id, Some(st[FindById(st, id).value].role), now)
                         && r.value.refreshToken == SignRefreshToken(id, now)
    ensures Truthy(text) && decode(text.value).None? ==> r == Err(Unauthorized("Unauthorized"))
    ensures Truthy(text) && decode(text.value).Some? && VerifyRefreshToken(decode(text.value).value, now).Err? ==>
              r == Err(Unauthorized("Unauthorized"))
    ensures RefreshVerified(text, decode, now) && !ValidObjectId(decode(text.value).value.aud) ==>
              r == Err(Internal(MsgCastError))
    ensures RefreshVerified(text, decode, now) && ValidObjectId(decode(text.value).value.aud)
            && FindById(st, decode(text.value).value.aud).None? ==>
              r == Err(Unauthorized("Unauthorized"))
    ensures r.Ok? <==> && RefreshVerified(text, decode, now)
                       && ValidObjectId(decode(text.value).value.aud)
                       && FindById(st, decode(text.value).value.aud).Some?
  {
    if !Truthy(text) then Err(BadRequest(MsgRefreshRequired))
    else
      match decode(text.value)
      case None => Err(Unauthorized("Unauthorized"))
      case Some(t) =>
        var id :- VerifyRefreshToken(t, now);
        if !ValidObjectId(id) then Err(Internal(MsgCastError))
        else
          match FindById(st, id)
          case None => Err(Unauthorized("Unauthorized"))
          case Some(j) => Ok(TokenPair(SignAccessToken(id, Some(st[j].role), now), SignRefreshToken(id, now)))
  }

  /** The refresh token handed out at login buys, until it expires, a new access
      token carrying the user's role at the time of the refresh. */
  lemma LoginThenRefresh(email: Option<string>, password: Option<string>, now: int, later: int, st: UserStore,
                         text: string, decode: string -> Option<Jwt>)
    requires Login(email, password, now, st).Ok?
    requires text != ""
    requires decode(text) == Some(Login(email, password, now, st).value.refreshToken)
    requires now <= later < now + RefreshTtl
    requires ValidObjectId(Login(email, password, now, st).value.user.id)
    ensures var id := Login(email, password, now, st).value.user.id;
            Refresh(Some(text), decode, later, st).Ok?
            && Refresh(Some(text), decode, later, st).value.accessToken.aud == id
  {
    var j := FindByEmail(st, email.value).value;
    var id := st[j].id;
    assert Login(email, password, now, st).value == Issue(st[j], now);
    RefreshTokenRoundTrip(id, now, later);
    assert VerifyRefreshToken(decode(text).value, later) == Ok(id);
    assert FindById(st, id).Some?;
  }

  // ---------------------------------------------------------------------------
  // forgotPassword / resetPassword

  datatype ForgotReply = ForgotReply(message: string, link: Option<string>)

  datatype Forgot = Forgot(result: Result<ForgotReply>, resets: ResetStore)

  function ResetLink(frontendUrl: string, token: string): string {
    frontendUrl + "/reset-password?token=" + token
  }

  /** `forgotPassword`: the same message whether or not the email has an account;
      only for an account is a reset token issued and its link returned. */
  function ForgotPassword(email: Option<string>, st: UserStore, resets: ResetStore, now: int, ttlMinutes: Option<nat>,
                          frontendUrl: string, encode: Jwt -> string): (f: Forgot)
    ensures !Truthy(email) ==> f == Forgot(Err(BadRequest(MsgEmailRequired)), resets)
    ensures Truthy(email) ==> f.result.Ok? && f.result.value.message == MsgResetSent
    ensures Truthy(email) ==> (f.result.value.link.Some? <==> FindByEmail(st, email.value).Some?)
    ensures Truthy(email) && FindByEmail(st, email.value).None? ==> f.resets == resets
    ensures Truthy(email) && FindByEmail(st, email.value).Some? ==>
              var t := GeneratePasswordResetToken(st[FindByEmail(st, email.value).value].id, now, ttlMinutes, resets).token;
              && f.resets == resets + {t}
              && f.result.value.link == Some(ResetLink(frontendUrl, encode(t)))
  {
    if !Truthy(email) then Forgot(Err(BadRequest(MsgEmailRequired)), resets)
    else
      match FindByEmail(st, email.value)
      case None => Forgot(Ok(ForgotReply(MsgResetSent, None)), resets)
      case Some(j) =>
        var issued := GeneratePasswordResetToken(st[j].id, now, ttlMinutes, resets);
        Forgot(Ok(ForgotReply(MsgResetSent, Some(ResetLink(frontendUrl, encode(issued.token))))), issued.store)
  }

  datatype Reset = Reset(result: Result<string>, store: UserStore, resets: ResetStore)

  /** Both fields are present and the token decodes to a live reset token that
      is still in the store. */
  predicate ResetRedeemed(token: Option<string>, newPassword: Option<string>, decode: string -> Option<Jwt>, now: int,
                          resets: ResetStore) {
    && Truthy(token) && Truthy(newPassword) && decode(token.value).Some?
    && VerifyPasswordResetToken(decode(token.value).value, now, resets).result.Ok?
  }

  /** `resetPassword`. The token is used up as soon as it verifies, before the
      user is looked up. */
  function ResetPassword(token: Option<string>, newPassword: Option<string>, decode: string -> Option<Jwt>, now: int,
                         st: UserStore, resets: ResetStore): (r: Reset)
    ensures !Truthy(token) || !Truthy(newPassword) ==> r == Reset(Err(BadRequest(MsgResetRequired)), st, resets)
    ensures (Truthy(token) && Truthy(newPassword) && decode(token.value).Some?
             && VerifyPasswordResetToken(decode(token.value).value, now, resets).result.Err?) ==>
              r == Reset(VerifyPasswordResetToken(decode(token.value).value, now, resets).result, st, resets)
    ensures Truthy(token) && Truthy(newPassword) && decode(token.value).None? ==>
              r == Reset(Err(BadRequest(MsgInvalidOrExpired)), st, resets)
    ensures ResetRedeemed(token, newPassword, decode, now, resets) && !ValidObjectId(decode(token.value).value.aud) ==>
              r == Reset(Err(Internal(MsgCastError)), st, resets - {decode(token.value).value})
    ensures ResetRedeemed(token, newPassword, decode, now, resets) && ValidObjectId(decode(token.value).value.aud)
            && FindById(st, decode(token.value).value.aud).None? ==>
              r == Reset(Err(NotFound(MsgUserNotFound)), st, resets - {decode(token.value).value})
    ensures r.result.Ok? <==> && ResetRedeemed(token, newPassword, decode, now, resets)
                              && ValidObjectId(decode(token.value).value.aud)
                              && FindById(st, decode(token.value).value.aud).Some?
    ensures r.resets <= resets
    ensures r.result.Err? ==> r.store == st
    ensures r.result.Ok? ==> && Truthy(token) && Truthy(newPassword) && decode(token.value).Some?
                             && var t := decode(token.value).value;
                                && VerifyPasswordResetToken(t, now, resets).result.Ok?
                                && r.resets == resets - {t}
                                && FindById(st, t.aud).Some?
                                && r.store == st[FindById(st, t.aud).value := st[FindById(st, t.aud).value].(password := Some(Hash(newPassword.value)))]
                                && r.result.value == MsgResetDone
  {
    if !Truthy(token) || !Truthy(newPassword) then Reset(Err(BadRequest(MsgResetRequired)), st, resets)
    else
      match decode(token.value)
      case None => Reset(Err(BadRequest(MsgInvalidOrExpired)), st, resets)
      case Some(t) =>
        var v := VerifyPasswordResetToken(t, now, resets);
        if v.result.Err? then Reset(v.result, st, resets)
        else
          var id := v.result.value;
          if !ValidObjectId(id) then Reset(Err(Internal(MsgCastError)), st, v.store)
          else
            match FindById(st, id)
            case None => Reset(Err(NotFound(MsgUserNotFound)), st, v.store)
            case Some(j) => Reset(Ok(MsgResetDone), st[j := st[j].(password := Some(Hash(newPassword.value)))], v.store)
  }

  /** A reset changes one thing: the stored password of the token's user. Every
      other user, and that user's id, name, email and role, stay as they were. */
  lemma ResetChangesOnlyThatPassword(token: Option<string>, newPassword: Option<string>, decode: string -> Option<Jwt>,
                                     now: int, st: UserStore, resets: ResetStore)
    requires ResetPassword(token, newPassword, decode, now, st, resets).result.Ok?
    ensures var r := ResetPassword(token, newPassword, decode, now, st, resets);
            var uid := decode(token.value).value.aud;
            && |r.store| == |st|
            && (forall k :: 0 <= k < |st| && k != FindById(st, uid).value ==> r.store[k] == st[k])
            && r.store[FindById(st, uid).value] == st[FindById(st, uid).value].(password := Some(Hash(newPassword.value)))
  {
  }

  /** The whole forgotten-password flow: the link's token, presented once before it
      expires, sets the new password, after which the account logs in with it and
      the same token is refused. */
  lemma ForgotThenReset(email: string, st: UserStore, resets: ResetStore, now: int, later: int, ttlMinutes: Option<nat>,
                        frontendUrl: string, encode: Jwt -> string, decode: string -> Option<Jwt>, newPassword: string)
    requires email != "" && newPassword != ""
    requires FindByEmail(st, email).Some?
    requires WellFormed(st) && ValidObjectId(st[FindByEmail(st, email).value].id)
    requires forall t :: encode(t) != "" && decode(encode(t)) == Some(t)
    requires now <= later < now + 60 * DefaultResetTtlMinutes && ttlMinutes.None?
    ensures var f := ForgotPassword(Some(email), st, resets, now, ttlMinutes, frontendUrl, encode);
            var j := FindByEmail(st, email).value;
            var t := GeneratePasswordResetToken(st[j].id, now, ttlMinutes, resets).token;
            var r := ResetPassword(Some(encode(t)), Some(newPassword), decode, later, st, f.resets);
            var again := ResetPassword(Some(encode(t)), Some(newPassword), decode, later, r.store, r.resets);
            && r.result == Ok(MsgResetDone)
            && r.store[j].password == Some(Hash(newPassword))
            && Login(Some(email), Some(newPassword), later, r.store).Ok?
            && again.result == Err(BadRequest(MsgAlreadyUsed))
  {
    var j := FindByEmail(st, email).value;
    var f := ForgotPassword(Some(email), st, resets, now, ttlMinutes, frontendUrl, encode);
    var t := GeneratePasswordResetToken(st[j].id, now, ttlMinutes, resets).token;
    assert f.resets == resets + {t};
    assert decode(encode(t)) == Some(t);
    var found := FindById(st, st[j].id);
    assert found == Some(j);
    assert t.aud == st[j].id && t.expiresAt == now + 60 * DefaultResetTtlMinutes;
    var v := VerifyPasswordResetToken(t, later, f.resets);
    assert v.result == Ok(st[j].id);
    var r := ResetPassword(Some(encode(t)), Some(newPassword), decode, later, st, f.resets);
    assert r.store == st[j := st[j].(password := Some(Hash(newPassword)))];
    var byEmail := FindByEmail(r.store, email);
    assert r.store[j].email == email;
    assert forall i :: 0 <= i < j ==> r.store[i] == st[i];
    assert byEmail == Some(j);
  }
}
