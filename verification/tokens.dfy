/** Tokens (helpers/jwtHelper.js): parsing the Authorization header, the claims
    carried by access, refresh and password-reset tokens, and the in-memory
    store that makes a reset token usable once.

    Signing and signature checking are opaque: a token is the claims it was
    signed with together with the secret that signed it, and verification
    succeeds exactly when that secret is the expected one and the token has not
    expired. A header's text is turned into a token by a `decode` parameter,
    `None` standing for text that is not a JWT at all. */
module Tokens {
  import opened Outcomes

  /** The secret a token was signed with; `OtherKey` covers forgeries and tokens
      signed by anything else. The access, refresh and reset secrets come from
      three separate settings and are taken to be different from each other. */
  datatype Key = AccessKey | RefreshKey | ResetKey | OtherKey

  /** A signed token: audience, the optional `role` claim, signing secret, and
      issue and expiry times in seconds. */
  datatype Jwt = Jwt(aud: string, role: Option<string>, key: Key, issuedAt: int, expiresAt: int)

  const AccessTtl: int := 60 * 60
  const RefreshTtl: int := 7 * 24 * 60 * 60
  const DefaultResetTtlMinutes: nat := 30

  /** The failures `JWT.verify` reports for a well-formed JWT: wrong signature
      (`JsonWebTokenError`), or past its expiry (`TokenExpiredError`). */
  datatype VerifyError = BadSignature | Expired

  datatype Verified = Valid(token: Jwt) | Invalid(reason: VerifyError)

  /** `JWT.verify(token, secret)`: the signature is checked first, then the expiry
      (a token is expired from the second its `exp` is reached). */
  function Verify(t: Jwt, key: Key, now: int): (v: Verified)
    ensures v.Valid? <==> t.key == key && now < t.expiresAt
    ensures v.Valid? ==> v.token == t
    ensures v == Invalid(BadSignature) <==> t.key != key
  {
    if t.key != key then Invalid(BadSignature)
    else if now >= t.expiresAt then Invalid(Expired)
    else Valid(t)
  }

  /** `signAccessToken(userId, role)`: payload `{role}`, audience the user id, one hour. */
  function SignAccessToken(userId: string, role: Option<string>, now: int): Jwt {
    Jwt(userId, role, AccessKey, now, now + AccessTtl)
  }

  /** `signRefreshToken(userId)`: empty payload, audience the user id, seven days. */
  function SignRefreshToken(userId: string, now: int): Jwt {
    Jwt(userId, None, RefreshKey, now, now + RefreshTtl)
  }

  /** An access token verifies, during its hour and only as an access token, to
      its user id and role. */
  lemma AccessTokenRoundTrip(userId: string, role: Option<string>, now: int, later: int)
    requires now <= later < now + AccessTtl
    ensures Verify(SignAccessToken(userId, role, now), AccessKey, later).Valid?
    ensures Verify(SignAccessToken(userId, role, now), AccessKey, later).token.aud == userId
    ensures Verify(SignAccessToken(userId, role, now), AccessKey, later).token.role == role
    ensures Verify(SignAccessToken(userId, role, now), RefreshKey, later) == Invalid(BadSignature)
    ensures Verify(SignAccessToken(userId, role, now), AccessKey, now + AccessTtl) == Invalid(Expired)
  {
  }

  /** `verifyRefreshToken`: the audience of a valid refresh token, else `Unauthorized`. */
  function VerifyRefreshToken(t: Jwt, now: int): (r: Result<string>)
    ensures r.Ok? <==> t.key == RefreshKey && now < t.expiresAt
    ensures r.Ok? ==> r.value == t.aud
    ensures r.Err? ==> r.error == Unauthorized("Unauthorized")
  {
    match Verify(t, RefreshKey, now)
    case Valid(p) => Ok(p.aud)
    case Invalid(_) => Err(Unauthorized("Unauthorized"))
  }

  /** A refresh token gives back, for seven days, the user id it was signed for. */
  lemma RefreshTokenRoundTrip(userId: string, now: int, later: int)
    requires now <= later < now + RefreshTtl
    ensures VerifyRefreshToken(SignRefreshToken(userId, now), later) == Ok(userId)
    ensures VerifyRefreshToken(SignAccessToken(userId, None, now), later).Err?
  {
  }

  // ---------------------------------------------------------------------------
  // The Authorization header

  function Spaces(s: string): nat {
    if s == [] then 0 else (if s[0] == ' ' then 1 else 0) + Spaces(s[1..])
  }

  /** `s.split(' ')`: the pieces between single spaces, empty ones included. */
  function Split(s: string): (parts: seq<string>)
    ensures |parts| >= 1
  {
    if s == [] then [[]]
    else
      var rest := Split(s[1..]);
      if s[0] == ' ' then [[]] + rest
      else [[s[0]] + rest[0]] + rest[1..]
  }

  /** `parts.join(' ')`. */
  function Join(parts: seq<string>): string
    requires |parts| >= 1
  {
    if |parts| == 1 then parts[0] else parts[0] + " " + Join(parts[1..])
  }

  /** Splitting on spaces and joining with spaces gives the text back. */
  lemma {:induction false} JoinSplit(s: string)
    ensures Join(Split(s)) == s
  {
    if s != [] {
      var rest := Split(s[1..]);
      JoinSplit(s[1..]);
      if s[0] == ' ' {
        assert Split(s) == [[]] + rest;
        assert Split(s)[1..] == rest;
      } else {
        var parts := Split(s);
        assert parts[0] == [s[0]] + rest[0];
        assert parts[1..] == rest[1..];
        if |rest| == 1 {
          assert Join(rest) == rest[0];
        } else {
          assert Join(rest) == rest[0] + " " + Join(rest[1..]);
        }
      }
    }
  }

  /** There is one more piece than there are spaces. */
  lemma {:induction false} SplitCount(s: string)
    ensures |Split(s)| == Spaces(s) + 1
  {
    if s != [] {
      SplitCount(s[1..]);
    }
  }

  /** No piece contains a space. */
  lemma {:induction false} SplitPiecesHaveNoSpace(s: string)
    ensures forall k :: 0 <= k < |Split(s)| ==> ' ' !in Split(s)[k]
  {
    if s != [] {
      SplitPiecesHaveNoSpace(s[1..]);
      var rest := Split(s[1..]);
      if s[0] != ' ' {
        assert ' ' !in [s[0]] + rest[0];
        forall k | 1 <= k < |Split(s)|
          ensures ' ' !in Split(s)[k]
        {
          assert Split(s)[k] == rest[k];
        }
      }
    }
  }

  /** Text without spaces is one piece. */
  lemma {:induction false} SplitWord(w: string)
    requires ' ' !in w
    ensures Split(w) == [w]
  {
    if w != [] {
      SplitWord(w[1..]);
      assert w == [w[0]] + w[1..];
    }
  }

  /** A word followed by a space splits into that word and the rest's pieces. */
  lemma {:induction false} SplitAfterWord(w: string, rest: string)
    requires ' ' !in w
    ensures Split(w + " " + rest) == [w] + Split(rest)
  {
    if w == [] {
      assert w + " " + rest == [' '] + rest;
      assert (w + " " + rest)[1..] == rest;
    } else {
      assert (w + " " + rest)[0] == w[0];
      assert (w + " " + rest)[1..] == w[1..] + " " + rest;
      SplitAfterWord(w[1..], rest);
      assert w == [w[0]] + w[1..];
    }
  }

  /** The token of `verifyAccessToken`: a missing or empty header, or one that does
      not split into exactly two pieces on single spaces, is `Unauthorized`;
      otherwise the token is the second piece. The first piece is not compared
      with "Bearer". */
  function ParseAuthorization(header: Option<string>): (r: Result<string>)
    ensures !Truthy(header) ==> r == Err(Unauthorized("Unauthorized"))
    ensures r.Err? ==> r.error == Unauthorized("Unauthorized")
  {
    if !Truthy(header) then Err(Unauthorized("Unauthorized"))
    else
      var parts := Split(header.value);
      if |parts| != 2 then Err(Unauthorized("Unauthorized"))
      else Ok(parts[1])
  }

  /** The header is accepted exactly when it is some space-free word, one space,
      and a space-free token, and then that token is what comes out. Any first
      word will do, and two spaces in a row are refused. */
  lemma ParseAuthorizationShape(scheme: string, token: string)
    requires ' ' !in scheme && ' ' !in token
    ensures ParseAuthorization(Some(scheme + " " + token)) == Ok(token)
  {
    SplitAfterWord(scheme, token);
    SplitWord(token);
  }

  lemma ParseAuthorizationAccepted(header: string)
    requires ParseAuthorization(Some(header)).Ok?
    ensures Spaces(header) == 1
    ensures var t := ParseAuthorization(Some(header)).value;
            exists scheme :: ' ' !in scheme && ' ' !in t && header == scheme + " " + t
  {
    SplitCount(header);
    SplitPiecesHaveNoSpace(header);
    JoinSplit(header);
    var parts := Split(header);
    assert Join(parts) == parts[0] + " " + Join(parts[1..]);
    assert parts[1..] == [parts[1]];
  }

  /** The messages `verifyAccessToken` passes on: a token that is not a JWT or has
      the wrong signature gives `Unauthorized('Unauthorized')`, an expired one
      gives `Unauthorized('jwt expired')`. */
  function VerifyAccessToken(header: Option<string>, decode: string -> Option<Jwt>, now: int): (r: Result<Jwt>)
    ensures r.Ok? ==> && ParseAuthorization(header).Ok?
                      && decode(ParseAuthorization(header).value) == Some(r.value)
                      && r.value.key == AccessKey && now < r.value.expiresAt
    ensures r.Err? ==> r.error.Unauthorized?
    ensures (ParseAuthorization(header).Ok? && decode(ParseAuthorization(header).value).Some?
             && decode(ParseAuthorization(header).value).value.key == AccessKey
             && now < decode(ParseAuthorization(header).value).value.expiresAt) ==> r.Ok?
  {
    var token :- ParseAuthorization(header);
    match decode(token)
    case None => Err(Unauthorized("Unauthorized"))
    case Some(t) =>
      match Verify(t, AccessKey, now)
      case Valid(p) => Ok(p)
      case Invalid(Expired) => Err(Unauthorized("jwt expired"))
      case Invalid(_) => Err(Unauthorized("Unauthorized"))
  }

  // ---------------------------------------------------------------------------
  // One-time password-reset tokens

  type ResetStore = set<Jwt>

  datatype Issued = Issued(token: Jwt, store: ResetStore)

  datatype Redeemed = Redeemed(result: Result<string>, store: ResetStore)

  const MsgInvalidOrExpired := "Invalid or expired token"
  const MsgAlreadyUsed := "Token already used or invalid"

  /** `generatePasswordResetToken(userId)`: a reset token for the user, valid for
      `RESET_TOKEN_TTL_MINUTES` (default 30) minutes, remembered in the store. */
  function GeneratePasswordResetToken(userId: string, now: int, ttlMinutes: Option<nat>, store: ResetStore): (r: Issued)
    ensures r.store == store + {r.token}
    ensures r.token.aud == userId && r.token.key == ResetKey
    ensures r.token.expiresAt == now + 60 * (if ttlMinutes.Some? then ttlMinutes.value else DefaultResetTtlMinutes)
  {
    var ttl := if ttlMinutes.Some? then ttlMinutes.value else DefaultResetTtlMinutes;
    var t := Jwt(userId, None, ResetKey, now, now + 60 * ttl);
    Issued(t, store + {t})
  }

  /** `verifyPasswordResetToken(token)`. */
  function VerifyPasswordResetToken(t: Jwt, now: int, store: ResetStore): (r: Redeemed)
    ensures Verify(t, ResetKey, now).Invalid? ==>
              r.result == Err(BadRequest(MsgInvalidOrExpired)) && r.store == store
    ensures Verify(t, ResetKey, now).Valid? && t !in store ==>
              r.result == Err(BadRequest(MsgAlreadyUsed)) && r.store == store
    ensures r.result.Ok? <==> Verify(t, ResetKey, now).Valid? && t in store
    ensures r.result.Ok? ==> r.result.value == t.aud && r.store == store - {t}
    ensures r.store <= store
  {
    match Verify(t, ResetKey, now)
    case Invalid(_) => Redeemed(Err(BadRequest(MsgInvalidOrExpired)), store)
    case Valid(p) =>
      if t !in store then Redeemed(Err(BadRequest(MsgAlreadyUsed)), store)
      else Redeemed(Ok(p.aud), store - {t})
  }

  /** A freshly issued reset token, presented before it expires, yields its user
      id once; presented again it is refused as already used. */
  lemma ResetTokenOneTimeUse(userId: string, now: int, ttlMinutes: Option<nat>, store: ResetStore, later: int)
    requires now <= later
    requires later < GeneratePasswordResetToken(userId, now, ttlMinutes, store).token.expiresAt
    ensures var issued := GeneratePasswordResetToken(userId, now, ttlMinutes, store);
            var first := VerifyPasswordResetToken(issued.token, later, issued.store);
            var second := VerifyPasswordResetToken(issued.token, later, first.store);
            && first.result == Ok(userId)
            && issued.token !in first.store
            && second.result == Err(BadRequest(MsgAlreadyUsed))
  {
  }

  /** Once redeemed, a token is gone from the store, and presenting it again to
      that store fails at any time. */
  lemma RedeemedTokenStaysRedeemed(t: Jwt, now: int, store: ResetStore)
    requires VerifyPasswordResetToken(t, now, store).result.Ok?
    ensures t !in VerifyPasswordResetToken(t, now, store).store
    ensures forall later :: VerifyPasswordResetToken(t, later, VerifyPasswordResetToken(t, now, store).store).result.Err?
  {
  }
}
