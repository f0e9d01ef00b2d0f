# Event-ticketing backend: payments, tokens and access rules in Dafny

This project models the core of an Express/MongoDB event-ticketing API. Each
module stands for one source file or concern.

- **Phone** covers `normalizePhone`. It drops non-digits and turns `07…`, then
  `7…`, into `2547…`. Other digit strings are kept.
- **Payments** covers the Payment schema: required fields, defaults and the
  `PENDING`/`SUCCESS`/`FAILED` status. The collection is a sequence, and a
  record's id is its position.
- **Mpesa** covers `initiateStkPush` and `mpesaCallback`. The request is checked
  first: phone, caller, amount, then phone format. Then one `PENDING` record is
  created. After that the path is either simulated (no gateway credentials or no
  OAuth token) or live (an STK push whose response supplies the correlation ids).
  The callback looks up the first record with the callback's checkout id. It sets
  `SUCCESS` and the receipt on result code `0` (the number), and `FAILED`
  otherwise.
- **Tokens** covers the JWT helper: the Authorization header split, access and
  refresh tokens, and the in-memory store that makes a password-reset token
  usable once.
- **Pagination** is shared by the event and user listings. **Validation** is the
  Joi event schema.
- **Events** is the event controller: the requester id, creator-only
  update/delete, and the filters. **Users** is the user controller. **Roles** is
  `verifyRole`.
- **Reports** is the grouped sales report. **Auth** covers register, login,
  refresh, forgot-password and reset-password.

External effects are parameters of the model:

- the two gateway calls (`TokenOutcome`, `PostOutcome`);
- the clock and the formatted timestamp;
- the ids MongoDB assigns;
- decoding a token's text (`decode`) and writing a token into a link (`encode`);
- calendar arithmetic (`Calendar`);
- each payment's `createdAt`.

A user's stored password is text, or missing. Bcrypt digests are symbolic: a
digest's text records the key bcrypt hashed, which is what bcryptjs feeds its
key schedule. That is the UTF-8 bytes of the password with a NUL byte appended,
repeated until 72 bytes are read. `bcrypt.compare` reads the stored text back as
a digest and succeeds exactly when the password's key is the recorded one. So
two passwords that agree in their first 72 bytes are interchangeable, and so are
"ab" and "ab", NUL, "ab". A JWT is the claims it was signed with, plus the
secret that signed it and its expiry.

Some behaviours of the code are easy to miss, and the model keeps them:

- A callback updates the matched record whatever its current status. There is no
  terminal-state guard, and `Mpesa.SettledRecordCanBeOverwritten` exhibits a
  `SUCCESS` record turned `FAILED`.
- The gateway's `ResponseCode` is never read. A rejected push still leaves the
  record `PENDING` (`Mpesa.ResponseCodeIgnored`).
- A callback without `Body.stkCallback`, or with an unknown checkout id, gets
  `{ok: true}`. Only a matched callback gets `{ResultCode: 0, ResultDesc:
  'Accepted'}`.
- A code-0 callback without a receipt value keeps whatever receipt the record
  already had, because Mongoose drops an `undefined` field from an update.
- An `eventId` that is not an ObjectId makes the event lookup throw, the
  controller swallows the error, and the request goes on without an event.
- There is no idempotency key on submission. Each accepted request creates a new
  record.
- `updateUser` deletes only a top-level `password` key from the body. The body
  goes to `findByIdAndUpdate` as it is, so a `$set` or `$unset` of `password`
  inside it still reaches the stored password. That route only needs an access
  token, and the user id comes from the URL, so any signed-in caller can take
  over another account (see "## Findings").
- `updateEvent` applies a `createdBy` found in the body, so a creator can hand an
  event to another id (`Events.UpdateMayReassignCreator`). `createEvent`
  overrides it.

## Model

| member | source | states |
|---|---|---|
| Phone.Normalize | controllers/mpesaController.js:34-40 | The normalised number consists of digits only |
| Phone.NormalizeLocalRule | controllers/mpesaController.js:36 | Every all-digit number starting 07 becomes 254 followed by the number without its leading 0 |
| Phone.NormalizeBareRule | controllers/mpesaController.js:37 | Every all-digit number starting 7 becomes 254 followed by the number |
| Phone.NormalizeLocalForm | controllers/mpesaController.js:36 | "0712345678" becomes "254712345678": the `07` rule drops the leading 0 and prefixes 254 |
| Phone.NormalizeSecondLocal | controllers/mpesaController.js:36 | "0722000000" becomes "254722000000", which has the canonical 2547 + 8 digits shape |
| Phone.NormalizeBareForm | controllers/mpesaController.js:37 | "712345678" becomes "254712345678" |
| Phone.NormalizeInternationalForm | controllers/mpesaController.js:38 | "254712345678" is returned unchanged |
| Phone.NormalizeCanonicalFixed | controllers/mpesaController.js:38 | Every number already of the form 2547 + 8 digits is a fixed point |
| Phone.NormalizeDropsSeparators | controllers/mpesaController.js:35 | Separators such as `+` and `-` are removed before the prefix rules apply |
| Phone.NormalizeIdempotent | controllers/mpesaController.js:34-40 | Normalising twice equals normalising once, for every input |
| Phone.CanonicalAfterNormalize | controllers/mpesaController.js:72-73 | A number passes the `^2547\d{8}$` check after normalisation exactly when its digits are 07+8, 7+8 or 2547+8 digits |
| Payments.Create | models/payment.js:3-14 | Creation succeeds exactly when user is an ObjectId, event is absent or an ObjectId, phone is non-empty and amount ≥ 0, and otherwise fails with the validation error; the record is PENDING, method mpesa, with no correlation ids, receipt or raw callback |
| Payments.FindByCheckout | controllers/mpesaController.js:164-169 | Returns the first record carrying the checkout id, and None exactly when no record carries it |
| Payments.DevIdsDistinct | controllers/mpesaController.js:90-92 | Two different records never get the same DEV-CHECKOUT- or DEV-MERCHANT- id |
| Mpesa.ResolveEvent | controllers/mpesaController.js:53-61 | An event is used exactly when eventId is truthy, is an ObjectId and is found; the loaded event carries that id and the stored title and price |
| Mpesa.NonObjectIdEventIgnored | controllers/mpesaController.js:54-60 | An eventId that is not an ObjectId selects no event even if some stored key spells it (the CastError is caught), so only a positive client amount lets the request through |
| Mpesa.ResolveAmount | controllers/mpesaController.js:63-70 | A positively priced event's price wins over the client amount; else a positive client amount; else BadRequest with the source's message; any amount returned is positive |
| Mpesa.CheckRequest | controllers/mpesaController.js:47-73 | Missing phone gives BadRequest before anything else, then missing caller gives Unauthorized, then amount, then phone format; success exactly when all four hold, carrying the caller, resolved amount and normalised phone |
| Mpesa.CheckoutFrom | controllers/mpesaController.js:144 | The checkout id comes from the response, else from ResponseMetadata, else is null |
| Mpesa.Submit | controllers/mpesaController.js:45-151 | A failed check is returned with nothing stored or sent. A record is added exactly when the checks pass and the caller's id is an ObjectId. It is appended after the others, PENDING, for the caller, the resolved event and amount, and the normalised phone. Otherwise nothing is stored or sent and the reply is an error. An error reply comes only from the checks, from the schema refusing the record, or from a failed push. A push is sent only with shortcode, passkey and an access token |
| Mpesa.NonObjectIdCallerRefused | controllers/mpesaController.js:76-82 | A request that passes every check but comes from a caller whose id is not an ObjectId is refused by the schema at creation: the store is unchanged, nothing is sent, and the validation error is passed on |
| Mpesa.RejectedBeforeRecord | controllers/mpesaController.js:47-73 | A request refused by any check leaves the store unchanged, sends nothing and replies with the check's error |
| Mpesa.AcceptedCreatesOneRecord | controllers/mpesaController.js:76-82 | An accepted request from a caller whose id is an ObjectId appends exactly one record, whatever the gateway does: PENDING, for the caller, with the resolved amount, the canonical phone, and an event exactly when one was found |
| Mpesa.DegradedPathSimulates | controllers/mpesaController.js:89-121 | Missing credentials or a failed token request give the DEV- ids, keep PENDING, reply simulated and send nothing |
| Mpesa.LivePathRecordsCorrelation | controllers/mpesaController.js:137-147 | After a live push the record holds the response's merchant and checkout ids and is still PENDING |
| Mpesa.FailedPushLeavesPending | controllers/mpesaController.js:137-150 | A push whose POST throws leaves the new record PENDING with no correlation ids, and the error is passed on |
| Mpesa.ResponseCodeIgnored | controllers/mpesaController.js:142-147 | Two gateway responses that differ only in ResponseCode give the same store, and one reply succeeds exactly when the other does |
| Mpesa.SubmitPreservesWellFormed | controllers/mpesaController.js:76-145 | Submission keeps every record at its id's position and satisfying the schema |
| Mpesa.Receipt | controllers/mpesaController.js:177-178 | The receipt is the value of the first item named MpesaReceiptNumber (none when that item has no value); with no such item there is none |
| Mpesa.ReceiptConcat | controllers/mpesaController.js:178 | The receipt of a concatenation is that of the first part when the first part has a receipt item, and that of the second part otherwise |
| Mpesa.Callback | controllers/mpesaController.js:156-192 | The number of records never changes, and the Accepted reply is given exactly when some record matched |
| Mpesa.UnmatchedCallbackIsNoOp | controllers/mpesaController.js:159-174 | A payload without stkCallback, or with a checkout id no record carries, is acknowledged with {ok: true} and changes nothing |
| Mpesa.MatchedCallbackSettles | controllers/mpesaController.js:176-188 | On the first matching record: numeric 0 gives SUCCESS with the receipt, keeping the stored receipt when the payload has no receipt value; any other code gives FAILED with the receipt untouched; the payload is stored and no other record changes |
| Mpesa.StringZeroCodeFails | controllers/mpesaController.js:176 | A result code sent as the string "0" fails the strict comparison and marks the payment FAILED |
| Mpesa.CallbackIdempotent | controllers/mpesaController.js:176-186 | Replaying the same payload gives the same store and reply as applying it once |
| Mpesa.CallbackPreservesWellFormed | controllers/mpesaController.js:176-186 | Settling keeps the store well formed |
| Mpesa.SettledRecordCanBeOverwritten | controllers/mpesaController.js:176-186 | With no status guard, a SUCCESS record is turned FAILED by a later non-zero callback for the same checkout id |
| Mpesa.ScenarioSubmit | controllers/mpesaController.js:45-147 | An event priced 1000 under an ObjectId, paid by a caller with an ObjectId from "0722000000" with a client amount of 1, creates a PENDING record for that caller and event, for 1000, at "254722000000", with the gateway's checkout id |
| Mpesa.ScenarioCallbacks | controllers/mpesaController.js:176-186 | Result code 0 with receipt QCT123XYZ settles that record SUCCESS with the receipt; code 1032 settles it FAILED without one |
| Tokens.Verify | helpers/jwtHelper.js:30-37 | A token verifies exactly when it was signed with the expected secret and has not expired; a wrong secret is reported as a bad signature |
| Tokens.AccessTokenRoundTrip | helpers/jwtHelper.js:7-21 | An access token verifies during its hour, only as an access token, giving back its user id and role; from the expiry second on it is refused as expired |
| Tokens.VerifyRefreshToken | helpers/jwtHelper.js:51-58 | Returns the token's audience exactly when it is a live refresh token; otherwise Unauthorized |
| Tokens.RefreshTokenRoundTrip | helpers/jwtHelper.js:40-58 | A refresh token gives back its user id for seven days, and an access token is not accepted as a refresh token |
| Tokens.JoinSplit | helpers/jwtHelper.js:26 | Splitting the header on single spaces and joining with spaces gives the header back |
| Tokens.SplitCount | helpers/jwtHelper.js:26-27 | The split has one more piece than the header has spaces |
| Tokens.SplitPiecesHaveNoSpace | helpers/jwtHelper.js:26 | No piece of the split contains a space |
| Tokens.ParseAuthorization | helpers/jwtHelper.js:24-28 | A missing or empty header is Unauthorized, and every failure is Unauthorized |
| Tokens.ParseAuthorizationShape | helpers/jwtHelper.js:26-28 | For any space-free first word (not only "Bearer") and space-free token, the header "word token" yields that token |
| Tokens.ParseAuthorizationAccepted | helpers/jwtHelper.js:26-28 | An accepted header has exactly one space and is some space-free word, a space, and the returned token |
| Tokens.VerifyAccessToken | helpers/jwtHelper.js:23-38 | Success gives the decoded header token, and only a live access token; every failure is Unauthorized; a live access token in a well-formed header always succeeds |
| Tokens.GeneratePasswordResetToken | helpers/jwtHelper.js:64-72 | The issued reset token is for the user, expires after the configured minutes (30 by default), and is added to the store |
| Tokens.VerifyPasswordResetToken | helpers/jwtHelper.js:74-83 | A bad signature or expiry gives 'Invalid or expired token' with the store unchanged; a valid token not in the store gives 'Token already used or invalid'; success exactly for a valid stored token, which returns its audience and is removed |
| Tokens.ResetTokenOneTimeUse | helpers/jwtHelper.js:64-83 | A freshly issued reset token succeeds once before expiry and is then refused as already used |
| Tokens.RedeemedTokenStaysRedeemed | helpers/jwtHelper.js:78-79 | After a successful redemption the token is gone from the store, and presenting it again to that store fails at any time |
| Pagination.Clamp | controllers/eventController.js:57-59 | page ≥ 1 (default 1), limit in [1, 100] (default 10), skip = (page − 1) × limit ≥ 0; in-range values are kept and out-of-range ones are clamped |
| Pagination.PageCount | controllers/eventController.js:87 | The page count is ceil(total / limit): enough pages of limit items for all, and no spare page |
| Pagination.Window | controllers/eventController.js:79-80 | The page shows the items from position skip on, at most limit of them, in order, and is empty past the end |
| Pagination.EveryItemOnItsPage | controllers/usercontroller.js:8-29 | Each listed item appears on page k / limit + 1, which is within the reported page count, at position k mod limit |
| Validation.Validate | helpers/validationSchema.js:4-11 | Accepts exactly the bodies meeting every rule (title 3–100 UTF-16 units, description 1–500 if present, ISO date and non-empty location required, price ≥ 0 and createdBy non-empty if present, no unknown keys) and returns their fields unchanged; otherwise BadRequest naming the first failing key in the order title, description, date, location, price, createdBy |
| Validation.ValidateRoundTrip | helpers/validationSchema.js:4-11 | A body that passes is exactly the body of the fields it yields, and those fields pass again unchanged |
| Validation.TitleAndDescriptionBounds | helpers/validationSchema.js:5-6 | Titles of 3 and 100 units and a 500-unit description pass; titles of 2 and 101 units and a 501-unit description are refused |
| Validation.JsLengthOfBmp | helpers/validationSchema.js:5-6 | For text in the Basic Multilingual Plane the length Joi checks is the number of characters |
| Validation.AstralCharacterCountsTwice | helpers/validationSchema.js:5 | A two-character title made of an emoji and a letter has length 3 and meets the title minimum |
| Events.UserIdIsFirstTruthy | controllers/eventController.js:11-21 | The requester is the first truthy of aud, sub, user.id, user._id, userId and auth.uid, and null only when none is truthy |
| Events.CreateEvent | controllers/eventController.js:24-52 | With no requester the reply is Unauthorized; creation succeeds exactly with a requester and a conforming body; the saved event has the body's title, description, date, location and price, the requester as createdBy, and only the new id is added |
| Events.CreatedByIsOverridden | controllers/eventController.js:39 | A createdBy naming someone else in the body is replaced by the requester |
| Events.GetEvent | controllers/eventController.js:96-109 | Invalid id gives BadRequest, unknown id NotFound, and otherwise the stored event |
| Events.CreateThenGet | controllers/eventController.js:39-40 | After a creation under a valid ObjectId, getEvent returns the new event for its id, and every other id reads as before |
| Events.UpdateEvent | controllers/eventController.js:112-137 | Invalid id gives BadRequest, unknown id NotFound, and a non-creator Forbidden, each with the store unchanged. Success comes exactly for the creator with a conforming body, and changes only that event. Title, date and location are replaced. Description, price and createdBy are replaced when the body gives them and kept otherwise |
| Events.UpdateMayReassignCreator | controllers/eventController.js:126-127 | A creator's update carrying another createdBy hands the event over, after which the old creator's update and delete are Forbidden |
| Events.DeleteEvent | controllers/eventController.js:140-160 | The same id, existence and ownership checks as update; the creator removes exactly that event and nothing else changes |
| Events.OnlyCreatorWrites | controllers/eventController.js:121-124 | If stored creators are ObjectIds, a successful update or delete implies the requester is the event's creator |
| Events.Filter | controllers/eventController.js:61-73 | Keeps exactly the events matching the date and price bounds |
| Events.FilterAppend | controllers/eventController.js:75-78 | Filtering keeps the listed order: the matches of a concatenation are the matches of the first part followed by those of the second |
| Events.FilterSingle | controllers/eventController.js:61-73 | A single event is kept exactly when it matches |
| Events.PriceFilterKeepsBothBounds | controllers/eventController.js:72-73 | With both minPrice and maxPrice, an event matches exactly when it has a price between the two |
| Events.GetEvents | controllers/eventController.js:55-93 | The page and limit are clamped; total is the number of matching events, pages is ceil(total / limit), and the page is the skip/limit window of the matching events in listed order |
| Events.EveryMatchOnItsPage | controllers/eventController.js:75-87 | Match number k is entry k mod limit of page k / limit + 1, a page within the reported count |
| Users.GetUser | controllers/usercontroller.js:37-48 | Invalid id gives BadRequest('Invalid user id'), unknown id NotFound('User does not exist'); success exactly for an existing id, returning that user without the password |
| Users.UpdateUser | controllers/usercontroller.js:50-72 | Invalid id gives BadRequest. A `$set` and `$unset` of the same path gives MongoDB's conflict error. An unknown id gives NotFound('User not found'). Each error leaves the store unchanged. Success comes exactly for a valid, existing id without a conflict. It applies the effective `$set` (plain fields override `$set` entries) to the first user with that id, including a `password` named under `$set` or `$unset`. Every other user is left alone, and the reply is the updated user without the password |
| Users.UpdateIdempotent | controllers/usercontroller.js:60-67 | Sending the same update again leaves the same collection and gives the same reply |
| Users.UpdateIgnoresPassword | controllers/usercontroller.js:60-62 | A plain `password` field in the body has exactly the effect of leaving it out |
| Users.OperatorsReachPassword | controllers/usercontroller.js:60-65 | A body with `$set: {password: text}` stores that text as the user's password, and one with `$unset: {password}` removes the field |
| Users.UpdateUserIntended | controllers/usercontroller.js:60-65 | Corrected route: no stored password changes for any body, and the other fields change as the route changes them |
| Users.UpdateThenGet | controllers/usercontroller.js:65 | After a successful update, getUser on that id returns exactly what the update replied |
| Users.DeleteUser | controllers/usercontroller.js:74-87 | Invalid id gives BadRequest, unknown id NotFound; success exactly for a valid, existing id, which removes the first user with the id, keeps the others in order, and replies with only its id, email and username |
| Users.DeleteThenGet | controllers/usercontroller.js:79-80 | After a delete in a collection with unique ids, getUser on that id reports that the user does not exist |
| Users.DeleteRemovesExactlyThatUser | controllers/usercontroller.js:79 | In a store with unique ids and emails, a delete leaves no user with that id, keeps every other user, and keeps ids and emails unique |
| Users.GetAllUsers | controllers/usercontroller.js:6-35 | The page and limit are clamped, total is the number of users, the page count is ceil(total / limit), and the page holds min(limit, users after skip) users, or none past the end |
| Users.EveryUserOnItsPage | controllers/usercontroller.js:22-29 | User number k is entry k mod limit of page k / limit + 1, without its password, a page within the reported count |
| Users.ListingShowsItsPage | controllers/usercontroller.js:23 | Entry k of the page is user (page − 1) × limit + k of the sorted list, without its password |
| Roles.VerifyRole | middleware/roleMiddleware.js:5-23 | A missing payload or aud is Unauthorized; success implies req.user is {aud, an allowed role}; the default [] forbids everyone; with a truthy token role, success exactly when that role is allowed |
| Roles.VerifyRoleIff | middleware/roleMiddleware.js:9-18 | Success exactly when the effective role (token first, then database) exists and is allowed; a missing user gives Unauthorized and a disallowed role Forbidden('Insufficient privileges') |
| Roles.TokenRoleWins | middleware/roleMiddleware.js:11-16 | With a truthy role in the token, the user store makes no difference to the outcome |
| Roles.AdminGate | routes/reportRoutes.js:7 | The sales route is reached only with a valid access token whose effective role is admin, and access-token failures are passed through unchanged |
| Roles.UserTokenNeverAdmin | routes/reportRoutes.js:7 | An access token carrying role "user" never reaches the sales report |
| Reports.ModeOf | controllers/reportController.js:16-28 | 'day' groups by day and 'week' by week; a missing or any other groupBy groups by month |
| Reports.KeyOf | controllers/reportController.js:16-28 | Day keys carry year, month and day; week keys year and ISO week; month keys year and month; the other fields are absent |
| Reports.KeyLessTotal | controllers/reportController.js:34 | The sort order on group keys is a strict total order |
| Reports.AggregateAscending | controllers/reportController.js:34 | The groups come in strictly ascending key order |
| Reports.AggregateLookup | controllers/reportController.js:33 | Each key's totalAmount and payments are the sum and count of the counted payments under that key, and every group counts at least one payment |
| Reports.AggregateNoEmptyGroup | controllers/reportController.js:33 | Every group the aggregation produces counts at least one payment |
| Reports.AggregateTotals | controllers/reportController.js:33 | Summed over all groups, amounts and counts equal those of all counted payments |
| Reports.SalesReport | controllers/reportController.js:5-41 | Missing or empty from/to gives BadRequest('from and to are required (YYYY-MM-DD)'); otherwise the reply echoes from, to and groupBy (defaulting to 'month') |
| Reports.SalesReportFigures | controllers/reportController.js:12-34 | The report's groups hold, per key, the sum and count of SUCCESS payments created from the start of `from` to the end of the `to` day; they add up to the overall sum and count and are sorted; every group in the reply counts at least one payment, and its figures are those of its own key |
| Reports.UncountedPaymentsIgnored | controllers/reportController.js:14 | A payment that is not SUCCESS, or is outside the range, changes no group |
| Users.DigestRoundTrip | controllers/authController.js:21-41 | The text stored for a key reads back as that key; any text that reads back as a key is the text of that key |
| Users.MatchesHash | controllers/authController.js:21-41 | A password matches the hash of another exactly when bcrypt sees the same key in both |
| Users.ShortAsciiKeysDiffer | controllers/authController.js:21-41 | Two different ASCII passwords of at most 72 characters, without NUL characters, have different keys |
| Users.LongPasswordKeyIgnoresSuffix | controllers/authController.js:21-41 | An ASCII password of 72 characters or more has the same key with anything appended |
| Users.DoubledKeys | controllers/authController.js:21-41 | A password whose bytes plus NUL are another's bytes plus NUL twice over has the same key |
| Users.NulPasswordsCollide | controllers/authController.js:21-41 | "ab" and "ab", NUL, "ab" have the same key, because of the NUL bcryptjs appends and repeats |
| Auth.Register | controllers/authController.js:13-31 | A missing username, email or password gives BadRequest and an existing email Conflict, each with the store unchanged; success exactly for a new email, storing the hash of the password with role 'client' and replying without the password |
| Auth.RegisterIgnoresRole | controllers/authController.js:15-22 | The role in the body makes no difference, and a new account is always 'client' |
| Auth.RegisterPreservesWellFormed | controllers/authController.js:18-22 | With a fresh id, registration keeps ids and emails unique |
| Auth.Issue | controllers/authController.js:46-47 | Login issues an access token carrying the user's id and role, and a refresh token with the user's id |
| Auth.Login | controllers/authController.js:33-58 | Missing fields give BadRequest. An account without a stored password gives bcrypt's 'Illegal arguments' error. Every other failure is Unauthorized('Invalid credentials'). Success comes exactly when the email exists and the password's bcrypt key is the one the stored text records |
| Auth.LoginDoesNotRevealAccounts | controllers/authController.js:38-43 | An unknown email and a wrong password for an account that has a password get the identical reply |
| Auth.RegisterThenLogin | controllers/authController.js:21-43 | Right after registering, login succeeds with the registered password and returns the registered user; with another password it succeeds exactly when bcrypt's key is the same, and otherwise fails as invalid credentials |
| Auth.LongPasswordLoginIgnoresSuffix | controllers/authController.js:21-43 | An account registered with an ASCII password of 72 or more characters also logs in with that password followed by anything. When neither password contains a NUL character, it never logs in with an ASCII password shorter than 72 characters |
| Auth.NulPasswordLogsIn | controllers/authController.js:21-43 | An account registered with "ab" also logs in with "ab", NUL, "ab" |
| Auth.UpdateTakesOverAccount | controllers/usercontroller.js:60-65 | After an update whose `$set` holds the hash of a chosen password, logging in to that user's email with the chosen password succeeds and returns that user |
| Auth.RemovedPasswordBreaksLogin | controllers/usercontroller.js:60-65 | After an update whose `$unset` names `password`, every login to that account fails with bcrypt's 'Illegal arguments' error |
| Auth.Refresh | controllers/authController.js:60-77 | A missing token gives BadRequest and an invalid refresh token Unauthorized; a non-ObjectId audience gives the cast error and a missing user Unauthorized; success exactly for a live refresh token of an existing user, issuing a new pair with the user's current role |
| Auth.LoginThenRefresh | controllers/authController.js:65-70 | The refresh token from a login, presented before it expires, buys an access token for the same user |
| Auth.ForgotPassword | controllers/authController.js:80-101 | The message is the same whether or not the email exists; a link, and a new reset token, exist exactly when it does |
| Auth.ResetPassword | controllers/authController.js:103-120 | Missing fields give BadRequest; an undecodable or failing token is passed on with nothing changed; once the token verifies it is consumed, and then a non-ObjectId id gives the cast error and a missing user NotFound('User not found'); success exactly when the token verifies for an existing user, setting only that user's password to the hash of newPassword |
| Auth.ResetChangesOnlyThatPassword | controllers/authController.js:110-114 | A successful reset changes no other user, and nothing of that user but the password |
| Auth.ForgotThenReset | controllers/authController.js:85-114 | The link's token resets the password once before it expires; the account then logs in with the new password, and a second use is refused as already used |

## Findings

| source | as written | input that shows it | evidently intended | confidence | as-written member | corrected member |
|---|---|---|---|---|---|---|
| controllers/usercontroller.js:60-65 | `delete update.password` removes only the top-level key, and the rest of the body goes to `findByIdAndUpdate` unchanged | `PATCH /api/users/updateUser/<id>` with body `{"$set": {"password": <bcrypt hash of a chosen password>}}`, from any holder of an access token | this route never changes a password (the comment at line 61) | not executed | Users.OperatorsReachPassword, Auth.UpdateTakesOverAccount | Users.UpdateUserIntended |

## Left out

- The OAuth token request and the STK-push POST are not modelled. Each is an outcome parameter. The Basic-auth header and the base64 request password are symbolic.
- MongoDB query mechanics, the aggregation pipeline engine and `populate` are not modelled. The Payment and User collections are sequences searched by first match. Events are a map by id.
- The `search` regular-expression filters of `getEvents` and `getAllUsers` are not modelled.
- Users.GetAllUsers: the listing is given already sorted newest-first and filtered, so the sort and the search are not part of its contract.
- Events.GetEvents: the `to` bound arrives as the end of the requested day, and `search` is not applied.
- `parseInt`/`parseFloat` returning NaN are not modelled. NaN escapes the page clamps. Query numbers are integers, and absent or empty parameters are `None`.
- `Math.round` of prices and amounts is not modelled. Amounts and prices are integers.
- Date parsing, `setHours(23, 59, 59, 999)` and ISO-week computation are functions of the `Calendar` parameter.
- Tokens.AccessTokenRoundTrip / Tokens.RefreshTokenRoundTrip: the three signing secrets (`ACCESS_TOKEN_SECRET`, `REFRESH_TOKEN_SECRET`, `JWT_RESET_SECRET`) are assumed to be distinct, so each is a separate `Key` constructor. Nothing in helpers/jwtHelper.js forces them to differ. If two are equal, a token of one kind passes as the other, for example an access token accepted as a refresh token, which these lemmas rule out.
- JWT signing and signature checking, and bcrypt's salting and hashing, are opaque. A digest's text is a fixed prefix followed by one character per key byte, standing for bcrypt's salt and hash. A stored text that is not such a digest never matches. bcryptjs answers `false` for text that is not 60 characters long, but throws for 60-character text with a malformed salt. That error is not modelled. The `audience`/`issuer` options are reduced to the token's audience.
- Users.UpdateUser: only `$set` and `$unset` are modelled. `$unset` is modelled for `password` only, and the model drops it for other fields. Every other update operator (`$rename`, `$inc`, `$push`, …) is dropped as well, and so are values that are not strings. The route no longer promises that a stored password stays unchanged, because the code does not keep that promise.
- Joi's error wording is not modelled. Only the first failing key is reported.
- `mongoose.isValidObjectId` is modelled as 24 hexadecimal digits, which is its behaviour from Mongoose 7 on. Earlier versions also accept any 12-character string; no version is pinned, so those ids are treated as invalid.
- Ids are compared as exact text. An ObjectId written with upper-case hexadecimal digits is not matched with its lower-case form.
- Mpesa.Target: a callback whose `CheckoutRequestID` is absent or JSON `null` matches no record in the model. In the code a `null` id makes the filter `{checkoutRequestID: null}`, which MongoDB matches against a record whose id is missing or null. Such a record is one whose push failed (id never set) or a live push whose reply carried no id (stored as `null`), so the code would settle that record. What MongoDB matches for an undefined filter value is not modelled either.
- A receipt item whose value is JSON `null` is not modelled. An item's value is a string or absent.
- Races between the submission's update and the callback, and the process-local lifetime of the reset-token store, are not modelled.
- models/user.js is not part of this model. Email uniqueness is enforced only by `register`'s lookup.
- Events.CreateEvent / Events.UpdateEvent: models/event.js is not part of this model, so `event.save()` and `findByIdAndUpdate` are assumed to succeed for any requester id and any validated `createdBy`. If the schema declares `createdBy` as an ObjectId reference, a value that is not an ObjectId would be refused there with a cast or validation error that the model does not produce.
- A lookup by an id that is not an ObjectId throws a Mongoose CastError, which is passed on. It is modelled as an `Internal` error with a fixed message.
- controllers/tokenController.js is a duplicate of the refresh flow and is not modelled. The same goes for scripts/createAdmin.js (a one-off script), `index.js`, logging, and the routes other than the sales-report guard.
