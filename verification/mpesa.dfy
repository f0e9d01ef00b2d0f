/** The M-Pesa payment-intent logic of controllers/mpesaController.js:
    `initiateStkPush` (amount resolution, phone check, record creation, the
    simulated fallback and the live STK push) and `mpesaCallback` (matching a
    gateway callback to its record and settling it).

    The network is replaced by its outcomes: the caller supplies what
    `getAccessToken` and the STK-push POST would have produced, and the model
    says which of them the controller gets as far as using. */
module Mpesa {
  import opened Outcomes
  import opened Phone
  import opened Payments

  /** What the controller reads of a stored Event document. */
  datatype EventDoc = EventDoc(title: string, price: int)

  /** An event as `Event.findById` loads it: its `_id` with the stored fields. */
  datatype EventInfo = EventInfo(id: string, title: string, price: int)

  /** The request body: `{eventId, phone, amount}`. */
  datatype SubmitRequest = SubmitRequest(eventId: Option<string>, phone: Option<string>, amount: Option<int>)

  /** The gateway settings read from the environment (`|| ''` makes a missing one empty). */
  datatype GatewayConfig = GatewayConfig(shortCode: string, passkey: string, callbackUrl: Option<string>)

  /** What `getAccessToken()` produced: a token, or a thrown error (missing consumer
      key/secret, rejected handshake, unreachable host). */
  datatype TokenOutcome = TokenOk(accessToken: string) | TokenFailed(reason: string)

  /** The fields of the STK-push response the controller reads; `responseCode` is
      carried only to show that nothing reads it. */
  datatype StkResponse = StkResponse(
    merchantRequestID: Option<string>,
    checkoutRequestID: Option<string>,
    metadataCheckoutRequestID: Option<string>,
    responseCode: Option<string>)

  /** What the STK-push POST produced: a response body, or a thrown error
      (timeout, non-2xx status, network failure). */
  datatype PostOutcome = PostOk(data: StkResponse) | PostFailed(reason: string)

  /** The request password, the base64 text of shortcode + passkey + timestamp; the
      encoding itself is kept opaque. */
  datatype Password = Base64Of(plain: string)

  datatype StkPayload = StkPayload(
    businessShortCode: string,
    password: Password,
    timestamp: string,
    amount: int,
    partyA: string,
    partyB: string,
    phoneNumber: string,
    callBackURL: Option<string>,
    accountReference: string,
    transactionDesc: string,
    bearer: string)

  datatype SubmitReply =
    | Simulated(paymentId: nat, message: string)
    | Initiated(paymentId: nat, data: StkResponse)

  /** One run of `initiateStkPush`: the reply, the payment store afterwards and the
      STK-push request sent to the gateway, if one was. */
  datatype Submission = Submission(reply: Result<SubmitReply>, store: Store, sent: Option<StkPayload>)

  /** What the checks before `Payment.create` settle on. */
  datatype Prepared = Prepared(user: string, event: Option<EventInfo>, amount: int, phone: string)

  const MsgPhoneRequired := "phone required"
  const MsgNoAmount := "Event has no valid price and no amount provided"
  const MsgBadPhone := "Invalid phone format (use 2547XXXXXXXX)"
  const MsgUnauthorized := "Unauthorized"
  const MsgNoCredentials := "Dev: MPesa credentials missing. Simulated STK push created."
  const MsgNoToken := "Dev: Could not obtain Daraja token. Simulated STK push created."

  /** The event lookup: only a truthy `eventId` is looked up. `findById` on an id
      that is not an ObjectId throws a CastError, which the controller catches,
      so such an id ends as "no event" just like an id nobody stored. */
  function ResolveEvent(eventId: Option<string>, events: map<string, EventDoc>): (r: Option<EventInfo>)
    ensures r.Some? <==> Truthy(eventId) && ValidObjectId(eventId.value) && eventId.value in events
    ensures r.Some? ==> && r.value.id == eventId.value && ValidObjectId(r.value.id)
                        && r.value.title == events[eventId.value].title
                        && r.value.price == events[eventId.value].price
  {
    if Truthy(eventId) && ValidObjectId(eventId.value) && eventId.value in events then
      var d := events[eventId.value];
      Some(EventInfo(eventId.value, d.title, d.price))
    else None
  }

  /** An `eventId` that is not an ObjectId never selects an event, even when some
      stored key spells it: the caught CastError leaves the amount to the client. */
  lemma NonObjectIdEventIgnored(eventId: string, events: map<string, EventDoc>, clientAmount: Option<int>)
    requires !ValidObjectId(eventId)
    ensures ResolveEvent(Some(eventId), events).None?
    ensures ResolveAmount(ResolveEvent(Some(eventId), events), clientAmount).Ok? <==>
              clientAmount.Some? && clientAmount.value > 0
  {
  }

  predicate PricedEvent(event: Option<EventInfo>) {
    event.Some? && event.value.price > 0
  }

  /** The authoritative amount: a positively priced event wins over anything the
      client sent; only without one is a positive client amount used. */
  function ResolveAmount(event: Option<EventInfo>, clientAmount: Option<int>): (r: Result<int>)
    ensures r.Ok? ==> r.value > 0
    ensures PricedEvent(event) ==> r == Ok(event.value.price)
    ensures !PricedEvent(event) && clientAmount.Some? && clientAmount.value > 0 ==> r == Ok(clientAmount.value)
    ensures r.Err? <==> !PricedEvent(event) && !(clientAmount.Some? && clientAmount.value > 0)
    ensures r.Err? ==> r.error == BadRequest(MsgNoAmount)
  {
    if PricedEvent(event) then Ok(event.value.price)
    else if clientAmount.Some? && clientAmount.value > 0 then Ok(clientAmount.value)
    else Err(BadRequest(MsgNoAmount))
  }

  /** The checks that run before any record exists, in the order the controller
      makes them: phone present, caller identified, amount resolvable, phone in
      canonical form after normalisation. */
  function CheckRequest(req: SubmitRequest, aud: Option<string>, events: map<string, EventDoc>): (r: Result<Prepared>)
    ensures !Truthy(req.phone) ==> r == Err(BadRequest(MsgPhoneRequired))
    ensures Truthy(req.phone) && !Truthy(aud) ==> r == Err(Unauthorized(MsgUnauthorized))
    ensures (Truthy(req.phone) && Truthy(aud) && ResolveAmount(ResolveEvent(req.eventId, events), req.amount).Err?)
              ==> r == Err(BadRequest(MsgNoAmount))
    ensures r.Ok? <==>
              && Truthy(req.phone) && Truthy(aud)
              && ResolveAmount(ResolveEvent(req.eventId, events), req.amount).Ok?
              && IsCanonical(Normalize(req.phone.value))
    ensures (r.Err? && Truthy(req.phone) && Truthy(aud)
             && ResolveAmount(ResolveEvent(req.eventId, events), req.amount).Ok?)
              ==> r == Err(BadRequest(MsgBadPhone))
    ensures r.Ok? ==> && r.value.user == aud.value
                      && r.value.event == ResolveEvent(req.eventId, events)
                      && r.value.amount == ResolveAmount(r.value.event, req.amount).value
                      && r.value.amount > 0
                      && r.value.phone == Normalize(req.phone.value)
                      && IsCanonical(r.value.phone)
  {
    if !Truthy(req.phone) then Err(BadRequest(MsgPhoneRequired))
    else if !Truthy(aud) then Err(Unauthorized(MsgUnauthorized))
    else
      var event := ResolveEvent(req.eventId, events);
      match ResolveAmount(event, req.amount)
      case Err(e) => Err(e)
      case Ok(amount) =>
        var phone := Normalize(req.phone.value);
        if !IsCanonical(phone) then Err(BadRequest(MsgBadPhone))
        else Ok(Prepared(aud.value, event, amount, phone))
  }

  /** `x || null` as stored by the update after a live push. */
  function OrNull(x: Option<string>): (f: Field)
    ensures Truthy(x) ==> f == Str(x.value)
    ensures !Truthy(x) ==> f == Null
  {
    if Truthy(x) then Str(x.value) else Null
  }

  /** `data.CheckoutRequestID || data.ResponseMetadata?.CheckoutRequestID || null`. */
  function CheckoutFrom(data: StkResponse): (f: Field)
    ensures Truthy(data.checkoutRequestID) ==> f == Str(data.checkoutRequestID.value)
    ensures (!Truthy(data.checkoutRequestID) && Truthy(data.metadataCheckoutRequestID))
              ==> f == Str(data.metadataCheckoutRequestID.value)
    ensures !Truthy(data.checkoutRequestID) && !Truthy(data.metadataCheckoutRequestID) ==> f == Null
  {
    OrNull(OrElse(data.checkoutRequestID, data.metadataCheckoutRequestID))
  }

  /** The record after the simulated fallback: synthetic ids, still `PENDING`. */
  function Simulate(p: Payment): Payment {
    p.(merchantRequestID := Str(DevMerchantId(p.id)),
       checkoutRequestID := Str(DevCheckoutId(p.id)),
       status := Pending)
  }

  function BuildPayload(cfg: GatewayConfig, timestamp: string, token: string, p: Prepared, paymentId: nat): StkPayload {
    StkPayload(
      cfg.shortCode,
      Base64Of(cfg.shortCode + cfg.passkey + timestamp),
      timestamp,
      p.amount,
      p.phone,
      cfg.shortCode,
      p.phone,
      cfg.callbackUrl,
      "EVT-" + (if p.event.Some? then p.event.value.id else IdText(paymentId)),
      "Event Ticket " + (if p.event.Some? then p.event.value.title else "Direct Payment"),
      token)
  }

  /** `initiateStkPush`. `aud` is `req.payload?.aud`, `events` the Event
      collection, `timestamp` the formatted clock reading, and `token`/`post` the
      outcomes of the two gateway calls should the controller make them. */
  function Submit(
    req: SubmitRequest, aud: Option<string>, events: map<string, EventDoc>, st: Store,
    cfg: GatewayConfig, timestamp: string, token: TokenOutcome, post: PostOutcome): (s: Submission)
    ensures s.reply.Err? ==> s.sent.None? || post.PostFailed?
    ensures s.sent.Some? ==> cfg.shortCode != "" && cfg.passkey != "" && token.TokenOk?
    ensures CheckRequest(req, aud, events).Err? ==> s == Submission(Err(CheckRequest(req, aud, events).error), st, None)
    ensures |s.store| == |st| + 1 <==> CheckRequest(req, aud, events).Ok? && ValidObjectId(aud.value)
    ensures |s.store| != |st| + 1 ==> s.store == st && s.sent.None? && s.reply.Err?
    ensures |s.store| == |st| + 1 ==>
              var event := ResolveEvent(req.eventId, events);
              && s.store[..|st|] == st
              && s.store[|st|].id == |st|
              && s.store[|st|].status == Pending
              && s.store[|st|].user == aud.value
              && s.store[|st|].amount == ResolveAmount(event, req.amount).value
              && s.store[|st|].phone == Normalize(req.phone.value)
              && s.store[|st|].event == (if event.Some? then Some(event.value.id) else None)
  {
    match CheckRequest(req, aud, events)
    case Err(e) => Submission(Err(e), st, None)
    case Ok(p) =>
      var id := |st|;
      var eventRef := if p.event.Some? then Some(p.event.value.id) else None;
      assert Create(id, p.user, eventRef, p.amount, p.phone).Ok? <==> ValidObjectId(aud.value);
      match Create(id, p.user, eventRef, p.amount, p.phone)
      case Err(e) => Submission(Err(e), st, None)
      case Ok(rec) =>
        var st1 := st + [rec];
        if cfg.shortCode == "" || cfg.passkey == "" then
          Submission(Ok(Simulated(id, MsgNoCredentials)), st1[id := Simulate(rec)], None)
        else
          match token
          case TokenFailed(_) =>
            Submission(Ok(Simulated(id, MsgNoToken)), st1[id := Simulate(rec)], None)
          case TokenOk(bearer) =>
            var payload := BuildPayload(cfg, timestamp, bearer, p, id);
            match post
            case PostFailed(reason) => Submission(Err(Internal(reason)), st1, Some(payload))
            case PostOk(data) =>
              var rec' := rec.(merchantRequestID := OrNull(data.merchantRequestID),
                               checkoutRequestID := CheckoutFrom(data));
              Submission(Ok(Initiated(id, data)), st1[id := rec'], Some(payload))
  }

  // ---------------------------------------------------------------------------
  // Properties of `initiateStkPush`

  /** A request refused by any of the checks leaves the store exactly as it was
      and never reaches the gateway. */
  lemma RejectedBeforeRecord(
    req: SubmitRequest, aud: Option<string>, events: map<string, EventDoc>, st: Store,
    cfg: GatewayConfig, timestamp: string, token: TokenOutcome, post: PostOutcome)
    requires CheckRequest(req, aud, events).Err?
    ensures var s := Submit(req, aud, events, st, cfg, timestamp, token, post);
            && s.store == st && s.sent.None?
            && s.reply == Err(CheckRequest(req, aud, events).error)
  {
  }

  /** A request that passes the checks but whose caller id is not an ObjectId is
      refused by the schema when the record is created: the store is unchanged,
      nothing is sent, and Mongoose's validation error is passed on. */
  lemma NonObjectIdCallerRefused(
    req: SubmitRequest, aud: Option<string>, events: map<string, EventDoc>, st: Store,
    cfg: GatewayConfig, timestamp: string, token: TokenOutcome, post: PostOutcome)
    requires CheckRequest(req, aud, events).Ok?
    requires !ValidObjectId(aud.value)
    ensures Submit(req, aud, events, st, cfg, timestamp, token, post) == Submission(Err(Internal(MsgPaymentInvalid)), st, None)
  {
  }

  /** A request that passes the checks, from a caller whose id is an ObjectId,
      creates exactly one record, appended after
      the existing ones, whatever the gateway does afterwards. The record stays
      `PENDING`, carries the caller, the resolved amount and the normalised phone,
      and refers to the event only when one was found. */
  lemma AcceptedCreatesOneRecord(
    req: SubmitRequest, aud: Option<string>, events: map<string, EventDoc>, st: Store,
    cfg: GatewayConfig, timestamp: string, token: TokenOutcome, post: PostOutcome)
    requires CheckRequest(req, aud, events).Ok?
    requires ValidObjectId(aud.value)
    ensures var s := Submit(req, aud, events, st, cfg, timestamp, token, post);
            var p := CheckRequest(req, aud, events).value;
            var event := ResolveEvent(req.eventId, events);
            && |s.store| == |st| + 1
            && s.store[..|st|] == st
            && s.store[|st|].id == |st|
            && s.store[|st|].status == Pending
            && s.store[|st|].user == aud.value
            && s.store[|st|].amount == ResolveAmount(event, req.amount).value
            && s.store[|st|].phone == Normalize(req.phone.value)
            && IsCanonical(s.store[|st|].phone)
            && (s.store[|st|].event.Some? <==> event.Some?)
            && (event.Some? ==> s.store[|st|].event == Some(event.value.id))
            && s.store[|st|].mpesaReceiptNumber == Unset
            && s.store[|st|].rawCallback == None
  {
    var p := CheckRequest(req, aud, events).value;
    var eventRef := if p.event.Some? then Some(p.event.value.id) else None;
    assert Create(|st|, p.user, eventRef, p.amount, p.phone).Ok?;
  }

  /** Without a shortcode or passkey, or when no access token can be obtained, the
      record gets the synthetic `DEV-` ids, stays `PENDING`, the reply says
      `simulated`, and no push is sent. */
  lemma DegradedPathSimulates(
    req: SubmitRequest, aud: Option<string>, events: map<string, EventDoc>, st: Store,
    cfg: GatewayConfig, timestamp: string, token: TokenOutcome, post: PostOutcome)
    requires CheckRequest(req, aud, events).Ok?
    requires ValidObjectId(aud.value)
    requires cfg.shortCode == "" || cfg.passkey == "" || token.TokenFailed?
    ensures var s := Submit(req, aud, events, st, cfg, timestamp, token, post);
            && s.reply.Ok? && s.reply.value.Simulated? && s.reply.value.paymentId == |st|
            && s.reply.value.message == (if cfg.shortCode == "" || cfg.passkey == "" then MsgNoCredentials else MsgNoToken)
            && s.sent.None?
            && |s.store| == |st| + 1
            && s.store[|st|].merchantRequestID == Str("DEV-MERCHANT-" + IdText(|st|))
            && s.store[|st|].checkoutRequestID == Str("DEV-CHECKOUT-" + IdText(|st|))
            && s.store[|st|].status == Pending
  {
    var p := CheckRequest(req, aud, events).value;
    var eventRef := if p.event.Some? then Some(p.event.value.id) else None;
    assert Create(|st|, p.user, eventRef, p.amount, p.phone).Ok?;
  }

  /** After a live push the record takes its correlation ids from the response
      (`CheckoutRequestID`, else `ResponseMetadata.CheckoutRequestID`, else
      `null`), its status is left alone, and the push carried the resolved amount
      and the normalised phone as both `PartyA` and `PhoneNumber`. */
  lemma LivePathRecordsCorrelation(
    req: SubmitRequest, aud: Option<string>, events: map<string, EventDoc>, st: Store,
    cfg: GatewayConfig, timestamp: string, bearer: string, data: StkResponse)
    requires CheckRequest(req, aud, events).Ok?
    requires ValidObjectId(aud.value)
    requires cfg.shortCode != "" && cfg.passkey != ""
    ensures var s := Submit(req, aud, events, st, cfg, timestamp, TokenOk(bearer), PostOk(data));
            var p := CheckRequest(req, aud, events).value;
            && s.reply == Ok(Initiated(|st|, data))
            && s.store[|st|].status == Pending
            && s.store[|st|].merchantRequestID == OrNull(data.merchantRequestID)
            && s.store[|st|].checkoutRequestID == CheckoutFrom(data)
            && s.sent.Some?
            && s.sent.value.amount == p.amount
            && s.sent.value.partyA == p.phone && s.sent.value.phoneNumber == p.phone
            && s.sent.value.partyB == cfg.shortCode
            && s.sent.value.bearer == bearer
  {
    var eventRef := if CheckRequest(req, aud, events).value.event.Some? then Some(CheckRequest(req, aud, events).value.event.value.id) else None;
    var p := CheckRequest(req, aud, events).value;
    assert Create(|st|, p.user, eventRef, p.amount, p.phone).Ok?;
  }

  /** A push whose POST throws leaves the record `PENDING` with no correlation ids
      and passes the error on. */
  lemma FailedPushLeavesPending(
    req: SubmitRequest, aud: Option<string>, events: map<string, EventDoc>, st: Store,
    cfg: GatewayConfig, timestamp: string, bearer: string, reason: string)
    requires CheckRequest(req, aud, events).Ok?
    requires ValidObjectId(aud.value)
    requires cfg.shortCode != "" && cfg.passkey != ""
    ensures var s := Submit(req, aud, events, st, cfg, timestamp, TokenOk(bearer), PostFailed(reason));
            && s.reply == Err(Internal(reason))
            && |s.store| == |st| + 1
            && s.store[|st|].status == Pending
            && s.store[|st|].merchantRequestID == Unset
            && s.store[|st|].checkoutRequestID == Unset
  {
    var p := CheckRequest(req, aud, events).value;
    var eventRef := if p.event.Some? then Some(p.event.value.id) else None;
    assert Create(|st|, p.user, eventRef, p.amount, p.phone).Ok?;
  }

  /** The gateway's `ResponseCode` is never inspected: two responses that differ
      only there leave identical stores and replies that differ only in echoing it. */
  lemma ResponseCodeIgnored(
    req: SubmitRequest, aud: Option<string>, events: map<string, EventDoc>, st: Store,
    cfg: GatewayConfig, timestamp: string, bearer: string, data: StkResponse, code: Option<string>)
    ensures var a := Submit(req, aud, events, st, cfg, timestamp, TokenOk(bearer), PostOk(data));
            var b := Submit(req, aud, events, st, cfg, timestamp, TokenOk(bearer), PostOk(data.(responseCode := code)));
            a.store == b.store && a.reply.Ok? == b.reply.Ok?
  {
  }

  /** Submission keeps the store well formed. */
  lemma SubmitPreservesWellFormed(
    req: SubmitRequest, aud: Option<string>, events: map<string, EventDoc>, st: Store,
    cfg: GatewayConfig, timestamp: string, token: TokenOutcome, post: PostOutcome)
    requires WellFormed(st)
    ensures WellFormed(Submit(req, aud, events, st, cfg, timestamp, token, post).store)
  {
    if CheckRequest(req, aud, events).Ok? && ValidObjectId(aud.value) {
      AcceptedCreatesOneRecord(req, aud, events, st, cfg, timestamp, token, post);
    }
  }

  // ---------------------------------------------------------------------------
  // `mpesaCallback`

  /** The two acknowledgement shapes: `{ok: true}` for a payload without
      `Body.stkCallback` or without a matching record, and
      `{ResultCode: 0, ResultDesc: 'Accepted'}` once a record was updated. Both
      are sent with status 200. */
  datatype CallbackReply = Ack | Accepted

  datatype CallbackResult = CallbackResult(reply: CallbackReply, store: Store)

  const ReceiptName := "MpesaReceiptNumber"

  /** Whether some item is named `MpesaReceiptNumber`. */
  predicate HasReceiptItem(items: seq<Item>) {
    exists k :: 0 <= k < |items| && items[k].name == ReceiptName
  }

  /** `(items.find(i => i.Name === 'MpesaReceiptNumber') || {}).Value`: the value
      of the first item with that name (`None` when it carries none), and `None`
      when no item has the name. */
  function Receipt(items: seq<Item>): (r: Option<string>)
    ensures forall k :: (0 <= k < |items| && items[k].name == ReceiptName &&
                         forall j :: 0 <= j < k ==> items[j].name != ReceiptName) ==> r == items[k].value
    ensures !HasReceiptItem(items) ==> r.None?
  {
    if items == [] then None
    else if items[0].name == ReceiptName then items[0].value
    else
      var r := Receipt(items[1..]);
      assert forall k :: 1 <= k < |items| ==> items[k] == items[1..][k - 1];
      r
  }

  /** Items after the first `MpesaReceiptNumber` item are never read, and items
      before it are skipped: the receipt of a concatenation is that of the first
      part when the first part names one, and that of the second part otherwise. */
  lemma {:induction false} ReceiptConcat(a: seq<Item>, b: seq<Item>)
    ensures Receipt(a + b) == if HasReceiptItem(a) then Receipt(a) else Receipt(b)
    decreases |a|
  {
    if a == [] {
      assert a + b == b;
    } else {
      assert (a + b)[0] == a[0];
      assert (a + b)[1..] == a[1..] + b;
      if a[0].name != ReceiptName {
        ReceiptConcat(a[1..], b);
        assert HasReceiptItem(a) <==> HasReceiptItem(a[1..]) by {
          if HasReceiptItem(a) {
            var k :| 0 <= k < |a| && a[k].name == ReceiptName;
            assert a[1..][k - 1] == a[k];
          }
          if HasReceiptItem(a[1..]) {
            var k :| 0 <= k < |a[1..]| && a[1..][k].name == ReceiptName;
            assert a[k + 1] == a[1..][k];
          }
        }
      } else {
        assert HasReceiptItem(a) by { assert a[0].name == ReceiptName; }
      }
    }
  }

  /** The stored receipt after a code-0 callback. Mongoose drops an `undefined`
      value from an update, so without a receipt value the stored one stays. */
  function ReceiptAfter(stored: Field, receipt: Option<string>): Field {
    if receipt.Some? then Str(receipt.value) else stored
  }

  /** The record a callback with this payload is applied to, if any. */
  function Target(st: Store, env: Envelope): Option<nat> {
    if env.stkCallback.None? || env.stkCallback.value.checkoutRequestID.None? then None
    else FindByCheckout(st, env.stkCallback.value.checkoutRequestID.value)
  }

  /** The matched record after the callback: `SUCCESS` with the receipt when the
      result code is the number 0, `FAILED` otherwise; the payload is kept either
      way. No look at the record's current status is taken first. */
  function Settle(p: Payment, cb: StkCallback, env: Envelope): Payment {
    if cb.resultCode == JsNum(0) then
      p.(status := Success,
         mpesaReceiptNumber := ReceiptAfter(p.mpesaReceiptNumber, Receipt(if cb.items.Some? then cb.items.value else [])),
         rawCallback := Some(env))
    else
      p.(status := Failed, rawCallback := Some(env))
  }

  /** `mpesaCallback`. */
  function Callback(st: Store, env: Envelope): (r: CallbackResult)
    ensures |r.store| == |st|
    ensures r.reply == Accepted <==> Target(st, env).Some?
  {
    match Target(st, env)
    case None => CallbackResult(Ack, st)
    case Some(i) => CallbackResult(Accepted, st[i := Settle(st[i], env.stkCallback.value, env)])
  }

  // ---------------------------------------------------------------------------
  // Properties of `mpesaCallback`

  /** A payload without `Body.stkCallback`, or one whose `CheckoutRequestID` no
      record carries, is acknowledged and changes nothing. */
  lemma UnmatchedCallbackIsNoOp(st: Store, env: Envelope)
    requires env.stkCallback.None?
          || (env.stkCallback.value.checkoutRequestID.Some? &&
              forall j :: 0 <= j < |st| ==> st[j].checkoutRequestID != Str(env.stkCallback.value.checkoutRequestID.value))
    ensures Callback(st, env) == CallbackResult(Ack, st)
  {
  }

  /** On the first record carrying the callback's checkout id: result code 0 (the
      number, not the string) gives `SUCCESS` with the first `MpesaReceiptNumber`
      value as receipt, keeping the stored receipt when there is no such value;
      any other code gives `FAILED` and leaves the receipt as it was. The payload is stored, and no other record changes. */
  lemma MatchedCallbackSettles(st: Store, env: Envelope, i: nat)
    requires Target(st, env) == Some(i)
    ensures var r := Callback(st, env);
            var cb := env.stkCallback.value;
            && r.reply == Accepted
            && i < |st| && st[i].checkoutRequestID == Str(cb.checkoutRequestID.value)
            && (forall j :: 0 <= j < i ==> st[j].checkoutRequestID != Str(cb.checkoutRequestID.value))
            && (forall j :: 0 <= j < |st| && j != i ==> r.store[j] == st[j])
            && r.store[i].rawCallback == Some(env)
            && (cb.resultCode == JsNum(0) ==>
                  && r.store[i].status == Success
                  && var receipt := Receipt(if cb.items.Some? then cb.items.value else []);
                     && (receipt.Some? ==> r.store[i].mpesaReceiptNumber == Str(receipt.value))
                     && (receipt.None? ==> r.store[i].mpesaReceiptNumber == st[i].mpesaReceiptNumber))
            && (cb.resultCode != JsNum(0) ==>
                  && r.store[i].status == Failed
                  && r.store[i].mpesaReceiptNumber == st[i].mpesaReceiptNumber)
            && r.store[i].id == st[i].id && r.store[i].amount == st[i].amount
            && r.store[i].phone == st[i].phone && r.store[i].user == st[i].user
            && r.store[i].checkoutRequestID == st[i].checkoutRequestID
  {
  }

  /** A result code sent as the string `"0"` fails the strict comparison and marks
      the payment `FAILED`. */
  lemma StringZeroCodeFails(st: Store, env: Envelope, i: nat)
    requires Target(st, env) == Some(i)
    requires env.stkCallback.value.resultCode == JsStr("0")
    ensures Callback(st, env).store[i].status == Failed
  {
  }

  /** Replaying a callback payload gives the same store as applying it once. */
  lemma CallbackIdempotent(st: Store, env: Envelope)
    ensures Callback(Callback(st, env).store, env) == Callback(st, env)
  {
    var r := Callback(st, env);
    match Target(st, env)
    case None =>
    case Some(i) =>
      var cid := env.stkCallback.value.checkoutRequestID.value;
      assert r.store[i].checkoutRequestID == st[i].checkoutRequestID;
      assert forall j :: 0 <= j < i ==> r.store[j] == st[j];
      var t := Target(r.store, env);
      assert t == Some(i);
      assert Settle(r.store[i], env.stkCallback.value, env) == r.store[i];
  }

  /** Settling keeps the store well formed. */
  lemma CallbackPreservesWellFormed(st: Store, env: Envelope)
    requires WellFormed(st)
    ensures WellFormed(Callback(st, env).store)
  {
  }

  /** The callback applies its update whatever the record's status: a settled
      `SUCCESS` record is turned into `FAILED` by a later callback with another
      result code for the same checkout id. */
  lemma SettledRecordCanBeOverwritten()
    ensures var rec := Payment(0, "u", None, 100, Mpesa, Success, "254712345678",
                               Str("m"), Str("ws_1"), Str("R1"), None);
            var env := Envelope(Some(StkCallback(None, Some("ws_1"), JsNum(1032), None)));
            Callback([rec], env).store[0].status == Failed
  {
    var rec := Payment(0, "u", None, 100, Mpesa, Success, "254712345678",
                       Str("m"), Str("ws_1"), Str("R1"), None);
    var env := Envelope(Some(StkCallback(None, Some("ws_1"), JsNum(1032), None)));
    assert FindByCheckout([rec], "ws_1") == Some(0) by {
      assert [rec][0].checkoutRequestID == Str("ws_1");
    }
  }

  // ---------------------------------------------------------------------------
  // The documented end-to-end scenario

  /** An event priced 1000 is paid for from "0722000000" while the client claims
      an amount of 1, and the gateway answers with checkout id `ws_abc123`: the
      record is created `PENDING` for 1000 at "254722000000" with that checkout id. */
  lemma ScenarioSubmit(st: Store, cfg: GatewayConfig, timestamp: string, bearer: string)
    requires cfg.shortCode != "" && cfg.passkey != ""
    ensures var s := Submit(ScenarioRequest(), Some(ScenarioUserId()), ScenarioEvents(), st, cfg, timestamp,
                            TokenOk(bearer), PostOk(ScenarioResponse()));
            && |s.store| == |st| + 1
            && s.store[..|st|] == st
            && s.store[|st|].amount == 1000
            && s.store[|st|].phone == "254722000000"
            && s.store[|st|].event == Some(ScenarioEventId())
            && s.store[|st|].user == ScenarioUserId()
            && s.store[|st|].status == Pending
            && s.store[|st|].checkoutRequestID == Str("ws_abc123")
  {
    var req, events, aud := ScenarioRequest(), ScenarioEvents(), Some(ScenarioUserId());
    var info := EventInfo(ScenarioEventId(), "Concert", 1000);
    NormalizeSecondLocal();
    assert ResolveEvent(req.eventId, events) == Some(info);
    assert ResolveAmount(ResolveEvent(req.eventId, events), req.amount) == Ok(1000);
    var pr := CheckRequest(req, aud, events);
    assert pr == Ok(Prepared(ScenarioUserId(), Some(info), 1000, "254722000000"));
    LivePathRecordsCorrelation(req, aud, events, st, cfg, timestamp, bearer, ScenarioResponse());
    AcceptedCreatesOneRecord(req, aud, events, st, cfg, timestamp, TokenOk(bearer), PostOk(ScenarioResponse()));
  }

  /** The ObjectId written out as 23 zeros followed by `last`. */
  function ZeroPaddedId(last: char): (id: string)
    requires IsHexDigit(last)
    ensures ValidObjectId(id)
  {
    seq(23, _ => '0') + [last]
  }

  function ScenarioEventId(): string { ZeroPaddedId('e') }

  function ScenarioUserId(): string { ZeroPaddedId('1') }

  function ScenarioEvents(): map<string, EventDoc> {
    map[ScenarioEventId() := EventDoc("Concert", 1000)]
  }

  function ScenarioRequest(): SubmitRequest {
    SubmitRequest(Some(ScenarioEventId()), Some("0722000000"), Some(1))
  }

  function ScenarioResponse(): StkResponse {
    StkResponse(Some("m_1"), Some("ws_abc123"), None, Some("0"))
  }

  /** The callbacks for `ws_abc123` on a store whose record `i` is the first to
      carry it: result code 0 with receipt `QCT123XYZ` settles it `SUCCESS` with
      that receipt, result code 1032 (cancelled by the payer) settles it `FAILED`
      without one. */
  lemma ScenarioCallbacks(st: Store, i: nat)
    requires i < |st| && st[i].checkoutRequestID == Str("ws_abc123") && st[i].mpesaReceiptNumber == Unset
    requires forall j :: 0 <= j < i ==> st[j].checkoutRequestID != Str("ws_abc123")
    ensures var items := [Item("Amount", Some("1000")), Item("MpesaReceiptNumber", Some("QCT123XYZ"))];
            var ok := Envelope(Some(StkCallback(Some("m_1"), Some("ws_abc123"), JsNum(0), Some(items))));
            var cancelled := Envelope(Some(StkCallback(Some("m_1"), Some("ws_abc123"), JsNum(1032), None)));
            && Callback(st, ok).store[i].status == Success
            && Callback(st, ok).store[i].mpesaReceiptNumber == Str("QCT123XYZ")
            && Callback(st, cancelled).store[i].status == Failed
            && Callback(st, cancelled).store[i].mpesaReceiptNumber == Unset
  {
    var items := [Item("Amount", Some("1000")), Item("MpesaReceiptNumber", Some("QCT123XYZ"))];
    assert Receipt(items) == Some("QCT123XYZ") by {
      assert items[1..] == [Item("MpesaReceiptNumber", Some("QCT123XYZ"))];
    }
    assert FindByCheckout(st, "ws_abc123") == Some(i);
  }
}
