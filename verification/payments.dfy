/** The Payment collection (models/payment.js): the record's fields, the
    schema's defaults and constraints, and the store the M-Pesa controller
    reads and writes. The store is a sequence in insertion order, and a record's
    id is its position, standing in for MongoDB's generated `_id`. */
module Payments {
  import opened Outcomes

  datatype Status = Pending | Success | Failed

  /** The schema's `method` enum has the single value `'mpesa'`. */
  datatype PayMethod = Mpesa

  /** A string field as MongoDB holds it: never set, explicitly `null`, or a string. */
  datatype Field = Unset | Null | Str(s: string)

  /** A JavaScript value where the code compares it strictly (`ResultCode === 0`). */
  datatype JsValue = JsMissing | JsNum(n: int) | JsStr(s: string)

  /** One `{Name, Value}` entry of `CallbackMetadata.Item`. */
  datatype Item = Item(name: string, value: Option<string>)

  /** The `Body.stkCallback` part of the gateway's callback. `items` is
      `CallbackMetadata.Item`, `None` when either of the two is absent. */
  datatype StkCallback = StkCallback(
    merchantRequestID: Option<string>,
    checkoutRequestID: Option<string>,
    resultCode: JsValue,
    items: Option<seq<Item>>)

  /** The whole callback body, kept verbatim as `rawCallback`; `stkCallback` is
      `None` when `Body` or `Body.stkCallback` is missing. */
  datatype Envelope = Envelope(stkCallback: Option<StkCallback>)

  datatype Payment = Payment(
    id: nat,
    user: string,
    event: Option<string>,
    amount: int,
    payMethod: PayMethod,
    status: Status,
    phone: string,
    merchantRequestID: Field,
    checkoutRequestID: Field,
    mpesaReceiptNumber: Field,
    rawCallback: Option<Envelope>)

  /** The schema's validators: `user` is a required ObjectId and `event` an
      optional one (a value that does not cast to an ObjectId is refused),
      `phone` is required (Mongoose's `required` refuses the empty string) and
      `amount` has `min: 0`. */
  predicate SchemaValid(p: Payment) {
    && ValidObjectId(p.user)
    && (p.event.Some? ==> ValidObjectId(p.event.value))
    && p.phone != "" && p.amount >= 0
  }

  /** The message of the ValidationError Mongoose raises for a refused document. */
  const MsgPaymentInvalid := "Payment validation failed"

  /** `Payment.create(...)` with only user, event, amount and phone given:
      the defaults fill in `method` and `status`, the gateway fields are absent,
      and a document breaking a validator is refused. */
  function Create(id: nat, user: string, event: Option<string>, amount: int, phone: string): (r: Result<Payment>)
    ensures r.Ok? <==> && ValidObjectId(user) && (event.Some? ==> ValidObjectId(event.value))
                       && phone != "" && amount >= 0
    ensures r.Err? ==> r.error == Internal(MsgPaymentInvalid)
    ensures r.Ok? ==> SchemaValid(r.value)
    ensures r.Ok? ==> r.value.id == id && r.value.user == user && r.value.event == event
    ensures r.Ok? ==> r.value.amount == amount && r.value.phone == phone
    ensures r.Ok? ==> r.value.status == Pending && r.value.payMethod == Mpesa
    ensures r.Ok? ==> r.value.merchantRequestID == Unset && r.value.checkoutRequestID == Unset
    ensures r.Ok? ==> r.value.mpesaReceiptNumber == Unset && r.value.rawCallback == None
  {
    if !ValidObjectId(user) || (event.Some? && !ValidObjectId(event.value)) || phone == "" || amount < 0 then
      Err(Internal(MsgPaymentInvalid))
    else
      Ok(Payment(id, user, event, amount, Mpesa, Pending, phone, Unset, Unset, Unset, None))
  }

  type Store = seq<Payment>

  /** Every record sits at the position named by its id and satisfies the schema. */
  predicate WellFormed(st: Store) {
    forall i :: 0 <= i < |st| ==> st[i].id == i && SchemaValid(st[i])
  }

  /** `findByIdAndUpdate` on an existing record. */
  function Put(st: Store, p: Payment): (st': Store)
    requires p.id < |st|
    ensures |st'| == |st| && st'[p.id] == p
    ensures forall i :: 0 <= i < |st| && i != p.id ==> st'[i] == st[i]
  {
    st[p.id := p]
  }

  /** `findOne({checkoutRequestID: cid})`: the first record, in insertion order,
      that carries this checkout id. */
  function FindByCheckout(st: Store, cid: string): (r: Option<nat>)
    ensures r.Some? ==> r.value < |st| && st[r.value].checkoutRequestID == Str(cid)
    ensures r.Some? ==> forall j :: 0 <= j < r.value ==> st[j].checkoutRequestID != Str(cid)
    ensures r.None? ==> forall j :: 0 <= j < |st| ==> st[j].checkoutRequestID != Str(cid)
  {
    FindFrom(st, cid, 0)
  }

  function FindFrom(st: Store, cid: string, k: nat): (r: Option<nat>)
    requires k <= |st|
    requires forall j :: 0 <= j < k ==> st[j].checkoutRequestID != Str(cid)
    ensures r.Some? ==> k <= r.value < |st| && st[r.value].checkoutRequestID == Str(cid)
    ensures r.Some? ==> forall j :: 0 <= j < r.value ==> st[j].checkoutRequestID != Str(cid)
    ensures r.None? ==> forall j :: 0 <= j < |st| ==> st[j].checkoutRequestID != Str(cid)
    decreases |st| - k
  {
    if k == |st| then None
    else if st[k].checkoutRequestID == Str(cid) then Some(k)
    else FindFrom(st, cid, k + 1)
  }

  /** Decimal text of a record id, as it appears inside the synthetic `DEV-` ids. */
  function IdText(n: nat): (r: string)
    ensures |r| >= 1
    decreases n
  {
    if n < 10 then [DigitChar(n)] else IdText(n / 10) + [DigitChar(n % 10)]
  }

  function DigitChar(d: nat): char
    requires d < 10
  {
    "0123456789"[d]
  }

  /** Distinct records get distinct id texts. */
  lemma {:induction false} IdTextInjective(a: nat, b: nat)
    requires IdText(a) == IdText(b)
    ensures a == b
    decreases a
  {
    var ta, tb := IdText(a), IdText(b);
    if a < 10 && b < 10 {
      assert ta[0] == tb[0];
    } else if a >= 10 && b >= 10 {
      assert ta[|ta| - 1] == tb[|tb| - 1];
      assert DigitChar(a % 10) == DigitChar(b % 10);
      assert ta[..|ta| - 1] == IdText(a / 10);
      assert tb[..|tb| - 1] == IdText(b / 10);
      IdTextInjective(a / 10, b / 10);
    }
  }

  function DevMerchantId(id: nat): string {
    "DEV-MERCHANT-" + IdText(id)
  }

  function DevCheckoutId(id: nat): string {
    "DEV-CHECKOUT-" + IdText(id)
  }

  /** The same prefix followed by two different id texts gives two different strings. */
  lemma PrefixedIdTextInjective(prefix: string, a: nat, b: nat)
    ensures prefix + IdText(a) == prefix + IdText(b) ==> a == b
  {
    if prefix + IdText(a) == prefix + IdText(b) {
      assert (prefix + IdText(a))[|prefix|..] == IdText(a);
      assert (prefix + IdText(b))[|prefix|..] == IdText(b);
      IdTextInjective(a, b);
    }
  }

  /** Two records never share a synthetic id, so a callback carrying one can
      only ever reach the record it was made for. */
  lemma DevIdsDistinct(a: nat, b: nat)
    requires a != b
    ensures DevCheckoutId(a) != DevCheckoutId(b)
    ensures DevMerchantId(a) != DevMerchantId(b)
  {
    PrefixedIdTextInjective("DEV-CHECKOUT-", a, b);
    PrefixedIdTextInjective("DEV-MERCHANT-", a, b);
  }
}
