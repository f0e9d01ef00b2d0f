/** The event body schema of helpers/validationSchema.js, run by
    `createEvent` and `updateEvent` before anything is saved.

    Joi's defaults matter here: a string field refuses the empty string, keys
    the schema does not name are refused, and validation stops at the first
    failing key in schema order. Only the offending key is modelled, not Joi's
    wording of the message. */
module Validation {
  import opened Outcomes

  /** A `date` value as Joi sees it: a parseable ISO-8601 date (as a timestamp)
      or anything else. */
  datatype DateInput = IsoDate(at: int) | NotIsoDate

  datatype EventBody = EventBody(
    title: Option<string>,
    description: Option<string>,
    date: Option<DateInput>,
    location: Option<string>,
    price: Option<int>,
    createdBy: Option<string>,
    hasUnknownKeys: bool)

  /** The validated (and converted) body. */
  datatype EventFields = EventFields(
    title: string,
    description: Option<string>,
    date: int,
    location: string,
    price: Option<int>,
    createdBy: Option<string>)

  /** A string's `length` in JavaScript: the number of UTF-16 code units, two
      for a character outside the Basic Multilingual Plane. Joi's `min` and
      `max` count these. */
  function JsLength(s: string): (n: nat)
    ensures |s| <= n <= 2 * |s|
  {
    if s == [] then 0 else (if s[0] as int >= 0x10000 then 2 else 1) + JsLength(s[1..])
  }

  /** Text in the Basic Multilingual Plane has one code unit per character. */
  lemma {:induction false} JsLengthOfBmp(s: string)
    requires forall i :: 0 <= i < |s| ==> s[i] as int < 0x10000
    ensures JsLength(s) == |s|
    decreases |s|
  {
    if s != [] {
      assert forall i :: 0 <= i < |s[1..]| ==> s[1..][i] == s[i + 1];
      JsLengthOfBmp(s[1..]);
    }
  }

  /** The rules, one per key, in schema order. */
  predicate TitleOk(b: EventBody) {
    b.title.Some? && 3 <= JsLength(b.title.value) <= 100
  }

  predicate DescriptionOk(b: EventBody) {
    b.description.Some? ==> b.description.value != "" && JsLength(b.description.value) <= 500
  }

  predicate DateOk(b: EventBody) {
    b.date.Some? && b.date.value.IsoDate?
  }

  predicate LocationOk(b: EventBody) {
    b.location.Some? && b.location.value != ""
  }

  predicate PriceOk(b: EventBody) {
    b.price.Some? ==> b.price.value >= 0
  }

  predicate CreatedByOk(b: EventBody) {
    b.createdBy.Some? ==> b.createdBy.value != ""
  }

  /** Every constraint of the schema, all at once. */
  predicate Conforms(b: EventBody) {
    TitleOk(b) && DescriptionOk(b) && DateOk(b) && LocationOk(b) && PriceOk(b) && CreatedByOk(b) && !b.hasUnknownKeys
  }

  function Reject(key: string): Result<EventFields> {
    Err(BadRequest(key))
  }

  /** `eventSchema.validateAsync(body)`: the first key, in schema order, whose
      rule fails is reported as a `BadRequest`; otherwise the fields come back
      unchanged. */
  function Validate(b: EventBody): (r: Result<EventFields>)
    ensures r.Ok? <==> Conforms(b)
    ensures r.Ok? ==> && r.value.title == b.title.value
                      && r.value.description == b.description
                      && b.date == Some(IsoDate(r.value.date))
                      && r.value.location == b.location.value
                      && r.value.price == b.price
                      && r.value.createdBy == b.createdBy
    ensures !TitleOk(b) ==> r == Reject("title")
    ensures TitleOk(b) && !DescriptionOk(b) ==> r == Reject("description")
    ensures TitleOk(b) && DescriptionOk(b) && !DateOk(b) ==> r == Reject("date")
    ensures TitleOk(b) && DescriptionOk(b) && DateOk(b) && !LocationOk(b) ==> r == Reject("location")
    ensures TitleOk(b) && DescriptionOk(b) && DateOk(b) && LocationOk(b) && !PriceOk(b) ==> r == Reject("price")
    ensures TitleOk(b) && DescriptionOk(b) && DateOk(b) && LocationOk(b) && PriceOk(b) && !CreatedByOk(b) ==>
              r == Reject("createdBy")
    ensures r.Err? ==> r.error.BadRequest?
  {
    if !TitleOk(b) then Reject("title")
    else if !DescriptionOk(b) then Reject("description")
    else if !DateOk(b) then Reject("date")
    else if !LocationOk(b) then Reject("location")
    else if !PriceOk(b) then Reject("price")
    else if !CreatedByOk(b) then Reject("createdBy")
    else if b.hasUnknownKeys then Reject("unknown key")
    else Ok(EventFields(b.title.value, b.description, b.date.value.at, b.location.value, b.price, b.createdBy))
  }

  /** The body a set of validated fields came from. */
  function BodyOf(f: EventFields): EventBody {
    EventBody(Some(f.title), f.description, Some(IsoDate(f.date)), Some(f.location), f.price, f.createdBy, false)
  }

  /** Validation is a round trip: a body that passes is the body of the fields it
      yields, and those fields pass again unchanged. */
  lemma ValidateRoundTrip(b: EventBody)
    requires Validate(b).Ok?
    ensures BodyOf(Validate(b).value) == b
    ensures Validate(BodyOf(Validate(b).value)) == Validate(b)
  {
  }

  /** The length bounds are inclusive at both ends: a 3- and a 100-character title
      pass, 2 and 101 do not; a 500-character description passes, 501 does not.
      For text in the Basic Multilingual Plane a character is one unit. */
  lemma TitleAndDescriptionBounds(b: EventBody)
    requires b.date.Some? && b.date.value.IsoDate? && b.location.Some? && b.location.value != ""
    requires b.price.None? && b.createdBy.None? && !b.hasUnknownKeys
    requires b.title.Some? && b.description.Some?
    ensures JsLength(b.title.value) in {3, 100} && JsLength(b.description.value) == 500 ==> Validate(b).Ok?
    ensures JsLength(b.title.value) in {2, 101} ==> Validate(b) == Reject("title")
    ensures 3 <= JsLength(b.title.value) <= 100 && JsLength(b.description.value) == 501 ==> Validate(b) == Reject("description")
  {
  }

  /** A character outside the Basic Multilingual Plane counts twice: the title
      "\U{1F600}a" has two characters but passes the three-unit minimum. */
  lemma AstralCharacterCountsTwice(b: EventBody)
    requires b.title == Some("\U{1F600}a")
    ensures |b.title.value| == 2
    ensures TitleOk(b)
  {
    assert b.title.value[1..] == "a";
  }
}
