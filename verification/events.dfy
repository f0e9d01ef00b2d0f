/** The event controller (controllers/eventController.js): who the requester
    is, the listing with its filters and pages, and the owner-only rules for
    creating, updating and deleting events. The Event collection is a map from
    id to document. */
module Events {
  import opened Outcomes
  import opened Validation
  import opened Pagination

  /** The places `getUserIdFromReq` looks for an id, in the order it looks. */
  datatype Principal = Principal(
    payloadAud: Option<string>,
    payloadSub: Option<string>,
    userId: Option<string>,
    userObjectId: Option<string>,
    reqUserId: Option<string>,
    authUid: Option<string>)

  /** `getUserIdFromReq`: `aud || sub || user.id || user._id || userId || auth.uid || null`. */
  function GetUserIdFromReq(p: Principal): Option<string> {
    OrElse(p.payloadAud, OrElse(p.payloadSub, OrElse(p.userId,
      OrElse(p.userObjectId, OrElse(p.reqUserId, OrElse(p.authUid, None))))))
  }

  function Candidates(p: Principal): seq<Option<string>> {
    [p.payloadAud, p.payloadSub, p.userId, p.userObjectId, p.reqUserId, p.authUid]
  }

  /** The first truthy entry of a list, if any. */
  function FirstTruthy(xs: seq<Option<string>>): (r: Option<string>)
    ensures r.Some? ==> exists k :: 0 <= k < |xs| && xs[k] == r && Truthy(r)
    ensures r.Some? ==> exists k :: 0 <= k < |xs| && xs[k] == r && forall j :: 0 <= j < k ==> !Truthy(xs[j])
    ensures r.None? <==> forall k :: 0 <= k < |xs| ==> !Truthy(xs[k])
  {
    if xs == [] then None
    else if Truthy(xs[0]) then xs[0]
    else
      var r := FirstTruthy(xs[1..]);
      assert forall k :: 1 <= k < |xs| ==> xs[k] == xs[1..][k - 1];
      if r.Some? then
        assert exists k :: 0 <= k < |xs| && xs[k] == r && forall j :: 0 <= j < k ==> !Truthy(xs[j]) by {
          var k' :| 0 <= k' < |xs[1..]| && xs[1..][k'] == r && forall j :: 0 <= j < k' ==> !Truthy(xs[1..][j]);
          assert xs[k' + 1] == r;
          assert forall j :: 0 <= j < k' + 1 ==> !Truthy(xs[j]) by {
            forall j | 0 <= j < k' + 1 ensures !Truthy(xs[j]) {
              if j > 0 { assert xs[j] == xs[1..][j - 1]; }
            }
          }
        }
        r
      else r
  }

  /** The requester is the first of the candidate ids that is present and
      non-empty, and there is none only when every candidate is missing or
      empty. */
  lemma UserIdIsFirstTruthy(p: Principal)
    ensures GetUserIdFromReq(p) == FirstTruthy(Candidates(p))
    ensures GetUserIdFromReq(p).None? <==> forall k :: 0 <= k < 6 ==> !Truthy(Candidates(p)[k])
  {
    var c := Candidates(p);
    assert c[1..] == [p.payloadSub, p.userId, p.userObjectId, p.reqUserId, p.authUid];
    assert c[2..] == [p.userId, p.userObjectId, p.reqUserId, p.authUid];
    assert c[3..] == [p.userObjectId, p.reqUserId, p.authUid];
    assert c[4..] == [p.reqUserId, p.authUid];
    assert c[5..] == [p.authUid];
    assert c[1..][1..] == c[2..] && c[2..][1..] == c[3..] && c[3..][1..] == c[4..];
    assert c[4..][1..] == c[5..] && c[5..][1..] == [];
    assert FirstTruthy(c[5..]) == OrElse(p.authUid, None);
    assert FirstTruthy(c[4..]) == OrElse(p.reqUserId, OrElse(p.authUid, None));
    assert FirstTruthy(c[3..]) == OrElse(p.userObjectId, OrElse(p.reqUserId, OrElse(p.authUid, None)));
    assert FirstTruthy(c[2..]) == OrElse(p.userId, OrElse(p.userObjectId, OrElse(p.reqUserId, OrElse(p.authUid, None))));
    assert FirstTruthy(c[1..]) == OrElse(p.payloadSub, OrElse(p.userId,
      OrElse(p.userObjectId, OrElse(p.reqUserId, OrElse(p.authUid, None)))));
  }

  datatype Event = Event(
    id: string,
    title: string,
    description: Option<string>,
    date: int,
    location: string,
    price: Option<int>,
    createdBy: string)

  type EventStore = map<string, Event>

  datatype EventWrite = EventWrite(result: Result<Event>, store: EventStore)

  datatype EventDelete = EventDelete(result: Result<string>, store: EventStore)

  const MsgMissingAuth := "Missing authentication"
  const MsgInvalidId := "Invalid Event ID"
  const MsgNotFound := "Event not found"
  const MsgNoUpdate := "Not allowed to update this event"
  const MsgNoDelete := "Not allowed to delete this event"

  /** `createEvent`: the requester must be known before the body is even
      validated; the saved event's `createdBy` is the requester whatever the body
      says. `newId` is the id MongoDB assigns. */
  function CreateEvent(p: Principal, body: EventBody, st: EventStore, newId: string): (w: EventWrite)
    ensures GetUserIdFromReq(p).None? ==> w == EventWrite(Err(Unauthorized(MsgMissingAuth)), st)
    ensures w.result.Err? ==> w.store == st
    ensures w.result.Ok? <==> GetUserIdFromReq(p).Some? && Conforms(body)
    ensures w.result.Ok? ==> && w.result.value.createdBy == GetUserIdFromReq(p).value
                             && w.result.value.id == newId
                             && w.result.value.title == body.title.value
                             && w.result.value.description == body.description
                             && body.date == Some(IsoDate(w.result.value.date))
                             && w.result.value.location == body.location.value
                             && w.result.value.price == body.price
                             && w.store == st[newId := w.result.value]
  {
    match GetUserIdFromReq(p)
    case None => EventWrite(Err(Unauthorized(MsgMissingAuth)), st)
    case Some(uid) =>
      match Validate(body)
      case Err(e) => EventWrite(Err(e), st)
      case Ok(f) =>
        var e := Event(newId, f.title, f.description, f.date, f.location, f.price, uid);
        EventWrite(Ok(e), st[newId := e])
  }

  /** A body that names someone else as `createdBy` still produces an event owned
      by the requester. */
  lemma CreatedByIsOverridden(p: Principal, body: EventBody, st: EventStore, newId: string, other: string)
    requires GetUserIdFromReq(p).Some? && Conforms(body) && body.createdBy == Some(other)
    ensures CreateEvent(p, body, st, newId).result.value.createdBy == GetUserIdFromReq(p).value
  {
  }

  /** `getEvent`: id shape, then existence. Populating the creator's user fields
      is not modelled. */
  function GetEvent(id: string, st: EventStore): (r: Result<Event>)
    ensures !ValidObjectId(id) ==> r == Err(BadRequest(MsgInvalidId))
    ensures r.Ok? <==> ValidObjectId(id) && id in st
    ensures ValidObjectId(id) && id !in st ==> r == Err(NotFound(MsgNotFound))
    ensures r.Ok? ==> r.value == st[id]
  {
    if !ValidObjectId(id) then Err(BadRequest(MsgInvalidId))
    else if id !in st then Err(NotFound(MsgNotFound))
    else Ok(st[id])
  }

  /** Read after write: an event just created under an ObjectId is what `getEvent`
      returns for that id, and every other id reads as before. */
  lemma CreateThenGet(p: Principal, body: EventBody, st: EventStore, newId: string, other: string)
    requires ValidObjectId(newId) && other != newId
    requires CreateEvent(p, body, st, newId).result.Ok?
    ensures var w := CreateEvent(p, body, st, newId);
            && GetEvent(newId, w.store) == w.result
            && GetEvent(other, w.store) == GetEvent(other, st)
  {
  }

  /** `String(existing.createdBy) === String(userId)`, where a missing requester
      reads as the text "null". */
  predicate Owns(e: Event, requester: Option<string>) {
    e.createdBy == (if requester.Some? then requester.value else "null")
  }

  /** `findByIdAndUpdate(id, validated)`: the keys present in the validated body
      are set, the others are left as they were. A `createdBy` in the body is
      applied too. */
  function Merge(e: Event, f: EventFields): Event {
    e.(title := f.title,
       description := if f.description.Some? then f.description else e.description,
       date := f.date,
       location := f.location,
       price := if f.price.Some? then f.price else e.price,
       createdBy := if f.createdBy.Some? then f.createdBy.value else e.createdBy)
  }

  /** `updateEvent`: id shape, existence, ownership, then the body. */
  function UpdateEvent(id: string, p: Principal, body: EventBody, st: EventStore): (w: EventWrite)
    ensures !ValidObjectId(id) ==> w == EventWrite(Err(BadRequest(MsgInvalidId)), st)
    ensures ValidObjectId(id) && id !in st ==> w == EventWrite(Err(NotFound(MsgNotFound)), st)
    ensures (ValidObjectId(id) && id in st && !Owns(st[id], GetUserIdFromReq(p)))
              ==> w == EventWrite(Err(Forbidden(MsgNoUpdate)), st)
    ensures w.result.Err? ==> w.store == st
    ensures w.result.Ok? <==> ValidObjectId(id) && id in st && Owns(st[id], GetUserIdFromReq(p)) && Conforms(body)
    ensures w.result.Ok? ==> && w.store.Keys == st.Keys
                             && w.store == st[id := w.result.value]
                             && w.result.value.id == st[id].id
                             && w.result.value.title == body.title.value
                             && w.result.value.description == (if body.description.Some? then body.description else st[id].description)
                             && body.date == Some(IsoDate(w.result.value.date))
                             && w.result.value.location == body.location.value
                             && w.result.value.price == (if body.price.Some? then body.price else st[id].price)
                             && w.result.value.createdBy == (if body.createdBy.Some? then body.createdBy.value else st[id].createdBy)
  {
    if !ValidObjectId(id) then EventWrite(Err(BadRequest(MsgInvalidId)), st)
    else if id !in st then EventWrite(Err(NotFound(MsgNotFound)), st)
    else if !Owns(st[id], GetUserIdFromReq(p)) then EventWrite(Err(Forbidden(MsgNoUpdate)), st)
    else
      match Validate(body)
      case Err(e) => EventWrite(Err(e), st)
      case Ok(f) =>
        var e := Merge(st[id], f);
        EventWrite(Ok(e), st[id := e])
  }

  /** `deleteEvent`: the same checks as an update; the creator removes exactly
      that event. */
  function DeleteEvent(id: string, p: Principal, st: EventStore): (d: EventDelete)
    ensures !ValidObjectId(id) ==> d == EventDelete(Err(BadRequest(MsgInvalidId)), st)
    ensures ValidObjectId(id) && id !in st ==> d == EventDelete(Err(NotFound(MsgNotFound)), st)
    ensures (ValidObjectId(id) && id in st && !Owns(st[id], GetUserIdFromReq(p)))
              ==> d == EventDelete(Err(Forbidden(MsgNoDelete)), st)
    ensures d.result.Ok? <==> ValidObjectId(id) && id in st && Owns(st[id], GetUserIdFromReq(p))
    ensures d.result.Ok? ==> && d.result.value == id
                             && d.store.Keys == st.Keys - {id}
                             && forall k :: k in d.store ==> d.store[k] == st[k]
  {
    if !ValidObjectId(id) then EventDelete(Err(BadRequest(MsgInvalidId)), st)
    else if id !in st then EventDelete(Err(NotFound(MsgNotFound)), st)
    else if !Owns(st[id], GetUserIdFromReq(p)) then EventDelete(Err(Forbidden(MsgNoDelete)), st)
    else EventDelete(Ok(id), st - {id})
  }

  /** The update applies a `createdBy` from the body: the creator can hand the event
      to any other id, after which the old creator is refused. */
  lemma UpdateMayReassignCreator(id: string, p: Principal, body: EventBody, st: EventStore, heir: string)
    requires UpdateEvent(id, p, body, st).result.Ok?
    requires body.createdBy == Some(heir) && heir != st[id].createdBy
    ensures var st' := UpdateEvent(id, p, body, st).store;
            && st'[id].createdBy == heir
            && UpdateEvent(id, p, body, st').result == Err(Forbidden(MsgNoUpdate))
            && DeleteEvent(id, p, st').result == Err(Forbidden(MsgNoDelete))
  {
  }

  /** Nobody but the creator changes an event: whenever an update or a delete
      succeeds, the requester is the one the event records as its creator. (The
      stored creator is an ObjectId, so it is never the text "null" that a
      missing requester compares as.) */
  lemma OnlyCreatorWrites(id: string, p: Principal, body: EventBody, st: EventStore)
    requires forall k :: k in st ==> ValidObjectId(st[k].createdBy)
    requires UpdateEvent(id, p, body, st).result.Ok? || DeleteEvent(id, p, st).result.Ok?
    ensures id in st && GetUserIdFromReq(p) == Some(st[id].createdBy)
  {
    assert |st[id].createdBy| == 24;
  }

  // ---------------------------------------------------------------------------
  // Listing

  /** The query of `getEvents`, already parsed; `search` (a regular expression on
      the title) is not modelled. `to` is the end of the requested day. */
  datatype EventQuery = EventQuery(
    page: Option<int>,
    limit: Option<int>,
    from: Option<int>,
    to: Option<int>,
    minPrice: Option<int>,
    maxPrice: Option<int>)

  /** The Mongo filter built from the query. A price bound excludes events that
      have no price at all. */
  predicate Matches(e: Event, q: EventQuery) {
    && (q.from.Some? ==> e.date >= q.from.value)
    && (q.to.Some? ==> e.date <= q.to.value)
    && (q.minPrice.Some? ==> e.price.Some? && e.price.value >= q.minPrice.value)
    && (q.maxPrice.Some? ==> e.price.Some? && e.price.value <= q.maxPrice.value)
  }

  function Filter(listed: seq<Event>, q: EventQuery): (r: seq<Event>)
    ensures |r| <= |listed|
    ensures forall k :: 0 <= k < |r| ==> Matches(r[k], q) && r[k] in listed
    ensures forall k :: 0 <= k < |listed| && Matches(listed[k], q) ==> listed[k] in r
  {
    if listed == [] then []
    else
      var rest := Filter(listed[1..], q);
      assert forall k :: 1 <= k < |listed| ==> listed[k] == listed[1..][k - 1];
      if Matches(listed[0], q) then [listed[0]] + rest else rest
  }

  /** Filtering keeps the listed order: the matches of a concatenation are the
      matches of its first part followed by those of its second. */
  lemma {:induction false} FilterAppend(a: seq<Event>, b: seq<Event>, q: EventQuery)
    ensures Filter(a + b, q) == Filter(a, q) + Filter(b, q)
    decreases |a|
  {
    if a == [] {
      assert a + b == b;
    } else {
      assert (a + b)[0] == a[0];
      assert (a + b)[1..] == a[1..] + b;
      FilterAppend(a[1..], b, q);
    }
  }

  /** A single event is kept exactly when it matches. */
  lemma FilterSingle(e: Event, q: EventQuery)
    ensures Filter([e], q) == if Matches(e, q) then [e] else []
  {
    assert [e][1..] == [];
  }

  /** When both `minPrice` and `maxPrice` are given, both bounds apply: the
      second does not replace the first. */
  lemma PriceFilterKeepsBothBounds(e: Event, q: EventQuery)
    requires q.from.None? && q.to.None? && q.minPrice.Some? && q.maxPrice.Some?
    ensures Matches(e, q) <==> e.price.Some? && q.minPrice.value <= e.price.value <= q.maxPrice.value
  {
  }

  datatype Meta = Meta(page: int, limit: int, total: nat, pages: nat)

  datatype Listing = Listing(data: seq<Event>, meta: Meta)

  /** `getEvents` over the events in the order the query sorts them (newest first). */
  function GetEvents(q: EventQuery, listed: seq<Event>): (l: Listing)
    ensures l.meta.page >= 1 && 1 <= l.meta.limit <= MaxLimit
    ensures l.meta.total <= |listed|
    ensures l.meta.pages * l.meta.limit >= l.meta.total
    ensures l.meta.pages == 0 || (l.meta.pages - 1) * l.meta.limit < l.meta.total
    ensures |l.data| <= l.meta.limit
    ensures forall k :: 0 <= k < |l.data| ==> Matches(l.data[k], q) && l.data[k] in listed
    ensures l.meta.page == Clamp(q.page, q.limit).page && l.meta.limit == Clamp(q.page, q.limit).limit
    ensures l.meta.total == |Filter(listed, q)|
    ensures l.meta.pages == PageCount(|Filter(listed, q)|, l.meta.limit)
    ensures l.data == Window(Filter(listed, q), Clamp(q.page, q.limit))
  {
    var p := Clamp(q.page, q.limit);
    var matching := Filter(listed, q);
    Listing(Window(matching, p), Meta(p.page, p.limit, |matching|, PageCount(|matching|, p.limit)))
  }

  /** Every matching event is shown: match number `k`, in the listed order, is
      entry `k % limit` of page `k / limit + 1`, a page within the reported count. */
  lemma EveryMatchOnItsPage(q: EventQuery, listed: seq<Event>, limit: int, k: nat)
    requires 1 <= limit <= MaxLimit && k < |Filter(listed, q)|
    ensures var l := GetEvents(q.(page := Some(k / limit + 1), limit := Some(limit)), listed);
            && 1 <= l.meta.page <= l.meta.pages
            && k % limit < |l.data|
            && l.data[k % limit] == Filter(listed, q)[k]
  {
    var matching := Filter(listed, q);
    var q' := q.(page := Some(k / limit + 1), limit := Some(limit));
    EveryItemOnItsPage(matching, limit, k);
    FilterIgnoresPaging(listed, q, q');
  }

  /** The filter reads only the date and price bounds of the query. */
  lemma {:induction false} FilterIgnoresPaging(listed: seq<Event>, q: EventQuery, q': EventQuery)
    requires q.from == q'.from && q.to == q'.to && q.minPrice == q'.minPrice && q.maxPrice == q'.maxPrice
    ensures Filter(listed, q) == Filter(listed, q')
    decreases |listed|
  {
    if listed != [] {
      FilterIgnoresPaging(listed[1..], q, q');
    }
  }
}
