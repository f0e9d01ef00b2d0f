/** The sales report (controllers/reportController.js): successful payments whose
    creation time lies between the start of `from` and the end of the `to` day,
    grouped by calendar day, ISO week or month, with the amount and number of
    payments per group, in ascending key order.

    Dates are integer timestamps. Parsing the query dates, moving to the end of a
    day and reading calendar fields off a timestamp are the `Calendar`'s
    functions, and the creation time of each payment (Mongoose's `createdAt`) is
    a function of its id. */
module Reports {
  import opened Outcomes
  import opened Payments

  datatype Calendar = Calendar(
    parse: string -> int,
    endOfDay: int -> int,
    year: int -> int,
    month: int -> int,
    day: int -> int,
    isoWeek: int -> int)

  datatype Mode = ByDay | ByWeek | ByMonth

  /** `groupBy` defaults to 'month', and any value other than 'day' or 'week'
      groups by month too. */
  function ModeOf(groupBy: Option<string>): (m: Mode)
    ensures m == ByDay <==> groupBy == Some("day")
    ensures m == ByWeek <==> groupBy == Some("week")
  {
    if groupBy == Some("day") then ByDay
    else if groupBy == Some("week") then ByWeek
    else ByMonth
  }

  /** A group `_id`; the fields a mode does not project are absent. */
  datatype Key = Key(year: int, month: Option<int>, day: Option<int>, week: Option<int>)

  function KeyOf(cal: Calendar, m: Mode, at: int): (k: Key)
    ensures k.year == cal.year(at)
    ensures m == ByDay ==> k.month == Some(cal.month(at)) && k.day == Some(cal.day(at)) && k.week.None?
    ensures m == ByWeek ==> k.month.None? && k.day.None? && k.week == Some(cal.isoWeek(at))
    ensures m == ByMonth ==> k.month == Some(cal.month(at)) && k.day.None? && k.week.None?
  {
    match m
    case ByDay => Key(cal.year(at), Some(cal.month(at)), Some(cal.day(at)), None)
    case ByWeek => Key(cal.year(at), None, None, Some(cal.isoWeek(at)))
    case ByMonth => Key(cal.year(at), Some(cal.month(at)), None, None)
  }

  /** MongoDB's ascending order on one sort field: a missing field sorts first. */
  predicate OptLess(a: Option<int>, b: Option<int>) {
    (a.None? && b.Some?) || (a.Some? && b.Some? && a.value < b.value)
  }

  /** The `$sort` stage: year, then month, day and week, all ascending. */
  predicate KeyLess(a: Key, b: Key) {
    || a.year < b.year
    || (a.year == b.year && OptLess(a.month, b.month))
    || (a.year == b.year && a.month == b.month && OptLess(a.day, b.day))
    || (a.year == b.year && a.month == b.month && a.day == b.day && OptLess(a.week, b.week))
  }

  /** `KeyLess` is a strict total order. */
  lemma KeyLessTotal(a: Key, b: Key)
    ensures KeyLess(a, b) || a == b || KeyLess(b, a)
    ensures !(KeyLess(a, b) && KeyLess(b, a))
    ensures !KeyLess(a, a)
  {
  }

  lemma KeyLessTransitive(a: Key, b: Key, c: Key)
    requires KeyLess(a, b) && KeyLess(b, c)
    ensures KeyLess(a, c)
  {
  }

  /** One element of `data`: the `_id`, `totalAmount` and `payments` of a group. */
  datatype Group = Group(key: Key, totalAmount: int, payments: nat)

  /** Each group is before the next. */
  predicate Ascending(gs: seq<Group>) {
    forall i :: 0 <= i < |gs| - 1 ==> KeyLess(gs[i].key, gs[i + 1].key)
  }

  /** The figures recorded for one key: zero and zero when it has no group. */
  function Lookup(gs: seq<Group>, k: Key): (r: (int, nat)) {
    if gs == [] then (0, 0)
    else if gs[0].key == k then (gs[0].totalAmount, gs[0].payments)
    else Lookup(gs[1..], k)
  }

  function TotalAmount(gs: seq<Group>): int {
    if gs == [] then 0 else gs[0].totalAmount + TotalAmount(gs[1..])
  }

  function TotalPayments(gs: seq<Group>): nat {
    if gs == [] then 0 else gs[0].payments + TotalPayments(gs[1..])
  }

  /** Counting one more payment of `amount` under `k`: the `$group` stage's
      `$sum: '$amount'` and `$sum: 1`, kept in `$sort` order. */
  function Add(gs: seq<Group>, k: Key, amount: int): (r: seq<Group>)
    ensures |r| >= 1
    ensures gs != [] ==> r[0].key == gs[0].key || r[0].key == k
    ensures gs == [] ==> r[0].key == k
  {
    if gs == [] then [Group(k, amount, 1)]
    else if gs[0].key == k then [gs[0].(totalAmount := gs[0].totalAmount + amount, payments := gs[0].payments + 1)] + gs[1..]
    else if KeyLess(k, gs[0].key) then [Group(k, amount, 1)] + gs
    else [gs[0]] + Add(gs[1..], k, amount)
  }

  lemma {:induction false} AddKeepsAscending(gs: seq<Group>, k: Key, amount: int)
    requires Ascending(gs)
    ensures Ascending(Add(gs, k, amount))
  {
    if gs != [] && gs[0].key != k && !KeyLess(k, gs[0].key) {
      KeyLessTotal(k, gs[0].key);
      var tail := gs[1..];
      AddKeepsAscending(tail, k, amount);
      var r := Add(gs, k, amount);
      assert r == [gs[0]] + Add(tail, k, amount);
      assert KeyLess(r[0].key, r[1].key);
      forall i | 1 <= i < |r| - 1
        ensures KeyLess(r[i].key, r[i + 1].key)
      {
        assert r[i] == Add(tail, k, amount)[i - 1];
        assert r[i + 1] == Add(tail, k, amount)[i];
      }
    }
  }

  /** A key before the first group has no group. */
  lemma {:induction false} BeforeFirstAbsent(gs: seq<Group>, k: Key)
    requires Ascending(gs) && gs != [] && KeyLess(k, gs[0].key)
    ensures Lookup(gs, k) == (0, 0)
  {
    KeyLessTotal(k, gs[0].key);
    if |gs| > 1 {
      KeyLessTransitive(k, gs[0].key, gs[1].key);
      AscendingTail(gs);
      BeforeFirstAbsent(gs[1..], k);
    }
  }

  lemma {:induction false} AddLookup(gs: seq<Group>, k: Key, amount: int, k': Key)
    requires Ascending(gs)
    ensures Lookup(Add(gs, k, amount), k') ==
              if k' == k then (Lookup(gs, k).0 + amount, Lookup(gs, k).1 + 1) else Lookup(gs, k')
  {
    if gs == [] {
    } else if gs[0].key == k {
      assert Add(gs, k, amount)[1..] == gs[1..];
    } else if KeyLess(k, gs[0].key) {
      BeforeFirstAbsent(gs, k);
      assert Add(gs, k, amount)[1..] == gs;
    } else {
      AscendingTail(gs);
      AddLookup(gs[1..], k, amount, k');
      assert Add(gs, k, amount)[1..] == Add(gs[1..], k, amount);
    }
  }

  lemma {:induction false} AddTotals(gs: seq<Group>, k: Key, amount: int)
    ensures TotalAmount(Add(gs, k, amount)) == TotalAmount(gs) + amount
    ensures TotalPayments(Add(gs, k, amount)) == TotalPayments(gs) + 1
  {
    if gs == [] {
    } else if gs[0].key == k {
      assert Add(gs, k, amount)[1..] == gs[1..];
    } else if KeyLess(k, gs[0].key) {
      assert Add(gs, k, amount)[1..] == gs;
    } else {
      AddTotals(gs[1..], k, amount);
      assert Add(gs, k, amount)[1..] == Add(gs[1..], k, amount);
    }
  }

  /** Every group counts at least one payment: `$group` only makes a group for
      a key some input document carries. */
  predicate NoEmptyGroup(gs: seq<Group>) {
    forall i :: 0 <= i < |gs| ==> gs[i].payments >= 1
  }

  lemma {:induction false} AddKeepsNoEmptyGroup(gs: seq<Group>, k: Key, amount: int)
    requires NoEmptyGroup(gs)
    ensures NoEmptyGroup(Add(gs, k, amount))
  {
    if gs != [] && gs[0].key != k && !KeyLess(k, gs[0].key) {
      var tail := gs[1..];
      assert NoEmptyGroup(tail) by {
        forall i | 0 <= i < |tail|
          ensures tail[i].payments >= 1
        {
          assert tail[i] == gs[i + 1];
        }
      }
      AddKeepsNoEmptyGroup(tail, k, amount);
      var r := Add(gs, k, amount);
      assert r == [gs[0]] + Add(tail, k, amount);
      forall i | 1 <= i < |r|
        ensures r[i].payments >= 1
      {
        assert r[i] == Add(tail, k, amount)[i - 1];
      }
    }
  }

  lemma AscendingTail(gs: seq<Group>)
    requires Ascending(gs) && gs != []
    ensures Ascending(gs[1..])
  {
  }

  /** In ascending groups the first key is below every later one. */
  lemma {:induction false} FirstBelowLater(gs: seq<Group>, i: nat)
    requires Ascending(gs) && 0 < i < |gs|
    ensures KeyLess(gs[0].key, gs[i].key)
  {
    if i > 1 {
      AscendingTail(gs);
      FirstBelowLater(gs[1..], i - 1);
      KeyLessTransitive(gs[0].key, gs[1].key, gs[i].key);
    }
  }

  /** In ascending groups `Lookup` finds each group under its own key. */
  lemma {:induction false} LookupAt(gs: seq<Group>, i: nat)
    requires Ascending(gs) && i < |gs|
    ensures Lookup(gs, gs[i].key) == (gs[i].totalAmount, gs[i].payments)
  {
    if i > 0 {
      FirstBelowLater(gs, i);
      KeyLessTotal(gs[0].key, gs[i].key);
      AscendingTail(gs);
      LookupAt(gs[1..], i - 1);
    }
  }

  /** The `$match` stage. */
  predicate Counted(p: Payment, at: nat -> int, fromAt: int, toAt: int) {
    p.status == Success && fromAt <= at(p.id) <= toAt
  }

  /** The `$group` stage over the payments, folded from the left. */
  function Aggregate(ps: seq<Payment>, at: nat -> int, fromAt: int, toAt: int, cal: Calendar, m: Mode): (gs: seq<Group>)
    decreases |ps|
  {
    if ps == [] then []
    else
      var gs := Aggregate(ps[..|ps| - 1], at, fromAt, toAt, cal, m);
      var p := ps[|ps| - 1];
      if Counted(p, at, fromAt, toAt) then Add(gs, KeyOf(cal, m, at(p.id)), p.amount) else gs
  }

  /** The reference figures for one key, read straight off the payments. */
  function SumFor(ps: seq<Payment>, at: nat -> int, fromAt: int, toAt: int, cal: Calendar, m: Mode, k: Key): int
    decreases |ps|
  {
    if ps == [] then 0
    else
      var p := ps[|ps| - 1];
      SumFor(ps[..|ps| - 1], at, fromAt, toAt, cal, m, k)
        + (if Counted(p, at, fromAt, toAt) && KeyOf(cal, m, at(p.id)) == k then p.amount else 0)
  }

  function CountFor(ps: seq<Payment>, at: nat -> int, fromAt: int, toAt: int, cal: Calendar, m: Mode, k: Key): nat
    decreases |ps|
  {
    if ps == [] then 0
    else
      var p := ps[|ps| - 1];
      CountFor(ps[..|ps| - 1], at, fromAt, toAt, cal, m, k)
        + (if Counted(p, at, fromAt, toAt) && KeyOf(cal, m, at(p.id)) == k then 1 else 0)
  }

  function SumAll(ps: seq<Payment>, at: nat -> int, fromAt: int, toAt: int): int
    decreases |ps|
  {
    if ps == [] then 0
    else
      var p := ps[|ps| - 1];
      SumAll(ps[..|ps| - 1], at, fromAt, toAt) + (if Counted(p, at, fromAt, toAt) then p.amount else 0)
  }

  function CountAll(ps: seq<Payment>, at: nat -> int, fromAt: int, toAt: int): nat
    decreases |ps|
  {
    if ps == [] then 0
    else
      var p := ps[|ps| - 1];
      CountAll(ps[..|ps| - 1], at, fromAt, toAt) + (if Counted(p, at, fromAt, toAt) then 1 else 0)
  }

  /** The groups are in ascending key order. */
  lemma {:induction false} AggregateAscending(ps: seq<Payment>, at: nat -> int, fromAt: int, toAt: int, cal: Calendar, m: Mode)
    ensures Ascending(Aggregate(ps, at, fromAt, toAt, cal, m))
    decreases |ps|
  {
    if ps != [] {
      var p := ps[|ps| - 1];
      AggregateAscending(ps[..|ps| - 1], at, fromAt, toAt, cal, m);
      if Counted(p, at, fromAt, toAt) {
        AddKeepsAscending(Aggregate(ps[..|ps| - 1], at, fromAt, toAt, cal, m), KeyOf(cal, m, at(p.id)), p.amount);
      }
    }
  }

  /** No group is empty. */
  lemma {:induction false} AggregateNoEmptyGroup(ps: seq<Payment>, at: nat -> int, fromAt: int, toAt: int, cal: Calendar, m: Mode)
    ensures NoEmptyGroup(Aggregate(ps, at, fromAt, toAt, cal, m))
    decreases |ps|
  {
    if ps != [] {
      var p := ps[|ps| - 1];
      AggregateNoEmptyGroup(ps[..|ps| - 1], at, fromAt, toAt, cal, m);
      if Counted(p, at, fromAt, toAt) {
        AddKeepsNoEmptyGroup(Aggregate(ps[..|ps| - 1], at, fromAt, toAt, cal, m), KeyOf(cal, m, at(p.id)), p.amount);
      }
    }
  }

  /** Each key's `totalAmount` and `payments` are the sum of the amounts and the
      number of the counted payments that fall under it, and every group there
      is counts at least one payment. */
  lemma {:induction false} AggregateLookup(ps: seq<Payment>, at: nat -> int, fromAt: int, toAt: int, cal: Calendar, m: Mode, k: Key)
    ensures Lookup(Aggregate(ps, at, fromAt, toAt, cal, m), k) ==
              (SumFor(ps, at, fromAt, toAt, cal, m, k), CountFor(ps, at, fromAt, toAt, cal, m, k))
    ensures forall i :: 0 <= i < |Aggregate(ps, at, fromAt, toAt, cal, m)| ==>
              Aggregate(ps, at, fromAt, toAt, cal, m)[i].payments >= 1
    decreases |ps|
  {
    AggregateNoEmptyGroup(ps, at, fromAt, toAt, cal, m);
    if ps != [] {
      var p := ps[|ps| - 1];
      AggregateLookup(ps[..|ps| - 1], at, fromAt, toAt, cal, m, k);
      AggregateAscending(ps[..|ps| - 1], at, fromAt, toAt, cal, m);
      if Counted(p, at, fromAt, toAt) {
        AddLookup(Aggregate(ps[..|ps| - 1], at, fromAt, toAt, cal, m), KeyOf(cal, m, at(p.id)), p.amount, k);
      }
    }
  }

  /** Over all groups, the amounts add up to the amount of every counted payment
      and the counts to their number. */
  lemma {:induction false} AggregateTotals(ps: seq<Payment>, at: nat -> int, fromAt: int, toAt: int, cal: Calendar, m: Mode)
    ensures TotalAmount(Aggregate(ps, at, fromAt, toAt, cal, m)) == SumAll(ps, at, fromAt, toAt)
    ensures TotalPayments(Aggregate(ps, at, fromAt, toAt, cal, m)) == CountAll(ps, at, fromAt, toAt)
    decreases |ps|
  {
    if ps != [] {
      var p := ps[|ps| - 1];
      AggregateTotals(ps[..|ps| - 1], at, fromAt, toAt, cal, m);
      if Counted(p, at, fromAt, toAt) {
        AddTotals(Aggregate(ps[..|ps| - 1], at, fromAt, toAt, cal, m), KeyOf(cal, m, at(p.id)), p.amount);
      }
    }
  }

  datatype ReportQuery = ReportQuery(from: Option<string>, to: Option<string>, groupBy: Option<string>)

  /** The reply: the query's `from`, `to` and `groupBy` (defaulted) and the groups. */
  datatype Report = Report(from: string, to: string, groupBy: string, data: seq<Group>)

  const MsgRangeRequired := "from and to are required (YYYY-MM-DD)"

  /** `salesReport` over the Payment collection. */
  function SalesReport(q: ReportQuery, ps: seq<Payment>, at: nat -> int, cal: Calendar): (r: Result<Report>)
    ensures r.Err? <==> !Truthy(q.from) || !Truthy(q.to)
    ensures r.Err? ==> r.error == BadRequest(MsgRangeRequired)
    ensures r.Ok? ==> && r.value.from == q.from.value && r.value.to == q.to.value
                      && r.value.groupBy == (if q.groupBy.Some? then q.groupBy.value else "month")
  {
    if !Truthy(q.from) || !Truthy(q.to) then Err(BadRequest(MsgRangeRequired))
    else
      var fromAt := cal.parse(q.from.value);
      var toAt := cal.endOfDay(cal.parse(q.to.value));
      var data := Aggregate(ps, at, fromAt, toAt, cal, ModeOf(q.groupBy));
      Ok(Report(q.from.value, q.to.value, if q.groupBy.Some? then q.groupBy.value else "month", data))
  }

  /** What the report's figures mean: for every key, its group holds the sum and
      number of the successful payments created from the start of `from` to the
      end of the `to` day whose date falls under that key in the requested
      grouping; the groups' figures add up to those of all such payments; and the
      groups come in ascending key order. */
  lemma SalesReportFigures(q: ReportQuery, ps: seq<Payment>, at: nat -> int, cal: Calendar, k: Key)
    requires SalesReport(q, ps, at, cal).Ok?
    ensures var data := SalesReport(q, ps, at, cal).value.data;
            var fromAt := cal.parse(q.from.value);
            var toAt := cal.endOfDay(cal.parse(q.to.value));
            var m := ModeOf(q.groupBy);
            && Lookup(data, k) == (SumFor(ps, at, fromAt, toAt, cal, m, k), CountFor(ps, at, fromAt, toAt, cal, m, k))
            && TotalAmount(data) == SumAll(ps, at, fromAt, toAt)
            && TotalPayments(data) == CountAll(ps, at, fromAt, toAt)
            && Ascending(data)
            && forall i :: 0 <= i < |data| ==>
                 && data[i].payments >= 1
                 && data[i].payments == CountFor(ps, at, fromAt, toAt, cal, m, data[i].key)
                 && data[i].totalAmount == SumFor(ps, at, fromAt, toAt, cal, m, data[i].key)
  {
    var fromAt := cal.parse(q.from.value);
    var toAt := cal.endOfDay(cal.parse(q.to.value));
    var m := ModeOf(q.groupBy);
    var data := Aggregate(ps, at, fromAt, toAt, cal, m);
    AggregateLookup(ps, at, fromAt, toAt, cal, m, k);
    AggregateTotals(ps, at, fromAt, toAt, cal, m);
    AggregateAscending(ps, at, fromAt, toAt, cal, m);
    forall i | 0 <= i < |data|
      ensures && data[i].payments >= 1
              && data[i].payments == CountFor(ps, at, fromAt, toAt, cal, m, data[i].key)
              && data[i].totalAmount == SumFor(ps, at, fromAt, toAt, cal, m, data[i].key)
    {
      AggregateLookup(ps, at, fromAt, toAt, cal, m, data[i].key);
      LookupAt(data, i);
    }
  }

  /** Payments that are not successful, or created outside the range, change no
      figure: the report is the same with them removed. */
  lemma {:induction false} UncountedPaymentsIgnored(ps: seq<Payment>, p: Payment, at: nat -> int, fromAt: int, toAt: int, cal: Calendar, m: Mode)
    requires !Counted(p, at, fromAt, toAt)
    ensures Aggregate(ps + [p], at, fromAt, toAt, cal, m) == Aggregate(ps, at, fromAt, toAt, cal, m)
  {
    assert (ps + [p])[..|ps + [p]| - 1] == ps;
  }
}
