/** What each request does to a subscription, in the columns of its row and in the terms of the calendar. */
module SubscriptionLaws {
  import opened Options
  import opened Identifiers
  import opened Subscriptions
  import Calendar

  lemma {:induction false} LeapYears(year: int)
    ensures Calendar.IsLeap(year) <==> year % 400 == 0 || (year % 4 == 0 && year % 100 != 0)
  {
    if year % 400 == 0 {
      assert year == 4 * (100 * (year / 400));
    }
  }

  /** The lengths of the months. */
  lemma {:induction false} MonthsAreGregorian(year: int)
    ensures forall m :: m in [1, 3, 5, 7, 8, 10, 12] ==> Calendar.MonthDays(year, m) == 31
    ensures forall m :: m in [4, 6, 9, 11] ==> Calendar.MonthDays(year, m) == 30
    ensures Calendar.MonthDays(year, 2)
      == if year % 400 == 0 || (year % 4 == 0 && year % 100 != 0) then 29 else 28
  {
    hide Calendar.IsLeap;
    LeapYears(year);
  }

  /** The instant so many whole calendar months later, at the same time of day: the lengths of the months from its own
      on are added up. */
  ghost predicate MonthsLater(t: Time, months: nat, later: Time) {
    var date := Calendar.DateOf(t / 86400);
    && 1 <= date.month <= 12 && later == t + Calendar.Span(date.year, date.month, months) * 86400
  }

  /** A quarter is three calendar months, half a year six, a year twelve, and anything else one. */
  lemma {:induction false} CyclesAreMonths(t: Time, cycle: string)
    ensures MonthsLater(t, 3, CalculatePeriod(t, "quarterly"))
    ensures MonthsLater(t, 6, CalculatePeriod(t, "semi_annually"))
    ensures MonthsLater(t, 12, CalculatePeriod(t, "annually"))
    ensures cycle !in ["quarterly", "semi_annually", "annually"] ==> MonthsLater(t, 1, CalculatePeriod(t, cycle))
    ensures 89 * 86400 <= CalculatePeriod(t, "quarterly") - t <= 92 * 86400
    ensures 181 * 86400 <= CalculatePeriod(t, "semi_annually") - t <= 184 * 86400
    ensures 365 * 86400 <= CalculatePeriod(t, "annually") - t <= 366 * 86400
  {
    hide CalculatePeriod, Calendar.Span, Calendar.DateOf;
    PeriodLength(t, "quarterly");
    PeriodLength(t, "semi_annually");
    PeriodLength(t, "annually");
    PeriodLength(t, cycle);
  }

  /** The lengths added up are those of the months that follow, January after December. */
  lemma {:induction false} SpanAddsMonths(year: int, month: int, months: nat)
    requires 1 <= month <= 12
    ensures Calendar.Span(year, month, 0) == 0
    ensures Calendar.Span(year, month, months + 1) == Calendar.MonthDays(year, month)
      + if month < 12 then Calendar.Span(year, month + 1, months) else Calendar.Span(year + 1, 1, months)
  {
  }

  /** Everything but one row of a table is as it was. */
  ghost predicate OnlyRow(table: Table, table': Table, id: SubscriptionId) {
    && (forall other :: other in table && other != id ==> other in table' && table'[other] == table[other])
    && (forall other :: other in table' && other != id ==> other in table)
    && (id in table ==> id in table')
  }

  /** A renewal is refused exactly for a row that is missing, cancelled or terminated. Otherwise the row is active, from
      the end of its period where that is still to come and from now where it is not, for one cycle, due at its end, and
      with no grace period; its other columns stay. */
  lemma {:induction false} RenewsExactly(table: Table, id: SubscriptionId, now: Time)
    ensures var table' := Handle(table, Renew(id, now));
      var renewed := id in table && table[id].status != Cancelled && table[id].status != Terminated;
      && OnlyRow(table, table', id) && (!renewed ==> table' == table)
      && (renewed ==>
        var (row, row') := (table[id], table'[id]);
        && row'.status == Active
        && row'.periodStart == (if row.periodEnd.Some? && now < row.periodEnd.value then row.periodEnd else Some(now))
        && row'.periodStart.Some?
        && row'.periodEnd == Some(CalculatePeriod(row'.periodStart.value, row.cycle))
        && row'.nextDue == row'.periodEnd && row'.graceUntil == None
        && row' == row.(status := row'.status, periodStart := row'.periodStart, periodEnd := row'.periodEnd,
          nextDue := row'.nextDue, graceUntil := row'.graceUntil))
  {
    hide CalculatePeriod;
  }

  /** A cancellation is made exactly by the row's own user while it is active or past due: at once, which ends it, or
      with its period, which only marks it. */
  lemma {:induction false} CancelsExactly(
    table: Table, user: UserId, id: SubscriptionId, immediate: bool, now: Time)
    ensures var table' := Handle(table, Cancel(user, id, immediate, now));
      var cancels := id in table && table[id].user == user && table[id].status in [Active, PastDue];
      && OnlyRow(table, table', id) && (!cancels ==> table' == table)
      && (cancels && immediate ==> table'[id] == table[id].(status := Cancelled, endedAt := Some(now)))
      && (cancels && !immediate ==> table'[id] == table[id].(cancelAtPeriodEnd := true))
  {
  }

  /** A creation enters a row for one cycle from now, due at its end; fulfilment's is pending and for one month,
      whatever the cycle. A taken id is refused. */
  lemma {:induction false} CreatesExactly(table: Table, request: Request)
    requires request.Create? || request.Fulfil?
    ensures var (table', id) := (Handle(table, request), request.id);
      && OnlyRow(table, table', id) && (id in table ==> table' == table)
      && (id !in table ==>
        && id in table'
        && var row := table'[id];
        && row.user == request.user && row.plan == request.plan && row.cycle == request.cycle
        && row.price == request.price && row.currency == request.currency
        && row.status == (if request.Create? then request.status else Pending)
        && row.startedAt == row.periodStart == Some(request.now) && row.periodEnd == row.nextDue
        && row.periodEnd.Some? && row.graceUntil == None && !row.cancelAtPeriodEnd && row.endedAt == None
        && (request.Create? ==> row.periodEnd.value == CalculatePeriod(request.now, request.cycle))
        && (request.Fulfil? ==> MonthsLater(request.now, 1, row.periodEnd.value)))
  {
    hide CalculatePeriod, AddMonths;
    FulfilIsMonthly(request.now);
    CyclesAreMonths(request.now, "monthly");
  }

  lemma {:induction false} FulfilIsMonthly(now: Time)
    ensures AddMonths(now, 1) == CalculatePeriod(now, "monthly")
  {
    hide AddMonths;
  }

  /** The provision workflow's activation writes active whatever the status was, and nothing else. */
  lemma {:induction false} ActivatesExactly(table: Table, id: SubscriptionId, now: Time)
    ensures var table' := Handle(table, Activate(id, now));
      && OnlyRow(table, table', id) && table'.Keys == table.Keys
      && (id in table ==> table'[id] == table[id].(status := Active))
  {
  }

  /** The first query takes active rows that are due no later than now, the second past-due ones whose grace period has
      ended no later than now. */
  predicate TakenFirst(row: Subscription, now: Time) {
    row.status == Active && row.nextDue.Some? && row.nextDue.value <= now
  }

  predicate TakenSecond(row: Subscription, now: Time) {
    row.status == PastDue && row.graceUntil.Some? && row.graceUntil.value <= now
  }

  function AllTakenFirst(table: Table, now: Time): set<SubscriptionId> {
    set id | id in table && TakenFirst(table[id], now)
  }

  function AllTakenSecond(table: Table, due: set<SubscriptionId>, now: Time): set<SubscriptionId> {
    set id | id in table && TakenSecond(if id in due then table[id].(status := PastDue) else table[id], now)
  }

  /** A sweep takes a hundred of the rows that are due, or all where there are fewer, and none that is due later than
      one that it leaves; and, once these are marked, a hundred of the past-due rows whose grace period has ended, or
      all where there are fewer. */
  lemma {:induction false} ListsExactly(table: Table, sweep: Request)
    requires sweep.Sweep? && Answers(table, sweep)
    ensures var (all, ended) := (AllTakenFirst(table, sweep.now), AllTakenSecond(table, sweep.due, sweep.now));
      && sweep.due <= all && |sweep.due| == (if |all| < 100 then |all| else 100)
      && (forall taken, left :: taken in sweep.due && left in all - sweep.due ==>
        table[taken].nextDue.value <= table[left].nextDue.value)
      && sweep.graceExpired <= ended && |sweep.graceExpired| == (if |ended| < 100 then |ended| else 100)
  {
    assert AllTakenFirst(table, sweep.now) == Due(table, sweep.now);
    assert AllTakenSecond(table, sweep.due, sweep.now)
      == GraceExpired(Marked(table, sweep.due, PastDue, sweep.now), sweep.now);
  }

  /** A sweep that its limit of 100 does not stop marks every row past due that the first query takes, and suspends
      every row that the second takes after that; nothing else of any row changes, its end and its due date included. */
  lemma {:induction false} SweepsExactly(table: Table, sweep: Request, id: SubscriptionId)
    requires sweep.Sweep? && Answers(table, sweep) && id in table
    requires |AllTakenFirst(table, sweep.now)| <= 100
    requires |sweep.graceExpired| < 100
    ensures id in Handle(table, sweep)
    ensures var row := table[id];
      var marked := TakenFirst(row, sweep.now);
      var first := if marked then row.(status := PastDue) else row;
      Handle(table, sweep)[id] == if TakenSecond(first, sweep.now) then first.(status := Suspended) else first
  {
    var all := AllTakenFirst(table, sweep.now);
    assert all == Due(table, sweep.now);
    assert Selects(all, sweep.due);
    SubsetOfSize(all, sweep.due);
    var marked := Marked(table, sweep.due, PastDue, sweep.now);
    SubsetOfSize(GraceExpired(marked, sweep.now), sweep.graceExpired);
  }

  lemma {:induction false} SubsetOfSize(all: set<SubscriptionId>, some: set<SubscriptionId>)
    requires some <= all && |some| == |all|
    ensures some == all
  {
    assert |all - some| == 0;
  }
}
