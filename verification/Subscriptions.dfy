/** Subscriptions: their periods, their renewals, and the scheduled sweep over due and past-due ones. */
module Subscriptions {
  import opened Options
  import opened Identifiers
  import opened Arithmetic
  import Calendar

  datatype Status = Pending | Active | PastDue | Suspended | Cancelled | Expired | Terminated

  datatype Subscription = Subscription(
    user: UserId,
    plan: PlanId,
    status: Status,
    cycle: string,
    price: int,
    currency: string,
    startedAt: Option<Time>,
    periodStart: Option<Time>,
    periodEnd: Option<Time>,
    nextDue: Option<Time>,
    graceUntil: Option<Time>,
    cancelAtPeriodEnd: bool,
    endedAt: Option<Time>
  )

  type Table = map<SubscriptionId, Subscription>

  // ---- Periods ----

  const SECONDS_PER_DAY := 86400

  /** An instant so many calendar months later, at the same time of day. */
  function AddMonths(t: Time, k: int): Time {
    Calendar.AddMonths(t / SECONDS_PER_DAY, k) * SECONDS_PER_DAY + t % SECONDS_PER_DAY
  }

  function Months(cycle: string): nat {
    if cycle == "quarterly" then 3
    else if cycle == "semi_annually" then 6
    else if cycle == "annually" then 12
    else 1
  }

  function CalculatePeriod(start: Time, cycle: string): Time {
    AddMonths(start, Months(cycle))
  }

  predicate DaysLong(cycle: string, days: int) {
    match Months(cycle)
    case 3 => 89 <= days <= 92
    case 6 => 181 <= days <= 184
    case 12 => 365 <= days <= 366
    case _ => 28 <= days <= 31
  }

  /** A period lasts a whole number of days, those of its calendar months from its first day's month on: 28 to 31 for a
      monthly one, 89 to 92, 181 to 184 and 365 to 366 for the longer ones. */
  lemma {:induction false} PeriodLength(start: Time, cycle: string)
    ensures var first := Calendar.DateOf(start / SECONDS_PER_DAY);
      && 1 <= first.month <= 12
      && var days := Calendar.Span(first.year, first.month, Months(cycle));
      && CalculatePeriod(start, cycle) == start + days * SECONDS_PER_DAY && DaysLong(cycle, days)
      && (Months(cycle) == 1 ==> days == Calendar.MonthDays(first.year, first.month))
  {
    var day := start / SECONDS_PER_DAY;
    Calendar.DayHasDate(day);
    Calendar.AddMonthsSpans(day, Months(cycle));
    Calendar.SpanBounds(Calendar.DateOf(day).year, Calendar.DateOf(day).month);
  }

  function MonthlyChain(start: Time, n: nat): Time {
    if n == 0 then start else CalculatePeriod(MonthlyChain(start, n - 1), "monthly")
  }

  lemma {:induction false} MonthlyChainIs(start: Time, n: nat)
    ensures MonthlyChain(start, n)
      == Calendar.Chain(start / SECONDS_PER_DAY, n) * SECONDS_PER_DAY + start % SECONDS_PER_DAY
  {
    hide Calendar.AddMonths;
    if n > 0 {
      MonthlyChainIs(start, n - 1);
      OneDivision(Calendar.Chain(start / SECONDS_PER_DAY, n - 1), start % SECONDS_PER_DAY);
    }
  }

  lemma {:induction false} OneDivision(q: int, r: int)
    requires 0 <= r < SECONDS_PER_DAY
    ensures (q * SECONDS_PER_DAY + r) / SECONDS_PER_DAY == q && (q * SECONDS_PER_DAY + r) % SECONDS_PER_DAY == r
  {
  }

  /** Twelve monthly periods in a row end exactly when one annual period does if, and only if, the first day is at most
      the 28th, or a 29th that no short February intervenes on. */
  lemma {:induction false} TwelveMonthlyAreOneAnnual(start: Time)
    ensures MonthlyChain(start, 12) == CalculatePeriod(start, "annually")
      <==> Calendar.MonthlyIsYearly(Calendar.DateOf(start / SECONDS_PER_DAY))
  {
    hide Calendar.AddMonths, Calendar.Chain, Calendar.DateOf;
    MonthlyChainIs(start, 12);
    Calendar.TwelveMonthsAreAYear(start / SECONDS_PER_DAY);
  }

  // ---- The statements on one row ----

  function Created(
    user: UserId, plan: PlanId, status: Status, cycle: string, price: int, currency: string, now: Time,
    end: Time): Subscription {
    Subscription(user, plan, status, cycle, price, currency, Some(now), Some(now), Some(end), Some(end), None, false,
      None)
  }

  /** The start of the period that a renewal at `now` adds: the end of the current one if that is still to come. */
  function RenewalStart(sub: Subscription, now: Time): Time {
    if sub.periodEnd.Some? && sub.periodEnd.value > now then sub.periodEnd.value else now
  }

  /** The columns that the renewal's statement writes. */
  function WithPeriod(sub: Subscription, start: Time, end: Time): Subscription {
    sub.(status := Active, periodStart := Some(start), periodEnd := Some(end), nextDue := Some(end), graceUntil := None)
  }

  function Renewed(sub: Subscription, now: Time): Subscription {
    var start := RenewalStart(sub, now);
    WithPeriod(sub, start, CalculatePeriod(start, sub.cycle))
  }

  predicate Renewable(sub: Subscription) {
    sub.status != Cancelled && sub.status != Terminated
  }

  function WithStatus(sub: Subscription, status: Status, now: Time): Subscription {
    sub.(status := status, endedAt := if status == Cancelled || status == Expired || status == Terminated
      then Some(now) else sub.endedAt)
  }

  // ---- The renewal timeline ----

  datatype Period = Period(start: Time, end: Time)

  predicate HasPeriod(sub: Subscription) {
    sub.periodStart.Some? && sub.periodEnd.Some? && sub.nextDue == sub.periodEnd
  }

  function PeriodOf(sub: Subscription): Period
    requires HasPeriod(sub)
  {
    Period(sub.periodStart.value, sub.periodEnd.value)
  }

  /** The subscription after renewals at the given instants, in that order. */
  function RenewedAll(sub: Subscription, times: seq<Time>): Subscription {
    if times == [] then sub else Renewed(RenewedAll(sub, times[..|times| - 1]), times[|times| - 1])
  }

  /** The first period and those that the renewals add. */
  function Timeline(sub: Subscription, times: seq<Time>): (r: seq<Period>)
    requires HasPeriod(sub)
    ensures |r| == |times| + 1
  {
    if times == [] then [PeriodOf(sub)]
    else Timeline(sub, times[..|times| - 1]) + [PeriodOf(Renewed(RenewedAll(sub, times[..|times| - 1]),
      times[|times| - 1]))]
  }

  lemma {:induction false} TimelineEnds(sub: Subscription, times: seq<Time>)
    requires HasPeriod(sub)
    ensures HasPeriod(RenewedAll(sub, times)) && Timeline(sub, times)[|times|] == PeriodOf(RenewedAll(sub, times))
  {
  }

  lemma {:induction false} RenewalFollows(sub: Subscription, now: Time)
    requires HasPeriod(sub)
    ensures var (last, next) := (PeriodOf(sub), PeriodOf(Renewed(sub, now)));
      && last.end <= next.start < next.end
      && (last.end == next.start <==> now <= last.end)
  {
    PeriodLength(RenewalStart(sub, now), sub.cycle);
  }

  /** Each period follows the one before: it starts exactly where that one ends when it is renewed no later than that,
      and leaves a gap otherwise. */
  lemma {:induction false} EachPeriodFollows(sub: Subscription, times: seq<Time>, i: nat)
    requires HasPeriod(sub) && 0 < i <= |times|
    ensures var periods := Timeline(sub, times);
      && periods[i - 1].end <= periods[i].start < periods[i].end
      && (periods[i - 1].end == periods[i].start <==> times[i - 1] <= periods[i - 1].end)
  {
    hide CalculatePeriod;
    var before := times[..|times| - 1];
    if i < |times| {
      EachPeriodFollows(sub, before, i);
    } else {
      TimelineEnds(sub, before);
      RenewalFollows(RenewedAll(sub, before), times[|times| - 1]);
    }
  }

  /** However often and whenever a subscription is renewed, no two of its periods overlap and their ends strictly
      increase. */
  lemma {:induction false} PeriodsNeverOverlap(sub: Subscription, times: seq<Time>, i: nat, j: nat)
    requires HasPeriod(sub) && i < j <= |times|
    ensures Timeline(sub, times)[i].end <= Timeline(sub, times)[j].start
    ensures Timeline(sub, times)[i].end < Timeline(sub, times)[j].end
    decreases j
  {
    hide Timeline;
    EachPeriodFollows(sub, times, j);
    if i < j - 1 {
      PeriodsNeverOverlap(sub, times, i, j - 1);
    }
  }

  // ---- Requests ----

  datatype Request =
    | Create(id: SubscriptionId, user: UserId, plan: PlanId, status: Status, cycle: string, price: int,
      currency: string, now: Time)
    | Fulfil(id: SubscriptionId, user: UserId, plan: PlanId, cycle: string, price: int, currency: string, now: Time)
    | Renew(id: SubscriptionId, now: Time)
    | Cancel(user: UserId, id: SubscriptionId, immediate: bool, now: Time)
    | Activate(id: SubscriptionId, now: Time)
    | Sweep(now: Time, due: set<SubscriptionId>, graceExpired: set<SubscriptionId>)

  const SWEEP_LIMIT := 100

  predicate IsDue(sub: Subscription, now: Time) {
    sub.status == Active && sub.nextDue.Some? && sub.nextDue.value <= now
  }

  predicate IsGraceExpired(sub: Subscription, now: Time) {
    sub.status == PastDue && sub.graceUntil.Some? && sub.graceUntil.value <= now
  }

  function Due(table: Table, now: Time): set<SubscriptionId> {
    set id | id in table && IsDue(table[id], now)
  }

  function GraceExpired(table: Table, now: Time): set<SubscriptionId> {
    set id | id in table && IsGraceExpired(table[id], now)
  }

  /** A query's answer: as many of the rows that qualify as the limit allows. */
  predicate Selects(all: set<SubscriptionId>, chosen: set<SubscriptionId>) {
    chosen <= all && |chosen| == Least(|all|, SWEEP_LIMIT)
  }

  /** The earliest-due rows come first; which of several that fall due together is left open. */
  predicate EarliestFirst(table: Table, now: Time, chosen: set<SubscriptionId>)
    requires chosen <= Due(table, now)
  {
    forall c, o :: c in chosen && o in Due(table, now) - chosen ==> table[c].nextDue.value <= table[o].nextDue.value
  }

  function Marked(table: Table, ids: set<SubscriptionId>, status: Status, now: Time): Table {
    map id | id in table :: if id in ids then WithStatus(table[id], status, now) else table[id]
  }

  /** The table after a request. */
  function Handle(table: Table, request: Request): Table {
    match request
    case Create(id, user, plan, status, cycle, price, currency, now) =>
      if id in table then table
      else table[id := Created(user, plan, status, cycle, price, currency, now, CalculatePeriod(now, cycle))]
    case Fulfil(id, user, plan, cycle, price, currency, now) => // a month, whatever the cycle
      if id in table then table
      else table[id := Created(user, plan, Pending, cycle, price, currency, now, AddMonths(now, 1))]
    case Renew(id, now) =>
      if id in table && Renewable(table[id]) then table[id := Renewed(table[id], now)] else table
    case Cancel(user, id, immediate, now) =>
      if id !in table || table[id].user != user then table
      else if table[id].status != Active && table[id].status != PastDue then table
      else table[id := if immediate then WithStatus(table[id], Cancelled, now)
        else table[id].(cancelAtPeriodEnd := true)]
    case Activate(id, now) => if id in table then table[id := WithStatus(table[id], Active, now)] else table
    case Sweep(now, due, graceExpired) => Marked(Marked(table, due, PastDue, now), graceExpired, Suspended, now)
  }

  /** A sweep acts on what its two queries have answered; a new subscription is pending or active. */
  predicate Answers(table: Table, request: Request) {
    match request
    case Sweep(now, due, graceExpired) =>
      Selects(Due(table, now), due) && EarliestFirst(table, now, due)
      && Selects(GraceExpired(Marked(table, due, PastDue, now), now), graceExpired)
    case Create(_, _, _, status, _, _, _, _) => status == Pending || status == Active
    case _ => true
  }

  predicate Possible(table: Table, requests: seq<Request>) {
    requests == []
    || (Possible(table, requests[..|requests| - 1]) && Answers(HandleAll(table, requests[..|requests| - 1]),
      requests[|requests| - 1]))
  }

  function HandleAll(table: Table, requests: seq<Request>): Table {
    if requests == [] then table else Handle(HandleAll(table, requests[..|requests| - 1]), requests[|requests| - 1])
  }

  // ---- What every reachable state shows ----

  predicate Regular(sub: Subscription) {
    HasPeriod(sub) && sub.graceUntil.None? && sub.status != Suspended
  }

  ghost predicate AllRegular(table: Table) {
    forall id :: id in table ==> Regular(table[id])
  }

  lemma {:induction false} HandleKeepsRegular(table: Table, request: Request)
    requires AllRegular(table) && Answers(table, request)
    ensures AllRegular(Handle(table, request))
    ensures request.Sweep? ==> request.graceExpired == {}
  {
    if request.Sweep? {
      var marked := Marked(table, request.due, PastDue, request.now);
      forall id | id in marked ensures marked[id].graceUntil.None? {
        assert Regular(table[id]);
      }
      assert GraceExpired(marked, request.now) == {};
    }
  }

  /** In every reachable state the next due date is the period's end, no grace period has ever been stored, and
      therefore no sweep has ever suspended anybody. */
  lemma {:induction false} NobodyIsEverSuspended(requests: seq<Request>)
    requires Possible(map[], requests)
    ensures AllRegular(HandleAll(map[], requests))
    ensures forall i :: 0 <= i < |requests| && requests[i].Sweep? ==> requests[i].graceExpired == {}
  {
    hide CalculatePeriod;
    if requests != [] {
      NobodyIsEverSuspended(requests[..|requests| - 1]);
      HandleKeepsRegular(HandleAll(map[], requests[..|requests| - 1]), requests[|requests| - 1]);
    }
  }

  /** A cancelled subscription is left alone by every whole request, with no other at work, but its own activation by
      the provisioning workflow, which does not look at the status; so it stays cancelled over one such request exactly
      when that is not its activation. `SubscriptionInterleaving` has what requests that overlap can do. */
  lemma {:induction false} OnlyActivationRevives(table: Table, request: Request, id: SubscriptionId)
    requires id in table && table[id].status == Cancelled && Answers(table, request)
    ensures id in Handle(table, request)
    ensures Handle(table, request)[id].status == Cancelled <==> !(request.Activate? && request.id == id)
    ensures Handle(table, request)[id].status == Cancelled ==> Handle(table, request)[id] == table[id]
  {
    hide CalculatePeriod, AddMonths, EarliestFirst;
    if request.Sweep? {
      assert id !in Due(table, request.now);
      assert id !in GraceExpired(Marked(table, request.due, PastDue, request.now), request.now);
    }
  }

  /** As long as requests do not overlap, and whatever is done to others, a cancelled subscription that is not activated
      stays as it is. */
  lemma {:induction false} CancelledIsFinal(table: Table, requests: seq<Request>, id: SubscriptionId)
    requires id in table && table[id].status == Cancelled && Possible(table, requests)
    requires forall r :: r in requests ==> !(r.Activate? && r.id == id)
    ensures id in HandleAll(table, requests) && HandleAll(table, requests)[id] == table[id]
  {
    hide Handle, Answers;
    if requests != [] {
      var before, last := requests[..|requests| - 1], requests[|requests| - 1];
      CancelledIsFinal(table, before, id);
      assert last in requests;
      OnlyActivationRevives(HandleAll(table, before), last, id);
    }
  }

  // ---- The sweep ----

  lemma {:induction false} SweepTakesDue(
    table: Table, now: Time, due: set<SubscriptionId>, graceExpired: set<SubscriptionId>)
    requires due <= Due(table, now) && graceExpired <= GraceExpired(Marked(table, due, PastDue, now), now)
    ensures Due(Handle(table, Sweep(now, due, graceExpired)), now) == Due(table, now) - due
  {
  }

  /** How many subscriptions some sweeps have marked as past due. */
  function Swept(requests: seq<Request>): nat {
    if requests == [] then 0
    else
      var last := requests[|requests| - 1];
      Swept(requests[..|requests| - 1]) + if last.Sweep? then |last.due| else 0
  }

  /** Sweeping again and again at one instant takes 100 due subscriptions a time until none is left: n of them take
      exactly n / 100 calls, rounded up, and the counts add up to n. */
  lemma {:induction false} SweepsDrain(table: Table, sweeps: seq<Request>, now: Time)
    requires Possible(table, sweeps)
    requires forall i :: 0 <= i < |sweeps| ==> sweeps[i].Sweep? && sweeps[i].now == now
    ensures var (n, left) := (|Due(table, now)|, |Due(HandleAll(table, sweeps), now)|);
      && left == (if n <= SWEEP_LIMIT * |sweeps| then 0 else n - SWEEP_LIMIT * |sweeps|)
      && Swept(sweeps) + left == n
      && (left == 0 <==> (n + SWEEP_LIMIT - 1) / SWEEP_LIMIT <= |sweeps|)
  {
    if sweeps != [] {
      var before, last := sweeps[..|sweeps| - 1], sweeps[|sweeps| - 1];
      SweepsDrain(table, before, now);
      var m := HandleAll(table, before);
      SweepTakesDue(m, now, last.due, last.graceExpired);
    }
  }

  // ---- A sweep that stored the grace period it computes ----

  function Graced(table: Table, ids: set<SubscriptionId>, now: Time, window: int): Table {
    map id | id in table ::
      if id in ids then WithStatus(table[id], PastDue, now).(graceUntil := Some(now + window)) else table[id]
  }

  /** What the two queries of one such sweep answer. */
  datatype GracedSweep = GracedSweep(due: set<SubscriptionId>, graceExpired: set<SubscriptionId>)

  predicate AnswersGraced(table: Table, now: Time, window: int, sweep: GracedSweep) {
    && Selects(Due(table, now), sweep.due)
    && Selects(GraceExpired(Graced(table, sweep.due, now, window), now), sweep.graceExpired)
  }

  function SweptGraced(table: Table, now: Time, window: int, sweep: GracedSweep): Table {
    Marked(Graced(table, sweep.due, now, window), sweep.graceExpired, Suspended, now)
  }

  /** The table after such sweeps, one after another at one instant. */
  function AllSweptGraced(table: Table, now: Time, window: int, sweeps: seq<GracedSweep>): Table {
    if sweeps == [] then table
    else SweptGraced(AllSweptGraced(table, now, window, sweeps[..|sweeps| - 1]), now, window, sweeps[|sweeps| - 1])
  }

  predicate AllAnswerGraced(table: Table, now: Time, window: int, sweeps: seq<GracedSweep>) {
    sweeps == []
    || (AllAnswerGraced(table, now, window, sweeps[..|sweeps| - 1])
      && AnswersGraced(AllSweptGraced(table, now, window, sweeps[..|sweeps| - 1]), now, window, sweeps[|sweeps| - 1]))
  }

  /** One such sweep takes what it lists off both queries' answers, and puts nothing on either. */
  lemma {:induction false} GracingTakesDue(table: Table, now: Time, window: int, due: set<SubscriptionId>)
    requires 0 < window && due <= Due(table, now)
    ensures var graced := Graced(table, due, now, window);
      && graced.Keys == table.Keys
      && Due(graced, now) == Due(table, now) - due && GraceExpired(graced, now) == GraceExpired(table, now)
  {
  }

  lemma {:induction false} SuspendingTakesExpired(table: Table, now: Time, expired: set<SubscriptionId>)
    requires expired <= GraceExpired(table, now)
    ensures var after := Marked(table, expired, Suspended, now);
      && after.Keys == table.Keys
      && Due(after, now) == Due(table, now) && GraceExpired(after, now) == GraceExpired(table, now) - expired
  {
  }

  lemma {:induction false} GracedSweepTakes(table: Table, now: Time, window: int, sweep: GracedSweep)
    requires 0 < window && AnswersGraced(table, now, window, sweep)
    ensures var after := SweptGraced(table, now, window, sweep);
      && GraceExpired(Graced(table, sweep.due, now, window), now) == GraceExpired(table, now)
      && Due(after, now) == Due(table, now) - sweep.due
      && GraceExpired(after, now) == GraceExpired(table, now) - sweep.graceExpired
      && after.Keys == table.Keys
  {
    hide Due, GraceExpired, Graced, Marked;
    GracingTakesDue(table, now, window, sweep.due);
    SuspendingTakesExpired(Graced(table, sweep.due, now, window), now, sweep.graceExpired);
  }

  /** What has become of a row that was due, or whose grace period had expired, before the sweeps. */
  ghost predicate Moved(before: Table, after: Table, now: Time, window: int, id: SubscriptionId) {
    && (id in Due(before, now) && id !in Due(after, now) ==>
      id in after && after[id].status == PastDue && after[id].graceUntil == Some(now + window))
    && (id in GraceExpired(before, now) && id !in GraceExpired(after, now) ==>
      id in after && after[id].status == Suspended)
  }

  function Drained(n: nat, sweeps: nat): nat {
    if n <= SWEEP_LIMIT * sweeps then 0 else n - SWEEP_LIMIT * sweeps
  }

  lemma {:induction false} GracedSweepMoves(
    before: Table, table: Table, now: Time, window: int, sweep: GracedSweep, id: SubscriptionId)
    requires 0 < window && AnswersGraced(table, now, window, sweep) && Moved(before, table, now, window, id)
    ensures Moved(before, SweptGraced(table, now, window, sweep), now, window, id)
  {
    GracedSweepTakes(table, now, window, sweep);
  }

  /** Each such sweep marks the next 100 due rows, with their grace period, and suspends the next 100 whose grace period
      has expired; nobody else is touched. */
  lemma {:induction false} GracedSweepsDrain(table: Table, now: Time, window: int, sweeps: seq<GracedSweep>)
    requires 0 < window && AllAnswerGraced(table, now, window, sweeps)
    ensures var after := AllSweptGraced(table, now, window, sweeps);
      && |Due(after, now)| == Drained(|Due(table, now)|, |sweeps|)
      && |GraceExpired(after, now)| == Drained(|GraceExpired(table, now)|, |sweeps|)
      && forall id :: Moved(table, after, now, window, id)
  {
    hide Due, GraceExpired, SweptGraced, Moved, Graced;
    if sweeps == [] {
      forall id ensures Moved(table, table, now, window, id) {
        NothingMoved(table, now, window, id);
      }
    } else {
      var before, last := AllSweptGraced(table, now, window, sweeps[..|sweeps| - 1]), sweeps[|sweeps| - 1];
      GracedSweepsDrain(table, now, window, sweeps[..|sweeps| - 1]);
      GracedSweepTakes(before, now, window, last);
      forall id ensures Moved(table, SweptGraced(before, now, window, last), now, window, id) {
        GracedSweepMoves(table, before, now, window, last, id);
      }
    }
  }

  lemma {:induction false} NothingMoved(table: Table, now: Time, window: int, id: SubscriptionId)
    ensures Moved(table, table, now, window, id)
  {
  }

  /** Were the grace period stored, every due subscription, however many there are, would go from active to past due and
      then to suspended: by the sweep that reaches it, 100 a sweep, at or after the end of its grace period. */
  lemma {:induction false} StoredGraceSuspends(
    table: Table, now: Time, window: int, first: seq<GracedSweep>, later: Time, second: seq<GracedSweep>,
    id: SubscriptionId)
    requires 0 < window && now + window <= later && id in Due(table, now)
    requires AllAnswerGraced(table, now, window, first) && |Due(table, now)| <= SWEEP_LIMIT * |first|
    requires var middle := AllSweptGraced(table, now, window, first);
      AllAnswerGraced(middle, later, window, second) && |GraceExpired(middle, later)| <= SWEEP_LIMIT * |second|
    ensures var middle := AllSweptGraced(table, now, window, first);
      var after := AllSweptGraced(middle, later, window, second);
      && id in middle && middle[id].status == PastDue && middle[id].graceUntil == Some(now + window)
      && id in after && after[id].status == Suspended
  {
    hide AllAnswerGraced, AllSweptGraced;
    var middle := AllSweptGraced(table, now, window, first);
    GracedSweepsDrain(table, now, window, first);
    assert Due(middle, now) == {} && Moved(table, middle, now, window, id);
    GracedSweepsDrain(middle, later, window, second);
    var after := AllSweptGraced(middle, later, window, second);
    assert GraceExpired(after, later) == {} && Moved(middle, after, later, window, id);
  }

  lemma {:induction false} MarkNone(table: Table, status: Status, now: Time)
    ensures Marked(table, {}, status, now) == table
  {
  }

  lemma {:induction false} MarkOneMore(
    table: Table, ids: set<SubscriptionId>, id: SubscriptionId, status: Status, now: Time)
    requires id in table && id !in ids
    ensures Marked(table, ids + {id}, status, now)
      == Marked(table, ids, status, now)[id := WithStatus(table[id], status, now)]
    ensures Marked(table, ids, status, now)[id] == table[id]
  {
  }

  // ---- The service ----

  class SubscriptionService {
    var subscriptions: Table

    constructor ()
      ensures subscriptions == map[]
    {
      subscriptions := map[];
    }

    method CreateSubscription(
      id: SubscriptionId, user: UserId, plan: PlanId, status: Status, cycle: string, price: int, currency: string,
      now: Time)
      returns (created: bool)
      modifies this
      ensures created == (id !in old(subscriptions))
      ensures subscriptions == Handle(old(subscriptions), Create(id, user, plan, status, cycle, price, currency, now))
    {
      if id in subscriptions {
        return false;
      }
      var end := CalculatePeriod(now, cycle);
      subscriptions := subscriptions[id := Subscription(
        user, plan, status, cycle, price, currency, Some(now), Some(now), Some(end), Some(end), None, false, None)];
      return true;
    }

    method RenewSubscription(id: SubscriptionId, now: Time) returns (renewed: bool)
      modifies this
      ensures renewed == (id in old(subscriptions) && Renewable(old(subscriptions)[id]))
      ensures subscriptions == Handle(old(subscriptions), Renew(id, now))
    {
      if id !in subscriptions {
        return false;
      }
      var sub := subscriptions[id];
      if sub.status == Cancelled || sub.status == Terminated {
        return false;
      }
      var start := now;
      if sub.periodEnd.Some? && sub.periodEnd.value > now {
        start := sub.periodEnd.value;
      }
      var end := CalculatePeriod(start, sub.cycle);
      subscriptions := subscriptions[id := sub.(
        status := Active, periodStart := Some(start), periodEnd := Some(end),
        nextDue := Some(end), graceUntil := None)];
      return true;
    }

    method CancelSubscription(user: UserId, id: SubscriptionId, immediate: bool, now: Time) returns (ok: bool)
      modifies this
      ensures ok == (id in old(subscriptions) && old(subscriptions)[id].user == user
        && (old(subscriptions)[id].status == Active || old(subscriptions)[id].status == PastDue))
      ensures subscriptions == Handle(old(subscriptions), Cancel(user, id, immediate, now))
    {
      if id !in subscriptions || subscriptions[id].user != user {
        return false;
      }
      var sub := subscriptions[id];
      if sub.status != Active && sub.status != PastDue {
        return false;
      }
      if immediate {
        UpdateSubscriptionStatus(id, Cancelled, now);
      } else {
        subscriptions := subscriptions[id := sub.(cancelAtPeriodEnd := true)];
      }
      return true;
    }

    method UpdateSubscriptionStatus(id: SubscriptionId, status: Status, now: Time)
      requires id in subscriptions
      modifies this
      ensures subscriptions == old(subscriptions)[id := WithStatus(old(subscriptions)[id], status, now)]
    {
      subscriptions := subscriptions[id := WithStatus(subscriptions[id], status, now)];
    }

    /** The earliest due of some due subscriptions. */
    method EarliestDue(ids: set<SubscriptionId>, now: Time) returns (first: SubscriptionId)
      requires ids != {} && ids <= Due(subscriptions, now)
      ensures first in ids
      ensures forall o :: o in ids ==> subscriptions[first].nextDue.value <= subscriptions[o].nextDue.value
    {
      first :| first in ids;
      var rest := ids - {first};
      while rest != {}
        invariant rest <= ids && first in ids
        invariant forall o :: o in ids - rest ==> subscriptions[first].nextDue.value <= subscriptions[o].nextDue.value
      {
        var o :| o in rest;
        if subscriptions[o].nextDue.value < subscriptions[first].nextDue.value {
          first := o;
        }
        rest := rest - {o};
      }
    }

    method ListDueSubscriptions(now: Time) returns (due: set<SubscriptionId>)
      ensures Selects(Due(subscriptions, now), due) && EarliestFirst(subscriptions, now, due)
    {
      var rest := Due(subscriptions, now);
      ghost var all := rest;
      due := {};
      while rest != {} && |due| < SWEEP_LIMIT
        invariant due <= all && rest == all - due && |due| + |rest| == |all| && |due| <= SWEEP_LIMIT
        invariant EarliestFirst(subscriptions, now, due)
      {
        var first := EarliestDue(rest, now);
        due, rest := due + {first}, rest - {first};
      }
    }

    method ListGraceExpiredSubscriptions(now: Time) returns (ids: set<SubscriptionId>)
      ensures Selects(GraceExpired(subscriptions, now), ids)
    {
      var rest := GraceExpired(subscriptions, now);
      ghost var all := rest;
      ids := {};
      while rest != {} && |ids| < SWEEP_LIMIT
        invariant ids <= all && rest == all - ids && |ids| + |rest| == |all| && |ids| <= SWEEP_LIMIT
      {
        var id :| id in rest;
        ids, rest := ids + {id}, rest - {id};
      }
    }

    /** Marks the given rows one by one. */
    method MarkAll(ids: set<SubscriptionId>, status: Status, now: Time) returns (count: nat)
      requires ids <= subscriptions.Keys
      modifies this
      ensures subscriptions == Marked(old(subscriptions), ids, status, now) && count == |ids|
    {
      var rest := ids;
      count := 0;
      MarkNone(subscriptions, status, now);
      assert ids - rest == {};
      while rest != {}
        invariant rest <= ids <= old(subscriptions).Keys && count == |ids| - |rest|
        invariant subscriptions == Marked(old(subscriptions), ids - rest, status, now)
      {
        var id :| id in rest;
        assert ids - (rest - {id}) == ids - rest + {id};
        MarkOneMore(old(subscriptions), ids - rest, id, status, now);
        UpdateSubscriptionStatus(id, status, now);
        count := count + 1;
        rest := rest - {id};
      }
      assert ids - {} == ids;
    }

    /** The sweep; the ghost results say what its two queries have answered. */
    method ProcessDueAndGraceCheck(now: Time, graceWindow: int)
      returns (dueCount: nat, suspendedCount: nat, ghost due: set<SubscriptionId>,
        ghost graceExpired: set<SubscriptionId>)
      modifies this
      ensures Answers(old(subscriptions), Sweep(now, due, graceExpired))
      ensures subscriptions == Handle(old(subscriptions), Sweep(now, due, graceExpired))
      ensures dueCount == |due| && suspendedCount == |graceExpired|
    {
      var dueSubs := ListDueSubscriptions(now);
      due := dueSubs;
      dueCount := MarkAll(dueSubs, PastDue, now); // the grace period computed from the window is not stored
      var expired := ListGraceExpiredSubscriptions(now);
      graceExpired := expired;
      suspendedCount := MarkAll(expired, Suspended, now);
    }
  }
}
