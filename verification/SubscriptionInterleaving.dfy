/** Renewals, cancellations and sweeps taken statement by statement: each of them reads rows without a lock and later
    overwrites them by their id, whatever they have become. */
module SubscriptionInterleaving {
  import opened Options
  import opened Identifiers
  import opened Subscriptions

  type CallId = nat

  /** A call that has read and still has to write: a renewal or a cancellation with what it has read, or a sweep with
      the rows that it has listed and still has to mark, in their order. */
  datatype Call =
    | Renewing(id: SubscriptionId, seen: Subscription, now: Time)
    | Cancelling(id: SubscriptionId, immediate: bool)
    | Marking(ids: seq<SubscriptionId>, now: Time)
    | Suspending(ids: seq<SubscriptionId>)
  {
    predicate Sweeps() {
      Marking? || Suspending?
    }

    /** There is a statement left to run. */
    predicate Writes() {
      Sweeps() ==> ids != []
    }

    function Target(): SubscriptionId
      requires Writes()
    {
      if Sweeps() then ids[0] else id
    }

    /** What the statement makes of the row, as it is by then. */
    function Row(sub: Subscription, clock: Time): Subscription {
      match this
      case Renewing(_, seen, now) =>
        var start := RenewalStart(seen, now);
        WithPeriod(sub, start, CalculatePeriod(start, seen.cycle))
      case Cancelling(_, immediate) =>
        if immediate then WithStatus(sub, Cancelled, clock) else sub.(cancelAtPeriodEnd := true)
      case Marking(_, _) => WithStatus(sub, PastDue, clock)
      case Suspending(_) => WithStatus(sub, Suspended, clock)
    }

    /** It will write this row. */
    predicate Touches(row: SubscriptionId) {
      if Sweeps() then row in ids else row == id
    }
  }

  datatype State = State(table: Table, calls: map<CallId, Call>)

  datatype Event =
    | Insert(request: Request)
    | Activation(id: SubscriptionId, clock: Time)
    | ReadForRenewal(c: CallId, id: SubscriptionId, now: Time)
    | ReadForCancellation(c: CallId, user: UserId, id: SubscriptionId, immediate: bool)
    | ListDue(c: CallId, ids: seq<SubscriptionId>, now: Time)
    | ListExpired(c: CallId, ids: seq<SubscriptionId>)
    | Write(c: CallId, clock: Time)
    | FailToWrite(c: CallId)
    | Stop(c: CallId)

  function Elements(ids: seq<SubscriptionId>): set<SubscriptionId> {
    set id | id in ids
  }

  /** The rows that a query answers, each of them once. */
  predicate Lists(all: set<SubscriptionId>, ids: seq<SubscriptionId>) {
    Selects(all, Elements(ids)) && |ids| == |Elements(ids)|
  }

  predicate Enabled(s: State, e: Event) {
    match e
    case Insert(request) => (request.Create? || request.Fulfil?) && Answers(s.table, request)
    case Activation(id, _) => id in s.table
    case ReadForRenewal(c, id, _) => c !in s.calls && id in s.table && Renewable(s.table[id])
    case ReadForCancellation(c, user, id, _) =>
      && c !in s.calls && id in s.table && s.table[id].user == user
      && (s.table[id].status == Active || s.table[id].status == PastDue)
    case ListDue(c, ids, now) =>
      c !in s.calls && Lists(Due(s.table, now), ids) && EarliestFirst(s.table, now, Elements(ids))
    case ListExpired(c, ids) =>
      && c in s.calls && s.calls[c].Marking? && s.calls[c].ids == []
      && Lists(GraceExpired(s.table, s.calls[c].now), ids)
    case Write(c, _) => c in s.calls && s.calls[c].Writes()
    case FailToWrite(c) => c in s.calls && s.calls[c].Writes()
    case Stop(c) => c in s.calls
  }

  /** The calls once one of them has run its next statement: a sweep goes on with its next row, also after an error. */
  function Advanced(calls: map<CallId, Call>, c: CallId): map<CallId, Call>
    requires c in calls && calls[c].Writes()
  {
    if calls[c].Sweeps() then calls[c := calls[c].(ids := calls[c].ids[1..])] else calls - {c}
  }

  function Step(s: State, e: Event): State
    requires Enabled(s, e)
  {
    match e
    case Insert(request) => s.(table := Handle(s.table, request))
    case Activation(id, clock) => s.(table := Handle(s.table, Activate(id, clock)))
    case ReadForRenewal(c, id, now) => s.(calls := s.calls[c := Renewing(id, s.table[id], now)])
    case ReadForCancellation(c, _, id, immediate) => s.(calls := s.calls[c := Cancelling(id, immediate)])
    case ListDue(c, ids, now) => s.(calls := s.calls[c := Marking(ids, now)])
    case ListExpired(c, ids) => s.(calls := s.calls[c := Suspending(ids)])
    case Write(c, clock) =>
      var id := s.calls[c].Target();
      State(if id in s.table then s.table[id := s.calls[c].Row(s.table[id], clock)] else s.table, Advanced(s.calls, c))
    case FailToWrite(c) => s.(calls := Advanced(s.calls, c))
    case Stop(c) => s.(calls := s.calls - {c})
  }

  function Run(s: State, events: seq<Event>): Option<State>
    decreases |events|
  {
    if events == [] then Some(s)
    else if Enabled(s, events[0]) then Run(Step(s, events[0]), events[1..])
    else None
  }

  lemma {:induction false} RunGoesOn(s: State, events: seq<Event>, more: seq<Event>)
    requires Run(s, events).Some?
    decreases |events|
    ensures Run(s, events + more) == Run(Run(s, events).value, more)
  {
    if events == [] {
      assert events + more == more;
    } else {
      assert (events + more)[1..] == events[1..] + more;
      RunGoesOn(Step(s, events[0]), events[1..], more);
    }
  }

  // ---- Exactly when a cancelled subscription can come back ----

  /** Nothing in a run activates the subscription. */
  predicate NoActivation(events: seq<Event>, id: SubscriptionId) {
    forall e :: e in events ==> !(e.Activation? && e.id == id)
  }

  /** The write of the call will take the row out of cancelled. */
  predicate Revives(call: Call, id: SubscriptionId) {
    !call.Cancelling? && call.Touches(id)
  }

  /** The write of the call will change the row, which is cancelled, in some way. */
  predicate Alters(call: Call, id: SubscriptionId, sub: Subscription) {
    call.Touches(id) && (call.Cancelling? ==> call.immediate || !sub.cancelAtPeriodEnd)
  }

  predicate IsCancelled(s: State, id: SubscriptionId) {
    id in s.table && s.table[id].status == Cancelled
  }

  ghost predicate RevivalUnderWay(s: State, id: SubscriptionId) {
    exists c :: c in s.calls && Revives(s.calls[c], id)
  }

  ghost predicate AlterationUnderWay(s: State, id: SubscriptionId)
    requires id in s.table
  {
    exists c :: c in s.calls && Alters(s.calls[c], id, s.table[id])
  }

  predicate EndsOtherwise(s: State, more: seq<Event>, id: SubscriptionId) {
    NoActivation(more, id) && Run(s, more).Some? && !IsCancelled(Run(s, more).value, id)
  }

  predicate EndsAltered(s: State, more: seq<Event>, id: SubscriptionId)
    requires id in s.table
  {
    && NoActivation(more, id) && Run(s, more).Some?
    && !(id in Run(s, more).value.table && Run(s, more).value.table[id] == s.table[id])
  }

  /** A call that will write a row can get to it, whatever else it has to write before. */
  lemma {:induction false} WriteIsReached(s: State, c: CallId, id: SubscriptionId, clock: Time)
    returns (more: seq<Event>)
    requires c in s.calls && s.calls[c].Touches(id) && id in s.table
    ensures NoActivation(more, id) && Run(s, more).Some?
    ensures var end := Run(s, more).value; id in end.table && end.table[id] == s.calls[c].Row(s.table[id], clock)
    decreases if s.calls[c].Sweeps() then |s.calls[c].ids| else 0
  {
    hide CalculatePeriod;
    var s' := Step(s, Write(c, clock));
    if s.calls[c].Target() == id {
      more := [Write(c, clock)];
      assert Run(s', more[1..]) == Some(s');
    } else {
      var rest := WriteIsReached(s', c, id, clock);
      more := [Write(c, clock)] + rest;
      assert more[1..] == rest;
    }
  }

  lemma {:induction false} Listed(ids: seq<SubscriptionId>, id: SubscriptionId)
    ensures id in ids <==> id in Elements(ids)
  {
  }

  /** No query that looks for rows to write answers a cancelled one. */
  lemma {:induction false} CancelledIsNotRead(s: State, e: Event, id: SubscriptionId)
    requires IsCancelled(s, id) && Enabled(s, e)
    ensures e.ReadForRenewal? || e.ReadForCancellation? ==> e.id != id
    ensures e.ListDue? || e.ListExpired? ==> id !in e.ids
  {
    hide EarliestFirst;
    if e.ListDue? || e.ListExpired? {
      Listed(e.ids, id);
    }
  }

  /** A cancelled row that no call will alter is altered by no step but its activation. */
  lemma {:induction false} StepLeavesCancelled(s: State, e: Event, id: SubscriptionId)
    requires IsCancelled(s, id) && Enabled(s, e) && !(e.Activation? && e.id == id)
    requires !AlterationUnderWay(s, id)
    ensures id in Step(s, e).table && Step(s, e).table[id] == s.table[id]
    ensures !AlterationUnderWay(Step(s, e), id)
  {
    hide CalculatePeriod, AddMonths, EarliestFirst;
    var s' := Step(s, e);
    if e.Write? && s.calls[e.c].Target() == id {
      assert !Alters(s.calls[e.c], id, s.table[id]);
    }
    forall c | c in s'.calls ensures !Alters(s'.calls[c], id, s.table[id]) {
      assert c in s.calls ==> !Alters(s.calls[c], id, s.table[id]);
      CancelledIsNotRead(s, e, id);
    }
  }

  /** ... and one that no call will revive stays cancelled. */
  lemma {:induction false} StepStaysCancelled(s: State, e: Event, id: SubscriptionId)
    requires IsCancelled(s, id) && Enabled(s, e) && !(e.Activation? && e.id == id)
    requires !RevivalUnderWay(s, id)
    ensures IsCancelled(Step(s, e), id) && !RevivalUnderWay(Step(s, e), id)
  {
    hide CalculatePeriod, AddMonths, EarliestFirst;
    var s' := Step(s, e);
    if e.Write? && s.calls[e.c].Target() == id {
      assert !Revives(s.calls[e.c], id);
    }
    forall c | c in s'.calls ensures !Revives(s'.calls[c], id) {
      assert c in s.calls ==> !Revives(s.calls[c], id);
      CancelledIsNotRead(s, e, id);
    }
  }

  lemma {:induction false} StaysCancelled(s: State, more: seq<Event>, id: SubscriptionId)
    requires IsCancelled(s, id) && NoActivation(more, id) && Run(s, more).Some? && !RevivalUnderWay(s, id)
    ensures IsCancelled(Run(s, more).value, id)
    decreases |more|
  {
    hide Step, Enabled, RevivalUnderWay;
    if more != [] {
      assert more[0] in more && NoActivation(more[1..], id);
      StepStaysCancelled(s, more[0], id);
      StaysCancelled(Step(s, more[0]), more[1..], id);
    }
  }

  lemma {:induction false} StaysAsItIs(s: State, more: seq<Event>, id: SubscriptionId)
    requires IsCancelled(s, id) && NoActivation(more, id) && Run(s, more).Some? && !AlterationUnderWay(s, id)
    ensures id in Run(s, more).value.table && Run(s, more).value.table[id] == s.table[id]
    decreases |more|
  {
    hide Step, Enabled, AlterationUnderWay;
    if more != [] {
      assert more[0] in more && NoActivation(more[1..], id);
      StepLeavesCancelled(s, more[0], id);
      StaysAsItIs(Step(s, more[0]), more[1..], id);
    }
  }

  /** From any state in which a subscription is cancelled, it can end up in another status without being activated
      exactly when a renewal that has read it, or a sweep that has listed it, still has to write; otherwise it stays
      cancelled for ever, whatever is done to it. */
  lemma {:induction false} CancelledIsFinalExactlyWhen(s: State, id: SubscriptionId)
    requires IsCancelled(s, id)
    ensures (exists more :: EndsOtherwise(s, more, id)) <==> RevivalUnderWay(s, id)
  {
    if RevivalUnderWay(s, id) {
      var c :| c in s.calls && Revives(s.calls[c], id);
      var more := WriteIsReached(s, c, id, 0);
      assert EndsOtherwise(s, more, id);
    } else {
      forall more ensures !EndsOtherwise(s, more, id) {
        if NoActivation(more, id) && Run(s, more).Some? {
          StaysCancelled(s, more, id);
        }
      }
    }
  }

  /** Its row can change at all exactly when, besides those, a second cancellation is at work on it that will write its
      end anew, or mark one that is not marked to end with its period. */
  lemma {:induction false} CancelledIsUntouchedExactlyWhen(s: State, id: SubscriptionId)
    requires IsCancelled(s, id)
    ensures (exists more :: EndsAltered(s, more, id)) <==> AlterationUnderWay(s, id)
  {
    if AlterationUnderWay(s, id) {
      var c :| c in s.calls && Alters(s.calls[c], id, s.table[id]);
      var later := if s.table[id].endedAt.Some? then s.table[id].endedAt.value + 1 else 0;
      var more := WriteIsReached(s, c, id, later);
      assert EndsAltered(s, more, id);
    } else {
      forall more ensures !EndsAltered(s, more, id) {
        if NoActivation(more, id) && Run(s, more).Some? {
          StaysAsItIs(s, more, id);
        }
      }
    }
  }

  lemma {:induction false} RunUnfolds(s: State, e: Event, more: seq<Event>)
    requires Enabled(s, e)
    ensures Run(s, [e] + more) == Run(Step(s, e), more)
  {
    assert ([e] + more)[1..] == more;
  }

  /** Two calls that have both read before either writes. */
  function Overlapping(first: Event, second: Event, clock: Time): seq<Event> {
    [first] + ([second] + ([Write(1, clock)] + ([Write(0, clock)] + [])))
  }

  lemma {:induction false} OverlappingEnds(table: Table, first: Event, second: Event, clock: Time, c: Call, d: Call)
    requires Enabled(State(table, map[]), first) && Step(State(table, map[]), first) == State(table, map[0 := c])
    requires Enabled(State(table, map[0 := c]), second)
    requires Step(State(table, map[0 := c]), second) == State(table, map[0 := c, 1 := d])
    requires c.Writes() && d.Writes() && c.Target() == d.Target() && c.Target() in table
    ensures Run(State(table, map[]), Overlapping(first, second, clock)).Some?
    ensures Run(State(table, map[]), Overlapping(first, second, clock)).value.table
      == table[c.Target() := c.Row(d.Row(table[c.Target()], clock), clock)]
  {
    hide Handle, CalculatePeriod, Call.Row;
    var both, last := State(table, map[0 := c, 1 := d]), [Write(0, clock)] + [];
    RunUnfolds(State(table, map[]), first, [second] + ([Write(1, clock)] + last));
    RunUnfolds(State(table, map[0 := c]), second, [Write(1, clock)] + last);
    RunUnfolds(both, Write(1, clock), last);
    RunUnfolds(Step(both, Write(1, clock)), Write(0, clock), []);
  }

  /** The user cancels at once while a renewal has read the subscription: it ends up active, renewed, and with an end.
      */
  lemma {:induction false} RenewalOverwritesCancellation(table: Table, id: SubscriptionId, now: Time, clock: Time)
    requires id in table && table[id].status == Active
    ensures var end := Run(State(table, map[]), Overlapping(
        ReadForRenewal(0, id, now), ReadForCancellation(1, table[id].user, id, true), clock));
      end.Some? && end.value.table == table[id := Renewed(table[id], now).(endedAt := Some(clock))]
  {
    hide CalculatePeriod, Run;
    OverlappingEnds(table, ReadForRenewal(0, id, now), ReadForCancellation(1, table[id].user, id, true), clock,
      Renewing(id, table[id], now), Cancelling(id, true));
  }

  /** The user cancels at once while a sweep has listed the subscription first: it ends up past due, with an end. */
  lemma {:induction false} SweepOverwritesCancellation(
    table: Table, ids: seq<SubscriptionId>, now: Time, clock: Time)
    requires ids != [] && Enabled(State(table, map[]), ListDue(0, ids, now))
    requires ids[0] in table && table[ids[0]].status == Active
    ensures var end := Run(State(table, map[]), Overlapping(
        ListDue(0, ids, now), ReadForCancellation(1, table[ids[0]].user, ids[0], true), clock));
      end.Some? && end.value.table
        == table[ids[0] := table[ids[0]].(status := PastDue, endedAt := Some(clock))]
  {
    hide Run;
    OverlappingEnds(table, ListDue(0, ids, now), ReadForCancellation(1, table[ids[0]].user, ids[0], true), clock,
      Marking(ids, now), Cancelling(ids[0], true));
  }

  /** Two renewals of one subscription that both read before either writes add one period between them. */
  lemma {:induction false} TwoRenewalsAddOnePeriod(table: Table, id: SubscriptionId, now: Time, clock: Time)
    requires id in table && Renewable(table[id])
    ensures var end := Run(State(table, map[]), Overlapping(
        ReadForRenewal(0, id, now), ReadForRenewal(1, id, now), clock));
      end.Some? && end.value.table == table[id := Renewed(table[id], now)]
  {
    hide CalculatePeriod, Run;
    OverlappingEnds(table, ReadForRenewal(0, id, now), ReadForRenewal(1, id, now), clock,
      Renewing(id, table[id], now), Renewing(id, table[id], now));
  }

  // ---- What every interleaving keeps ----

  /** Rows are regular, a renewal still knows its subscription's cycle, and no sweep has anybody to suspend. */
  ghost predicate Sound(s: State) {
    && AllRegular(s.table)
    && forall c :: c in s.calls ==>
      match s.calls[c]
      case Renewing(id, seen, _) => id in s.table && s.table[id].cycle == seen.cycle
      case Suspending(ids) => ids == []
      case _ => true
  }

  lemma {:induction false} StepKeepsSound(s: State, e: Event)
    requires Sound(s) && Enabled(s, e)
    ensures Sound(Step(s, e))
  {
    hide CalculatePeriod, AddMonths, EarliestFirst;
    if e.ListExpired? {
      assert GraceExpired(s.table, s.calls[e.c].now) == {};
      forall id ensures id !in e.ids {
        Listed(e.ids, id);
      }
    }
  }

  lemma {:induction false} RunKeepsSound(s: State, events: seq<Event>)
    requires Sound(s) && Run(s, events).Some?
    ensures Sound(Run(s, events).value)
    decreases |events|
  {
    hide Sound, Enabled, Step;
    if events != [] {
      StepKeepsSound(s, events[0]);
      RunKeepsSound(Step(s, events[0]), events[1..]);
    }
  }

  const START := State(map[], map[])

  /** In every interleaving, the due date is the period's end, no grace period is stored, and no sweep has anybody to
      suspend. */
  lemma {:induction false} NobodyIsEverSuspendedInterleaved(events: seq<Event>)
    requires Run(START, events).Some?
    ensures var s := Run(START, events).value;
      && AllRegular(s.table)
      && forall c :: c in s.calls && s.calls[c].Suspending? ==> s.calls[c].ids == []
  {
    RunKeepsSound(START, events);
  }

  /** In every interleaving, the write of a renewal does what the whole renewal, run at that moment, would do exactly
      when that moment's row is renewable and the new period would start there where the renewal has computed it to. */
  lemma {:induction false} WriteRenewsExactlyWhen(events: seq<Event>, c: CallId, clock: Time)
    requires Run(START, events).Some?
    requires var s := Run(START, events).value; c in s.calls && s.calls[c].Renewing?
    ensures var s := Run(START, events).value;
      var call := s.calls[c];
      && call.id in s.table
      && (Step(s, Write(c, clock)).table == Handle(s.table, Renew(call.id, call.now)) <==>
        Renewable(s.table[call.id]) && RenewalStart(s.table[call.id], call.now) == RenewalStart(call.seen, call.now))
  {
    hide CalculatePeriod, Run;
    RunKeepsSound(START, events);
    var s := Run(START, events).value;
    var call, row, after := s.calls[c], s.table[s.calls[c].id], Step(s, Write(c, clock)).table;
    assert after[call.id].status == Active && after[call.id].periodStart == Some(RenewalStart(call.seen, call.now));
    if Renewable(row) {
      var whole := Handle(s.table, Renew(call.id, call.now));
      assert whole[call.id].periodStart == Some(RenewalStart(row, call.now));
    }
  }

  // ---- A call that nothing interrupts is the whole request ----

  lemma {:induction false} RenewalApart(s: State, c: CallId, id: SubscriptionId, now: Time, clock: Time)
    requires c !in s.calls && id in s.table && Renewable(s.table[id])
    ensures Run(s, [ReadForRenewal(c, id, now)] + ([Write(c, clock)] + []))
      == Some(State(Handle(s.table, Renew(id, now)), s.calls))
  {
    hide CalculatePeriod;
    var read := Step(s, ReadForRenewal(c, id, now));
    RunUnfolds(s, ReadForRenewal(c, id, now), [Write(c, clock)] + []);
    RunUnfolds(read, Write(c, clock), []);
    assert read.calls - {c} == s.calls;
  }

  lemma {:induction false} CancellationApart(
    s: State, c: CallId, user: UserId, id: SubscriptionId, immediate: bool, clock: Time)
    requires Enabled(s, ReadForCancellation(c, user, id, immediate))
    ensures Run(s, [ReadForCancellation(c, user, id, immediate)] + ([Write(c, clock)] + []))
      == Some(State(Handle(s.table, Cancel(user, id, immediate, clock)), s.calls))
  {
    var read := Step(s, ReadForCancellation(c, user, id, immediate));
    RunUnfolds(s, ReadForCancellation(c, user, id, immediate), [Write(c, clock)] + []);
    RunUnfolds(read, Write(c, clock), []);
    assert read.calls - {c} == s.calls;
  }

  function Writes(c: CallId, n: nat, clock: Time): (r: seq<Event>) {
    if n == 0 then [] else [Write(c, clock)] + Writes(c, n - 1, clock)
  }

  function StatusOf(call: Call): Status
    requires call.Sweeps()
  {
    if call.Marking? then PastDue else Suspended
  }

  lemma {:induction false} MarksNext(
    table: Table, calls: map<CallId, Call>, c: CallId, call: Call, clock: Time)
    requires call.Sweeps() && call.ids != [] && call.ids[0] in table
    ensures var s := State(table, calls[c := call]);
      && Enabled(s, Write(c, clock))
      && Step(s, Write(c, clock))
        == State(Marked(table, {call.ids[0]}, StatusOf(call), clock), calls[c := call.(ids := call.ids[1..])])
  {
    var s, status := State(table, calls[c := call]), StatusOf(call);
    MarkNone(table, status, clock);
    MarkOneMore(table, {}, call.ids[0], status, clock);
    assert {} + {call.ids[0]} == {call.ids[0]};
    assert call.Row(table[call.ids[0]], clock) == WithStatus(table[call.ids[0]], status, clock);
  }

  lemma {:induction false} MarkRest(table: Table, ids: seq<SubscriptionId>, status: Status, clock: Time)
    requires ids != []
    ensures Marked(Marked(table, {ids[0]}, status, clock), Elements(ids[1..]), status, clock)
      == Marked(table, Elements(ids), status, clock)
  {
    assert Elements(ids) == {ids[0]} + Elements(ids[1..]);
  }

  /** What a sweep makes of the rows that it still has to mark. */
  lemma {:induction false} MarksWhatIsLeft(
    table: Table, calls: map<CallId, Call>, c: CallId, call: Call, clock: Time)
    requires call.Sweeps() && Elements(call.ids) <= table.Keys
    ensures Run(State(table, calls[c := call]), Writes(c, |call.ids|, clock)) == Some(State(
      Marked(table, Elements(call.ids), StatusOf(call), clock), calls[c := call.(ids := [])]))
    decreases |call.ids|
  {
    hide Step, Enabled, Marked;
    if call.ids == [] {
      MarkNone(table, StatusOf(call), clock);
      assert Elements(call.ids) == {} && call.(ids := []) == call;
    } else {
      assert call.ids[0] in Elements(call.ids) && Elements(call.ids[1..]) <= Elements(call.ids);
      MarksNext(table, calls, c, call, clock);
      RunUnfolds(State(table, calls[c := call]), Write(c, clock), Writes(c, |call.ids| - 1, clock));
      MarkedKeys(table, {call.ids[0]}, StatusOf(call), clock);
      MarksWhatIsLeft(
        Marked(table, {call.ids[0]}, StatusOf(call), clock), calls, c, call.(ids := call.ids[1..]), clock);
      MarkRest(table, call.ids, StatusOf(call), clock);
    }
  }

  lemma {:induction false} MarkedKeys(table: Table, ids: set<SubscriptionId>, status: Status, clock: Time)
    ensures Marked(table, ids, status, clock).Keys == table.Keys
  {
  }

  /** A sweep with nobody else at work is the whole sweep. */
  lemma {:induction false} SweepApart(
    s: State, c: CallId, due: seq<SubscriptionId>, expired: seq<SubscriptionId>, now: Time)
    returns (events: seq<Event>)
    requires Enabled(s, ListDue(c, due, now))
    requires Lists(GraceExpired(Marked(s.table, Elements(due), PastDue, now), now), expired)
    ensures Answers(s.table, Sweep(now, Elements(due), Elements(expired)))
    ensures Run(s, events) == Some(State(Handle(s.table, Sweep(now, Elements(due), Elements(expired))), s.calls))
  {
    hide Marked, EarliestFirst, Run, Writes;
    var first, second := [ListDue(c, due, now)] + Writes(c, |due|, now),
      [ListExpired(c, expired)] + Writes(c, |expired|, now);
    RunUnfolds(s, ListDue(c, due, now), Writes(c, |due|, now));
    MarksWhatIsLeft(s.table, s.calls, c, Marking(due, now), now);
    MarkedKeys(s.table, Elements(due), PastDue, now);
    var marked := State(Marked(s.table, Elements(due), PastDue, now), s.calls[c := Marking([], now)]);
    assert Run(s, first) == Some(marked);
    RunUnfolds(marked, ListExpired(c, expired), Writes(c, |expired|, now));
    MarksWhatIsLeft(marked.table, s.calls, c, Suspending(expired), now);
    assert marked.calls[c := Suspending(expired)] == s.calls[c := Suspending(expired)];
    var swept := Run(marked, second).value;
    RunUnfolds(swept, Stop(c), []);
    assert Step(swept, Stop(c)).calls == s.calls;
    events := first + (second + ([Stop(c)] + []));
    RunGoesOn(s, first, second + ([Stop(c)] + []));
    RunGoesOn(marked, second, [Stop(c)] + []);
    RunOfNothing(Step(swept, Stop(c)));
  }

  lemma {:induction false} RunOfNothing(s: State)
    ensures Run(s, []) == Some(s)
  {
  }
}
