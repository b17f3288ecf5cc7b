/** How many instances the executions of one operation record, when any number of executions interleave. */
module OperationInstances {
  import opened Options
  import opened Identifiers
  import opened Resources
  import opened Allocator
  import opened Instances
  import opened ProvisioningRuns

  /** The instances that executions of an operation have recorded. */
  function InstancesOf(p: Plant, operation: OperationId): set<InstanceId> {
    set i | i in p.maker && p.maker[i] in p.executions && p.executions[p.maker[i]].operation == operation
  }

  function SucceededOf(p: Plant, operation: OperationId): set<ExecutionId> {
    set e | e in p.executions && p.executions[e].operation == operation && p.executions[e].stage == Succeeded
  }

  /** Executions that have recorded their instance and have not come to their end: they are still at work or have
      crashed. */
  function UnfinishedOf(p: Plant, operation: OperationId): set<ExecutionId> {
    set e | e in p.executions && p.executions[e].operation == operation
      && p.executions[e].instance.Some? && p.executions[e].stage != Succeeded
  }

  lemma {:induction false} RunKeepsSound(db: Database, instances: Table, events: seq<Event>)
    requires Run(Initial(db, instances), events).Some?
    ensures Sound(Run(Initial(db, instances), events).value, db.reservations)
  {
    if events != [] {
      var before := events[..|events| - 1];
      RunKeepsSound(db, instances, before);
      hide Sound, Enabled, Step;
      StepKeepsSound(Run(Initial(db, instances), before).value, db.reservations, events[|events| - 1]);
    }
  }

  /** A set that maps one-to-one onto another has its size. */
  lemma {:induction false} SameSize<A, B>(a: set<A>, b: set<B>, partner: map<A, B>)
    requires forall x :: x in a ==> x in partner && partner[x] in b
    requires forall x, y :: x in a && y in a && partner[x] == partner[y] ==> x == y
    requires forall y :: y in b ==> exists x :: x in a && partner[x] == y
    ensures |a| == |b|
    decreases |a|
  {
    if a == {} {
      assert b == {};
    } else {
      var x :| x in a;
      SameSize(a - {x}, b - {partner[x]}, partner);
    }
  }

  /** In every reachable state an operation has as many instances as executions of it have succeeded, and one more for
      each that has recorded its instance and is still at work or has crashed. */
  lemma {:induction false} InstancesCountSuccesses(
    db: Database, instances: Table, events: seq<Event>, operation: OperationId)
    requires Run(Initial(db, instances), events).Some?
    ensures var p := Run(Initial(db, instances), events).value;
      |InstancesOf(p, operation)| == |SucceededOf(p, operation)| + |UnfinishedOf(p, operation)|
  {
    RunKeepsSound(db, instances, events);
    var p := Run(Initial(db, instances), events).value;
    var made, recorded := InstancesOf(p, operation), SucceededOf(p, operation) + UnfinishedOf(p, operation);
    forall e | e in recorded ensures exists i :: i in made && p.maker[i] == e {
      assert ExecutionSound(p, e);
      assert p.executions[e].instance.value in made;
    }
    forall i | i in made ensures p.maker[i] in recorded {
      assert p.executions[p.maker[i]].instance == Some(i);
    }
    SameSize(made, recorded, p.maker);
  }

  // ---- Exactly when an operation has at most one instance ----

  predicate Records(p: Plant, event: Event, operation: OperationId) {
    event.Record? && event.e in p.executions && p.executions[event.e].operation == operation
  }

  /** Each execution of the operation that records an instance finds none of the operation's there. */
  predicate EachFindsNone(p: Plant, events: seq<Event>, operation: OperationId)
    requires Run(p, events).Some?
  {
    events == []
    || var (before, last) := (events[..|events| - 1], events[|events| - 1]);
      && EachFindsNone(p, before, operation)
      && (Records(Run(p, before).value, last, operation) ==> InstancesOf(Run(p, before).value, operation) == {})
  }

  lemma {:induction false} StepRecords(
    p: Plant, start: map<ReservationId, Reservation>, event: Event, operation: OperationId)
    requires Sound(p, start) && Enabled(p, event)
    ensures Records(p, event, operation) ==> event.i !in InstancesOf(p, operation)
    ensures InstancesOf(Step(p, event), operation)
      == InstancesOf(p, operation) + if Records(p, event, operation) then {event.i} else {}
  {
    hide ExecutionSound, Explained, Apply, Admit;
  }

  /** In every run an operation ends up with at most one instance exactly when each of its executions that recorded one
      found none there; the workflow does not look. */
  lemma {:induction false} AtMostOneExactlyWhenNoneFound(
    db: Database, instances: Table, events: seq<Event>, operation: OperationId)
    requires Run(Initial(db, instances), events).Some?
    ensures |InstancesOf(Run(Initial(db, instances), events).value, operation)| <= 1
      <==> EachFindsNone(Initial(db, instances), events, operation)
  {
    if events != [] {
      var before, last := events[..|events| - 1], events[|events| - 1];
      AtMostOneExactlyWhenNoneFound(db, instances, before, operation);
      RunKeepsSound(db, instances, before);
      hide Sound, Enabled, Step, Records;
      var p := Run(Initial(db, instances), before).value;
      StepRecords(p, db.reservations, last, operation);
      if !Records(p, last, operation) {
        assert InstancesOf(Step(p, last), operation) == InstancesOf(p, operation);
      }
    }
  }

  // ---- Exactly when one more can come from what is already under way ----

  /** An execution of the operation has its reservation and has not recorded an instance yet. */
  ghost predicate HoldingUnderWay(p: Plant, operation: OperationId) {
    exists e :: e in p.executions && p.executions[e].operation == operation && p.executions[e].stage == Holding
  }

  predicate TakesFor(p: Plant, event: Event, operation: OperationId) {
    event.Take? && event.e in p.executions && p.executions[event.e].operation == operation
  }

  /** No further reservation is taken for the operation. */
  predicate NoneTaken(p: Plant, more: seq<Event>, operation: OperationId)
    requires Run(p, more).Some?
  {
    more == []
    || (NoneTaken(p, more[..|more| - 1], operation)
      && !TakesFor(Run(p, more[..|more| - 1]).value, more[|more| - 1], operation))
  }

  predicate EndsWithMore(p: Plant, more: seq<Event>, operation: OperationId) {
    && Run(p, more).Some? && NoneTaken(p, more, operation)
    && InstancesOf(Run(p, more).value, operation) != InstancesOf(p, operation)
  }

  /** Only taking a reservation makes an execution hold one, and none changes its operation. */
  lemma {:induction false} HoldsByTaking(p: Plant, event: Event, e: ExecutionId)
    requires Enabled(p, event) && e in Step(p, event).executions && Step(p, event).executions[e].stage == Holding
    ensures e in p.executions && p.executions[e].operation == Step(p, event).executions[e].operation
    ensures p.executions[e].stage == Holding || (event.Take? && event.e == e)
  {
    hide Apply, Admit;
  }

  lemma {:induction false} StepAddsNone(
    p: Plant, start: map<ReservationId, Reservation>, event: Event, operation: OperationId)
    requires Sound(p, start) && Enabled(p, event) && !TakesFor(p, event, operation) && !HoldingUnderWay(p, operation)
    ensures InstancesOf(Step(p, event), operation) == InstancesOf(p, operation)
    ensures !HoldingUnderWay(Step(p, event), operation)
  {
    StepRecords(p, start, event, operation);
    RecordsWhatIsHeld(p, event, operation);
    hide Sound, Step, Enabled, InstancesOf;
    forall e | e in Step(p, event).executions && Step(p, event).executions[e].operation == operation
      ensures Step(p, event).executions[e].stage != Holding
    {
      if Step(p, event).executions[e].stage == Holding {
        HoldsByTaking(p, event, e);
      }
    }
  }

  lemma {:induction false} RecordsWhatIsHeld(p: Plant, event: Event, operation: OperationId)
    requires Enabled(p, event) && !HoldingUnderWay(p, operation)
    ensures !Records(p, event, operation)
  {
  }

  lemma {:induction false} StaysWithout(
    p: Plant, start: map<ReservationId, Reservation>, more: seq<Event>, operation: OperationId)
    requires Sound(p, start) && !HoldingUnderWay(p, operation) && Run(p, more).Some? && NoneTaken(p, more, operation)
    ensures var end := Run(p, more).value;
      && Sound(end, start) && !HoldingUnderWay(end, operation)
      && InstancesOf(end, operation) == InstancesOf(p, operation)
  {
    if more != [] {
      var before := more[..|more| - 1];
      StaysWithout(p, start, before, operation);
      hide Sound, Enabled, Step, HoldingUnderWay, TakesFor, InstancesOf;
      StepAddsNone(Run(p, before).value, start, more[|more| - 1], operation);
      StepKeepsSound(Run(p, before).value, start, more[|more| - 1]);
    }
  }

  /** From any reachable state, whatever the operation has by then, a further instance can be recorded for it without a
      further reservation exactly when an execution of it holds one and has yet to record. */
  lemma {:induction false} OneMoreExactlyWhenHolding(
    db: Database, instances: Table, events: seq<Event>, operation: OperationId)
    requires Run(Initial(db, instances), events).Some?
    ensures var p := Run(Initial(db, instances), events).value;
      (exists more :: EndsWithMore(p, more, operation)) <==> HoldingUnderWay(p, operation)
  {
    RunKeepsSound(db, instances, events);
    var p := Run(Initial(db, instances), events).value;
    if HoldingUnderWay(p, operation) {
      var e :| e in p.executions && p.executions[e].operation == operation && p.executions[e].stage == Holding;
      var more := HoldingRecords(p, db.reservations, e);
    } else {
      forall more ensures !EndsWithMore(p, more, operation) {
        if Run(p, more).Some? && NoneTaken(p, more, operation) {
          StaysWithout(p, db.reservations, more, operation);
        }
      }
    }
  }

  lemma {:induction false} HoldingRecords(p: Plant, start: map<ReservationId, Reservation>, e: ExecutionId)
    returns (more: seq<Event>)
    requires Sound(p, start) && e in p.executions && p.executions[e].stage == Holding
    ensures EndsWithMore(p, more, p.executions[e].operation)
  {
    assert ExecutionSound(p, e);
    var x := p.executions[e];
    var i := Unused(p.instances.Keys);
    var node := p.db.reservations[x.reservation.value].node;
    var event := Record(e, i, Instance(x.subscription, Some(node), None, None, x.plan, "running", "running", false));
    RunExtends(p, [], event, p);
    StepRecords(p, start, event, x.operation);
    more := [] + [event];
    assert more[..0] == [];
  }

  // ---- The witness ----

  /** Two executions of one operation, such as those of two workers that have both polled it, that both hold a
      reservation. */
  function BothTake(request: Request, subscription: SubscriptionId, id: ReservationId, id': ReservationId): seq<Event> {
    Taking(request, subscription, id)
    + [Begin(1, request.operation, subscription, request.amount)]
    + [Take(1, id', request.node, request.expiresAt)]
  }

  lemma {:induction false} BothCommitted(db: Database, request: Request, id: ReservationId, id': ReservationId)
    requires Admit(db, id, request) == Done && id != id' && Admit(Admitted(db, id, request), id', request) == Done
    ensures var both := Admitted(Admitted(db, id, request), id', request);
      && request.node in db.nodes
      && Apply(Apply(both, Commit(id)).0, Commit(id')).0.nodes == db.nodes[request.node := db.nodes[request.node].(
        alloc := db.nodes[request.node].alloc.Plus(request.amount).Plus(request.amount))]
  {
  }

  function Taken(request: Request, subscription: SubscriptionId, id: ReservationId): Execution {
    Execution(request.operation, subscription, request.amount, Holding, Some(id), None)
  }

  /** The plant once an execution that holds its reservation has recorded its instance and committed. */
  function Finished(p: Plant, e: ExecutionId, i: InstanceId, row: Instance): Plant
    requires e in p.executions && p.executions[e].reservation.Some?
  {
    p.(db := Apply(p.db, Commit(p.executions[e].reservation.value)).0,
       instances := p.instances[i := row],
       executions := p.executions[e := p.executions[e].(stage := Succeeded, instance := Some(i))],
       maker := p.maker[i := e])
  }

  function Finishing(e: ExecutionId, i: InstanceId, row: Instance): seq<Event> {
    [Record(e, i, row)] + [CommitCall(e, true)]
  }

  lemma {:induction false} FinishingRuns(
    p: Plant, events: seq<Event>, m: Plant, e: ExecutionId, i: InstanceId, row: Instance)
    requires Run(p, events) == Some(m) && Enabled(m, Record(e, i, row))
    ensures Run(p, events + Finishing(e, i, row)) == Some(Finished(m, e, i, row))
  {
    hide Run, Apply;
    var recorded := Step(m, Record(e, i, row));
    RunExtends(p, events, Record(e, i, row), m);
    RunExtends(p, events + [Record(e, i, row)], CommitCall(e, true), recorded);
    assert events + [Record(e, i, row)] + [CommitCall(e, true)] == events + Finishing(e, i, row);
    var done := Step(recorded, CommitCall(e, true));
    assert done.executions == Finished(m, e, i, row).executions;
  }

  function BothHolding(
    db: Database, instances: Table, request: Request, subscription: SubscriptionId, id: ReservationId,
    id': ReservationId): Plant
  {
    Plant(Admitted(Admitted(db, id, request), id', request), instances,
      map[0 := Taken(request, subscription, id), 1 := Taken(request, subscription, id')],
      map[id := 0, id' := 1], map[], {})
  }

  lemma {:induction false} BothTakeHold(
    db: Database, instances: Table, request: Request, subscription: SubscriptionId, id: ReservationId,
    id': ReservationId)
    requires request.amount.NonNegative() && Admit(db, id, request) == Done && id != id'
    requires Admit(Admitted(db, id, request), id', request) == Done
    ensures Run(Initial(db, instances), BothTake(request, subscription, id, id'))
      == Some(BothHolding(db, instances, request, subscription, id, id'))
  {
    hide Run, Admit, Admitted;
    var p, taking := Initial(db, instances), Taking(request, subscription, id);
    TakingHolds(db, instances, request, subscription, id);
    var begin, take := Begin(1, request.operation, subscription, request.amount),
      Take(1, id', request.node, request.expiresAt);
    var m0 := Run(p, taking).value;
    RunExtends(p, taking, begin, m0);
    var m1 := Step(m0, begin);
    assert RequestOf(m1.executions[1], request.node, request.expiresAt) == request;
    RunExtends(p, taking + [begin], take, m1);
    assert Step(m1, take).executions
      == map[0 := Taken(request, subscription, id), 1 := Taken(request, subscription, id')];
    assert Step(m1, take).owner == map[id := 0, id' := 1];
  }

  lemma {:induction false} BothFinished(
    m: Plant, operation: OperationId, i: InstanceId, i': InstanceId, row: Instance)
    requires m.executions.Keys == {0, 1} && m.maker == map[] && i != i'
    requires forall e :: e in m.executions ==>
      m.executions[e].operation == operation && m.executions[e].reservation.Some?
    ensures var end := Finished(Finished(m, 0, i, row), 1, i', row);
      InstancesOf(end, operation) == {i, i'} && SucceededOf(end, operation) == {0, 1}
  {
    hide Apply;
  }

  lemma {:induction false} AdmittedRows(db: Database, request: Request, id: ReservationId, id': ReservationId)
    requires Admit(db, id, request) == Done && id != id' && Admit(Admitted(db, id, request), id', request) == Done
    ensures var both := Admitted(Admitted(db, id, request), id', request);
      && id in both.reservations && both.reservations[id].node == request.node
      && id' in both.reservations && both.reservations[id'].node == request.node
      && id' in Apply(both, Commit(id)).0.reservations
      && Apply(both, Commit(id)).0.reservations[id'].node == request.node
  {
  }

  lemma {:induction false} BothFinish(
    db: Database, instances: Table, request: Request, subscription: SubscriptionId, id: ReservationId,
    id': ReservationId, i: InstanceId, i': InstanceId, row: Instance)
    requires request.amount.NonNegative() && Admit(db, id, request) == Done && id != id'
    requires Admit(Admitted(db, id, request), id', request) == Done
    requires i !in instances && i' !in instances && i != i'
    requires row.node == Some(request.node) && row.spec == request.amount && row.subscription == subscription
    ensures var m := BothHolding(db, instances, request, subscription, id, id');
      Run(Initial(db, instances), BothTake(request, subscription, id, id') + Finishing(0, i, row)
        + Finishing(1, i', row)) == Some(Finished(Finished(m, 0, i, row), 1, i', row))
  {
    BothTakeHold(db, instances, request, subscription, id, id');
    AdmittedRows(db, request, id, id');
    hide Run, Admit, Admitted, Apply, BothTake, Finishing;
    var p, taken := Initial(db, instances), BothTake(request, subscription, id, id');
    var m := BothHolding(db, instances, request, subscription, id, id');
    FinishingRuns(p, taken, m, 0, i, row);
    FinishingRuns(p, taken + Finishing(0, i, row), Finished(m, 0, i, row), 1, i', row);
  }

  /** They leave the subscription with two instances, and allocate its plan twice. */
  lemma {:induction false} TwoExecutionsTwoInstances(
    db: Database, instances: Table, request: Request, subscription: SubscriptionId, id: ReservationId,
    id': ReservationId, i: InstanceId, i': InstanceId, row: Instance)
    returns (end: Plant)
    requires request.amount.NonNegative() && Admit(db, id, request) == Done && id != id'
    requires Admit(Admitted(db, id, request), id', request) == Done
    requires i !in instances && i' !in instances && i != i'
    requires row.node == Some(request.node) && row.spec == request.amount && row.subscription == subscription
    ensures Run(Initial(db, instances),
      BothTake(request, subscription, id, id') + Finishing(0, i, row) + Finishing(1, i', row)) == Some(end)
    ensures end.instances == instances[i := row][i' := row]
    ensures InstancesOf(end, request.operation) == {i, i'} && SucceededOf(end, request.operation) == {0, 1}
    ensures request.node in db.nodes
    ensures end.db.nodes == db.nodes[request.node := db.nodes[request.node].(
      alloc := db.nodes[request.node].alloc.Plus(request.amount).Plus(request.amount))]
  {
    hide Run, Admit, Admitted, Apply, BothTake, Finishing, InstancesOf, SucceededOf, Resources.Plus;
    var m := BothHolding(db, instances, request, subscription, id, id');
    BothFinish(db, instances, request, subscription, id, id', i, i', row);
    BothCommitted(db, request, id, id');
    BothFinished(m, request.operation, i, i', row);
    end := Finished(Finished(m, 0, i, row), 1, i', row);
  }
}
