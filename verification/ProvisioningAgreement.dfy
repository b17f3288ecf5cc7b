/** The two views of the provision workflow agree: one execution with nobody else at work is one run of its steps. */
module ProvisioningAgreement {
  import opened Options
  import opened Identifiers
  import opened Resources
  import opened Allocator
  import opened Scheduler
  import opened Instances
  import P = Provisioning
  import R = ProvisioningRuns

  /** The steps of an execution from its reservation on. */
  function Rest(instances: Table, subscription: SubscriptionId, node: NodeId, answers: P.Answers): seq<R.Event>
    requires answers.plan.Some?
  {
    if P.Delivered(instances, answers) then
      [R.Record(0, answers.instance, P.NewInstance(subscription, node, answers.plan.value, answers)),
        R.CommitCall(0, answers.commitOk)]
    else [R.Refuse(0), R.ReleaseCall(0, answers.releaseOk)]
  }

  /** A run ends with the tables and the result of an execution. */
  ghost predicate Agrees(end: Option<R.Plant>, result: (P.Records, bool)) {
    && end.Some? && end.value.db == result.0.db && end.value.instances == result.0.instances
    && (result.1 <==> 0 in end.value.executions && end.value.executions[0].stage == R.Succeeded)
  }

  lemma {:induction false} NothingTakenAgrees(
    r: P.Records, operation: OperationId, subscription: SubscriptionId, plan: Resources)
    requires plan.NonNegative()
    ensures Agrees(R.Run(R.Initial(r.db, r.instances), [R.Begin(0, operation, subscription, plan), R.FindNoNode(0)]),
      (r, false))
  {
    var p, events := R.Initial(r.db, r.instances), [R.Begin(0, operation, subscription, plan), R.FindNoNode(0)];
    R.RunExtends(p, [], events[0], p);
    var m := R.Step(p, events[0]);
    R.RunExtends(p, [] + [events[0]], events[1], m);
    assert [] + [events[0]] + [events[1]] == events;
  }

  lemma {:induction false} TakenAgrees(
    r: P.Records, operation: OperationId, subscription: SubscriptionId, id: ReservationId, node: NodeId,
    answers: P.Answers)
    requires answers.Valid() && answers.plan.Some?
    requires var request := Asked(P.Needs(operation, answers.plan.value), node, answers.world.now);
      && Admit(r.db, id, request) == Done
      && Schedule(r.db, answers.listing, P.Needs(operation, answers.plan.value), answers.world)
        == (Admitted(r.db, id, request), Selected(id, node))
    ensures var request := Asked(P.Needs(operation, answers.plan.value), node, answers.world.now);
      Agrees(R.Run(R.Initial(r.db, r.instances),
        R.Taking(request, subscription, id) + Rest(r.instances, subscription, node, answers)),
             P.Executed(r, operation, subscription, answers))
  {
    hide R.Run, Schedule;
    var request := Asked(P.Needs(operation, answers.plan.value), node, answers.world.now);
    var p, taking, rest := R.Initial(r.db, r.instances), R.Taking(request, subscription, id), Rest(r.instances,
      subscription, node, answers);
    R.TakingHolds(r.db, r.instances, request, subscription, id);
    var m := R.Run(p, taking).value;
    assert m.db.reservations[id] == NewReservation(request);
    R.RunExtends(p, taking, rest[0], m);
    R.RunExtends(p, taking + [rest[0]], rest[1], R.Step(m, rest[0]));
    assert taking + [rest[0]] + [rest[1]] == taking + rest;
  }

  /** With nobody else at work, whatever the lookups, the provider, the insert and the calls to release or commit
      answer, the steps of one execution lead to the tables and the result of the execution taken as a whole. */
  lemma {:induction false} ExecutionIsARun(
    r: P.Records, operation: OperationId, subscription: SubscriptionId, answers: P.Answers)
    returns (events: seq<R.Event>)
    requires answers.Valid() && P.Quiet(answers.world)
    ensures Agrees(R.Run(R.Initial(r.db, r.instances), events), P.Executed(r, operation, subscription, answers))
  {
    hide R.Run, Schedule, Admit, Admitted, Candidates, Ranked;
    if answers.plan.None? {
      events := [];
      NoStepAgrees(r);
    } else {
      var plan, needs := answers.plan.value, P.Needs(operation, answers.plan.value);
      if Schedule(r.db, answers.listing, needs, answers.world).1.Selected? {
        var k, node := P.SelectionReserves(r.db, operation, plan, answers.listing, answers.world);
        P.AloneChangesNothing(r.db, answers.world, k + 1);
        var id := answers.world.ids[k];
        events := R.Taking(Asked(needs, node, answers.world.now), subscription, id)
          + Rest(r.instances, subscription, node, answers);
        TakenAgrees(r, operation, subscription, id, node, answers);
      } else {
        var k := ErrorsLeaveNothing(r.db, answers.listing, needs, answers.world);
        P.AloneChangesNothing(r.db, answers.world, k);
        events := [R.Begin(0, operation, subscription, plan), R.FindNoNode(0)];
        NothingTakenAgrees(r, operation, subscription, plan);
      }
    }
  }

  lemma {:induction false} NoStepAgrees(r: P.Records)
    ensures Agrees(R.Run(R.Initial(r.db, r.instances), []), (r, false))
  {
  }
}
