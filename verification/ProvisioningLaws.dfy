/** What a provision execution leaves behind, in the columns of its rows alone, and what the reconciler makes of it. */
module ProvisioningLaws {
  import opened Options
  import opened Identifiers
  import opened Resources
  import opened Allocator
  import opened Instances
  import AllocatorLaws
  import Scheduler
  import P = Provisioning
  import Reconciler
  import Operations

  /** The tables have met a reservation of the operation for the plan on the node, under a fresh id; it expires fifteen
      minutes after it was made. */
  ghost predicate Reserved(
    met: Database, db: Database, id: ReservationId, node: NodeId, operation: OperationId, plan: Resources, now: Time) {
    && AllocatorLaws.Takes(met, node, plan) && id !in met.reservations
    && AllocatorLaws.OnlyOne(met, db, node, id) && id in db.reservations
    && db.reservations[id].node == node && db.reservations[id].operation == operation
    && db.reservations[id].amount == plan && db.reservations[id].expiresAt == now + 900
  }

  /** An execution succeeds exactly when the plan is found, a node is selected, a provider is found, it creates the
      instance and verifies it, and the row can be stored. */
  lemma {:induction false} SucceedsExactlyWhen(
    r: P.Records, operation: OperationId, subscription: SubscriptionId, answers: P.Answers)
    requires answers.Valid()
    ensures P.Executed(r, operation, subscription, answers).1 <==>
      && answers.plan.Some?
      && Scheduler.Schedule(r.db, answers.listing, Scheduler.Requirements(operation, answers.plan.value, 900),
        answers.world).1.Selected?
      && answers.provider.Some? && answers.created && answers.verified.Some?
      && answers.persisted && answers.instance !in r.instances
  {
  }

  /** The new row of a successful execution, column by column: its subscription, the node on which its reservation is,
      the provider that was asked and the id that it answered, the plan's resources, meant to run, in the state that was
      verified, and there; the subscription is active, unless that write is lost. Every other row is as it was. */
  lemma {:induction false} RecordsWhatWasAnswered(
    r: P.Records, operation: OperationId, subscription: SubscriptionId, answers: P.Answers)
    returns (met: Database, id: ReservationId, node: NodeId)
    requires answers.Valid() && P.Executed(r, operation, subscription, answers).1
    ensures var r' := P.Executed(r, operation, subscription, answers).0;
      && Reserved(met, r'.db, id, node, operation, answers.plan.value, answers.world.now)
      && r'.db.reservations[id].status == (if answers.commitOk then Committed else Allocator.Reserved)
      && answers.instance in r'.instances && r'.instances.Keys == r.instances.Keys + {answers.instance}
      && (forall i :: i in r.instances ==> r'.instances[i] == r.instances[i])
      && var row := r'.instances[answers.instance];
      && row.subscription == subscription && row.node == Some(node)
      && row.provider == answers.provider && row.providerInstance == Some(answers.providerInstance)
      && row.spec.cpu == answers.plan.value.cpu && row.spec.memory == answers.plan.value.memory
      && row.spec.disk == answers.plan.value.disk
      && row.desired == "running" && Some(row.observed) == answers.verified && !row.deleted
      && r'.subscriptions.Keys == r.subscriptions.Keys
      && forall s :: s in r.subscriptions ==>
        r'.subscriptions[s] == (if s == subscription && answers.activateOk then "active" else r.subscriptions[s])
  {
    SucceedsExactlyWhen(r, operation, subscription, answers);
    hide Scheduler.Schedule, Scheduler.Met, Admit, Admitted, Scheduler.Candidates, Scheduler.Ranked;
    var k;
    k, node := P.SelectionReserves(r.db, operation, answers.plan.value, answers.listing, answers.world);
    met, id := Scheduler.Met(r.db, answers.world, k), answers.world.ids[k];
    ReservationStays(met, id, Scheduler.Asked(P.Needs(operation, answers.plan.value), node, answers.world.now),
      answers.commitOk);
  }

  lemma {:induction false} ReservationStays(met: Database, id: ReservationId, request: Request, commits: bool)
    requires Admit(met, id, request) == Done
    ensures var held := Admitted(met, id, request);
      var after := if commits then Apply(held, Commit(id)).0 else held;
      && AllocatorLaws.Takes(met, request.node, request.amount) && id !in met.reservations
      && AllocatorLaws.OnlyOne(met, after, request.node, id) && id in after.reservations
      && after.reservations[id] == Reservation(request.node, request.operation, request.amount,
        if commits then Committed else Allocator.Reserved, request.expiresAt)
  {
  }

  /** The provider that the reconciler asks about an instance of a provider, which may be the one set up by default. */
  function ProviderOf(w: Reconciler.World, provider: ProviderId): Reconciler.Provider
    requires provider in w.providers.known || w.providers.default.Some?
  {
    if provider in w.providers.known then w.providers.known[provider] else w.providers.default.value
  }

  /** The next run of the reconciler, whatever the rest of the cluster, asks that provider about the instance under the
      id that it has answered, and takes over its answer. */
  lemma {:induction false} NextRunAsksItsProvider(
    r: P.Records, operation: OperationId, subscription: SubscriptionId, answers: P.Answers, c: Reconciler.Cluster,
    w: Reconciler.World) returns (node: NodeId)
    requires answers.Valid() && P.Executed(r, operation, subscription, answers).1 && answers.provider.Some?
    requires c.instances == P.Executed(r, operation, subscription, answers).0.instances
    requires answers.provider.value in w.providers.known || w.providers.default.Some?
    requires answers.providerInstance != ""
    ensures answers.instance in c.instances && c.instances[answers.instance].node == Some(node)
    ensures answers.instance in Reconciler.Reconciled(c, w).instances
    ensures Some(Reconciler.Reconciled(c, w).instances[answers.instance].observed) ==
      var answer := ProviderOf(w, answers.provider.value)(answers.providerInstance, answers.instance, Some(node));
      if answer.Some? then answer else Some("unknown")
  {
    hide P.Executed;
    var met, id;
    met, id, node := RecordsWhatWasAnswered(r, operation, subscription, answers);
    Reconciler.RunLeavesIntentAlone(c, w);
    Reconciler.SilentNodesGoOffline(c, w);
    hide Reconciler.Reconciled;
    var row := c.instances[answers.instance];
    assert w.providers.Resolve(row.provider) == Some(ProviderOf(w, answers.provider.value));
  }
}
