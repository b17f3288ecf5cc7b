/** The provision workflow, one execution after another: it schedules and reserves, asks the provider for an instance,
    records it, and commits the reservation, or gives the reservation back wherever it fails. */
module Provisioning {
  import opened Options
  import opened Identifiers
  import opened Resources
  import opened Allocator
  import opened Scheduler
  import opened Instances

  /** What one execution meets: the answers of the repositories and of the provider, and whether its calls to release,
      to commit and to activate come through. */
  datatype Answers = Answers(
    plan: Option<Resources>,
    listing: seq<Listed>,
    world: World,
    provider: Option<ProviderId>,
    created: bool,
    providerInstance: string,
    verified: Option<string>,
    instance: InstanceId,
    persisted: bool,
    releaseOk: bool,
    commitOk: bool,
    activateOk: bool
  ) {
    predicate Valid() {
      plan.Some? ==>
        plan.value.NonNegative() && Plausible(listing, plan.value) && Covers(world,
          Ranked(Candidates(listing, plan.value)))
    }
  }

  datatype Records = Records(db: Database, instances: Table, subscriptions: map<SubscriptionId, string>)

  const RESERVATION_TTL := 15 * 60

  function Needs(operation: OperationId, plan: Resources): Requirements {
    Requirements(operation, plan, RESERVATION_TTL)
  }

  /** The provider, the verification and the instance record have all come through. */
  predicate Delivered(instances: Table, answers: Answers) {
    && answers.provider.Some? && answers.created && answers.verified.Some?
    && answers.persisted && answers.instance !in instances
  }

  function NewInstance(subscription: SubscriptionId, node: NodeId, plan: Resources, answers: Answers): Instance
    requires answers.provider.Some? && answers.verified.Some?
  {
    Instance(subscription, Some(node), answers.provider, Some(answers.providerInstance), plan, "running",
      answers.verified.value, false)
  }

  /** The records and the result after one execution. */
  ghost function Executed(
    r: Records, operation: OperationId, subscription: SubscriptionId, answers: Answers): (Records, bool)
    requires answers.Valid()
  {
    if answers.plan.None? then (r, false)
    else
      var (db, answer) := Schedule(r.db, answers.listing, Needs(operation, answers.plan.value), answers.world);
      match answer
      case NoSchedulableNode => (r.(db := db), false)
      case Failed(_) => (r.(db := db), false)
      case Selected(id, node) =>
        if !Delivered(r.instances, answers) then
          (r.(db := if answers.releaseOk then Apply(db, Release(id)).0 else db), false)
        else
          (Records(
             if answers.commitOk then Apply(db, Commit(id)).0 else db,
             r.instances[answers.instance := NewInstance(subscription, node, answers.plan.value, answers)],
             if answers.activateOk then Activated(r.subscriptions, subscription) else r.subscriptions), true)
  }

  function Activated(subscriptions: map<SubscriptionId, string>, id: SubscriptionId): map<SubscriptionId, string> {
    if id in subscriptions then subscriptions[id := "active"] else subscriptions
  }

  /** A selection has met the database as others left it, and has added one reservation to it. */
  lemma {:induction false} SelectionReserves(
    db: Database, operation: OperationId, plan: Resources, listing: seq<Listed>, world: World)
    returns (k: nat, node: NodeId)
    requires Plausible(listing, plan) && Covers(world, Ranked(Candidates(listing, plan)))
    requires Schedule(db, listing, Needs(operation, plan), world).1.Selected?
    ensures k < |world.others| && k < |world.ids|
    ensures var request := Asked(Needs(operation, plan), node, world.now);
      && Admit(Met(db, world, k), world.ids[k], request) == Done
      && Schedule(db, listing, Needs(operation, plan), world)
        == (Admitted(Met(db, world, k), world.ids[k], request), Selected(world.ids[k], node))
  {
    hide Schedule, Met, Admit, Admitted, Candidates, Ranked, Qualifies;
    var chosen;
    chosen, k := SelectsBestReservable(db, listing, Needs(operation, plan), world);
    node := chosen.id;
  }

  /** What is left when a reservation was taken and given back: others' work and one released row. */
  ghost predicate LeavesOnly(after: Database, alone: Database, operation: OperationId, taken: set<ReservationId>) {
    && after.nodes == alone.nodes
    && after.reservations.Keys == alone.reservations.Keys + taken && alone.reservations.Keys !! taken
    && (forall id :: id in alone.reservations ==> after.reservations[id] == alone.reservations[id])
    && (forall id :: id in taken ==>
      after.reservations[id].operation == operation && after.reservations[id].status == Released)
  }

  lemma {:induction false} GivenBackLeaves(met: Database, id: ReservationId, request: Request)
    requires Admit(met, id, request) == Done
    ensures LeavesOnly(Apply(Admitted(met, id, request), Release(id)).0, met, request.operation, {id})
  {
    ReserveThenRelease(met, id, request);
  }

  lemma {:induction false} NothingTaken(db: Database, operation: OperationId)
    ensures LeavesOnly(db, db, operation, {})
  {
  }

  /** How a failed execution ends. */
  lemma {:induction false} FailureEnds(
    r: Records, operation: OperationId, subscription: SubscriptionId, answers: Answers)
    requires answers.Valid() && answers.releaseOk && !Executed(r, operation, subscription, answers).1
    ensures Executed(r, operation, subscription, answers).0 == r.(db :=
      if answers.plan.None? then r.db
      else
        var (db, answer) := Schedule(r.db, answers.listing, Needs(operation, answers.plan.value), answers.world);
        if answer.Selected? then Apply(db, Release(answer.reservation)).0 else db)
  {
  }

  /** A failed execution whose release comes through leaves the counters of every node as others alone leave them, no
      instance, and at most one reservation, which is released. */
  lemma {:induction false} FailureIsCompensated(
    r: Records, operation: OperationId, subscription: SubscriptionId, answers: Answers)
    returns (k: nat, taken: set<ReservationId>)
    requires answers.Valid() && answers.releaseOk
    requires !Executed(r, operation, subscription, answers).1
    ensures k <= |answers.world.others| && |taken| <= 1
    ensures var r' := Executed(r, operation, subscription, answers).0;
      && r'.instances == r.instances && r'.subscriptions == r.subscriptions
      && LeavesOnly(r'.db, OthersAlone(r.db, answers.world, k), operation, taken)
  {
    FailureEnds(r, operation, subscription, answers);
    hide Executed, Schedule, Apply, LeavesOnly, Candidates, Ranked;
    if answers.plan.None? {
      k, taken := 0, {};
      NothingTaken(r.db, operation);
    } else if Schedule(r.db, answers.listing, Needs(operation, answers.plan.value), answers.world).1.Selected? {
      k, taken := TakenIsGivenBack(r.db, operation, answers.plan.value, answers.listing, answers.world);
    } else {
      k := ErrorsLeaveNothing(r.db, answers.listing, Needs(operation, answers.plan.value), answers.world);
      taken := {};
      NothingTaken(OthersAlone(r.db, answers.world, k), operation);
    }
  }

  lemma {:induction false} TakenIsGivenBack(
    db: Database, operation: OperationId, plan: Resources, listing: seq<Listed>, world: World)
    returns (k: nat, taken: set<ReservationId>)
    requires Plausible(listing, plan) && Covers(world, Ranked(Candidates(listing, plan)))
    requires Schedule(db, listing, Needs(operation, plan), world).1.Selected?
    ensures k <= |world.others| && |taken| <= 1
    ensures var (after, answer) := Schedule(db, listing, Needs(operation, plan), world);
      LeavesOnly(Apply(after, Release(answer.reservation)).0, OthersAlone(db, world, k), operation, taken)
  {
    hide Schedule, Met, Admit, Admitted, Apply, LeavesOnly, Candidates, Ranked;
    var j, node := SelectionReserves(db, operation, plan, listing, world);
    k, taken := j + 1, {world.ids[j]};
    GivenBackLeaves(Met(db, world, j), world.ids[j], Asked(Needs(operation, plan), node, world.now));
  }

  /** One plan more is allocated on a node that had room for it, for one new committed reservation, ... */
  ghost predicate AddsPlan(
    after: Database, alone: Database, operation: OperationId, plan: Resources, node: NodeId, id: ReservationId) {
    && node in alone.nodes && plan.AtMost(alone.nodes[node].Available())
    && after.nodes == alone.nodes[node := alone.nodes[node].(alloc := alone.nodes[node].alloc.Plus(plan))]
    && id !in alone.reservations && after.reservations.Keys == alone.reservations.Keys + {id}
    && (forall other :: other in alone.reservations ==> after.reservations[other] == alone.reservations[other])
    && after.reservations[id].operation == operation && after.reservations[id].status == Committed
  }

  /** ... and there is one new instance with that plan on that node. */
  ghost predicate AddsInstance(after: Table, before: Table, i: InstanceId, plan: Resources, node: NodeId) {
    && i !in before && after.Keys == before.Keys + {i}
    && (forall other :: other in before ==> after[other] == before[other])
    && after[i].node == Some(node) && after[i].spec == plan
  }

  lemma {:induction false} CommittedAddsPlan(met: Database, id: ReservationId, request: Request)
    requires Admit(met, id, request) == Done
    ensures AddsPlan(Apply(Admitted(met, id, request), Commit(id)).0, met, request.operation, request.amount,
      request.node, id)
  {
  }

  /** How a successful execution ends. */
  lemma {:induction false} SuccessEnds(
    r: Records, operation: OperationId, subscription: SubscriptionId, answers: Answers)
    requires answers.Valid() && answers.commitOk && Executed(r, operation, subscription, answers).1
    ensures answers.plan.Some?
    ensures Schedule(r.db, answers.listing, Needs(operation, answers.plan.value), answers.world).1.Selected?
    ensures Executed(r, operation, subscription, answers).0.db ==
      var (db, answer) := Schedule(r.db, answers.listing, Needs(operation, answers.plan.value), answers.world);
      Apply(db, Commit(answer.reservation)).0
    ensures AddsInstance(Executed(r, operation, subscription, answers).0.instances, r.instances, answers.instance,
      answers.plan.value, Schedule(r.db, answers.listing, Needs(operation, answers.plan.value), answers.world).1.node)
    ensures Executed(r, operation, subscription, answers).0.subscriptions
      == if answers.activateOk then Activated(r.subscriptions, subscription) else r.subscriptions
  {
  }

  /** A successful execution whose commit comes through adds exactly one plan to the allocated counters of exactly one
      node, and one instance with that plan on that node, to what others alone leave. Its subscription is active unless
      that last write was lost. */
  lemma {:induction false} SuccessAddsOnePlan(
    r: Records, operation: OperationId, subscription: SubscriptionId, answers: Answers)
    returns (k: nat, node: NodeId, id: ReservationId)
    requires answers.Valid() && answers.commitOk
    requires Executed(r, operation, subscription, answers).1
    ensures k <= |answers.world.others| && answers.plan.Some?
    ensures var r' := Executed(r, operation, subscription, answers).0;
      && AddsPlan(r'.db, OthersAlone(r.db, answers.world, k), operation, answers.plan.value, node, id)
      && AddsInstance(r'.instances, r.instances, answers.instance, answers.plan.value, node)
      && (answers.activateOk && subscription in r.subscriptions ==>
        r'.subscriptions == r.subscriptions[subscription := "active"])
      && (!answers.activateOk ==> r'.subscriptions == r.subscriptions)
  {
    SuccessEnds(r, operation, subscription, answers);
    hide Executed, Schedule, Met, Admit, Admitted, Apply, AddsPlan, AddsInstance, Candidates, Ranked;
    var j;
    j, node := SelectionReserves(r.db, operation, answers.plan.value, answers.listing, answers.world);
    k, id := j + 1, answers.world.ids[j];
    CommittedAddsPlan(Met(r.db, answers.world, j), id,
      Asked(Needs(operation, answers.plan.value), node, answers.world.now));
  }

  // ---- One operation, executed as often as the worker retries it ----

  /** The records after a number of executions of one operation, and how many of them succeeded. */
  ghost function Retried(
    r: Records, operation: OperationId, subscription: SubscriptionId, attempts: seq<Answers>): (Records, nat)
    requires forall i :: 0 <= i < |attempts| ==> attempts[i].Valid()
  {
    if attempts == [] then (r, 0)
    else
      var (before, n) := Retried(r, operation, subscription, attempts[..|attempts| - 1]);
      var (after, ok) := Executed(before, operation, subscription, attempts[|attempts| - 1]);
      (after, if ok then n + 1 else n)
  }

  /** Nobody else is at work. */
  ghost predicate Quiet(world: World) {
    forall i :: 0 <= i < |world.others| ==> world.others[i] == []
  }

  /** Nobody else is at work, and every call to release or to commit comes through. */
  ghost predicate Undisturbed(answers: Answers) {
    answers.releaseOk && answers.commitOk && Quiet(answers.world)
  }

  lemma {:induction false} AloneChangesNothing(db: Database, world: World, k: nat)
    requires Quiet(world) && k <= |world.others|
    ensures OthersAlone(db, world, k) == db
  {
    if k > 0 {
      AloneChangesNothing(db, world, k - 1);
    }
  }

  ghost predicate NoneReserved(db: Database, operation: OperationId) {
    forall id :: id in db.reservations && db.reservations[id].operation == operation ==>
      db.reservations[id].status != Reserved
  }

  /** What a placed plan adds to a table of nodes. */
  function Loaded(nodes: map<NodeId, Node>, placed: seq<(NodeId, Resources)>): map<NodeId, Node> {
    if placed == [] then nodes
    else
      var (before, (node, plan)) := (Loaded(nodes, placed[..|placed| - 1]), placed[|placed| - 1]);
      if node in before then before[node := before[node].(alloc := before[node].alloc.Plus(plan))] else before
  }

  lemma {:induction false} LoadedOne(nodes: map<NodeId, Node>, node: NodeId, plan: Resources)
    requires node in nodes
    ensures Loaded(nodes, [(node, plan)]) == nodes[node := nodes[node].(alloc := nodes[node].alloc.Plus(plan))]
    ensures Loaded(nodes, []) == nodes
  {
  }

  lemma {:induction false} SuccessPlaces(
    r: Records, operation: OperationId, subscription: SubscriptionId, answers: Answers)
    returns (node: NodeId)
    requires answers.Valid() && Undisturbed(answers) && NoneReserved(r.db, operation)
    requires Executed(r, operation, subscription, answers).1
    ensures var r' := Executed(r, operation, subscription, answers).0;
      && NoneReserved(r'.db, operation) && |r'.instances| == |r.instances| + 1
      && answers.plan.Some? && node in r.db.nodes && r'.db.nodes == Loaded(r.db.nodes, [(node, answers.plan.value)])
  {
    hide Answers.Valid, Executed, OthersAlone;
    var k, id;
    k, node, id := SuccessAddsOnePlan(r, operation, subscription, answers);
    AloneChangesNothing(r.db, answers.world, k);
    LoadedOne(r.db.nodes, node, answers.plan.value);
    hide Loaded;
    var r' := Executed(r, operation, subscription, answers).0;
    assert |r'.instances.Keys| == |r.instances.Keys| + 1;
  }

  lemma {:induction false} FailurePlacesNothing(
    r: Records, operation: OperationId, subscription: SubscriptionId, answers: Answers)
    requires answers.Valid() && Undisturbed(answers) && NoneReserved(r.db, operation)
    requires !Executed(r, operation, subscription, answers).1
    ensures var r' := Executed(r, operation, subscription, answers).0;
      NoneReserved(r'.db, operation) && r'.instances == r.instances && r'.db.nodes == r.db.nodes
  {
    hide Answers.Valid, Executed, OthersAlone;
    var k, taken := FailureIsCompensated(r, operation, subscription, answers);
    AloneChangesNothing(r.db, answers.world, k);
  }

  /** One more execution adds one placed plan when it succeeds, and none when it fails. */
  lemma {:induction false} ExecutionPlaces(
    r: Records, operation: OperationId, subscription: SubscriptionId, answers: Answers)
    returns (placed: seq<(NodeId, Resources)>)
    requires answers.Valid() && Undisturbed(answers) && NoneReserved(r.db, operation)
    ensures var (r', ok) := Executed(r, operation, subscription, answers);
      && NoneReserved(r'.db, operation)
      && (if ok then |placed| == 1 && answers.plan == Some(placed[0].1) && placed[0].0 in r.db.nodes else placed == [])
      && r'.db.nodes == Loaded(r.db.nodes, placed)
      && |r'.instances| == |r.instances| + |placed|
  {
    assert Loaded(r.db.nodes, []) == r.db.nodes;
    hide Executed, NoneReserved, Loaded;
    if Executed(r, operation, subscription, answers).1 {
      var node := SuccessPlaces(r, operation, subscription, answers);
      placed := [(node, answers.plan.value)];
    } else {
      FailurePlacesNothing(r, operation, subscription, answers);
      placed := [];
    }
  }

  lemma {:induction false} LoadedExtends(
    nodes: map<NodeId, Node>, placed: seq<(NodeId, Resources)>, more: seq<(NodeId, Resources)>)
    requires |more| <= 1
    ensures Loaded(Loaded(nodes, placed), more) == Loaded(nodes, placed + more)
  {
    if more == [] {
      assert placed + more == placed;
    } else {
      assert (placed + more)[..|placed|] == placed;
      assert more[..0] == [];
    }
  }

  ghost predicate PlanOfOne(attempts: seq<Answers>, plan: Resources) {
    exists i :: 0 <= i < |attempts| && attempts[i].plan == Some(plan)
  }

  lemma {:induction false} PlansAccumulate(
    attempts: seq<Answers>, last: Answers, placed: seq<(NodeId, Resources)>, more: seq<(NodeId, Resources)>)
    requires forall p :: p in placed ==> PlanOfOne(attempts, p.1)
    requires forall p :: p in more ==> last.plan == Some(p.1)
    ensures forall p :: p in placed + more ==> PlanOfOne(attempts + [last], p.1)
  {
    forall p | p in placed + more ensures PlanOfOne(attempts + [last], p.1) {
      if p in placed {
        var i :| 0 <= i < |attempts| && attempts[i].plan == Some(p.1);
        assert (attempts + [last])[i].plan == Some(p.1);
      } else {
        assert (attempts + [last])[|attempts|].plan == Some(p.1);
      }
    }
  }

  ghost predicate Compensated(
    before: Records, end: (Records, nat), operation: OperationId, placed: seq<(NodeId, Resources)>) {
    && |placed| == end.1
    && end.0.db.nodes == Loaded(before.db.nodes, placed)
    && |end.0.instances| == |before.instances| + end.1
    && NoneReserved(end.0.db, operation)
  }

  /** However the outside calls turn out over any number of retries: the counters end up with exactly one plan more for
      each execution that succeeded and nothing for those that failed, there is one new instance for each, and none of
      the operation's reservations stays reserved. */
  lemma {:induction false} RetriesAreCompensated(
    r: Records, operation: OperationId, subscription: SubscriptionId, attempts: seq<Answers>)
    returns (placed: seq<(NodeId, Resources)>)
    requires forall i :: 0 <= i < |attempts| ==> attempts[i].Valid() && Undisturbed(attempts[i])
    requires NoneReserved(r.db, operation)
    ensures Compensated(r, Retried(r, operation, subscription, attempts), operation, placed)
    ensures forall p :: p in placed ==> PlanOfOne(attempts, p.1)
  {
    assert Loaded(r.db.nodes, []) == r.db.nodes;
    hide Executed, Answers.Valid, Undisturbed, Loaded, NoneReserved, PlanOfOne;
    placed := [];
    if attempts != [] {
      var init, last := attempts[..|attempts| - 1], attempts[|attempts| - 1];
      assert init + [last] == attempts;
      placed := RetriesAreCompensated(r, operation, subscription, init);
      var more := ExecutionPlaces(Retried(r, operation, subscription, init).0, operation, subscription, last);
      LoadedExtends(r.db.nodes, placed, more);
      PlansAccumulate(init, last, placed, more);
      placed := placed + more;
    }
  }

  // ---- The workflow ----

  class ProvisionWorkflow {
    const store: Store
    var instances: Table
    var subscriptions: map<SubscriptionId, string>

    ghost function Snapshot(): Records
      reads this, store
    {
      Records(store.Snapshot(), instances, subscriptions)
    }

    constructor (store: Store, instances: Table, subscriptions: map<SubscriptionId, string>)
      ensures this.store == store && this.instances == instances && this.subscriptions == subscriptions
    {
      this.store, this.instances, this.subscriptions := store, instances, subscriptions;
    }

    method Execute(operation: OperationId, subscription: SubscriptionId, answers: Answers) returns (ok: bool)
      requires answers.Valid()
      modifies this, store
      ensures (Snapshot(), ok) == Executed(old(Snapshot()), operation, subscription, answers)
    {
      if answers.plan.None? {
        return false;
      }
      var plan := answers.plan.value;
      var answer := SelectAndReserve(store, answers.listing, Needs(operation, plan), answers.world);
      if !answer.Selected? {
        return false;
      }
      var reservation, node := answer.reservation, answer.node;
      if answers.provider.None? {
        GiveBack(reservation, answers);
        return false;
      }
      if !answers.created {
        GiveBack(reservation, answers);
        return false;
      }
      if answers.verified.None? {
        GiveBack(reservation, answers);
        return false;
      }
      if !answers.persisted || answers.instance in instances {
        GiveBack(reservation, answers);
        return false;
      }
      instances := instances[answers.instance := Instance(
        subscription, Some(node), answers.provider, Some(answers.providerInstance), plan,
        "running", answers.verified.value, false)];
      if answers.commitOk {
        var outcome := store.CommitReservation(reservation); // an error is logged, and the execution goes on
      }
      if answers.activateOk && subscription in subscriptions { // an error is dropped
        subscriptions := subscriptions[subscription := "active"];
      }
      return true;
    }

    /** Releases the reservation of a failed execution; when the call fails, its error is dropped. */
    method GiveBack(reservation: ReservationId, answers: Answers)
      modifies store
      ensures store.Snapshot() == if answers.releaseOk then Apply(old(store.Snapshot()), Release(reservation)).0
        else old(store.Snapshot())
    {
      if answers.releaseOk {
        var outcome := store.ReleaseReservation(reservation);
      }
    }
  }
}
