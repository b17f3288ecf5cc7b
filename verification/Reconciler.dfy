/** The reconciler: it releases expired reservations, recovers stuck operations, takes silent nodes offline and brings
    observed states in line with what providers answer. */
module Reconciler {
  import opened Options
  import opened Identifiers
  import opened Resources
  import opened Totals
  import opened Allocator
  import opened Instances
  import Operations
  import Retries

  /** A provider's answer for an instance, or None when it cannot be reached. */
  type Provider = (string, InstanceId, Option<NodeId>) -> Option<string>

  datatype Providers = Providers(known: map<ProviderId, Provider>, default: Option<Provider>) {
    function Resolve(id: Option<ProviderId>): Option<Provider> {
      if id.Some? && id.value in known then Some(known[id.value]) else default
    }
  }

  /** What one run depends on besides the tables: the clock, the limits it was set up with and the providers. */
  datatype World = World(now: Time, stuckTimeout: int, nodeTtl: int, providers: Providers) {
    /** An operation last updated before this is stuck; the timeout is three minutes unless another one is set. */
    function StuckThreshold(): Time {
      now - if stuckTimeout <= 0 then 3 * 60 else stuckTimeout
    }

    /** How long a node may be silent: one minute unless another limit is set. */
    function NodeTtl(): int {
      if nodeTtl <= 0 then 60 else nodeTtl
    }
  }

  datatype Cluster = Cluster(db: Database, operations: Operations.Table, instances: Table)

  // ---- Expired reservations ----

  predicate Expired(row: Reservation, now: Time) {
    row.status == Reserved && row.expiresAt < now
  }

  function ShareIn(ids: set<ReservationId>, id: ReservationId, row: Reservation, node: NodeId, d: Dimension): int {
    if id in ids && row.node == node then row.amount.Of(d) else 0
  }

  function In(ids: set<ReservationId>, node: NodeId, d: Dimension): Weight<ReservationId, Reservation> {
    (id: ReservationId, row: Reservation) => ShareIn(ids, id, row, node, d)
  }

  /** What the given rows hold of a node. */
  ghost function AmountIn(rows: map<ReservationId, Reservation>, ids: set<ReservationId>, node: NodeId): Resources {
    Resources(Total(rows, In(ids, node, Cpu)), Total(rows, In(ids, node, Memory)), Total(rows, In(ids, node, Disk)))
  }

  /** The database once all the given rows have been released, in whatever order. */
  ghost function Releasing(db: Database, ids: set<ReservationId>): Database {
    Database(
      map node | node in db.nodes :: db.nodes[node].(reserved := db.nodes[node].reserved.Minus(AmountIn(db.reservations,
        ids, node))),
      map id | id in db.reservations :: if id in ids then db.reservations[id].(status := Released)
        else db.reservations[id])
  }

  ghost function ExpiredIn(db: Database, now: Time): set<ReservationId> {
    set id | id in db.reservations && Expired(db.reservations[id], now)
  }

  lemma {:induction false} AmountGrows(
    rows: map<ReservationId, Reservation>, ids: set<ReservationId>, id: ReservationId, node: NodeId, d: Dimension)
    requires id in rows && id !in ids
    ensures Total(rows, In(ids + {id}, node, d))
      == Total(rows, In(ids, node, d)) + (if rows[id].node == node then rows[id].amount.Of(d) else 0)
  {
    TotalChange<ReservationId, Reservation>(rows, In(ids, node, d), rows, In(ids + {id}, node, d), id);
  }

  lemma {:induction false} ReleaseOneMore(db: Database, ids: set<ReservationId>, id: ReservationId)
    requires id in db.reservations && id !in ids && db.reservations[id].status == Reserved
    ensures Releasing(db, ids + {id}) == Apply(Releasing(db, ids), Release(id)).0
  {
    var before, after := Releasing(db, ids), Releasing(db, ids + {id});
    var released := Apply(before, Release(id)).0;
    forall node | node in db.nodes ensures after.nodes[node] == released.nodes[node] {
      AmountGrows(db.reservations, ids, id, node, Cpu);
      AmountGrows(db.reservations, ids, id, node, Memory);
      AmountGrows(db.reservations, ids, id, node, Disk);
    }
    assert after.nodes == released.nodes;
    assert after.reservations == released.reservations;
  }

  lemma {:induction false} ReleaseNone(db: Database)
    ensures Releasing(db, {}) == db
  {
    forall node | node in db.nodes ensures AmountIn(db.reservations, {}, node) == ZERO {
      TotalOfZeros<ReservationId, Reservation>(db.reservations, In({}, node, Cpu));
      TotalOfZeros<ReservationId, Reservation>(db.reservations, In({}, node, Memory));
      TotalOfZeros<ReservationId, Reservation>(db.reservations, In({}, node, Disk));
    }
    assert Releasing(db, {}).nodes == db.nodes;
    assert Releasing(db, {}).reservations == db.reservations;
  }

  // ---- The other parts, row by row ----

  function Recovered(op: Operations.Operation, w: World): Operations.Operation {
    if Retries.Stuck(op, w.StuckThreshold()) then Retries.Decision(op, "WORKER_CRASHED_OR_TIMEOUT").Row(op, w.now)
      else op
  }

  function StuckIn(operations: Operations.Table, w: World): set<OperationId> {
    set id | id in operations && Retries.Stuck(operations[id], w.StuckThreshold())
  }

  predicate Silent(node: Node, w: World) {
    node.status == Active && node.lastSeen.Some? && w.now - node.lastSeen.value > w.NodeTtl()
  }

  function SilentNodes(nodes: map<NodeId, Node>, w: World): set<NodeId> {
    set id | id in nodes && Silent(nodes[id], w)
  }

  function TakenOffline(nodes: map<NodeId, Node>, ids: set<NodeId>): map<NodeId, Node> {
    map id | id in nodes :: if id in ids then nodes[id].(status := Offline) else nodes[id]
  }

  function MarkedUnknown(instance: Instance, ids: set<NodeId>): Instance {
    if !instance.deleted && instance.node.Some? && instance.node.value in ids then instance.(observed := UNKNOWN)
      else instance
  }

  datatype Reply = NotAsked | Unreachable | Reports(state: string)

  /** What the provider of an instance says about it. */
  function Asked(id: InstanceId, instance: Instance, w: World): Reply {
    if instance.deleted || instance.providerInstance.None? || instance.providerInstance.value == "" then NotAsked
    else
      match w.providers.Resolve(instance.provider)
      case None => NotAsked
      case Some(provider) =>
        match provider(instance.providerInstance.value, id, instance.node)
        case None => Unreachable
        case Some(state) => Reports(state)
  }

  function Observed(id: InstanceId, instance: Instance, w: World): Instance {
    match Asked(id, instance, w)
    case NotAsked => instance
    case Unreachable => instance.(observed := UNKNOWN)
    case Reports(state) => instance.(observed := state)
  }

  predicate Differs(id: InstanceId, instance: Instance, w: World) {
    Asked(id, instance, w).Reports? && Asked(id, instance, w).state != instance.observed
  }

  function Differing(instances: Table, w: World): set<InstanceId> {
    set id | id in instances && Differs(id, instances[id], w)
  }

  lemma {:induction false} OneFewer(differing: set<InstanceId>, rest: set<InstanceId>, id: InstanceId)
    requires id in rest
    ensures |differing - (rest - {id})| == |differing - rest| + (if id in differing then 1 else 0)
  {
    assert differing - (rest - {id}) == if id in differing then (differing - rest) + {id} else differing - rest;
  }

  function AllRecovered(operations: Operations.Table, w: World): Operations.Table {
    map id | id in operations :: Recovered(operations[id], w)
  }

  function AllMarked(instances: Table, ids: set<NodeId>): Table {
    map id | id in instances :: MarkedUnknown(instances[id], ids)
  }

  function AllObserved(instances: Table, w: World): Table {
    map id | id in instances :: Observed(id, instances[id], w)
  }

  lemma {:induction false} OneMoreSilent(nodes: map<NodeId, Node>, instances: Table, ids: set<NodeId>, id: NodeId)
    requires id in nodes && id !in ids
    ensures TakenOffline(nodes, ids + {id}) == NewStatus(Offline).Table(TakenOffline(nodes, ids), id)
    ensures AllMarked(instances, ids + {id}) == AllMarked(AllMarked(instances, ids), {id})
  {
  }

  lemma {:induction false} NoneSilent(nodes: map<NodeId, Node>, instances: Table)
    ensures TakenOffline(nodes, {}) == nodes && AllMarked(instances, {}) == instances
  {
  }

  /** The table when all but some of its instances have been brought in line. */
  function ObservedBut(instances: Table, rest: set<InstanceId>, w: World): Table {
    map id | id in instances :: if id in rest then instances[id] else Observed(id, instances[id], w)
  }

  lemma {:induction false} ObserveOneMore(instances: Table, rest: set<InstanceId>, id: InstanceId, w: World)
    requires id in rest && id in instances
    ensures ObservedBut(instances, rest - {id}, w)
      == ObservedBut(instances, rest, w)[id := Observed(id, instances[id], w)]
  {
  }

  lemma {:induction false} ObserveBounds(instances: Table, w: World)
    ensures ObservedBut(instances, instances.Keys, w) == instances
    ensures ObservedBut(instances, {}, w) == AllObserved(instances, w)
  {
  }

  /** The operations when all but some have been looked at. */
  function RecoveredBut(operations: Operations.Table, rest: set<OperationId>, w: World): Operations.Table {
    map id | id in operations :: if id in rest then operations[id] else Recovered(operations[id], w)
  }

  lemma {:induction false} RecoverOneMore(
    operations: Operations.Table, rest: set<OperationId>, id: OperationId, w: World)
    requires id in rest && id in operations
    ensures RecoveredBut(operations, rest - {id}, w)
      == RecoveredBut(operations, rest, w)[id := Recovered(operations[id], w)]
  {
  }

  lemma {:induction false} RecoverBounds(operations: Operations.Table, w: World)
    ensures RecoveredBut(operations, StuckIn(operations, w), w) == operations
    ensures RecoveredBut(operations, {}, w) == AllRecovered(operations, w)
  {
  }

  // ---- One run ----

  ghost function Reconciled(c: Cluster, w: World): Cluster {
    var released := Releasing(c.db, ExpiredIn(c.db, w.now));
    var silent := SilentNodes(released.nodes, w);
    Cluster(
      released.(nodes := TakenOffline(released.nodes, silent)),
      AllRecovered(c.operations, w),
      AllObserved(AllMarked(c.instances, silent), w))
  }

  /** Nothing is left for the reconciler to do. */
  ghost predicate Settled(c: Cluster, w: World) {
    && (forall id :: id in c.db.reservations ==> !Expired(c.db.reservations[id], w.now))
    && (forall id :: id in c.operations ==> !Retries.Stuck(c.operations[id], w.StuckThreshold()))
    && (forall id :: id in c.db.nodes ==> !Silent(c.db.nodes[id], w))
    && (forall id :: id in c.instances ==>
      match Asked(id, c.instances[id], w)
      case NotAsked => true
      case Unreachable => c.instances[id].observed == UNKNOWN
      case Reports(state) => c.instances[id].observed == state)
  }

  lemma {:induction false} RunSettles(c: Cluster, w: World)
    ensures Settled(Reconciled(c, w), w)
  {
  }

  lemma {:induction false} SettledStays(c: Cluster, w: World)
    requires Settled(c, w)
    ensures Reconciled(c, w) == c
  {
    assert ExpiredIn(c.db, w.now) == {};
    ReleaseNone(c.db);
    assert SilentNodes(c.db.nodes, w) == {};
    assert Reconciled(c, w).db.nodes == c.db.nodes;
    assert Reconciled(c, w).operations == c.operations;
    assert Reconciled(c, w).instances == c.instances;
  }

  /** A second run at the same instant, with the same answers from providers, changes nothing; and a run changes nothing
      exactly when nothing was left to do. */
  lemma {:induction false} RunConverges(c: Cluster, w: World)
    ensures Reconciled(Reconciled(c, w), w) == Reconciled(c, w)
    ensures Reconciled(c, w) == c <==> Settled(c, w)
  {
    RunSettles(c, w);
    SettledStays(Reconciled(c, w), w);
    if Settled(c, w) {
      SettledStays(c, w);
    }
  }

  /** What a run does to nodes and to the instances on them: nodes that have been silent go offline and no others; an
      instance on such a node ends up unknown, unless its provider is asked and still answers for it, which undoes the
      mark. */
  lemma {:induction false} SilentNodesGoOffline(c: Cluster, w: World)
    ensures forall id :: id in c.db.nodes ==>
      Reconciled(c, w).db.nodes[id].status == if Silent(c.db.nodes[id], w) then Offline else c.db.nodes[id].status
    ensures forall id :: id in c.instances && !c.instances[id].deleted ==>
      Reconciled(c, w).instances[id].observed ==
        match Asked(id, c.instances[id], w)
        case Reports(state) => state
        case Unreachable => UNKNOWN
        case NotAsked =>
          var node := c.instances[id].node;
          if node.Some? && node.value in c.db.nodes && Silent(c.db.nodes[node.value], w) then UNKNOWN
            else c.instances[id].observed
  {
    var released := Releasing(c.db, ExpiredIn(c.db, w.now));
    forall id | id in c.db.nodes ensures Silent(released.nodes[id], w) == Silent(c.db.nodes[id], w) {
    }
    hide Releasing, AmountIn;
    var silent := SilentNodes(released.nodes, w);
    forall id | id in c.instances
      ensures Asked(id, MarkedUnknown(c.instances[id], silent), w) == Asked(id, c.instances[id], w)
    {
    }
  }

  lemma {:induction false} LookingChangesOneColumn(id: InstanceId, instance: Instance, ids: set<NodeId>, w: World)
    ensures var after := Observed(id, MarkedUnknown(instance, ids), w);
      after == instance.(observed := after.observed)
  {
  }

  lemma {:induction false} RecoveryKeepsOrder(op: Operations.Operation, w: World)
    ensures Operations.SameOrder(op, Recovered(op, w))
  {
  }

  /** With nobody else at work, no run touches what an instance is meant to be or which provider instance it is, nor
      what an operation is for and how often it has been retried; and none of their rows goes away. */
  lemma {:induction false} RunLeavesIntentAlone(c: Cluster, w: World)
    ensures var c' := Reconciled(c, w);
      && c'.instances.Keys == c.instances.Keys && c'.operations.Keys == c.operations.Keys
      && (forall id :: id in c.instances ==>
        c'.instances[id] == c.instances[id].(observed := c'.instances[id].observed))
      && (forall id :: id in c.operations ==> Operations.SameOrder(c.operations[id], c'.operations[id]))
  {
    hide Releasing, SilentNodes, Recovered, Observed, MarkedUnknown, Operations.SameOrder;
    var c' := Reconciled(c, w);
    var silent := SilentNodes(Releasing(c.db, ExpiredIn(c.db, w.now)).nodes, w);
    forall id | id in c.instances ensures c'.instances[id] == c.instances[id].(observed := c'.instances[id].observed) {
      LookingChangesOneColumn(id, c.instances[id], silent, w);
    }
    forall id | id in c.operations ensures Operations.SameOrder(c.operations[id], c'.operations[id]) {
      RecoveryKeepsOrder(c.operations[id], w);
    }
  }

  /** No run touches a node's capacity or its allocated counters, or a reservation that is no longer reserved. */
  lemma {:induction false} RunLeavesAllocationsAlone(c: Cluster, w: World)
    ensures var c' := Reconciled(c, w);
      && c'.db.nodes.Keys == c.db.nodes.Keys && c'.db.reservations.Keys == c.db.reservations.Keys
      && (forall id :: id in c.db.nodes ==>
        c'.db.nodes[id] == c.db.nodes[id].(status := c'.db.nodes[id].status, reserved := c'.db.nodes[id].reserved))
      && (forall id :: id in c.db.reservations ==>
        c'.db.reservations[id] == c.db.reservations[id].(status := c'.db.reservations[id].status)
        && (c.db.reservations[id].status != Reserved ==> c'.db.reservations[id] == c.db.reservations[id]))
  {
  }

  lemma {:induction false} OneMoreKeepsInvariant(
    db: Database, base: map<NodeId, Resources>, ids: set<ReservationId>, id: ReservationId)
    requires Invariant(Releasing(db, ids), base)
    requires id in db.reservations && id !in ids && db.reservations[id].status == Reserved
    ensures Invariant(Releasing(db, ids + {id}), base)
  {
    ReleaseOneMore(db, ids, id);
    ApplyKeepsInvariant(Releasing(db, ids), base, Release(id));
  }

  lemma {:induction false} ReleasingKeepsInvariant(db: Database, base: map<NodeId, Resources>, ids: set<ReservationId>)
    requires Invariant(db, base)
    requires forall id :: id in ids ==> id in db.reservations && db.reservations[id].status == Reserved
    ensures Invariant(Releasing(db, ids), base)
  {
    if ids == {} {
      ReleaseNone(db);
    } else {
      var id :| id in ids;
      var rest := ids - {id};
      assert ids == rest + {id};
      ReleasingKeepsInvariant(db, base, rest);
      OneMoreKeepsInvariant(db, base, rest, id);
    }
  }

  lemma {:induction false} OfflineKeepsInvariant(db: Database, base: map<NodeId, Resources>, ids: set<NodeId>)
    requires Invariant(db, base)
    ensures Invariant(db.(nodes := TakenOffline(db.nodes, ids)), base)
  {
    var db' := db.(nodes := TakenOffline(db.nodes, ids));
    forall node, d | node in db'.nodes ensures ConservedAt(db', base, node, d) {
      assert ConservedAt(db, base, node, d);
    }
  }

  /** A run keeps the counters conserved and every node within its capacity. */
  lemma {:induction false} RunKeepsInvariant(c: Cluster, base: map<NodeId, Resources>, w: World)
    requires Invariant(c.db, base)
    ensures Invariant(Reconciled(c, w).db, base)
  {
    var ids := ExpiredIn(c.db, w.now);
    ReleasingKeepsInvariant(c.db, base, ids);
    var released := Releasing(c.db, ids);
    OfflineKeepsInvariant(released, base, SilentNodes(released.nodes, w));
  }

  // ---- The reconciler ----

  class Reconciler {
    const store: Store
    const service: Operations.Service
    var instances: Table

    ghost function Snapshot(): Cluster
      reads this, store, service
    {
      Cluster(store.Snapshot(), service.operations, instances)
    }

    constructor (store: Store, service: Operations.Service, instances: Table)
      ensures this.store == store && this.service == service && this.instances == instances
    {
      this.store, this.service, this.instances := store, service, instances;
    }

    method ReconcileExpiredReservations(now: Time) returns (released: nat)
      modifies store
      ensures store.Snapshot() == Releasing(old(store.Snapshot()), ExpiredIn(old(store.Snapshot()), now))
      ensures released == |ExpiredIn(old(store.Snapshot()), now)|
    {
      ghost var db := store.Snapshot();
      var expired := set id | id in store.reservations && Expired(store.reservations[id], now);
      var rest := expired;
      released := 0;
      ReleaseNone(db);
      assert expired - rest == {};
      while rest != {}
        invariant rest <= expired == ExpiredIn(db, now) && released == |expired| - |rest|
        invariant store.Snapshot() == Releasing(db, expired - rest)
      {
        var id :| id in rest;
        ReleaseOneMore(db, expired - rest, id);
        assert expired - (rest - {id}) == expired - rest + {id};
        var outcome := store.ReleaseReservation(id);
        if outcome == Done {
          released := released + 1;
        }
        rest := rest - {id};
      }
      assert expired - {} == expired;
    }

    method ReconcileStuckOperations(w: World) returns (recovered: nat)
      modifies service
      ensures service.operations == AllRecovered(old(service.operations), w)
      ensures recovered == |StuckIn(old(service.operations), w)|
    {
      ghost var table := service.operations;
      var stuck := StuckIn(service.operations, w);
      var rest := stuck;
      recovered := 0;
      RecoverBounds(table, w);
      assert forall id :: id in stuck ==> id in table && Retries.Stuck(table[id], w.StuckThreshold());
      hide Recovered, StuckIn;
      while rest != {}
        invariant rest <= stuck <= table.Keys && recovered == |stuck| - |rest|
        invariant service.operations == RecoveredBut(table, rest, w)
      {
        var id :| id in rest;
        RecoverOneMore(table, rest, id, w);
        RecoverStuck(id, w);
        rest := rest - {id};
        recovered := recovered + 1;
      }
    }

    /** The body of that loop. */
    method RecoverStuck(id: OperationId, w: World)
      requires id in service.operations && Retries.Stuck(service.operations[id], w.StuckThreshold())
      modifies service
      ensures service.operations == old(service.operations)[id := Recovered(old(service.operations)[id], w)]
    {
      var op := service.operations[id];
      if op.retryable && op.retryCount < op.maxRetries {
        service.UpdateProgress(id, Operations.Retrying, "retrying", op.progress, None, w.now);
      } else {
        service.FailOperation(id, "WORKER_CRASHED_OR_TIMEOUT", w.now);
      }
    }

    method ReconcileNodeHeartbeats(w: World) returns (markedOffline: nat)
      modifies this`instances, store
      ensures var silent := SilentNodes(old(store.nodes), w);
        && store.nodes == TakenOffline(old(store.nodes), silent)
        && store.reservations == old(store.reservations)
        && instances == AllMarked(old(instances), silent)
        && markedOffline == |silent|
    {
      ghost var nodes, rows := store.nodes, instances;
      var silent := set id | id in store.nodes && Silent(store.nodes[id], w);
      var rest := silent;
      markedOffline := 0;
      NoneSilent(nodes, rows);
      assert silent - rest == {};
      while rest != {}
        invariant rest <= silent == SilentNodes(nodes, w) && markedOffline == |silent| - |rest|
        invariant store.nodes == TakenOffline(nodes, silent - rest) && store.reservations == old(store.reservations)
        invariant instances == AllMarked(rows, silent - rest)
      {
        var id :| id in rest;
        OneMoreSilent(nodes, rows, silent - rest, id);
        assert silent - (rest - {id}) == silent - rest + {id};
        store.UpdateNodeStatus(id, Offline);
        MarkNodeInstancesUnknown(id);
        markedOffline := markedOffline + 1;
        rest := rest - {id};
      }
      assert silent - {} == silent;
    }

    method MarkNodeInstancesUnknown(node: NodeId)
      modifies this`instances
      ensures instances == AllMarked(old(instances), {node})
    {
      ghost var rows := instances;
      var rest := instances.Keys;
      while rest != {}
        invariant rest <= rows.Keys == instances.Keys
        invariant forall id :: id in rows ==>
          instances[id] == if id in rest then rows[id] else MarkedUnknown(rows[id], {node})
      {
        var id :| id in rest;
        var instance := instances[id];
        if !instance.deleted && instance.node == Some(node) && instance.observed != UNKNOWN {
          UpdateInstanceStates(id, instance.desired, UNKNOWN, None);
        }
        rest := rest - {id};
      }
    }

    method ReconcileInstanceStates(w: World) returns (reconciled: nat)
      modifies this`instances
      ensures instances == AllObserved(old(instances), w)
      ensures reconciled == |Differing(old(instances), w)|
    {
      ghost var rows := instances;
      ghost var differing := Differing(rows, w);
      var rest := instances.Keys;
      reconciled := 0;
      assert differing - rest == {};
      ObserveBounds(rows, w);
      while rest != {}
        invariant rest <= rows.Keys == instances.Keys
        invariant reconciled == |differing - rest|
        invariant instances == ObservedBut(rows, rest, w)
      {
        var id :| id in rest;
        OneFewer(differing, rest, id);
        ObserveOneMore(rows, rest, id, w);
        var counted := ReconcileInstanceState(id, w);
        if counted {
          reconciled := reconciled + 1;
        }
        rest := rest - {id};
      }
      assert differing - {} == differing;
    }

    /** The body of that loop: true when the instance counts as reconciled. */
    method ReconcileInstanceState(id: InstanceId, w: World) returns (counted: bool)
      requires id in instances
      modifies this`instances
      ensures instances == old(instances)[id := Observed(id, old(instances)[id], w)]
      ensures counted == Differs(id, old(instances)[id], w)
    {
      var instance := instances[id];
      if instance.deleted || instance.providerInstance.None? || instance.providerInstance.value == "" {
        return false;
      }
      var provider := w.providers.Resolve(instance.provider);
      if provider.None? {
        return false;
      }
      var state := provider.value(instance.providerInstance.value, id, instance.node);
      if state.None? {
        UpdateInstanceStates(id, instance.desired, UNKNOWN, None);
        return false;
      }
      if state.value == instance.observed {
        return false;
      }
      UpdateInstanceStates(id, instance.desired, state.value, None);
      return true;
    }

    /** Writes the two states of one row, and its provider's id only when a new one is given. */
    method UpdateInstanceStates(id: InstanceId, desired: string, observed: string, providerInstance: Option<string>)
      requires id in instances
      modifies this`instances
      ensures instances.Keys == old(instances).Keys
      ensures forall other :: other in instances && other != id ==> instances[other] == old(instances)[other]
      ensures instances[id].desired == desired && instances[id].observed == observed
      ensures instances[id].providerInstance == if providerInstance.None? then old(instances)[id].providerInstance
        else providerInstance
      ensures instances[id].subscription == old(instances)[id].subscription
      ensures instances[id].node == old(instances)[id].node
      ensures instances[id].provider == old(instances)[id].provider && instances[id].spec == old(instances)[id].spec
      ensures instances[id].deleted == old(instances)[id].deleted
    {
      instances := instances[id := instances[id].WithStates(desired, observed, providerInstance)];
    }

    method RunOnce(w: World)
      modifies this`instances, store, service
      ensures Snapshot() == Reconciled(old(Snapshot()), w)
    {
      var _ := ReconcileExpiredReservations(w.now);
      var _ := ReconcileStuckOperations(w);
      var _ := ReconcileNodeHeartbeats(w);
      var _ := ReconcileInstanceStates(w);
    }
  }
}
