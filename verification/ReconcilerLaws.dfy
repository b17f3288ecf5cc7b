/** What one run of the reconciler does, in the columns of the rows alone. */
module ReconcilerLaws {
  import opened Options
  import opened Identifiers
  import opened Resources
  import opened Totals
  import opened Allocator
  import opened Reconciler
  import Instances
  import Operations

  /** What an expired row gives back to a node. */
  function Returned(row: Reservation, now: Time, node: NodeId, d: Dimension): int {
    if row.status == Reserved && row.expiresAt < now && row.node == node then
      match d
      case Cpu => row.amount.cpu
      case Memory => row.amount.memory
      case Disk => row.amount.disk
    else 0
  }

  function ReturnedTo(now: Time, node: NodeId, d: Dimension): Weight<ReservationId, Reservation> {
    (_: ReservationId, row: Reservation) => Returned(row, now, node, d)
  }

  /** A run releases exactly the reserved rows whose expiry lies before its clock, and takes exactly their amounts off
      the reserved counters of their nodes. */
  lemma {:induction false} ReleasesExactlyTheExpired(c: Cluster, w: World, id: ReservationId, node: NodeId)
    requires id in c.db.reservations && node in c.db.nodes
    ensures var c' := Reconciled(c, w);
      && c'.db.reservations.Keys == c.db.reservations.Keys && c'.db.nodes.Keys == c.db.nodes.Keys
      && c'.db.reservations[id] == c.db.reservations[id].(status :=
        if c.db.reservations[id].status == Reserved && c.db.reservations[id].expiresAt < w.now then Released
        else c.db.reservations[id].status)
      && var (before, after) := (c.db.nodes[node].reserved, c'.db.nodes[node].reserved);
      && after.cpu == before.cpu - Total(c.db.reservations, ReturnedTo(w.now, node, Cpu))
      && after.memory == before.memory - Total(c.db.reservations, ReturnedTo(w.now, node, Memory))
      && after.disk == before.disk - Total(c.db.reservations, ReturnedTo(w.now, node, Disk))
  {
    var ids, rows := ExpiredIn(c.db, w.now), c.db.reservations;
    TotalCongruence<ReservationId, Reservation, Reservation>(
      rows, In(ids, node, Cpu), rows, ReturnedTo(w.now, node, Cpu));
    TotalCongruence<ReservationId, Reservation, Reservation>(
      rows, In(ids, node, Memory), rows, ReturnedTo(w.now, node, Memory));
    TotalCongruence<ReservationId, Reservation, Reservation>(
      rows, In(ids, node, Disk), rows, ReturnedTo(w.now, node, Disk));
  }

  /** A run takes exactly those active nodes offline that have been seen and not for longer than the limit, a minute
      when none is set, and changes nothing else of a node but its reserved counters. */
  lemma {:induction false} TakesExactlyTheSilentOffline(c: Cluster, w: World, node: NodeId)
    requires node in c.db.nodes
    ensures node in Reconciled(c, w).db.nodes
    ensures var (before, after) := (c.db.nodes[node], Reconciled(c, w).db.nodes[node]);
      var limit := if w.nodeTtl <= 0 then 60 else w.nodeTtl;
      && after.status == (if before.status == Active && before.lastSeen.Some? && w.now - before.lastSeen.value > limit
        then Offline else before.status)
      && after.total == before.total && after.alloc == before.alloc && after.weight == before.weight
      && after.lastSeen == before.lastSeen
  {
    SilentNodesGoOffline(c, w);
  }

  /** A run puts exactly those running operations back to retrying that have not been updated for longer than the limit,
      three minutes when none is set, and have a retry left; those that have none it fails. No other operation changes.
      */
  lemma {:induction false} RecoversExactlyTheStuck(c: Cluster, w: World, id: OperationId)
    requires id in c.operations
    ensures id in Reconciled(c, w).operations
    ensures var (before, after) := (c.operations[id], Reconciled(c, w).operations[id]);
      var limit := if w.stuckTimeout <= 0 then 180 else w.stuckTimeout;
      var stuck := before.status == Operations.Running && before.updatedAt < w.now - limit;
      var retries := before.retryable && before.retryCount < before.maxRetries;
      && (!stuck ==> after == before)
      && (stuck && retries ==> after == before.(
        status := Operations.Retrying, phase := "retrying", progress := after.progress, updatedAt := w.now))
      && (stuck && retries && 0 <= before.progress <= 100 ==> after.progress == before.progress)
      && (stuck && !retries ==> after == before.(status := Operations.Failed,
        error := Some("WORKER_CRASHED_OR_TIMEOUT"), finishedAt := Some(w.now), updatedAt := w.now))
  {
    hide Releasing, SilentNodes, AllObserved, AllMarked;
  }

  /** The provider that is asked about an instance: its own where that is known, and otherwise the default one. */
  function ProviderFor(w: World, instance: Instances.Instance): Option<Provider> {
    if instance.provider.Some? && instance.provider.value in w.providers.known then
      Some(w.providers.known[instance.provider.value])
    else w.providers.default
  }

  /** A run asks the provider of each instance that is there and has an id with one, and shows its answer, or that it
      cannot be reached as "unknown"; an instance that it does not ask about is shown as "unknown" exactly when its node
      is taken offline, and as before otherwise. */
  lemma {:induction false} ObservesExactly(c: Cluster, w: World, id: InstanceId)
    requires id in c.instances
    ensures id in Reconciled(c, w).instances
    ensures var (row, after, provider) := (c.instances[id], Reconciled(c, w).instances[id], ProviderFor(w,
        c.instances[id]));
      var asked := !row.deleted && row.providerInstance.Some? && row.providerInstance.value != "" && provider.Some?;
      var silenced := !row.deleted && row.node.Some? && row.node.value in c.db.nodes
        && Reconciled(c, w).db.nodes[row.node.value].status != c.db.nodes[row.node.value].status;
      && after == row.(observed := after.observed)
      && (asked ==>
        var answer := provider.value(row.providerInstance.value, id, row.node);
        after.observed == if answer.Some? then answer.value else "unknown")
      && (!asked ==> after.observed == if silenced then "unknown" else row.observed)
  {
    RunLeavesIntentAlone(c, w);
    SilentNodesGoOffline(c, w);
  }

  /** What the run counts: the expired reservations, the stuck operations, the silent nodes, and the instances that
      their provider answers for in another state than the one shown. */
  lemma {:induction false} CountsExactly(c: Cluster, w: World)
    ensures var (timeout, limit) := (if w.stuckTimeout <= 0 then 180 else w.stuckTimeout,
        if w.nodeTtl <= 0 then 60 else w.nodeTtl);
      && (forall id :: id in ExpiredIn(c.db, w.now) <==>
        id in c.db.reservations && c.db.reservations[id].status == Reserved && c.db.reservations[id].expiresAt < w.now)
      && (forall id :: id in StuckIn(c.operations, w) <==>
        id in c.operations && c.operations[id].status == Operations.Running
        && c.operations[id].updatedAt < w.now - timeout)
      && (forall id :: id in SilentNodes(c.db.nodes, w) <==>
        id in c.db.nodes && c.db.nodes[id].status == Active && c.db.nodes[id].lastSeen.Some?
        && w.now - c.db.nodes[id].lastSeen.value > limit)
      && (forall id :: id in Differing(c.instances, w) <==> id in c.instances && Changes(w, id, c.instances[id]))
  {
    forall id | id in c.instances ensures Differs(id, c.instances[id], w) <==> Changes(w, id, c.instances[id]) {
    }
  }

  predicate Changes(w: World, id: InstanceId, row: Instances.Instance) {
    && !row.deleted && row.providerInstance.Some? && row.providerInstance.value != "" && ProviderFor(w, row).Some?
    && var answer := ProviderFor(w, row).value(row.providerInstance.value, id, row.node);
    answer.Some? && answer.value != row.observed
  }
}
