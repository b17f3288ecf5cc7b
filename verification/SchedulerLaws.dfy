/** Which node the scheduler answers, in the columns of the listed nodes and of the tables that its attempts meet. */
module SchedulerLaws {
  import opened Identifiers
  import opened Resources
  import opened Allocator
  import opened AllocatorLaws
  import opened Scheduler

  /** Counters within capacity, on a node that has something of everything. */
  predicate Healthy(node: Node) {
    && 0 <= node.alloc.cpu + node.reserved.cpu <= node.total.cpu && 0 < node.total.cpu
    && 0 <= node.alloc.memory + node.reserved.memory <= node.total.memory && 0 < node.total.memory
    && 0 <= node.alloc.disk + node.reserved.disk <= node.total.disk && 0 < node.total.disk
  }

  /** What is free of the CPU, of the memory and of the disk, each as a part of what there is, added up. */
  function FreeParts(node: Node): real
    requires Healthy(node)
  {
    (node.total.cpu - node.alloc.cpu - node.reserved.cpu) as real / node.total.cpu as real
    + (node.total.memory - node.alloc.memory - node.reserved.memory) as real / node.total.memory as real
    + (node.total.disk - node.alloc.disk - node.reserved.disk) as real / node.total.disk as real
  }

  /** The listed node is active and has room for the amount. */
  predicate Offered(listing: seq<Listed>, l: Listed, amount: Resources) {
    && l in listing && l.node.status == Active
    && amount.cpu <= l.node.total.cpu - l.node.alloc.cpu - l.node.reserved.cpu
    && amount.memory <= l.node.total.memory - l.node.alloc.memory - l.node.reserved.memory
    && amount.disk <= l.node.total.disk - l.node.alloc.disk - l.node.reserved.disk
  }

  /** More weight, or as much and more free in parts, or as much of both and the smaller id. */
  predicate Better(a: Listed, b: Listed)
    requires Healthy(a.node) && Healthy(b.node)
  {
    || a.node.weight > b.node.weight
    || (a.node.weight == b.node.weight && FreeParts(a.node) > FreeParts(b.node))
    || (a.node.weight == b.node.weight && FreeParts(a.node) == FreeParts(b.node) && a.id < b.id)
  }

  /** A listing of healthy nodes, each of them once, and a world that has enough for an attempt on each. */
  predicate Fit(listing: seq<Listed>, world: World) {
    && (forall l :: l in listing ==> Healthy(l.node))
    && (forall i, j :: 0 <= i < j < |listing| ==> listing[i].id != listing[j].id)
    && |world.ids| >= |listing| && |world.others| >= |listing|
  }

  lemma {:induction false} NoMoreThanListed(listing: seq<Listed>, amount: Resources)
    requires Measurable(listing, amount)
    ensures |Ranked(Candidates(listing, amount))| <= |listing|
  {
    if listing == [] {
      assert Candidates(listing, amount) == [];
    } else {
      var init := listing[..|listing| - 1];
      NoMoreThanListed(init, amount);
      RankedLength(Candidates(init, amount));
      RankedLength(Candidates(listing, amount));
    }
  }

  lemma {:induction false} RankedLength(s: seq<Candidate>)
    ensures |Ranked(s)| == |s|
  {
    if s != [] {
      RankedLength(s[..|s| - 1]);
    }
  }

  lemma {:induction false} FitIsPlausible(listing: seq<Listed>, amount: Resources, world: World)
    requires Fit(listing, world)
    ensures Plausible(listing, amount) && Covers(world, Ranked(Candidates(listing, amount)))
  {
    NoMoreThanListed(listing, amount);
  }

  /** The tables and the answer of a whole call. */
  ghost function Call(db: Database, listing: seq<Listed>, needs: Requirements, world: World): (Database, Answer)
    requires Fit(listing, world)
  {
    FitIsPlausible(listing, needs.amount, world);
    Schedule(db, listing, needs, world)
  }

  lemma {:induction false} OfferedQualifies(listing: seq<Listed>, l: Listed, amount: Resources)
    requires l in listing && Healthy(l.node)
    ensures Qualifies(l.node, amount) <==> Offered(listing, l, amount)
  {
  }

  lemma {:induction false} PartsAreRatio(node: Node)
    requires Healthy(node)
    ensures FreeParts(node) == 3.0 * FreeRatio(node)
  {
  }

  /** The score order is that order. */
  lemma {:induction false} BetterPrecedes(a: Listed, b: Listed)
    requires Healthy(a.node) && Healthy(b.node) && a.id != b.id
    ensures Better(a, b) <==> Precedes(Scored(a), Scored(b))
  {
    hide FreeParts, FreeRatio;
    PartsAreRatio(a.node);
    PartsAreRatio(b.node);
    ScoreOrderIsLexicographic(a, b);
  }

  /** An attempt goes on to the next candidate exactly when it finds its node full or offline, and succeeds exactly when
      the node takes the amount under an id that is free. */
  lemma {:induction false} AttemptsExactly(db: Database, id: ReservationId, request: Request)
    ensures Retryable(Admit(db, id, request)) <==> FullOrOffline(db, request.node, request.amount)
    ensures Admit(db, id, request) == Done <==>
      Takes(db, request.node, request.amount) && id !in db.reservations
  {
    ReserveAnswersExactly(db, id, request);
  }

  /** What a call that selects a node leaves in the tables as its chosen attempt has met them. */
  ghost predicate Placed(met: Database, after: Database, node: NodeId, id: ReservationId, needs: Requirements,
    now: Time)
  {
    && Takes(met, node, needs.amount) && id !in met.reservations
    && OnlyOne(met, after, node, id)
    && node in after.nodes && CountersMoved(met.nodes[node], after.nodes[node], needs.amount, Resources(0, 0, 0))
    && id in after.reservations
    && after.reservations[id] == Reservation(node, needs.operation, needs.amount, Reserved,
      now + if needs.ttl <= 0 then 900 else needs.ttl)
  }

  /** One of the first k attempts has found the node full or offline. */
  ghost predicate TriedInVain(db: Database, world: World, k: nat, node: NodeId, amount: Resources)
    requires k <= |world.others|
  {
    exists j: nat :: j < k && FullOrOffline(Met(db, world, j), node, amount)
  }

  lemma {:induction false} AttemptPlaces(
    met: Database, id: ReservationId, needs: Requirements, node: NodeId, now: Time)
    requires Admit(met, id, Scheduler.Asked(needs, node, now)) == Done
    ensures Placed(met, Admitted(met, id, Scheduler.Asked(needs, node, now)), node, id, needs, now)
  {
    var request := Scheduler.Asked(needs, node, now);
    AttemptsExactly(met, id, request);
    ReserveWritesExactly(met, id, request);
    assert Apply(met, Reserve(id, request)).0.reservations[id] == Reservation(node, needs.operation, needs.amount,
      Reserved, request.expiresAt);
  }

  /** The node answered was listed as active with room, and at its own attempt, the k-th, was still so; every listed
      node with room that is better was found full or offline at an earlier one. The reservation is the call's only
      trace, and expires after the time asked for, or fifteen minutes when none is. */
  lemma {:induction false} ChosenIsTheBest(db: Database, listing: seq<Listed>, needs: Requirements, world: World)
    returns (chosen: Listed, k: nat)
    requires Fit(listing, world)
    requires Call(db, listing, needs, world).1.Selected?
    ensures Offered(listing, chosen, needs.amount) && k < |listing|
    ensures Call(db, listing, needs, world).1 == Selected(world.ids[k], chosen.id)
    ensures Placed(
      Met(db, world, k), Call(db, listing, needs, world).0, chosen.id, world.ids[k], needs, world.now)
    ensures forall l :: Offered(listing, l, needs.amount) && Better(l, chosen) ==>
      TriedInVain(db, world, k, l.id, needs.amount)
  {
    hide Admit, Admitted, Met, Ranked, Candidates, Schedule, Better, Scored, FullOrOffline, HasRoom, Placed;
    FitIsPlausible(listing, needs.amount, world);
    NoMoreThanListed(listing, needs.amount);
    chosen, k := SelectsBestReservable(db, listing, needs, world);
    OfferedQualifies(listing, chosen, needs.amount);
    AttemptPlaces(Met(db, world, k), world.ids[k], needs, chosen.id, world.now);
    assert Call(db, listing, needs, world).0
      == Admitted(Met(db, world, k), world.ids[k], Scheduler.Asked(needs, chosen.id, world.now));
    forall l | Offered(listing, l, needs.amount) && Better(l, chosen)
      ensures TriedInVain(db, world, k, l.id, needs.amount)
    {
      OfferedIsListed(listing, l, needs.amount);
      OfferedQualifies(listing, l, needs.amount);
      NotBetterThanItself(l, chosen);
      if l.id == chosen.id {
        SameIdSameNode(listing, l, chosen);
      } else {
        BetterPrecedes(l, chosen);
        var j: nat :| j < k && Retryable(
          Admit(Met(db, world, j), world.ids[j], Scheduler.Asked(needs, l.id, world.now)));
        AttemptsExactly(Met(db, world, j), world.ids[j], Scheduler.Asked(needs, l.id, world.now));
      }
    }
  }

  lemma {:induction false} OfferedIsListed(listing: seq<Listed>, l: Listed, amount: Resources)
    ensures Offered(listing, l, amount) ==> l in listing
  {
  }

  lemma {:induction false} NotBetterThanItself(a: Listed, b: Listed)
    requires Healthy(a.node) && Healthy(b.node)
    ensures a == b ==> !Better(a, b)
  {
  }

  lemma {:induction false} SameIdSameNode(listing: seq<Listed>, a: Listed, b: Listed)
    requires a in listing && b in listing && a.id == b.id
    requires forall i, j :: 0 <= i < j < |listing| ==> listing[i].id != listing[j].id
    ensures a == b
  {
    var i :| 0 <= i < |listing| && listing[i] == a;
    var j :| 0 <= j < |listing| && listing[j] == b;
    assert i <= j || j < i;
  }

  /** The answer that no node can be scheduled means that every listed node with room was found full or offline at an
      attempt on it. */
  lemma {:induction false} NoneOnlyWhenAllAreFull(
    db: Database, listing: seq<Listed>, needs: Requirements, world: World, l: Listed) returns (j: nat)
    requires Fit(listing, world)
    requires Call(db, listing, needs, world).1 == NoSchedulableNode && Offered(listing, l, needs.amount)
    ensures j < |listing| && FullOrOffline(Met(db, world, j), l.id, needs.amount)
  {
    hide Admit, Admitted, Met, Better, FreeRatio, Takes, FullOrOffline, Ranked, Candidates;
    FitIsPlausible(listing, needs.amount, world);
    NoMoreThanListed(listing, needs.amount);
    var candidates := Candidates(listing, needs.amount);
    var ranked := Ranked(candidates);
    var stop := StopsAfterFailedAttempts(db, ranked, needs, world, 0);
    CandidatesAre(listing, needs.amount);
    RankedRanks(candidates);
    OfferedQualifies(listing, l, needs.amount);
    assert Offers(listing, needs.amount, Scored(l));
    j :| 0 <= j < |ranked| && ranked[j] == Scored(l);
    assert Retryable(Verdict(db, ranked, needs, world, j));
    AttemptsExactly(Met(db, world, j), world.ids[j], Scheduler.Asked(needs, l.id, world.now));
  }

  /** A call fails with another error exactly where an attempt meets a node that is gone, or a taken id on one that
      takes the amount. */
  lemma {:induction false} FailsOnlyOnMissingOrTaken(
    db: Database, listing: seq<Listed>, needs: Requirements, world: World) returns (l: Listed, k: nat)
    requires Fit(listing, world) && Call(db, listing, needs, world).1.Failed?
    ensures Offered(listing, l, needs.amount) && k < |listing|
    ensures var (met, error) := (Met(db, world, k), Call(db, listing, needs, world).1.error);
      && Call(db, listing, needs, world).0 == met
      && (error == NodeNotFound <==> l.id !in met.nodes)
      && (error == DuplicateKey <==> Takes(met, l.id, needs.amount) && world.ids[k] in met.reservations)
      && (error == NodeNotFound || error == DuplicateKey)
  {
    hide Admitted, Met, Better, FreeRatio, Ranked, Candidates;
    FitIsPlausible(listing, needs.amount, world);
    NoMoreThanListed(listing, needs.amount);
    var candidates := Candidates(listing, needs.amount);
    var ranked := Ranked(candidates);
    k := StopsAfterFailedAttempts(db, ranked, needs, world, 0);
    CandidatesAre(listing, needs.amount);
    RankedRanks(candidates);
    assert ranked[k] in ranked && Offers(listing, needs.amount, ranked[k]);
    l :| l in listing && Qualifies(l.node, needs.amount) && ranked[k] == Scored(l);
    OfferedQualifies(listing, l, needs.amount);
    ReserveAnswersExactly(Met(db, world, k), world.ids[k], Scheduler.Asked(needs, l.id, world.now));
  }
}
