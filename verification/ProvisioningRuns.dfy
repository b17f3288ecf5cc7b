/** Any number of provision executions at once, of the same or of different operations, while the reconciler expires
    reservations, calls fail and workers crash: what ties committed reservations to instances. */
module ProvisioningRuns {
  import opened Options
  import opened Identifiers
  import opened Resources
  import opened Totals
  import opened Allocator
  import opened Instances

  type ExecutionId = nat

  datatype Stage = Scheduling | Holding | GivingBack | Recorded | Failed | Succeeded | Crashed

  datatype Execution = Execution(
    operation: OperationId,
    subscription: SubscriptionId,
    plan: Resources,
    stage: Stage,
    reservation: Option<ReservationId>,
    instance: Option<InstanceId>
  ) {
    predicate Live() {
      stage == Holding || stage == GivingBack || stage == Recorded
    }

    predicate Over() {
      stage == Failed || stage == Succeeded || stage == Crashed
    }
  }

  /** `owner`, `maker` and `flawed` only observe: which execution took a reservation and which made an instance, and
      which reservations have expired, lost their execution to a crash, or seen a call on them fail. */
  datatype Plant = Plant(
    db: Database,
    instances: Table,
    executions: map<ExecutionId, Execution>,
    owner: map<ReservationId, ExecutionId>,
    maker: map<InstanceId, ExecutionId>,
    flawed: set<ReservationId>
  )

  datatype Event =
    | Begin(e: ExecutionId, operation: OperationId, subscription: SubscriptionId, plan: Resources)
    | Take(e: ExecutionId, id: ReservationId, node: NodeId, expiresAt: Time)
    | FindNoNode(e: ExecutionId)
    | Refuse(e: ExecutionId)
    | ReleaseCall(e: ExecutionId, through: bool)
    | Record(e: ExecutionId, i: InstanceId, row: Instance)
    | CommitCall(e: ExecutionId, through: bool)
    | Crash(e: ExecutionId)
    | Expire(id: ReservationId)
    | ChangeNodeStatus(node: NodeId, status: NodeStatus)
    | ChangeStates(i: InstanceId, desired: string, observed: string, providerInstance: Option<string>)

  function RequestOf(x: Execution, node: NodeId, expiresAt: Time): Request {
    Request(node, x.operation, x.plan, expiresAt)
  }

  predicate Enabled(p: Plant, event: Event) {
    match event
    case Begin(e, _, _, plan) => e !in p.executions && plan.NonNegative()
    case Take(e, id, node, expiresAt) =>
      && e in p.executions && p.executions[e].stage == Scheduling
      && Admit(p.db, id, RequestOf(p.executions[e], node, expiresAt)) == Done
    case FindNoNode(e) => e in p.executions && p.executions[e].stage == Scheduling
    case Refuse(e) => e in p.executions && p.executions[e].stage == Holding
    case ReleaseCall(e, _) =>
      e in p.executions && p.executions[e].stage == GivingBack && p.executions[e].reservation.Some?
    case Record(e, i, row) =>
      && e in p.executions && p.executions[e].stage == Holding && p.executions[e].reservation.Some? && i !in p.instances
      && p.executions[e].reservation.value in p.db.reservations
      && row.node == Some(p.db.reservations[p.executions[e].reservation.value].node)
      && row.spec == p.executions[e].plan && row.subscription == p.executions[e].subscription
    case CommitCall(e, _) => e in p.executions && p.executions[e].stage == Recorded && p.executions[e].reservation.Some?
    case Crash(e) => e in p.executions && !p.executions[e].Over()
    case Expire(id) => id in p.db.reservations && p.db.reservations[id].status == Reserved
    case ChangeNodeStatus(_, _) => true
    case ChangeStates(i, _, _, _) => i in p.instances
  }

  function Moved(p: Plant, e: ExecutionId, stage: Stage): Plant
    requires e in p.executions
  {
    p.(executions := p.executions[e := p.executions[e].(stage := stage)])
  }

  function Step(p: Plant, event: Event): Plant
    requires Enabled(p, event)
  {
    match event
    case Begin(e, operation, subscription, plan) =>
      p.(executions := p.executions[e := Execution(operation, subscription, plan, Scheduling, None, None)])
    case Take(e, id, node, expiresAt) =>
      p.(db := Apply(p.db, Reserve(id, RequestOf(p.executions[e], node, expiresAt))).0,
         executions := p.executions[e := p.executions[e].(stage := Holding, reservation := Some(id))],
         owner := p.owner[id := e])
    case FindNoNode(e) => Moved(p, e, Failed)
    case Refuse(e) => Moved(p, e, GivingBack)
    case ReleaseCall(e, through) =>
      var id := p.executions[e].reservation.value;
      if through then Moved(p.(db := Apply(p.db, Release(id)).0), e, Failed)
      else Moved(p.(flawed := p.flawed + {id}), e, Failed)
    case Record(e, i, row) =>
      p.(instances := p.instances[i := row],
         executions := p.executions[e := p.executions[e].(stage := Recorded, instance := Some(i))],
         maker := p.maker[i := e])
    case CommitCall(e, through) => // its error is only logged
      var id := p.executions[e].reservation.value;
      if through then Moved(p.(db := Apply(p.db, Commit(id)).0), e, Succeeded)
      else Moved(p.(flawed := p.flawed + {id}), e, Succeeded)
    case Crash(e) =>
      var taken := p.executions[e].reservation;
      Moved(p.(flawed := p.flawed + if taken.Some? then {taken.value} else {}), e, Crashed)
    case Expire(id) => p.(db := Apply(p.db, Release(id)).0, flawed := p.flawed + {id})
    case ChangeNodeStatus(node, status) => p.(db := Apply(p.db, SetStatus(node, status)).0)
    case ChangeStates(i, desired, observed, providerInstance) =>
      p.(instances := p.instances[i := p.instances[i].WithStates(desired, observed, providerInstance)])
  }

  function Run(p: Plant, events: seq<Event>): Option<Plant> {
    if events == [] then Some(p)
    else
      match Run(p, events[..|events| - 1])
      case None => None
      case Some(m) => if Enabled(m, events[|events| - 1]) then Some(Step(m, events[|events| - 1])) else None
  }

  // ---- What every step keeps ----

  ghost predicate HasReservation(p: Plant, e: ExecutionId, x: Execution) {
    x.reservation.Some? ==>
      var id := x.reservation.value;
      && id in p.owner && p.owner[id] == e
      && id in p.db.reservations
      && p.db.reservations[id].operation == x.operation && p.db.reservations[id].amount == x.plan
      && (p.db.reservations[id].status == Committed ==> x.stage == Succeeded && id !in p.flawed)
      && (id !in p.flawed ==>
        p.db.reservations[id].status
          == if x.stage == Failed then Released else if x.stage == Succeeded then Committed else Reserved)
      && (id in p.flawed && p.db.reservations[id].status == Reserved ==> x.Over())
      && (x.stage == Crashed ==> id in p.flawed)
  }

  ghost predicate HasInstance(p: Plant, e: ExecutionId, x: Execution) {
    x.instance.Some? ==>
      var i := x.instance.value;
      && i in p.maker && p.maker[i] == e
      && x.reservation.Some? && x.reservation.value in p.db.reservations
      && i in p.instances && p.instances[i].spec == x.plan && p.instances[i].subscription == x.subscription
      && p.instances[i].node == Some(p.db.reservations[x.reservation.value].node)
  }

  predicate StageAgrees(x: Execution) {
    match x.stage
    case Scheduling => x.reservation.None? && x.instance.None?
    case Holding | GivingBack => x.reservation.Some? && x.instance.None?
    case Recorded | Succeeded => x.reservation.Some? && x.instance.Some?
    case Failed => x.instance.None?
    case Crashed => true
  }

  ghost predicate ExecutionSound(p: Plant, e: ExecutionId)
    requires e in p.executions
  {
    StageAgrees(p.executions[e]) && HasReservation(p, e, p.executions[e]) && HasInstance(p, e, p.executions[e])
  }

  /** A reservation was there at the start and has at most expired since, or an execution took it. */
  ghost predicate Explained(p: Plant, start: map<ReservationId, Reservation>, id: ReservationId)
    requires id in p.db.reservations
  {
    if id in p.owner then
      && p.owner[id] in p.executions && p.executions[p.owner[id]].reservation == Some(id)
    else
      && id in start
      && (p.db.reservations[id] == start[id]
        || (start[id].status == Reserved && id in p.flawed && p.db.reservations[id] == start[id].(status := Released)))
  }

  ghost predicate Sound(p: Plant, start: map<ReservationId, Reservation>) {
    && (forall e :: e in p.executions ==> ExecutionSound(p, e))
    && (forall id :: id in p.db.reservations ==> Explained(p, start, id))
    && (forall id :: id in p.owner ==> id in p.db.reservations)
    && (forall id :: id in p.flawed ==> id in p.db.reservations)
    && (forall id :: id in start ==> id in p.db.reservations && id !in p.owner)
    && (forall i :: i in p.maker ==>
      i in p.instances && p.maker[i] in p.executions && p.executions[p.maker[i]].instance == Some(i))
  }

  /** The row of a reservation after a step. */
  function RowAfter(p: Plant, event: Event, id: ReservationId): Reservation
    requires id in p.db.reservations
  {
    var row := p.db.reservations[id];
    if row.status != Reserved then row
    else
      match event
      case ReleaseCall(e, through) =>
        if through && e in p.executions && p.executions[e].reservation == Some(id) then row.(status := Released)
          else row
      case CommitCall(e, through) =>
        if through && e in p.executions && p.executions[e].reservation == Some(id) then row.(status := Committed)
          else row
      case Expire(expired) => if expired == id then row.(status := Released) else row
      case _ => row
  }

  lemma {:induction false} StepOnRow(p: Plant, event: Event, id: ReservationId)
    requires Enabled(p, event)
    ensures id in p.db.reservations ==>
      id in Step(p, event).db.reservations && Step(p, event).db.reservations[id] == RowAfter(p, event, id)
    ensures id !in p.db.reservations && id in Step(p, event).db.reservations ==>
      event.Take? && event.id == id
      && Step(p, event).db.reservations[id]
        == NewReservation(RequestOf(p.executions[event.e], event.node, event.expiresAt))
    ensures event.Take? ==> event.id in Step(p, event).db.reservations && event.id !in p.db.reservations
  {
  }

  /** What an execution's soundness rests on is the same in another state. */
  ghost predicate Unmoved(p: Plant, p': Plant, x: Execution) {
    && (x.reservation.Some? ==>
      var id := x.reservation.value;
      && id in p.owner && id in p'.owner && p'.owner[id] == p.owner[id]
      && id in p.db.reservations && id in p'.db.reservations
      && p'.db.reservations[id].(status := Reserved) == p.db.reservations[id].(status := Reserved)
      && ((p'.db.reservations[id].status == p.db.reservations[id].status && (id in p.flawed <==> id in p'.flawed))
        || (p.db.reservations[id].status == Reserved && p'.db.reservations[id].status == Released && id in p'.flawed)))
    && (x.instance.Some? ==>
      var i := x.instance.value;
      && i in p.maker && i in p'.maker && p'.maker[i] == p.maker[i]
      && i in p.instances && i in p'.instances
      && p'.instances[i].node == p.instances[i].node && p'.instances[i].spec == p.instances[i].spec
      && p'.instances[i].subscription == p.instances[i].subscription)
  }

  lemma {:induction false} UnmovedStaysSound(p: Plant, p': Plant, f: ExecutionId)
    requires f in p.executions && ExecutionSound(p, f) && Unmoved(p, p', p.executions[f])
    requires f in p'.executions && p'.executions[f] == p.executions[f]
    ensures ExecutionSound(p', f)
  {
  }

  predicate Acts(event: Event, f: ExecutionId) {
    match event
    case Begin(e, _, _, _) => e == f
    case Take(e, _, _, _) => e == f
    case FindNoNode(e) => e == f
    case Refuse(e) => e == f
    case ReleaseCall(e, _) => e == f
    case Record(e, _, _) => e == f
    case CommitCall(e, _) => e == f
    case Crash(e) => e == f
    case _ => false
  }

  /** The execution that an event advances is sound. */
  ghost predicate ActorSound(p: Plant, event: Event) {
    forall e :: Acts(event, e) && e in p.executions ==> ExecutionSound(p, e)
  }

  lemma {:induction false} StepLeavesOthers(p: Plant, event: Event, f: ExecutionId)
    requires Enabled(p, event) && ActorSound(p, event)
    requires f in p.executions && ExecutionSound(p, f) && !Acts(event, f)
    ensures Unmoved(p, Step(p, event), p.executions[f])
  {
    if event.ReleaseCall? || event.CommitCall? {
      assert Acts(event, event.e);
    }
    if p.executions[f].reservation.Some? {
      StepOnRow(p, event, p.executions[f].reservation.value);
    }
  }

  lemma {:induction false} StepKeepsActor(p: Plant, event: Event, f: ExecutionId)
    requires Enabled(p, event) && Acts(event, f) && ActorSound(p, event)
    requires forall id :: id in p.flawed ==> id in p.db.reservations
    ensures f in Step(p, event).executions && ExecutionSound(Step(p, event), f)
  {
    if f in p.executions && p.executions[f].reservation.Some? {
      StepOnRow(p, event, p.executions[f].reservation.value);
    }
    if event.Take? {
      StepOnRow(p, event, event.id);
    }
  }

  lemma {:induction false} StepKeepsExplained(
    p: Plant, start: map<ReservationId, Reservation>, event: Event, id: ReservationId)
    requires Enabled(p, event) && ActorSound(p, event)
    requires id in Step(p, event).db.reservations
    requires id in p.db.reservations ==> Explained(p, start, id)
    requires id in p.owner ==> id in p.db.reservations
    requires id in start ==> id in p.db.reservations && id !in p.owner
    ensures Explained(Step(p, event), start, id)
  {
    StepOnRow(p, event, id);
    if event.ReleaseCall? || event.CommitCall? {
      assert Acts(event, event.e);
    }
  }

  lemma {:induction false} StepKeepsOwners(p: Plant, start: map<ReservationId, Reservation>, event: Event)
    requires Enabled(p, event) && ActorSound(p, event)
    requires forall id :: id in p.flawed ==> id in p.db.reservations
    requires forall id :: id in p.owner ==> id in p.db.reservations
    requires forall id :: id in start ==> id in p.db.reservations && id !in p.owner
    ensures var p' := Step(p, event);
      && (forall id :: id in p'.owner ==> id in p'.db.reservations)
      && (forall id :: id in p'.flawed ==> id in p'.db.reservations)
      && (forall id :: id in start ==> id in p'.db.reservations && id !in p'.owner)
  {
    if event.ReleaseCall? || event.CommitCall? || event.Crash? {
      assert Acts(event, event.e);
    }
    forall id
      ensures id in p.db.reservations || (event.Take? && id == event.id) ==> id in Step(p, event).db.reservations
    {
      StepOnRow(p, event, id);
    }
  }

  lemma {:induction false} StepKeepsMakers(p: Plant, event: Event)
    requires Enabled(p, event) && ActorSound(p, event)
    requires forall i :: i in p.maker ==>
      i in p.instances && p.maker[i] in p.executions && p.executions[p.maker[i]].instance == Some(i)
    ensures var p' := Step(p, event);
      forall i :: i in p'.maker ==>
        i in p'.instances && p'.maker[i] in p'.executions && p'.executions[p'.maker[i]].instance == Some(i)
  {
    hide Apply, Admit;
    if event.Take? || event.Record? {
      assert Acts(event, event.e);
    }
  }

  lemma {:induction false} StepKeepsSound(p: Plant, start: map<ReservationId, Reservation>, event: Event)
    requires Sound(p, start) && Enabled(p, event)
    ensures Sound(Step(p, event), start)
  {
    var p' := Step(p, event);
    assert ActorSound(p, event);
    forall f | f in p'.executions ensures ExecutionSound(p', f) {
      if Acts(event, f) {
        StepKeepsActor(p, event, f);
      } else {
        StepLeavesOthers(p, event, f);
        UnmovedStaysSound(p, p', f);
      }
    }
    forall id | id in p'.db.reservations ensures Explained(p', start, id) {
      StepKeepsExplained(p, start, event, id);
    }
    StepKeepsOwners(p, start, event);
    StepKeepsMakers(p, event);
  }

  ghost predicate AskForNothingNegative(p: Plant) {
    && (forall e :: e in p.executions ==> p.executions[e].plan.NonNegative())
    && (forall i :: i in p.instances ==> p.instances[i].spec.NonNegative())
  }

  lemma {:induction false} StepKeepsPlans(p: Plant, event: Event)
    requires AskForNothingNegative(p) && Enabled(p, event)
    ensures AskForNothingNegative(Step(p, event))
  {
  }

  lemma {:induction false} StepKeepsCounters(p: Plant, base: map<NodeId, Resources>, event: Event)
    requires AskForNothingNegative(p) && Invariant(p.db, base) && Enabled(p, event)
    ensures Invariant(Step(p, event).db, base)
  {
    match event
    case Take(e, id, node, expiresAt) => ApplyKeepsInvariant(p.db, base,
      Reserve(id, RequestOf(p.executions[e], node, expiresAt)));
    case ReleaseCall(e, _) => ApplyKeepsInvariant(p.db, base, Release(p.executions[e].reservation.value));
    case CommitCall(e, _) => ApplyKeepsInvariant(p.db, base, Commit(p.executions[e].reservation.value));
    case Expire(id) => ApplyKeepsInvariant(p.db, base, Release(id));
    case ChangeNodeStatus(node, status) => ApplyKeepsInvariant(p.db, base, SetStatus(node, status));
    case _ =>
  }

  /** The plant before any execution, over a conserved database. */
  function Initial(db: Database, instances: Table): Plant {
    Plant(db, instances, map[], map[], map[], {})
  }

  lemma {:induction false} RunKeeps(db: Database, base: map<NodeId, Resources>, instances: Table, events: seq<Event>)
    requires Invariant(db, base) && (forall i :: i in instances ==> instances[i].spec.NonNegative())
    requires Run(Initial(db, instances), events).Some?
    ensures var p := Run(Initial(db, instances), events).value;
      Sound(p, db.reservations) && Invariant(p.db, base) && AskForNothingNegative(p)
  {
    if events != [] {
      var before := events[..|events| - 1];
      RunKeeps(db, base, instances, before);
      var m, event := Run(Initial(db, instances), before).value, events[|events| - 1];
      StepKeepsSound(m, db.reservations, event);
      StepKeepsPlans(m, event);
      StepKeepsCounters(m, base, event);
    }
  }

  // ---- Committed reservations and instances ----

  /** The instance that the owner of a reservation has made. */
  function InstanceFor(p: Plant, id: ReservationId): Option<InstanceId> {
    if id in p.owner && p.owner[id] in p.executions then p.executions[p.owner[id]].instance else None
  }

  ghost predicate Backed(p: Plant, id: ReservationId)
    requires id in p.db.reservations
  {
    var (row, i) := (p.db.reservations[id], InstanceFor(p, id));
    && i.Some? && i.value in p.instances
    && p.instances[i.value].node == Some(row.node) && p.instances[i.value].spec == row.amount
  }

  lemma {:induction false} CommittedIsBacked(p: Plant, start: map<ReservationId, Reservation>, id: ReservationId)
    requires Sound(p, start) && id in p.db.reservations && p.db.reservations[id].status == Committed
    requires id in start ==> start[id].status != Committed
    ensures Backed(p, id) && id in p.owner
    ensures InstanceFor(p, id).value in p.maker && p.maker[InstanceFor(p, id).value] == p.owner[id]
  {
  }

  /** In every reachable state each reservation committed since the start has its own instance, on the same node and
      with the same resources. */
  lemma {:induction false} CommittedInjectIntoInstances(
    db: Database, base: map<NodeId, Resources>, instances: Table, events: seq<Event>)
    requires Invariant(db, base) && (forall i :: i in instances ==> instances[i].spec.NonNegative())
    requires Run(Initial(db, instances), events).Some?
    ensures var p := Run(Initial(db, instances), events).value;
      var committed := set id | id in p.db.reservations && p.db.reservations[id].status == Committed
        && !(id in db.reservations && db.reservations[id].status == Committed);
      && (forall id :: id in committed ==> Backed(p, id))
      && (forall j, k :: j in committed && k in committed && InstanceFor(p, j) == InstanceFor(p, k) ==> j == k)
  {
    RunKeeps(db, base, instances, events);
    var p := Run(Initial(db, instances), events).value;
    var committed := set id | id in p.db.reservations && p.db.reservations[id].status == Committed
        && !(id in db.reservations && db.reservations[id].status == Committed);
    forall id | id in committed ensures Backed(p, id) {
      CommittedIsBacked(p, db.reservations, id);
    }
    forall j, k | j in committed && k in committed && InstanceFor(p, j) == InstanceFor(p, k) ensures j == k {
      CommittedIsBacked(p, db.reservations, j);
      CommittedIsBacked(p, db.reservations, k);
      assert Explained(p, db.reservations, j) && Explained(p, db.reservations, k);
    }
  }

  /** What the instances made since the start take of a node. */
  function MadeShare(p: Plant, i: InstanceId, instance: Instance, node: NodeId, d: Dimension): int {
    if i in p.maker && instance.node == Some(node) then instance.spec.Of(d) else 0
  }

  function MadeOn(p: Plant, node: NodeId, d: Dimension): Weight<InstanceId, Instance> {
    (i: InstanceId, instance: Instance) => MadeShare(p, i, instance, node, d)
  }

  function Partners(p: Plant): map<ReservationId, InstanceId> {
    map id | id in p.db.reservations && InstanceFor(p, id).Some? :: InstanceFor(p, id).value
  }

  /** What the rows of a node in a given status add up to, of those that are among some ids, or of those that are
      not. */
  function ShareAmong(ids: set<ReservationId>, among: bool, id: ReservationId, share: int): int {
    if (id in ids) == among then share else 0
  }

  function CountedAmong(ids: set<ReservationId>, among: bool, node: NodeId, status: ReservationStatus, d: Dimension)
    : Weight<ReservationId, Reservation>
  {
    (id: ReservationId, row: Reservation) => ShareAmong(ids, among, id, Share(row, node, status, d))
  }

  /** Only a row of the node, in the status, and on the right side contributes. */
  lemma {:induction false} Contributes(
    ids: set<ReservationId>, among: bool, id: ReservationId, row: Reservation, node: NodeId, status: ReservationStatus,
    d: Dimension)
    ensures CountedAmong(ids, among, node, status, d)(id, row)
      == if row.node == node && row.status == status && (id in ids) == among then row.amount.Of(d) else 0
  {
  }

  lemma {:induction false} HeldSplits(
    rows: map<ReservationId, Reservation>, ids: set<ReservationId>, node: NodeId, status: ReservationStatus,
    d: Dimension)
    ensures Held(rows, node, status, d)
      == Total(rows, CountedAmong(ids, true, node, status, d)) + Total(rows, CountedAmong(ids, false, node, status, d))
  {
    TotalSum<ReservationId, Reservation>(
      rows, CountedAmong(ids, true, node, status, d), CountedAmong(ids, false, node, status, d), CountedOn(node, status,
        d));
  }

  /** Rows that were in this status at the start: there are no more of them now. */
  lemma {:induction false} OldHeldAtMost(p: Plant, start: map<ReservationId, Reservation>, node: NodeId, d: Dimension)
    requires Sound(p, start) && forall id :: id in start ==> start[id].amount.NonNegative()
    ensures Total(p.db.reservations, CountedAmong(start.Keys, true, node, Committed, d))
      <= Held(start, node, Committed, d)
  {
    hide Resources.Of;
    var rows, f := p.db.reservations, CountedAmong(start.Keys, true, node, Committed, d);
    forall id | id in rows && f(id, rows[id]) != 0 ensures id in start && rows[id] == start[id] {
      Contributes(start.Keys, true, id, rows[id], node, Committed, d);
      assert Explained(p, start, id);
    }
    forall id | id in start ensures CountedOn(node, Committed, d)(id, start[id]) >= 0 {
      OfNonNegative(start[id].amount, d);
    }
    TotalInjects<ReservationId, Reservation, ReservationId, Reservation>(
      rows, f, start, CountedOn(node, Committed, d), map id | id in start :: id);
  }

  lemma {:induction false} OfNonNegative(amount: Resources, d: Dimension)
    requires amount.NonNegative()
    ensures amount.Of(d) >= 0
  {
  }

  /** What has been allocated on a node since the start is at most what the instances made since then take of it. */
  lemma {:induction false} AllocatedIsBacked(
    db: Database, base: map<NodeId, Resources>, instances: Table, events: seq<Event>, node: NodeId, d: Dimension)
    requires Invariant(db, base) && (forall i :: i in instances ==> instances[i].spec.NonNegative())
    requires Run(Initial(db, instances), events).Some? && node in db.nodes
    ensures var p := Run(Initial(db, instances), events).value;
      && node in p.db.nodes
      && p.db.nodes[node].alloc.Of(d) - db.nodes[node].alloc.Of(d) <= Total(p.instances, MadeOn(p, node, d))
  {
    RunKeeps(db, base, instances, events);
    var p, start := Run(Initial(db, instances), events).value, db.reservations;
    assert ConservedAt(p.db, base, node, d) && ConservedAt(db, base, node, d);
    HeldSplits(p.db.reservations, start.Keys, node, Committed, d);
    OldHeldAtMost(p, start, node, d);
    NewHeldAtMost(p, start, node, d);
  }

  /** A reservation and the instance that its owner has made. */
  ghost predicate HasPartner(p: Plant, id: ReservationId) {
    && id in p.db.reservations && Backed(p, id) && Partners(p)[id] == InstanceFor(p, id).value
    && id in p.owner && Partners(p)[id] in p.maker && p.maker[Partners(p)[id]] == p.owner[id]
    && p.owner[id] in p.executions && p.executions[p.owner[id]].reservation == Some(id)
  }

  lemma {:induction false} NewCommittedHasPartner(p: Plant, start: map<ReservationId, Reservation>, id: ReservationId)
    requires Sound(p, start) && id in p.db.reservations && p.db.reservations[id].status == Committed && id !in start
    ensures HasPartner(p, id)
  {
    CommittedIsBacked(p, start, id);
    assert Explained(p, start, id);
  }

  lemma {:induction false} NewHeldAtMost(p: Plant, start: map<ReservationId, Reservation>, node: NodeId, d: Dimension)
    requires Sound(p, start) && AskForNothingNegative(p)
    ensures Total(p.db.reservations, CountedAmong(start.Keys, false, node, Committed, d))
      <= Total(p.instances, MadeOn(p, node, d))
  {
    hide Resources.Of, Sound;
    var rows, f, g := p.db.reservations, CountedAmong(start.Keys, false, node, Committed, d), MadeOn(p, node, d);
    forall id | id in rows && f(id, rows[id]) != 0
      ensures HasPartner(p, id) && g(Partners(p)[id], p.instances[Partners(p)[id]]) == f(id, rows[id])
    {
      Contributes(start.Keys, false, id, rows[id], node, Committed, d);
      NewCommittedHasPartner(p, start, id);
    }
    forall i | i in p.instances ensures g(i, p.instances[i]) >= 0 {
      OfNonNegative(p.instances[i].spec, d);
    }
    TotalInjects<ReservationId, Reservation, InstanceId, Instance>(rows, f, p.instances, g, Partners(p));
  }

  // ---- Exactly when a success, and an instance, is backed ----

  /** The reservation of an instance is committed. */
  ghost predicate HasCommitted(p: Plant, i: InstanceId) {
    && i in p.maker && p.maker[i] in p.executions
    && var taken := p.executions[p.maker[i]].reservation;
    && taken.Some? && taken.value in p.db.reservations && p.db.reservations[taken.value].status == Committed
  }

  /** In every reachable state an execution that has succeeded has its reservation committed exactly when that
      reservation neither expired on the way nor saw its commit call fail. */
  lemma {:induction false} SuccessCommitsExactlyWhenUnflawed(
    db: Database, base: map<NodeId, Resources>, instances: Table, events: seq<Event>, e: ExecutionId)
    requires Invariant(db, base) && (forall i :: i in instances ==> instances[i].spec.NonNegative())
    requires Run(Initial(db, instances), events).Some?
    requires var p := Run(Initial(db, instances), events).value; e in p.executions && p.executions[e].stage == Succeeded
    ensures var p := Run(Initial(db, instances), events).value;
      var x := p.executions[e];
      && x.reservation.Some? && x.reservation.value in p.db.reservations
      && (p.db.reservations[x.reservation.value].status == Committed <==> x.reservation.value !in p.flawed)
  {
    RunKeeps(db, base, instances, events);
    assert ExecutionSound(Run(Initial(db, instances), events).value, e);
  }

  /** In every reachable state an instance that some execution has recorded is backed by a committed reservation of its
      own exactly when that execution has gone on to succeed and the reservation neither expired nor saw its commit
      fail. */
  lemma {:induction false} InstanceIsBackedExactlyWhen(
    db: Database, base: map<NodeId, Resources>, instances: Table, events: seq<Event>, i: InstanceId)
    requires Invariant(db, base) && (forall j :: j in instances ==> instances[j].spec.NonNegative())
    requires Run(Initial(db, instances), events).Some?
    requires i in Run(Initial(db, instances), events).value.maker
    ensures var p := Run(Initial(db, instances), events).value;
      && p.maker[i] in p.executions && p.executions[p.maker[i]].reservation.Some?
      && var x := p.executions[p.maker[i]];
      && (HasCommitted(p, i) <==> x.stage == Succeeded && x.reservation.value !in p.flawed)
  {
    RunKeeps(db, base, instances, events);
    var p := Run(Initial(db, instances), events).value;
    assert ExecutionSound(p, p.maker[i]);
  }

  // ---- Compensation, however executions interleave ----

  /** A taken reservation is committed exactly when its execution has succeeded and it neither expired nor saw a call
      fail. Short of that, it is reserved exactly while its execution is at work and released exactly when that has
      failed; with it, it can only stay reserved once its execution is over. */
  lemma {:induction false} StatusFollowsExecution(
    db: Database, base: map<NodeId, Resources>, instances: Table, events: seq<Event>, id: ReservationId)
    requires Invariant(db, base) && (forall i :: i in instances ==> instances[i].spec.NonNegative())
    requires Run(Initial(db, instances), events).Some?
    requires var p := Run(Initial(db, instances), events).value; id in p.db.reservations && id !in db.reservations
    ensures var p := Run(Initial(db, instances), events).value;
      && id in p.owner && p.owner[id] in p.executions
      && var (x, row) := (p.executions[p.owner[id]], p.db.reservations[id]);
      && row.operation == x.operation && row.amount == x.plan
      && (row.status == Committed <==> x.stage == Succeeded && id !in p.flawed)
      && (id !in p.flawed ==> (row.status == Reserved <==> x.Live()) && (row.status == Released <==> x.stage == Failed))
      && (id in p.flawed && row.status == Reserved ==> x.Over())
  {
    RunKeeps(db, base, instances, events);
    var p := Run(Initial(db, instances), events).value;
    assert Explained(p, db.reservations, id);
    assert ExecutionSound(p, p.owner[id]);
  }

  function SuccessShare(p: Plant, x: Execution, node: NodeId, d: Dimension): int {
    if x.stage == Succeeded && x.reservation.Some? && x.reservation.value in p.db.reservations
      && p.db.reservations[x.reservation.value].node == node
    then x.plan.Of(d) else 0
  }

  function SuccessOn(p: Plant, node: NodeId, d: Dimension): Weight<ExecutionId, Execution> {
    (_: ExecutionId, x: Execution) => SuccessShare(p, x, node, d)
  }

  function Reservations(p: Plant): map<ExecutionId, ReservationId> {
    map e | e in p.executions && p.executions[e].reservation.Some? :: p.executions[e].reservation.value
  }

  ghost predicate AllOver(p: Plant) {
    forall e :: e in p.executions ==> p.executions[e].Over()
  }

  lemma {:induction false} NewCommittedWithinSuccesses(
    p: Plant, start: map<ReservationId, Reservation>, node: NodeId, d: Dimension)
    requires Sound(p, start) && AskForNothingNegative(p)
    ensures Total(p.db.reservations, CountedAmong(start.Keys, false, node, Committed, d))
      <= Total(p.executions, SuccessOn(p, node, d))
  {
    var rows, f, g := p.db.reservations, CountedAmong(start.Keys, false, node, Committed, d), SuccessOn(p, node, d);
    forall id | id in rows && f(id, rows[id]) != 0
      ensures id in p.owner && p.owner[id] in p.executions && p.executions[p.owner[id]].reservation == Some(id)
      ensures g(p.owner[id], p.executions[p.owner[id]]) == f(id, rows[id])
    {
      Contributes(start.Keys, false, id, rows[id], node, Committed, d);
      assert Explained(p, start, id);
      assert ExecutionSound(p, p.owner[id]);
    }
    TotalInjects<ReservationId, Reservation, ExecutionId, Execution>(rows, f, p.executions, g, p.owner);
  }

  lemma {:induction false} SuccessesWithinNewCommitted(
    p: Plant, start: map<ReservationId, Reservation>, node: NodeId, d: Dimension)
    requires Sound(p, start) && p.flawed == {} && WellFormed(p.db)
    ensures Total(p.executions, SuccessOn(p, node, d))
      <= Total(p.db.reservations, CountedAmong(start.Keys, false, node, Committed, d))
  {
    hide Resources.Of;
    var rows, f, g := p.db.reservations, CountedAmong(start.Keys, false, node, Committed, d), SuccessOn(p, node, d);
    var taken := Reservations(p);
    forall e | e in p.executions && g(e, p.executions[e]) != 0
      ensures e in taken && taken[e] in rows && p.owner[taken[e]] == e
      ensures f(taken[e], rows[taken[e]]) == g(e, p.executions[e])
    {
      assert ExecutionSound(p, e);
      Contributes(start.Keys, false, taken[e], rows[taken[e]], node, Committed, d);
    }
    forall id | id in rows ensures f(id, rows[id]) >= 0 {
      OfNonNegative(rows[id].amount, d);
    }
    TotalInjects<ExecutionId, Execution, ReservationId, Reservation>(p.executions, g, rows, f, taken);
  }

  /** Without expiries the rows of the start are as they were. */
  lemma {:induction false} OldHeldStays(
    p: Plant, start: map<ReservationId, Reservation>, node: NodeId, status: ReservationStatus, d: Dimension)
    requires Sound(p, start) && p.flawed == {}
    ensures Total(p.db.reservations, CountedAmong(start.Keys, true, node, status, d)) == Held(start, node, status, d)
  {
    hide Resources.Of, Share;
    forall id | id in start ensures id in p.db.reservations && p.db.reservations[id] == start[id] {
      assert Explained(p, start, id);
    }
    TotalExtends<ReservationId, Reservation>(
      start, CountedOn(node, status, d), p.db.reservations, CountedAmong(start.Keys, true, node, status, d));
  }

  lemma {:induction false} NothingNewStaysReserved(
    p: Plant, start: map<ReservationId, Reservation>, node: NodeId, d: Dimension)
    requires Sound(p, start) && p.flawed == {} && AllOver(p)
    ensures Total(p.db.reservations, CountedAmong(start.Keys, false, node, Reserved, d)) == 0
  {
    var rows := p.db.reservations;
    forall id | id in rows && id !in start ensures rows[id].status != Reserved {
      assert Explained(p, start, id);
      assert ExecutionSound(p, p.owner[id]);
    }
    TotalOfZeros<ReservationId, Reservation>(rows, CountedAmong(start.Keys, false, node, Reserved, d));
  }

  /** Once all executions are over, whatever happened to them short of expiries, crashes and failing calls: the reserved
      counters are what they were at the start, and what each node has allocated since then is the sum of the plans of
      the executions that succeeded on it. */
  lemma {:induction false} CountersSumSuccesses(
    db: Database, base: map<NodeId, Resources>, instances: Table, events: seq<Event>, node: NodeId, d: Dimension)
    requires Invariant(db, base) && (forall i :: i in instances ==> instances[i].spec.NonNegative())
    requires Run(Initial(db, instances), events).Some? && node in db.nodes
    requires var p := Run(Initial(db, instances), events).value; p.flawed == {} && AllOver(p)
    ensures var p := Run(Initial(db, instances), events).value;
      && node in p.db.nodes
      && p.db.nodes[node].reserved.Of(d) == db.nodes[node].reserved.Of(d)
      && p.db.nodes[node].alloc.Of(d) == db.nodes[node].alloc.Of(d) + Total(p.executions, SuccessOn(p, node, d))
  {
    RunKeeps(db, base, instances, events);
    var p, start := Run(Initial(db, instances), events).value, db.reservations;
    assert ConservedAt(p.db, base, node, d) && ConservedAt(db, base, node, d);
    hide Run, Sound, AskForNothingNegative, Held, Total, Resources.Of;
    NewCommittedWithinSuccesses(p, start, node, d);
    SuccessesWithinNewCommitted(p, start, node, d);
    NothingNewStaysReserved(p, start, node, d);
    OldHeldStays(p, start, node, Reserved, d);
    OldHeldStays(p, start, node, Committed, d);
    HeldSplits(p.db.reservations, start.Keys, node, Reserved, d);
    HeldSplits(p.db.reservations, start.Keys, node, Committed, d);
  }

  // ---- The converse fails ----

  lemma {:induction false} RunExtends(p: Plant, events: seq<Event>, event: Event, m: Plant)
    requires Run(p, events) == Some(m) && Enabled(m, event)
    ensures Run(p, events + [event]) == Some(Step(m, event))
  {
  }

  /** An execution begins and takes its reservation. */
  function Taking(request: Request, subscription: SubscriptionId, id: ReservationId): seq<Event> {
    [Begin(0, request.operation, subscription, request.amount), Take(0, id, request.node, request.expiresAt)]
  }

  lemma {:induction false} TakingHolds(
    db: Database, instances: Table, request: Request, subscription: SubscriptionId, id: ReservationId)
    requires request.amount.NonNegative() && Admit(db, id, request) == Done
    ensures Run(Initial(db, instances), Taking(request, subscription, id)) == Some(
      Plant(Admitted(db, id, request), instances,
            map[0 := Execution(request.operation, subscription, request.amount, Holding, Some(id), None)],
            map[id := 0], map[], {}))
  {
    var p, taking := Initial(db, instances), Taking(request, subscription, id);
    RunExtends(p, [], taking[0], p);
    var m := Step(p, taking[0]);
    RunExtends(p, [] + [taking[0]], taking[1], m);
    assert [] + [taking[0]] + [taking[1]] == taking;
    assert Step(m, taking[1]).executions
      == map[0 := Execution(request.operation, subscription, request.amount, Holding, Some(id), None)];
  }

  /** It records its instance only after the reservation has expired; its commit is then refused, which it takes for
      success. */
  function Late(id: ReservationId, i: InstanceId, row: Instance): seq<Event> {
    [Expire(id), Record(0, i, row), CommitCall(0, true)]
  }

  /** Not every instance is backed: after such a late execution the instance is there and the execution has succeeded,
      but the counters of every node are what they were before. */
  lemma {:induction false} LateCommitIsLost(
    db: Database, instances: Table, request: Request, subscription: SubscriptionId, id: ReservationId, i: InstanceId,
    row: Instance)
    requires request.amount.NonNegative() && Admit(db, id, request) == Done && i !in instances
    requires row.node == Some(request.node) && row.spec == request.amount && row.subscription == subscription
    ensures var end := Run(Initial(db, instances), Taking(request, subscription, id) + Late(id, i, row));
      && end.Some? && 0 in end.value.executions && end.value.executions[0].stage == Succeeded
      && end.value.instances == instances[i := row]
      && end.value.db.nodes == db.nodes
      && id in end.value.db.reservations && end.value.db.reservations[id].status == Released
  {
    hide Run;
    var p, taking, late := Initial(db, instances), Taking(request, subscription, id), Late(id, i, row);
    TakingHolds(db, instances, request, subscription, id);
    var m0 := Run(p, taking).value;
    RunExtends(p, taking, late[0], m0);
    var m1 := Step(m0, late[0]);
    ReserveThenRelease(db, id, request);
    RunExtends(p, taking + [late[0]], late[1], m1);
    var m2 := Step(m1, late[1]);
    RunExtends(p, taking + [late[0]] + [late[1]], late[2], m2);
    assert taking + [late[0]] + [late[1]] + [late[2]] == taking + late;
  }
}
