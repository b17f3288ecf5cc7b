/** The requests behind start, stop, restart, reinstall, reset and delete: each creates an operation on the instance and
    writes what the instance is meant to be. */
module InstanceActions {
  import opened Options
  import opened Identifiers
  import opened Instances
  import opened Texts
  import Operations

  const KINDS := {"start_instance", "stop_instance", "restart_instance", "reinstall_instance", "reset_password",
    "delete_instance"}

  const MAX_RETRIES := 3

  function Desired(kind: string): string {
    if kind == "stop_instance" then "stopped" else if kind == "delete_instance" then "deleted" else "running"
  }

  /** The key is meant to end with the request's timestamp; no part of the program puts one into the request's context,
      so that the format finds nothing to print. */
  const NO_TIMESTAMP := "-%!d(<nil>)"

  function ActionKey(kind: string, instance: InstanceId): string {
    kind + ("-" + Canonical(instance) + NO_TIMESTAMP)
  }

  function ActionInput(kind: string, instance: InstanceId): Operations.Input {
    Operations.Input(kind, instance, ActionKey(kind, instance), true, MAX_RETRIES)
  }

  /** A request for one instance, whether its subscription is found to be the user's, whether the operations can be
      listed and the states be written, and the fresh id and the clock. */
  datatype Action = Action(
    kind: string, instance: InstanceId, owned: bool, listed: bool, stored: bool, newId: OperationId, now: Time)

  datatype Answer = NotFound | Conflict | InternalError | Accepted(operation: OperationId)

  /** An operation that another request must not overtake. Provisioning operations are on subscriptions. */
  predicate Blocks(op: Operations.Operation, instance: InstanceId) {
    && op.kind != "provision_instance" && op.resource == instance
    && (op.status == Operations.Queued || op.status == Operations.Running || op.status == Operations.Retrying)
  }

  ghost predicate Blocked(operations: Operations.Table, instance: InstanceId) {
    exists id :: id in operations && Blocks(operations[id], instance)
  }

  datatype Records = Records(operations: Operations.Table, instances: Table)

  ghost function Handled(r: Records, a: Action): (Records, Answer) {
    if a.instance !in r.instances || r.instances[a.instance].deleted || !a.owned then (r, NotFound)
    else if a.listed && Blocked(r.operations, a.instance) then (r, Conflict)
    else
      var (operations, reply) :=
        Operations.Served(r.operations, Operations.Create(ActionInput(a.kind, a.instance), a.newId, a.now));
      if reply.UniqueViolation? then (r, InternalError)
      else
        var instance := r.instances[a.instance];
        (Records(operations,
           if a.stored then
             r.instances[a.instance := instance.WithStates(Desired(a.kind), instance.observed, None)]
           else r.instances),
         Accepted(reply.id))
  }

  // ---- One operation for each kind and instance, for ever ----

  lemma {:induction false} ActionKeyInjective(kind: string, instance: InstanceId, kind': string, instance': InstanceId)
    requires IsUuid(instance) && IsUuid(instance')
    ensures ActionKey(kind, instance) == ActionKey(kind', instance') ==> kind == kind' && instance == instance'
  {
    hide Canonical;
    var tail, tail' := "-" + Canonical(instance) + NO_TIMESTAMP, "-" + Canonical(instance') + NO_TIMESTAMP;
    var key, key' := ActionKey(kind, instance), ActionKey(kind', instance');
    if key == key' {
      assert key[|kind|..] == tail && key'[|kind'|..] == tail';
      assert key[..|kind|] == kind && key'[..|kind'|] == kind';
      assert tail[1..37] == Canonical(instance) && tail'[1..37] == Canonical(instance');
      CanonicalInjective(instance, instance');
    }
  }

  lemma {:induction false} ActionIsNoProvision(kind: string, instance: InstanceId, order: OrderId, item: nat, unit: nat)
    requires kind in KINDS
    ensures ActionKey(kind, instance) != ProvisionKey(order, item, unit)
  {
    assert ActionKey(kind, instance)[0] == kind[0];
    assert ProvisionKey(order, item, unit)[0] == OrderPrefix(order)[0] == 'p';
  }

  /** What else happens to operations: fulfilment creates provisioning ones, and workers, workflows and the reconciler
      change them. */
  datatype Event =
    | Act(action: Action)
    | Provision(order: OrderId, item: nat, unit: nat, subscription: SubscriptionId, newId: OperationId, now: Time)
    | Change(id: OperationId, update: Operations.Update, now: Time)
    | ChangeInstances(instances: Table)

  predicate Possible(e: Event) {
    e.Act? ==> e.action.kind in KINDS && IsUuid(e.action.instance)
  }

  ghost function Step(r: Records, e: Event): Records {
    match e
    case Act(action) => Handled(r, action).0
    case Provision(order, item, unit, subscription, newId, now) =>
      r.(operations := Operations.Served(r.operations, Operations.Create(
        Operations.Input("provision_instance", subscription, ProvisionKey(order, item, unit), true, MAX_RETRIES), newId,
        now)).0)
    case Change(id, update, now) =>
      r.(operations := Operations.Served(r.operations, Operations.Change(id, update, now)).0)
    case ChangeInstances(instances) => r.(instances := instances)
  }

  ghost function After(r: Records, events: seq<Event>): Records {
    if events == [] then r else Step(After(r, events[..|events| - 1]), events[|events| - 1])
  }

  ghost predicate IsProvisionKey(key: string) {
    exists order: OrderId, item: nat, unit: nat :: key == ProvisionKey(order, item, unit)
  }

  /** An operation on an instance has the key of its kind and instance, and the others have keys of units of orders. */
  ghost predicate KeyFits(op: Operations.Operation) {
    if op.kind in KINDS then IsUuid(op.resource) && op.key == ActionKey(op.kind, op.resource)
    else op.kind == "provision_instance" && IsProvisionKey(op.key)
  }

  ghost predicate Sound(operations: Operations.Table) {
    Operations.UniqueKeys(operations) && forall id :: id in operations ==> KeyFits(operations[id])
  }

  lemma {:induction false} CreatingKeepsSound(
    operations: Operations.Table, input: Operations.Input, newId: OperationId, now: Time)
    requires Sound(operations) && KeyFits(Operations.Created(input, now))
    ensures Sound(Operations.Served(operations, Operations.Create(input, newId, now)).0)
  {
    hide KeyFits;
    Operations.CreateKeepsKeys(operations, Operations.Create(input, newId, now));
  }

  lemma {:induction false} ChangingKeepsSound(
    operations: Operations.Table, id: OperationId, update: Operations.Update, now: Time)
    requires Sound(operations)
    ensures Sound(Operations.Served(operations, Operations.Change(id, update, now)).0)
  {
    hide ActionKey, IsProvisionKey;
    Operations.ChangeKeepsKeys(operations, Operations.Change(id, update, now));
    if id in operations {
      assert KeyFits(operations[id]);
    }
  }

  lemma {:induction false} StepKeepsSound(r: Records, e: Event)
    requires Sound(r.operations) && Possible(e)
    ensures Sound(Step(r, e).operations)
  {
    hide Sound, ActionKey, ProvisionKey, Operations.Served;
    match e
    case Act(a) => CreatingKeepsSound(r.operations, ActionInput(a.kind, a.instance), a.newId, a.now);
    case Provision(order, item, unit, subscription, newId, now) =>
      var input := Operations.Input(
        "provision_instance", subscription, ProvisionKey(order, item, unit), true, MAX_RETRIES);
      assert IsProvisionKey(input.key);
      CreatingKeepsSound(r.operations, input, newId, now);
    case Change(id, update, now) => ChangingKeepsSound(r.operations, id, update, now);
    case _ =>
  }

  lemma {:induction false} AfterKeepsSound(r: Records, events: seq<Event>)
    requires Sound(r.operations) && forall e :: e in events ==> Possible(e)
    ensures Sound(After(r, events).operations)
  {
    hide Sound, Step;
    if events != [] {
      AfterKeepsSound(r, events[..|events| - 1]);
      assert Possible(events[|events| - 1]);
      StepKeepsSound(After(r, events[..|events| - 1]), events[|events| - 1]);
    }
  }

  function OperationsOf(operations: Operations.Table, kind: string, instance: InstanceId): set<OperationId> {
    set id | id in operations && operations[id].kind == kind && operations[id].resource == instance
  }

  lemma {:induction false} StepKeepsOperations(r: Records, e: Event, kind: string, instance: InstanceId)
    ensures OperationsOf(r.operations, kind, instance) <= OperationsOf(Step(r, e).operations, kind, instance)
  {
    hide ActionKey, ProvisionKey, Operations.KeyTaken, Blocked;
  }

  lemma {:induction false} AtMostOne(operations: Operations.Table, kind: string, instance: InstanceId)
    requires Sound(operations) && kind in KINDS
    ensures forall i, j ::
      i in OperationsOf(operations, kind, instance) && j in OperationsOf(operations, kind, instance) ==> i == j
  {
    hide ActionKey, IsProvisionKey;
    forall i, j | i in OperationsOf(operations, kind, instance) && j in OperationsOf(operations, kind, instance)
      ensures i == j
    {
      assert KeyFits(operations[i]) && KeyFits(operations[j]);
    }
  }

  /** An action's key is taken exactly when there is an operation of its kind on its instance. */
  lemma {:induction false} TakenExactlyWhenThere(
    operations: Operations.Table, kind: string, instance: InstanceId, id: OperationId)
    requires Sound(operations) && kind in KINDS && IsUuid(instance)
    ensures Operations.Holds(operations, id, ActionKey(kind, instance))
      <==> id in OperationsOf(operations, kind, instance)
  {
    hide ActionKey, ProvisionKey;
    if id in operations {
      var op := operations[id];
      assert KeyFits(op);
      if op.kind in KINDS {
        ActionKeyInjective(kind, instance, op.kind, op.resource);
      } else {
        var order: OrderId, item: nat, unit: nat :| op.key == ProvisionKey(order, item, unit);
        ActionIsNoProvision(kind, instance, order, item, unit);
      }
    }
  }

  /** The request has been given an operation of its own, which is queued. */
  ghost predicate RunsAnew(r: Records, a: Action) {
    var (r', answer) := Handled(r, a);
    && answer.Accepted? && answer.operation !in r.operations
    && r'.operations == r.operations[answer.operation := Operations.Created(ActionInput(a.kind, a.instance), a.now)]
  }

  /** The request has been given an operation that was there before and that is not in progress; nothing will carry it
      out, while the instance shows what was asked for. */
  ghost predicate ShownOnly(r: Records, a: Action) {
    var (r', answer) := Handled(r, a);
    && answer.Accepted? && answer.operation in r.operations && r'.operations == r.operations
    && (a.listed ==> !Blocks(r.operations[answer.operation], a.instance))
    && (a.stored ==> r'.instances[a.instance].desired == Desired(a.kind))
  }

  /** A request that is accepted is given an operation of its own exactly when there is none of its kind on its instance
      yet; otherwise it is given that one. */
  lemma {:induction false} AcceptedRunsExactlyWhenFirst(r: Records, events: seq<Event>, a: Action)
    requires r.operations == map[] && (forall e :: e in events ==> Possible(e)) && Possible(Act(a))
    requires Handled(After(r, events), a).1.Accepted?
    ensures var s := After(r, events);
      var (of, o) := (OperationsOf(s.operations, a.kind, a.instance), Handled(s, a).1.operation);
      && (of == {} || of == {o})
      && (RunsAnew(s, a) <==> of == {})
      && (ShownOnly(s, a) <==> of == {o})
  {
    AfterKeepsSound(r, events);
    var s := After(r, events);
    var of, key := OperationsOf(s.operations, a.kind, a.instance), ActionKey(a.kind, a.instance);
    hide Sound, ActionKey, KeyFits, After;
    forall id ensures Operations.Holds(s.operations, id, key) <==> id in of {
      TakenExactlyWhenThere(s.operations, a.kind, a.instance, id);
    }
    AtMostOne(s.operations, a.kind, a.instance);
    KeyIsNotEmpty(a.kind, a.instance);
    if Operations.KeyTaken(s.operations, key) {
      var o := Operations.Holder(s.operations, key);
      assert of == {o};
    }
  }

  lemma {:induction false} KeyIsNotEmpty(kind: string, instance: InstanceId)
    ensures ActionKey(kind, instance) != ""
  {
  }

  /** However often an action is requested for an instance and whatever happens in between, there is never more than one
      operation of its kind for it, and the first one stays it: every later request of the kind that is accepted is
      given that one and runs nothing. */
  lemma {:induction false} EachKindRunsOnceForEver(
    r: Records, events: seq<Event>, a: Action, between: seq<Event>, b: Action)
    requires r.operations == map[] && (forall e :: e in events + [Act(a)] + between ==> Possible(e)) && Possible(Act(b))
    requires a.kind == b.kind && a.instance == b.instance
    requires Handled(After(r, events), a).1.Accepted?
    requires Handled(After(r, events + [Act(a)] + between), b).1.Accepted?
    ensures Handled(After(r, events + [Act(a)] + between), b).1 == Handled(After(r, events), a).1
    ensures ShownOnly(After(r, events + [Act(a)] + between), b)
  {
    hide Possible, Handled, OperationsOf, RunsAnew, ShownOnly;
    var first, all := events + [Act(a)], events + [Act(a)] + between;
    assert first[..|first| - 1] == events;
    forall e | e in events || e == Act(a) ensures Possible(e) {
      assert e in all;
    }
    AcceptedRunsExactlyWhenFirst(r, events, a);
    AcceptedIsThere(After(r, events), a);
    AfterKeepsOperations(r, first, between, a.kind, a.instance);
    AcceptedRunsExactlyWhenFirst(r, all, b);
  }

  lemma {:induction false} AcceptedIsThere(r: Records, a: Action)
    requires Handled(r, a).1.Accepted?
    requires RunsAnew(r, a) || Handled(r, a).1.operation in OperationsOf(r.operations, a.kind, a.instance)
    ensures Handled(r, a).1.operation in OperationsOf(Handled(r, a).0.operations, a.kind, a.instance)
  {
    StepKeepsOperations(r, Act(a), a.kind, a.instance);
  }

  lemma {:induction false} AfterKeepsOperations(
    r: Records, events: seq<Event>, more: seq<Event>, kind: string, instance: InstanceId)
    ensures OperationsOf(After(r, events).operations, kind, instance)
      <= OperationsOf(After(r, events + more).operations, kind, instance)
  {
    if more == [] {
      assert events + more == events;
    } else {
      assert (events + more)[..|events + more| - 1] == events + more[..|more| - 1];
      AfterKeepsOperations(r, events, more[..|more| - 1], kind, instance);
      StepKeepsOperations(After(r, events + more[..|more| - 1]), (events + more)[|events + more| - 1], kind, instance);
    }
  }

  // ---- The handler ----

  class InstanceHandler {
    const service: Operations.Service
    var instances: Table

    ghost function Snapshot(): Records
      reads this, service
    {
      Records(service.operations, instances)
    }

    constructor (service: Operations.Service, instances: Table)
      ensures this.service == service && this.instances == instances
    {
      this.service, this.instances := service, instances;
    }

    method HasActiveOperation(instance: InstanceId) returns (active: bool)
      ensures active == Blocked(service.operations, instance)
    {
      var rest := service.operations.Keys;
      while rest != {}
        invariant rest <= service.operations.Keys
        invariant forall id :: id in service.operations && Blocks(service.operations[id], instance) ==> id in rest
      {
        var id :| id in rest;
        if Blocks(service.operations[id], instance) {
          return true;
        }
        rest := rest - {id};
      }
      return false;
    }

    method HandleAction(a: Action) returns (answer: Answer)
      requires Operations.UniqueKeys(service.operations)
      modifies this, service
      ensures (Snapshot(), answer) == Handled(old(Snapshot()), a)
    {
      if a.instance !in instances || instances[a.instance].deleted || !a.owned {
        return NotFound;
      }
      var instance := instances[a.instance];
      if a.listed {
        var active := HasActiveOperation(a.instance);
        if active {
          return Conflict;
        }
      }
      var reply := service.CreateOperation(ActionInput(a.kind, a.instance), a.newId, a.now);
      if reply.UniqueViolation? {
        return InternalError;
      }
      if a.stored {
        instances := instances[a.instance := instance.WithStates(Desired(a.kind), instance.observed, None)];
      }
      return Accepted(reply.id);
    }
  }
}
