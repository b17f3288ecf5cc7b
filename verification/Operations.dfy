/** Operation rows and the service that creates and updates them. */
module Operations {
  import opened Options
  import opened Identifiers

  datatype Status =
    | Queued | Running | WaitingProvider | WaitingResource | Verifying | Retrying | Succeeded | Failed | Cancelled

  datatype Operation = Operation(
    kind: string,
    resource: nat,
    status: Status,
    phase: string,
    progress: int,
    key: string,
    retryable: bool,
    retryCount: int,
    maxRetries: int,
    error: Option<string>,
    startedAt: Option<Time>,
    finishedAt: Option<Time>,
    updatedAt: Time
  )

  datatype Input = Input(kind: string, resource: nat, key: string, retryable: bool, maxRetries: int)

  type Table = map<OperationId, Operation>

  datatype Reply = Ok(id: OperationId) | UniqueViolation

  // ---- The statements on one row ----

  function Created(input: Input, now: Time): Operation {
    Operation(input.kind, input.resource, Queued, "queued", 0, input.key, input.retryable, 0, input.maxRetries, None,
      None, None, now)
  }

  function Clamped(progress: int): int {
    if progress > 100 then 100 else if progress < 0 then 0 else progress
  }

  datatype Update =
    | Progress(status: Status, phase: string, progress: int, startedAt: Option<Time>)
    | Complete
    | Fail(code: string)
  {
    function Row(op: Operation, now: Time): Operation {
      match this
      case Progress(status, phase, progress, startedAt) =>
        op.(status := status, phase := phase, progress := Clamped(progress),
            startedAt := if op.startedAt.Some? then op.startedAt else startedAt, updatedAt := now)
      case Complete => op.(status := Succeeded, phase := "completed", progress := 100, finishedAt := Some(now),
        updatedAt := now)
      case Fail(code) => op.(status := Failed, error := Some(code), finishedAt := Some(now), updatedAt := now)
    }
  }

  // ---- The service ----

  datatype Call =
    | Create(input: Input, id: OperationId, now: Time)
    | Change(id: OperationId, update: Update, now: Time)

  ghost predicate KeyTaken(table: Table, key: string) {
    exists id :: Holds(table, id, key)
  }

  ghost predicate Holds(table: Table, id: OperationId, key: string) {
    id in table && table[id].key == key
  }

  /** What the unique index on the idempotency key enforces. */
  ghost predicate UniqueKeys(table: Table) {
    forall i, j :: i in table && j in table && table[i].key == table[j].key ==> i == j
  }

  ghost function Holder(table: Table, key: string): OperationId
    requires KeyTaken(table, key)
  {
    var id :| Holds(table, id, key);
    id
  }

  /** The table and the reply after one call. */
  ghost function Served(table: Table, call: Call): (Table, Reply) {
    match call
    case Create(input, id, now) =>
      if KeyTaken(table, input.key) && input.key != "" then (table, Ok(Holder(table, input.key)))
      else if KeyTaken(table, input.key) || id in table then (table, UniqueViolation)
      else (table[id := Created(input, now)], Ok(id))
    case Change(id, update, now) =>
      (if id in table then table[id := update.Row(table[id], now)] else table, Ok(id))
  }

  ghost function ServedAll(table: Table, calls: seq<Call>): Table {
    if calls == [] then table
    else Served(ServedAll(table, calls[..|calls| - 1]), calls[|calls| - 1]).0
  }

  /** The columns that no statement writes once the row exists. */
  ghost predicate SameOrder(before: Operation, after: Operation) {
    && before.kind == after.kind && before.resource == after.resource && before.key == after.key
    && before.retryable == after.retryable
    && before.retryCount == after.retryCount && before.maxRetries == after.maxRetries
  }

  ghost predicate ProgressInRange(table: Table) {
    forall id :: id in table ==> 0 <= table[id].progress <= 100
  }

  lemma {:induction false} CreateKeepsKeys(table: Table, call: Call)
    requires UniqueKeys(table) && call.Create?
    ensures UniqueKeys(Served(table, call).0)
  {
    forall id | id in table && table[id].key == call.input.key ensures Holds(table, id, call.input.key) {
    }
  }

  lemma {:induction false} ChangeKeepsKeys(table: Table, call: Call)
    requires UniqueKeys(table) && call.Change?
    ensures UniqueKeys(Served(table, call).0)
  {
  }

  lemma {:induction false} CallKeepsOrders(table: Table, call: Call)
    requires ProgressInRange(table)
    ensures var table' := Served(table, call).0;
      && ProgressInRange(table')
      && (forall id :: id in table ==> id in table' && SameOrder(table[id], table'[id]))
      && (forall id :: id in table' && id !in table ==> table'[id].retryCount == 0)
  {
  }

  /** Over any calls, no row goes away, none changes its order columns, in particular its retry count, and no key is
      ever used twice. */
  lemma {:induction false} CallsKeepOrders(table: Table, calls: seq<Call>)
    requires UniqueKeys(table) && ProgressInRange(table)
    ensures var table' := ServedAll(table, calls);
      && UniqueKeys(table') && ProgressInRange(table')
      && (forall id :: id in table ==> id in table' && SameOrder(table[id], table'[id]))
      && (forall id :: id in table' && id !in table ==> table'[id].retryCount == 0)
  {
    if calls != [] {
      var before, call := ServedAll(table, calls[..|calls| - 1]), calls[|calls| - 1];
      CallsKeepOrders(table, calls[..|calls| - 1]);
      CallKeepsOrders(before, call);
      if call.Create? {
        CreateKeepsKeys(before, call);
      } else {
        ChangeKeepsKeys(before, call);
      }
    }
  }

  /** Once an order has been accepted under a key, asking again under that key, after any calls and whatever is then
      asked for, gives the same operation and creates nothing. */
  lemma {:induction false} SameKeySameOperation(
    table: Table, first: Input, id: OperationId, now: Time, between: seq<Call>, again: Input, id': OperationId,
    now': Time)
    requires UniqueKeys(table) && ProgressInRange(table)
    requires first.key == again.key != ""
    requires Served(table, Create(first, id, now)).1.Ok?
    ensures var (after, reply) := Served(table, Create(first, id, now));
      var later := ServedAll(after, between);
      Served(later, Create(again, id', now')) == (later, reply)
  {
    var (after, reply) := Served(table, Create(first, id, now));
    var later := ServedAll(after, between);
    assert Holds(after, reply.id, first.key);
    CreateKeepsKeys(table, Create(first, id, now));
    CallKeepsOrders(table, Create(first, id, now));
    CallsKeepOrders(after, between);
    assert Holds(later, reply.id, first.key);
  }

  /** The empty key is not looked up but is indexed all the same: after the first operation without a key, creating
      another one without a key fails. */
  lemma {:induction false} EmptyKeyServesOnce(
    table: Table, calls: seq<Call>, first: OperationId, input: Input, id: OperationId, now: Time)
    requires UniqueKeys(table) && ProgressInRange(table)
    requires first in table && table[first].key == "" && input.key == ""
    ensures Served(ServedAll(table, calls), Create(input, id, now)) == (ServedAll(table, calls), UniqueViolation)
  {
    CallsKeepOrders(table, calls);
    assert Holds(ServedAll(table, calls), first, "");
  }

  class Service {
    var operations: Table

    constructor ()
      ensures operations == map[]
    {
      operations := map[];
    }

    method GetOperationByIdempotencyKey(key: string) returns (found: Option<OperationId>)
      ensures found.None? ==> !KeyTaken(operations, key)
      ensures found.Some? ==> Holds(operations, found.value, key)
    {
      var rest := operations.Keys;
      while rest != {}
        invariant rest <= operations.Keys
        invariant forall id :: id in operations && operations[id].key == key ==> id in rest
      {
        var id :| id in rest;
        if operations[id].key == key {
          return Some(id);
        }
        rest := rest - {id};
      }
      return None;
    }

    method CreateOperation(input: Input, id: OperationId, now: Time) returns (reply: Reply)
      requires UniqueKeys(operations)
      modifies this
      ensures (operations, reply) == Served(old(operations), Create(input, id, now))
    {
      var existing := GetOperationByIdempotencyKey(input.key);
      if input.key != "" && existing.Some? {
        return Ok(existing.value);
      }
      if existing.Some? || id in operations {
        return UniqueViolation;
      }
      operations := operations[id := Created(input, now)];
      return Ok(id);
    }

    method UpdateProgress(
      id: OperationId, status: Status, phase: string, progress: int, startedAt: Option<Time>, now: Time)
      modifies this
      ensures operations == Served(old(operations), Change(id, Progress(status, phase, progress, startedAt), now)).0
    {
      var clamped := progress;
      if clamped > 100 {
        clamped := 100;
      }
      if clamped < 0 {
        clamped := 0;
      }
      if id in operations {
        var op := operations[id];
        operations := operations[id := op.(
          status := status, phase := phase, progress := clamped,
          startedAt := if op.startedAt.Some? then op.startedAt else startedAt, updatedAt := now)];
      }
    }

    method CompleteOperation(id: OperationId, now: Time)
      modifies this
      ensures operations == Served(old(operations), Change(id, Complete, now)).0
    {
      if id in operations {
        operations := operations[id := operations[id].(
          status := Succeeded, phase := "completed", progress := 100, finishedAt := Some(now), updatedAt := now)];
      }
    }

    method FailOperation(id: OperationId, code: string, now: Time)
      modifies this
      ensures operations == Served(old(operations), Change(id, Fail(code), now)).0
    {
      if id in operations {
        operations := operations[id := operations[id].(
          status := Failed, error := Some(code), finishedAt := Some(now), updatedAt := now)];
      }
    }
  }
}
