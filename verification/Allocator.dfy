/** The capacity allocator: node counters and resource reservations, each transaction taken as one step. */
module Allocator {
  import opened Options
  import opened Identifiers
  import opened Resources
  import opened Totals

  datatype NodeStatus = Active | Offline | OtherStatus(name: string)

  datatype Node = Node(
    status: NodeStatus,
    total: Resources,
    alloc: Resources,
    reserved: Resources,
    weight: int,
    lastSeen: Option<Time>
  ) {
    /** What is neither allocated nor reserved, each dimension clamped at zero. */
    function Available(): Resources {
      var left := total.Minus(alloc.Plus(reserved));
      Resources(
        if left.cpu < 0 then 0 else left.cpu,
        if left.memory < 0 then 0 else left.memory,
        if left.disk < 0 then 0 else left.disk)
    }

    predicate Fits() {
      alloc.Plus(reserved).AtMost(total)
    }
  }

  datatype ReservationStatus = Reserved | Committed | Released

  datatype Reservation = Reservation(
    node: NodeId,
    operation: OperationId,
    amount: Resources,
    status: ReservationStatus,
    expiresAt: Time
  )

  datatype Request = Request(node: NodeId, operation: OperationId, amount: Resources, expiresAt: Time)

  datatype Database = Database(nodes: map<NodeId, Node>, reservations: map<ReservationId, Reservation>)

  /** DuplicateKey is the failed insert of a reservation whose id is taken. */
  datatype Outcome =
    | Done
    | NodeNotFound
    | NodeOffline
    | ResourceExhausted
    | DuplicateKey
    | ReservationNotFound
    | InvalidReservationStatus

  datatype Transaction =
    | Reserve(id: ReservationId, request: Request)
    | Commit(id: ReservationId)
    | Release(id: ReservationId)
    | SetStatus(node: NodeId, status: NodeStatus)
  {
    /** What a caller of the allocator promises: it asks for no negative amount. */
    predicate WellFormed() {
      Reserve? ==> request.amount.NonNegative()
    }
  }

  /** The three UPDATE statements on a node's row. */
  datatype NodeUpdate =
    | ReservationDelta(amount: Resources)
    | CommitAmount(amount: Resources)
    | NewStatus(status: NodeStatus)
  {
    function Row(node: Node): Node {
      match this
      case ReservationDelta(amount) => node.(reserved := node.reserved.Plus(amount))
      case CommitAmount(amount) => node.(reserved := node.reserved.Minus(amount), alloc := node.alloc.Plus(amount))
      case NewStatus(status) => node.(status := status)
    }

    /** An UPDATE of a row that does not exist touches nothing. */
    function Table(nodes: map<NodeId, Node>, id: NodeId): map<NodeId, Node> {
      if id in nodes then nodes[id := Row(nodes[id])] else nodes
    }
  }

  /** The update with which a reservation leaves the reserved state. */
  function Resolution(row: Reservation, status: ReservationStatus): NodeUpdate {
    if status == Committed then CommitAmount(row.amount) else ReservationDelta(row.amount.Negated())
  }

  function Admit(db: Database, id: ReservationId, request: Request): Outcome {
    if request.node !in db.nodes then NodeNotFound
    else
      var node := db.nodes[request.node];
      if node.status != Active then NodeOffline
      else if !request.amount.AtMost(node.Available()) then ResourceExhausted
      else if id in db.reservations then DuplicateKey
      else Done
  }

  function NewReservation(request: Request): Reservation {
    Reservation(request.node, request.operation, request.amount, Reserved, request.expiresAt)
  }

  /** The database once a reservation has been entered. */
  function Admitted(db: Database, id: ReservationId, request: Request): Database {
    Database(ReservationDelta(request.amount).Table(db.nodes, request.node),
      db.reservations[id := NewReservation(request)])
  }

  /** The database once a reserved row has been moved to another status. */
  function Resolved(db: Database, id: ReservationId, status: ReservationStatus): Database
    requires id in db.reservations
  {
    var row := db.reservations[id];
    Database(Resolution(row, status).Table(db.nodes, row.node), db.reservations[id := row.(status := status)])
  }

  /** The database and the answer after one transaction; every failed transaction leaves the database as it was. */
  function Apply(db: Database, transaction: Transaction): (result: (Database, Outcome))
    ensures result.1 != Done ==> result.0 == db
  {
    match transaction
    case Reserve(id, request) =>
      var verdict := Admit(db, id, request);
      if verdict != Done then (db, verdict) else (Admitted(db, id, request), Done)
    case Commit(id) =>
      if id !in db.reservations then (db, ReservationNotFound)
      else if db.reservations[id].status != Reserved then (db, InvalidReservationStatus)
      else (Resolved(db, id, Committed), Done)
    case Release(id) =>
      if id !in db.reservations then (db, ReservationNotFound)
      else if db.reservations[id].status != Reserved then (db, Done) // already resolved
      else (Resolved(db, id, Released), Done)
    case SetStatus(id, status) =>
      (db.(nodes := NewStatus(status).Table(db.nodes, id)), Done)
  }

  ghost function ApplyAll(db: Database, transactions: seq<Transaction>): Database {
    if transactions == [] then db
    else Apply(ApplyAll(db, transactions[..|transactions| - 1]), transactions[|transactions| - 1]).0
  }

  // ---- Conservation and capacity ----

  function Share(row: Reservation, node: NodeId, status: ReservationStatus, d: Dimension): int {
    if row.node == node && row.status == status then row.amount.Of(d) else 0
  }

  function CountedOn(node: NodeId, status: ReservationStatus, d: Dimension): Weight<ReservationId, Reservation> {
    (_, row) => Share(row, node, status, d)
  }

  /** What the rows of a node in a given status add up to. */
  ghost function Held(
    rows: map<ReservationId, Reservation>, node: NodeId, status: ReservationStatus, d: Dimension): int {
    Total(rows, CountedOn(node, status, d))
  }

  /** Every reservation is for a known node and a non-negative amount. */
  ghost predicate WellFormed(db: Database) {
    forall id :: id in db.reservations ==>
      db.reservations[id].node in db.nodes && db.reservations[id].amount.NonNegative()
  }

  /** A node's reserved counters are the sum of its reserved rows, and its allocated counters are what was
      allocated outside the table plus the sum of its committed rows. */
  ghost predicate ConservedAt(db: Database, base: map<NodeId, Resources>, node: NodeId, d: Dimension)
    requires node in db.nodes && node in base
  {
    && db.nodes[node].reserved.Of(d) == Held(db.reservations, node, Reserved, d)
    && db.nodes[node].alloc.Of(d) == base[node].Of(d) + Held(db.reservations, node, Committed, d)
  }

  ghost predicate Conserved(db: Database, base: map<NodeId, Resources>) {
    && db.nodes.Keys == base.Keys
    && forall node, d :: node in db.nodes ==> ConservedAt(db, base, node, d)
  }

  ghost predicate WithinCapacity(db: Database) {
    forall node :: node in db.nodes ==> db.nodes[node].Fits()
  }

  ghost predicate Invariant(db: Database, base: map<NodeId, Resources>) {
    WellFormed(db) && Conserved(db, base) && WithinCapacity(db)
  }

  /** Inserting or changing one row moves each sum by that row's own share. */
  lemma {:induction false} HeldAfterChange(
    rows: map<ReservationId, Reservation>, id: ReservationId, row: Reservation, node: NodeId,
    status: ReservationStatus, d: Dimension)
    ensures Held(rows[id := row], node, status, d) - Share(row, node, status, d)
      == Held(rows, node, status, d) - (if id in rows then Share(rows[id], node, status, d) else 0)
  {
    TotalChange(rows, CountedOn(node, status, d), rows[id := row], CountedOn(node, status, d), id);
  }

  /** A new reserved row and the matching increase of its node's reserved counters keep conservation. */
  lemma {:induction false} AdmittedConserves(
    db: Database, base: map<NodeId, Resources>, id: ReservationId, request: Request, node: NodeId, d: Dimension)
    requires node in db.nodes && node in base && ConservedAt(db, base, node, d)
    requires id !in db.reservations
    ensures ConservedAt(Admitted(db, id, request), base, node, d)
  {
    HeldAfterChange(db.reservations, id, NewReservation(request), node, Reserved, d);
    HeldAfterChange(db.reservations, id, NewReservation(request), node, Committed, d);
  }

  /** Moving a reserved row to committed or released, with the matching update of its node, keeps conservation. */
  lemma {:induction false} ResolvedConserves(
    db: Database, base: map<NodeId, Resources>, id: ReservationId, status: ReservationStatus, node: NodeId,
    d: Dimension)
    requires node in db.nodes && node in base && ConservedAt(db, base, node, d)
    requires status != Reserved && id in db.reservations && db.reservations[id].status == Reserved
    ensures ConservedAt(Resolved(db, id, status), base, node, d)
  {
    var row := db.reservations[id];
    HeldAfterChange(db.reservations, id, row.(status := status), node, Reserved, d);
    HeldAfterChange(db.reservations, id, row.(status := status), node, Committed, d);
  }

  /** A node that passes the check under its lock still fits once the amount is reserved. */
  lemma {:induction false} AdmissionFits(node: Node, amount: Resources)
    requires node.Fits() && amount.AtMost(node.Available())
    ensures ReservationDelta(amount).Row(node).Fits()
  {
  }

  /** Resolving a non-negative row never takes a node beyond its capacity. */
  lemma {:induction false} ResolveFits(db: Database, id: ReservationId, status: ReservationStatus)
    requires WellFormed(db) && WithinCapacity(db) && id in db.reservations
    ensures WellFormed(Resolved(db, id, status)) && WithinCapacity(Resolved(db, id, status))
  {
  }

  /** Entering an admitted request keeps the invariant. */
  lemma {:induction false} AdmittedKeepsInvariant(
    db: Database, base: map<NodeId, Resources>, id: ReservationId, request: Request)
    requires Invariant(db, base) && request.amount.NonNegative()
    requires Admit(db, id, request) == Done
    ensures Invariant(Admitted(db, id, request), base)
  {
    var db' := Admitted(db, id, request);
    forall node, d | node in db'.nodes ensures ConservedAt(db', base, node, d) {
      AdmittedConserves(db, base, id, request, node, d);
    }
    AdmissionFits(db.nodes[request.node], request.amount);
  }

  /** Resolving a reserved row keeps the invariant. */
  lemma {:induction false} ResolvedKeepsInvariant(
    db: Database, base: map<NodeId, Resources>, id: ReservationId, status: ReservationStatus)
    requires Invariant(db, base) && status != Reserved
    requires id in db.reservations && db.reservations[id].status == Reserved
    ensures Invariant(Resolved(db, id, status), base)
  {
    var db' := Resolved(db, id, status);
    forall node, d | node in db'.nodes ensures ConservedAt(db', base, node, d) {
      ResolvedConserves(db, base, id, status, node, d);
    }
    ResolveFits(db, id, status);
  }

  /** A node's status has no part in the accounts. */
  lemma {:induction false} StatusKeepsInvariant(
    db: Database, base: map<NodeId, Resources>, id: NodeId, status: NodeStatus)
    requires Invariant(db, base)
    ensures Invariant(db.(nodes := NewStatus(status).Table(db.nodes, id)), base)
  {
    var db' := db.(nodes := NewStatus(status).Table(db.nodes, id));
    forall node, d | node in db'.nodes ensures ConservedAt(db', base, node, d) {
      assert ConservedAt(db, base, node, d);
    }
  }

  /** Every transaction keeps the counters conserved and every node within its capacity. */
  lemma {:induction false} ApplyKeepsInvariant(db: Database, base: map<NodeId, Resources>, transaction: Transaction)
    requires Invariant(db, base) && transaction.WellFormed()
    ensures Invariant(Apply(db, transaction).0, base)
  {
    if Apply(db, transaction).0 != db {
      match transaction
      case Reserve(id, request) => AdmittedKeepsInvariant(db, base, id, request);
      case Commit(id) => ResolvedKeepsInvariant(db, base, id, Committed);
      case Release(id) => ResolvedKeepsInvariant(db, base, id, Released);
      case SetStatus(id, status) => StatusKeepsInvariant(db, base, id, status);
    }
  }

  /** No sequence of transactions, whatever it asks for, breaks conservation or overcommits a node. */
  lemma {:induction false} RunsNeverOvercommit(
    db: Database, base: map<NodeId, Resources>, transactions: seq<Transaction>)
    requires Invariant(db, base)
    requires forall t :: t in transactions ==> t.WellFormed()
    ensures Invariant(ApplyAll(db, transactions), base)
  {
    if transactions != [] {
      var before := transactions[..|transactions| - 1];
      RunsNeverOvercommit(db, base, before);
      ApplyKeepsInvariant(ApplyAll(db, before), base, transactions[|transactions| - 1]);
    }
  }

  /** A reservation that is taken and then released leaves the counters of every node as they were. */
  lemma {:induction false} ReserveThenRelease(db: Database, id: ReservationId, request: Request)
    requires Apply(db, Reserve(id, request)).1 == Done
    ensures var held := Apply(db, Reserve(id, request)).0;
      var (after, outcome) := Apply(held, Release(id));
      outcome == Done && after.nodes == db.nodes
      && after.reservations == db.reservations[id := NewReservation(request).(status := Released)]
  {
  }

  /** The repository over its two tables. */
  class Store {
    var nodes: map<NodeId, Node>
    var reservations: map<ReservationId, Reservation>

    function Snapshot(): Database
      reads this
    {
      Database(nodes, reservations)
    }

    constructor (nodes: map<NodeId, Node>, reservations: map<ReservationId, Reservation>)
      ensures Snapshot() == Database(nodes, reservations)
    {
      this.nodes, this.reservations := nodes, reservations;
    }

    method ReserveResources(id: ReservationId, request: Request) returns (outcome: Outcome)
      modifies this
      ensures (Snapshot(), outcome) == Apply(old(Snapshot()), Reserve(id, request))
    {
      if request.node !in nodes {
        return NodeNotFound;
      }
      var node := nodes[request.node];
      if node.status != Active {
        return NodeOffline;
      }
      var available := node.Available();
      var amount := request.amount;
      if available.cpu < amount.cpu || available.memory < amount.memory || available.disk < amount.disk {
        return ResourceExhausted;
      }
      if id in reservations {
        return DuplicateKey;
      }
      reservations := reservations[id := Reservation(request.node, request.operation, request.amount, Reserved,
        request.expiresAt)];
      UpdateNodeReservationDelta(request.node, request.amount);
      return Done;
    }

    method CommitReservation(id: ReservationId) returns (outcome: Outcome)
      modifies this
      ensures (Snapshot(), outcome) == Apply(old(Snapshot()), Commit(id))
    {
      if id !in reservations {
        return ReservationNotFound;
      }
      var row := reservations[id];
      if row.status != Reserved {
        return InvalidReservationStatus;
      }
      CommitNodeReservation(row.node, row.amount);
      UpdateReservationStatus(id, Committed);
      return Done;
    }

    method ReleaseReservation(id: ReservationId) returns (outcome: Outcome)
      modifies this
      ensures (Snapshot(), outcome) == Apply(old(Snapshot()), Release(id))
    {
      if id !in reservations {
        return ReservationNotFound;
      }
      var row := reservations[id];
      if row.status != Reserved {
        return Done;
      }
      UpdateNodeReservationDelta(row.node, row.amount.Negated());
      UpdateReservationStatus(id, Released);
      return Done;
    }

    method UpdateNodeStatus(id: NodeId, status: NodeStatus)
      modifies this`nodes
      ensures Snapshot() == Apply(old(Snapshot()), SetStatus(id, status)).0
    {
      if id in nodes {
        nodes := nodes[id := nodes[id].(status := status)];
      }
    }

    method UpdateNodeReservationDelta(id: NodeId, delta: Resources)
      modifies this`nodes
      ensures nodes == ReservationDelta(delta).Table(old(nodes), id)
    {
      if id in nodes {
        var node := nodes[id];
        nodes := nodes[id := node.(reserved := node.reserved.Plus(delta))];
      }
    }

    method CommitNodeReservation(id: NodeId, amount: Resources)
      modifies this`nodes
      ensures nodes == CommitAmount(amount).Table(old(nodes), id)
    {
      if id in nodes {
        var node := nodes[id];
        nodes := nodes[id := node.(reserved := node.reserved.Minus(amount), alloc := node.alloc.Plus(amount))];
      }
    }

    method UpdateReservationStatus(id: ReservationId, status: ReservationStatus)
      requires id in reservations
      modifies this`reservations
      ensures reservations == old(reservations)[id := old(reservations)[id].(status := status)]
    {
      reservations := reservations[id := reservations[id].(status := status)];
    }
  }
}
