/** What a caller of the allocator sees, in the columns of its rows alone; its transactions as runs of their statements;
    and what holds of a node at the moment at which a reservation on it is committed to the database. */
module AllocatorLaws {
  import opened Options
  import opened Identifiers
  import opened Resources
  import opened Allocator
  import I = Interleaving

  /** What is left of one dimension, and nothing where more is taken than there is. */
  function Left(total: int, alloc: int, reserved: int): nat {
    if total - alloc - reserved < 0 then 0 else total - alloc - reserved
  }

  predicate HasRoom(node: Node, amount: Resources) {
    && amount.cpu <= Left(node.total.cpu, node.alloc.cpu, node.reserved.cpu)
    && amount.memory <= Left(node.total.memory, node.alloc.memory, node.reserved.memory)
    && amount.disk <= Left(node.total.disk, node.alloc.disk, node.reserved.disk)
  }

  /** The node is there and active and has room for the amount. */
  predicate Takes(db: Database, node: NodeId, amount: Resources) {
    node in db.nodes && db.nodes[node].status == Active && HasRoom(db.nodes[node], amount)
  }

  /** The node is there, but it is not active or has no room for the amount. */
  predicate FullOrOffline(db: Database, node: NodeId, amount: Resources) {
    node in db.nodes && (db.nodes[node].status != Active || !HasRoom(db.nodes[node], amount))
  }

  /** Exactly when a reservation gets which answer. */
  lemma {:induction false} ReserveAnswersExactly(db: Database, id: ReservationId, request: Request)
    ensures var (reply, known) := (Apply(db, Reserve(id, request)).1, request.node in db.nodes);
      && (reply == NodeNotFound <==> !known)
      && (reply == NodeOffline <==> known && db.nodes[request.node].status != Active)
      && (reply == ResourceExhausted <==>
        known && db.nodes[request.node].status == Active && !HasRoom(db.nodes[request.node], request.amount))
      && (reply == DuplicateKey <==> Takes(db, request.node, request.amount) && id in db.reservations)
      && (reply == Done <==> Takes(db, request.node, request.amount) && id !in db.reservations)
  {
  }

  /** The amounts of a node's three reserved counters, and of its three allocated ones, have moved, and nothing else of
      it. */
  predicate CountersMoved(node: Node, node': Node, reserved: Resources, alloc: Resources) {
    && node'.reserved.cpu == node.reserved.cpu + reserved.cpu
    && node'.reserved.memory == node.reserved.memory + reserved.memory
    && node'.reserved.disk == node.reserved.disk + reserved.disk
    && node'.alloc.cpu == node.alloc.cpu + alloc.cpu
    && node'.alloc.memory == node.alloc.memory + alloc.memory
    && node'.alloc.disk == node.alloc.disk + alloc.disk
    && node'.status == node.status && node'.total == node.total
    && node'.weight == node.weight && node'.lastSeen == node.lastSeen
  }

  /** Nothing changes but one node's counters and one row of reservations. */
  ghost predicate OnlyOne(db: Database, db': Database, node: NodeId, id: ReservationId) {
    && db'.nodes.Keys == db.nodes.Keys
    && (forall n :: n in db.nodes && n != node ==> db'.nodes[n] == db.nodes[n])
    && (forall r :: r in db.reservations && r != id ==>
      r in db'.reservations && db'.reservations[r] == db.reservations[r])
    && (forall r :: r in db'.reservations && r != id ==> r in db.reservations)
  }

  /** A reservation that is granted enters one row and adds its amount to its node's reserved counters. */
  lemma {:induction false} ReserveWritesExactly(db: Database, id: ReservationId, request: Request)
    requires Apply(db, Reserve(id, request)).1 == Done
    ensures var db' := Apply(db, Reserve(id, request)).0;
      && request.node in db.nodes && OnlyOne(db, db', request.node, id)
      && CountersMoved(db.nodes[request.node], db'.nodes[request.node], request.amount, Resources(0, 0, 0))
      && id in db'.reservations
      && var row := db'.reservations[id];
      && row.node == request.node && row.operation == request.operation && row.status == Reserved
      && row.amount.cpu == request.amount.cpu && row.amount.memory == request.amount.memory
      && row.amount.disk == request.amount.disk && row.expiresAt == request.expiresAt
  {
  }

  predicate IsReserved(db: Database, id: ReservationId) {
    id in db.reservations && db.reservations[id].status == Reserved
  }

  /** A reserved row is committed, or released, by one transaction: its status changes and its amount leaves its node's
      reserved counters, for the allocated ones if it is committed. */
  lemma {:induction false} ResolvesExactlyTheReserved(db: Database, id: ReservationId, commits: bool)
    requires WellFormed(db)
    ensures var (db', reply) := Apply(db, if commits then Commit(id) else Release(id));
      && (reply == ReservationNotFound <==> id !in db.reservations)
      && (reply == InvalidReservationStatus <==> commits && id in db.reservations && !IsReserved(db, id))
      && (reply == Done <==> id in db.reservations && (commits ==> IsReserved(db, id)))
      && (!IsReserved(db, id) ==> db' == db)
      && (IsReserved(db, id) ==>
        var (row, none) := (db.reservations[id], Resources(0, 0, 0));
        var taken := Resources(-row.amount.cpu, -row.amount.memory, -row.amount.disk);
        && OnlyOne(db, db', row.node, id)
        && CountersMoved(db.nodes[row.node], db'.nodes[row.node], taken, if commits then row.amount else none)
        && id in db'.reservations
        && db'.reservations[id] == row.(status := if commits then Committed else Released))
  {
  }

  // ---- Each transaction is a run of its statements ----

  lemma {:induction false} RunNext(s: I.State, events: seq<I.Event>, e: I.Event)
    ensures var m := I.Run(s, events);
      I.Run(s, events + [e]) == if m.Some? && I.Enabled(m.value, e) then Some(I.Step(m.value, e)) else None
  {
  }

  /** With nobody else at work, a reservation begins, locks its node and inserts its row, ... */
  function InsertEvents(id: ReservationId, request: Request): seq<I.Event> {
    [] + [I.Begin(0, I.Reserving(id, request))] + [I.LockNode(0)] + [I.InsertRow(0)]
  }

  /** ... and then updates the counters and commits. */
  function ReserveEvents(id: ReservationId, request: Request): seq<I.Event> {
    InsertEvents(id, request) + [I.WriteNode(0)] + [I.CommitSession(0)]
  }

  function Alone(db: Database, task: I.Task, stage: I.Stage, history: I.History): I.State {
    I.State(db, map[0 := I.Session(task, stage)], history)
  }

  lemma {:induction false} BeginIsARun(db: Database, task: I.Task, history: I.History)
    requires I.Enabled(I.State(db, map[], history), I.Begin(0, task))
    ensures I.Run(I.State(db, map[], history), [] + [I.Begin(0, task)]) == Some(Alone(db, task, I.Begun, history))
  {
    var s := I.State(db, map[], history);
    RunOfNothing(s);
    RunNext(s, [], I.Begin(0, task));
    assert I.Step(s, I.Begin(0, task)).sessions == map[0 := I.Session(task, I.Begun)];
  }

  lemma {:induction false} LockIsARun(db: Database, id: ReservationId, request: Request, history: I.History)
    requires request.amount.NonNegative()
    ensures var task := I.Reserving(id, request);
      I.Run(I.State(db, map[], history), [] + [I.Begin(0, task)] + [I.LockNode(0)]) ==
        if request.node in db.nodes then Some(Alone(db, task, I.NodeLocked(db.nodes[request.node]), history)) else None
  {
    hide I.Run;
    var s, task := I.State(db, map[], history), I.Reserving(id, request);
    BeginIsARun(db, task, history);
    RunNext(s, [] + [I.Begin(0, task)], I.LockNode(0));
    if request.node in db.nodes {
      var begun := Alone(db, task, I.Begun, history);
      assert I.Enabled(begun, I.LockNode(0));
      assert I.Step(begun, I.LockNode(0)).sessions == map[0 := I.Session(task, I.NodeLocked(db.nodes[request.node]))];
    }
  }

  lemma {:induction false} InsertIsARun(db: Database, id: ReservationId, request: Request, history: I.History)
    requires request.amount.NonNegative()
    ensures I.Run(I.State(db, map[], history), InsertEvents(id, request)) ==
      if Takes(db, request.node, request.amount) && id !in db.reservations then
        Some(Alone(db, I.Reserving(id, request), I.RowInserted, history))
      else None
  {
    hide I.Run;
    var s, task := I.State(db, map[], history), I.Reserving(id, request);
    LockIsARun(db, id, request, history);
    RunNext(s, [] + [I.Begin(0, task)] + [I.LockNode(0)], I.InsertRow(0));
    if request.node in db.nodes {
      var locked := Alone(db, task, I.NodeLocked(db.nodes[request.node]), history);
      InsertEnabled(db, id, request, history);
      if I.Enabled(locked, I.InsertRow(0)) {
        assert I.Step(locked, I.InsertRow(0)).sessions == map[0 := I.Session(task, I.RowInserted)];
      }
    }
  }

  lemma {:induction false} InsertEnabled(db: Database, id: ReservationId, request: Request, history: I.History)
    requires request.node in db.nodes
    ensures I.Enabled(
      Alone(db, I.Reserving(id, request), I.NodeLocked(db.nodes[request.node]), history), I.InsertRow(0))
      <==> Takes(db, request.node, request.amount) && id !in db.reservations
  {
  }

  /** A reservation is granted exactly when that run is possible, which then ends with the same tables. */
  lemma {:induction false} ReserveIsARun(db: Database, id: ReservationId, request: Request, history: I.History)
    requires request.amount.NonNegative()
    ensures var end := I.Run(I.State(db, map[], history), ReserveEvents(id, request));
      && (Apply(db, Reserve(id, request)).1 == Done <==> end.Some?)
      && (end.Some? ==> end.value.db == Apply(db, Reserve(id, request)).0 && end.value.sessions == map[])
  {
    hide InsertEvents, I.Run;
    ReserveAnswersExactly(db, id, request);
    InsertIsARun(db, id, request, history);
    var s, inserted := I.State(db, map[], history), InsertEvents(id, request);
    RunNext(s, inserted, I.WriteNode(0));
    RunNext(s, inserted + [I.WriteNode(0)], I.CommitSession(0));
    if I.Run(s, inserted).Some? {
      var m := I.Run(s, inserted).value;
      var written := I.Step(m, I.WriteNode(0));
      assert I.Enabled(written, I.CommitSession(0));
      assert I.Step(written, I.CommitSession(0)).sessions == map[];
    }
  }

  /** A commit or a release reads its row, updates the counters and the status, and commits. */
  function ResolveEvents(id: ReservationId, target: ReservationStatus): seq<I.Event> {
    [] + [I.Begin(0, I.Resolving(id, target))] + [I.ReadRow(0)] + [I.WriteCounters(0)] + [I.WriteStatus(0)]
    + [I.CommitSession(0)]
  }

  lemma {:induction false} ReadIsARun(db: Database, id: ReservationId, target: ReservationStatus, history: I.History)
    requires IsReserved(db, id) && target != Reserved
    ensures I.Run(I.State(db, map[], history), [] + [I.Begin(0, I.Resolving(id, target))] + [I.ReadRow(0)])
      == Some(Alone(db, I.Resolving(id, target), I.RowRead(db.reservations[id]), history))
  {
    hide I.Run;
    var s, task := I.State(db, map[], history), I.Resolving(id, target);
    BeginIsARun(db, task, history);
    RunNext(s, [] + [I.Begin(0, task)], I.ReadRow(0));
    assert I.Step(Alone(db, task, I.Begun, history), I.ReadRow(0)).sessions
      == map[0 := I.Session(task, I.RowRead(db.reservations[id]))];
  }

  /** What it does to a reserved row is such a run, too. */
  lemma {:induction false} ResolveIsARun(db: Database, id: ReservationId, commits: bool, history: I.History)
    requires WellFormed(db) && IsReserved(db, id)
    ensures var end := I.Run(I.State(db, map[], history), ResolveEvents(id, if commits then Committed else Released));
      && end.Some? && end.value.sessions == map[]
      && end.value.db == Apply(db, if commits then Commit(id) else Release(id)).0
  {
    hide I.Run;
    var s, target := I.State(db, map[], history), if commits then Committed else Released;
    ReadIsARun(db, id, target, history);
    var read := [] + [I.Begin(0, I.Resolving(id, target))] + [I.ReadRow(0)];
    RunNext(s, read, I.WriteCounters(0));
    var counted := I.Step(I.Run(s, read).value, I.WriteCounters(0));
    RunNext(s, read + [I.WriteCounters(0)], I.WriteStatus(0));
    var written := I.Step(counted, I.WriteStatus(0));
    RunNext(s, read + [I.WriteCounters(0)] + [I.WriteStatus(0)], I.CommitSession(0));
    assert I.Step(written, I.CommitSession(0)).sessions == map[];
  }

  lemma {:induction false} RunOfNothing(s: I.State)
    ensures I.Run(s, []) == Some(s)
  {
  }

  // ---- Reservations are only ever made on nodes that are active at that moment ----

  /** A transaction that has inserted its row has found its node active. */
  ghost predicate InsertedOnActive(s: I.State) {
    forall t :: t in s.sessions && (s.sessions[t].stage.RowInserted? || s.sessions[t].stage.NodeWritten?) ==>
      && s.sessions[t].task.Reserving? && s.sessions[t].task.request.node in s.db.nodes
      && s.db.nodes[s.sessions[t].task.request.node].status == Active
  }

  lemma {:induction false} StepKeepsInsertedOnActive(s: I.State, e: I.Event)
    requires I.Sound(s) && InsertedOnActive(s) && I.Enabled(s, e)
    ensures InsertedOnActive(I.Step(s, e))
  {
  }

  lemma {:induction false} RunKeepsInsertedOnActive(s: I.State, events: seq<I.Event>)
    requires s.sessions == map[] && WellFormed(s.db) && I.Run(s, events).Some?
    ensures I.Sound(I.Run(s, events).value) && InsertedOnActive(I.Run(s, events).value)
  {
    if events != [] {
      RunKeepsInsertedOnActive(s, events[..|events| - 1]);
      hide I.Sound, InsertedOnActive, I.Enabled, I.Step;
      var m, e := I.Run(s, events[..|events| - 1]).value, events[|events| - 1];
      I.StepKeepsSound(m, e);
      StepKeepsInsertedOnActive(m, e);
    }
  }

  /** In every interleaving, when a transaction that reserves commits, its node is active and has room for the amount at
      that very moment, whoever may have taken it offline before or since the scheduler listed it. */
  lemma {:induction false} ReservesOnlyOnActive(s: I.State, events: seq<I.Event>, t: I.SessionId)
    requires s.sessions == map[] && WellFormed(s.db) && I.Run(s, events).Some?
    requires var m := I.Run(s, events).value; I.Enabled(m, I.CommitSession(t)) && m.sessions[t].task.Reserving?
    ensures var m := I.Run(s, events).value;
      var (id, request) := (m.sessions[t].task.id, m.sessions[t].task.request);
      && Takes(m.db, request.node, request.amount) && id !in m.db.reservations
      && IsReserved(I.Step(m, I.CommitSession(t)).db, id)
  {
    hide I.Run;
    RunKeepsInsertedOnActive(s, events);
    var m := I.Run(s, events).value;
    assert I.Consistent(m.db, m.sessions[t]);
    ReserveAnswersExactly(m.db, m.sessions[t].task.id, m.sessions[t].task.request);
  }
}
