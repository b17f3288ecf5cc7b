/** The allocator's transactions taken statement by statement, interleaved under read-committed isolation
    with row locks: a plain SELECT reads the last committed row, SELECT ... FOR UPDATE and UPDATE wait for the
    row's lock and keep it to the end of the transaction, and an UPDATE computes from the last committed row. */
module Interleaving {
  import opened Options
  import opened Identifiers
  import opened Resources
  import opened Allocator

  type SessionId = nat

  datatype Task =
    | Reserving(id: ReservationId, request: Request)
    | Resolving(id: ReservationId, target: ReservationStatus)

  /** How far a transaction has come, with the rows it has read and the rows it has written but not committed. */
  datatype Stage =
    | Begun
    | NodeLocked(seen: Node)
    | RowInserted
    | NodeWritten(newNode: Node)
    | RowRead(row: Reservation)
    | CountersWritten(row: Reservation, newNode: Node)
    | StatusWritten(row: Reservation, newNode: Node, newRow: Reservation)

  datatype Session = Session(task: Task, stage: Stage) {
    /** The node whose row this transaction has locked. */
    predicate HoldsNode(node: NodeId) {
      match stage
      case Begun | RowRead(_) => false
      case NodeLocked(_) | RowInserted | NodeWritten(_) => task.Reserving? && task.request.node == node
      case CountersWritten(row, _) => row.node == node
      case StatusWritten(row, _, _) => row.node == node
    }

    /** The reservation whose row, or whose freshly inserted key, this transaction has locked. */
    predicate HoldsRow(id: ReservationId) {
      (stage.RowInserted? || stage.NodeWritten? || stage.StatusWritten?) && task.id == id
    }
  }

  /** How often the delta of a reservation has been applied to its node, by commits and by releases. */
  datatype Resolutions = Resolutions(commits: nat, releases: nat)

  type History = map<ReservationId, Resolutions>

  function CommitsOf(history: History, id: ReservationId): nat {
    if id in history then history[id].commits else 0
  }

  function ReleasesOf(history: History, id: ReservationId): nat {
    if id in history then history[id].releases else 0
  }

  function ResolutionsOf(history: History, id: ReservationId): nat {
    CommitsOf(history, id) + ReleasesOf(history, id)
  }

  /** `history` only observes: no statement reads it. */
  datatype State = State(db: Database, sessions: map<SessionId, Session>, history: History) {
    ghost predicate NodeIsFree(node: NodeId) {
      forall t :: t in sessions ==> !sessions[t].HoldsNode(node)
    }

    ghost predicate RowIsFree(id: ReservationId) {
      forall t :: t in sessions ==> !sessions[t].HoldsRow(id)
    }

    ghost predicate At(t: SessionId, stage: Stage) {
      t in sessions && sessions[t].stage == stage
    }

    function Advance(t: SessionId, stage: Stage): State
      requires t in sessions
    {
      this.(sessions := sessions[t := sessions[t].(stage := stage)])
    }
  }

  datatype Event =
    | Begin(session: SessionId, task: Task)
    | LockNode(session: SessionId)
    | InsertRow(session: SessionId)
    | WriteNode(session: SessionId)
    | ReadRow(session: SessionId)
    | WriteCounters(session: SessionId)
    | WriteStatus(session: SessionId)
    | CommitSession(session: SessionId)
    | Rollback(session: SessionId)
    | ChangeStatus(node: NodeId, status: NodeStatus)

  ghost predicate Enabled(s: State, e: Event) {
    match e
    case Begin(t, task) =>
      && t !in s.sessions
      && (task.Reserving? ==> task.request.amount.NonNegative())
      && (task.Resolving? ==> task.target != Reserved)
    case LockNode(t) =>
      && s.At(t, Begun)
      && var task := s.sessions[t].task;
      && task.Reserving? && task.request.node in s.db.nodes && s.NodeIsFree(task.request.node)
    case InsertRow(t) =>
      && t in s.sessions && s.sessions[t].stage.NodeLocked? && s.sessions[t].task.Reserving?
      && var (task, node) := (s.sessions[t].task, s.sessions[t].stage.seen);
      && node.status == Active && task.request.amount.AtMost(node.Available())
      && task.id !in s.db.reservations && s.RowIsFree(task.id)
    case WriteNode(t) =>
      && s.At(t, RowInserted) && s.sessions[t].task.Reserving? && s.sessions[t].task.request.node in s.db.nodes
    case ReadRow(t) =>
      && s.At(t, Begun)
      && var task := s.sessions[t].task;
      && task.Resolving? && task.id in s.db.reservations && s.db.reservations[task.id].status == Reserved
    case WriteCounters(t) =>
      && t in s.sessions && s.sessions[t].stage.RowRead? && s.sessions[t].task.Resolving?
      && var row := s.sessions[t].stage.row;
      && row.node in s.db.nodes && s.NodeIsFree(row.node)
    case WriteStatus(t) =>
      && t in s.sessions && s.sessions[t].stage.CountersWritten? && s.sessions[t].task.Resolving?
      && var task := s.sessions[t].task;
      && task.id in s.db.reservations && s.RowIsFree(task.id)
    case CommitSession(t) =>
      && t in s.sessions
      && var session := s.sessions[t];
      && if session.task.Reserving? then session.stage.NodeWritten? else session.stage.StatusWritten?
    case Rollback(t) => t in s.sessions
    case ChangeStatus(node, status) => s.NodeIsFree(node)
  }

  /** The committed database, with this transaction's writes installed. */
  function Installed(db: Database, session: Session): Database {
    match session.stage
    case NodeWritten(newNode) =>
      if session.task.Reserving? then
        Database(db.nodes[session.task.request.node := newNode],
                 db.reservations[session.task.id := NewReservation(session.task.request)])
      else db
    case StatusWritten(row, newNode, newRow) =>
      Database(db.nodes[row.node := newNode], db.reservations[session.task.id := newRow])
    case _ => db
  }

  function Recorded(history: History, task: Task): History {
    var (commits, releases) := (CommitsOf(history, task.id), ReleasesOf(history, task.id));
    history[task.id :=
      if task.Reserving? then Resolutions(0, 0)
      else if task.target == Committed then Resolutions(commits + 1, releases)
      else Resolutions(commits, releases + 1)]
  }

  function Step(s: State, e: Event): State
    requires Enabled(s, e)
  {
    match e
    case Begin(t, task) => s.(sessions := s.sessions[t := Session(task, Begun)])
    case LockNode(t) => s.Advance(t, NodeLocked(s.db.nodes[s.sessions[t].task.request.node]))
    case InsertRow(t) => s.Advance(t, RowInserted)
    case WriteNode(t) =>
      var request := s.sessions[t].task.request;
      s.Advance(t, NodeWritten(ReservationDelta(request.amount).Row(s.db.nodes[request.node])))
    case ReadRow(t) => s.Advance(t, RowRead(s.db.reservations[s.sessions[t].task.id]))
    case WriteCounters(t) =>
      var (row, target) := (s.sessions[t].stage.row, s.sessions[t].task.target);
      s.Advance(t, CountersWritten(row, Resolution(row, target).Row(s.db.nodes[row.node])))
    case WriteStatus(t) =>
      var (task, stage) := (s.sessions[t].task, s.sessions[t].stage);
      s.Advance(t, StatusWritten(stage.row, stage.newNode, s.db.reservations[task.id].(status := task.target)))
    case CommitSession(t) =>
      State(Installed(s.db, s.sessions[t]), s.sessions - {t}, Recorded(s.history, s.sessions[t].task))
    case Rollback(t) => s.(sessions := s.sessions - {t})
    case ChangeStatus(node, status) => s.(db := s.db.(nodes := NewStatus(status).Table(s.db.nodes, node)))
  }

  // ---- Runs ----

  /** The state after a run, or None when some event of the run cannot happen. */
  ghost function Run(s: State, events: seq<Event>): Option<State> {
    if events == [] then Some(s)
    else
      match Run(s, events[..|events| - 1])
      case None => None
      case Some(m) => if Enabled(m, events[|events| - 1]) then Some(Step(m, events[|events| - 1])) else None
  }

  /** No reservation is being resolved by two transactions at once. */
  ghost predicate SingleResolver(s: State) {
    forall t, u :: t in s.sessions && u in s.sessions && t != u
      && s.sessions[t].task.Resolving? && s.sessions[u].task.Resolving?
      ==> s.sessions[t].task.id != s.sessions[u].task.id
  }

  /** The run can happen, and in no state along it is a reservation resolved by two transactions at once. */
  ghost predicate RunsApart(s: State, events: seq<Event>) {
    && Run(s, events).Some?
    && SingleResolver(Run(s, events).value)
    && (events != [] ==> RunsApart(s, events[..|events| - 1]))
  }

  // ---- What row locks guarantee ----

  ghost predicate SameReservation(row: Reservation, current: Reservation) {
    row.(status := Reserved) == current.(status := Reserved)
  }

  /** What a transaction has read under lock, or written, agrees with the committed tables. */
  ghost predicate Consistent(db: Database, session: Session) {
    var task := session.task;
    match session.stage
    case Begun => task.Resolving? ==> task.target != Reserved
    case NodeLocked(seen) =>
      task.Reserving? && task.request.node in db.nodes && seen == db.nodes[task.request.node]
    case RowInserted => task.Reserving? && Admit(db, task.id, task.request) == Done
    case NodeWritten(newNode) =>
      task.Reserving? && Admit(db, task.id, task.request) == Done
      && newNode == ReservationDelta(task.request.amount).Row(db.nodes[task.request.node])
    case RowRead(row) => HasRead(db, task, row)
    case CountersWritten(row, newNode) =>
      HasRead(db, task, row) && newNode == Resolution(row, task.target).Row(db.nodes[row.node])
    case StatusWritten(row, newNode, newRow) =>
      HasRead(db, task, row) && newNode == Resolution(row, task.target).Row(db.nodes[row.node])
      && newRow == row.(status := task.target)
  }

  ghost predicate HasRead(db: Database, task: Task, row: Reservation) {
    && task.Resolving? && task.target != Reserved
    && task.id in db.reservations && SameReservation(row, db.reservations[task.id])
    && row.status == Reserved && row.node in db.nodes
  }

  ghost predicate LocksExclude(s: State) {
    && (forall t, u, node | t in s.sessions && u in s.sessions ::
      s.sessions[t].HoldsNode(node) && s.sessions[u].HoldsNode(node) ==> t == u)
    && (forall t, u, id | t in s.sessions && u in s.sessions ::
      s.sessions[t].HoldsRow(id) && s.sessions[u].HoldsRow(id) ==> t == u)
  }

  ghost predicate Sound(s: State) {
    && WellFormed(s.db)
    && LocksExclude(s)
    && (forall t :: t in s.sessions ==> Consistent(s.db, s.sessions[t]))
    && (forall t :: t in s.sessions && s.sessions[t].task.Reserving? ==>
      s.sessions[t].task.request.amount.NonNegative())
  }

  /** A transaction that moves on, taking only free locks, keeps the state sound. */
  lemma {:induction false} AdvanceSound(s: State, t: SessionId, stage: Stage)
    requires Sound(s) && t in s.sessions
    requires Consistent(s.db, s.sessions[t].(stage := stage))
    requires forall node :: s.sessions[t].(stage := stage).HoldsNode(node) ==>
      s.sessions[t].HoldsNode(node) || s.NodeIsFree(node)
    requires forall id :: s.sessions[t].(stage := stage).HoldsRow(id) ==> s.sessions[t].HoldsRow(id) || s.RowIsFree(id)
    ensures Sound(s.Advance(t, stage))
  {
  }

  /** What a committing transaction installs: rows it has locked, and no reservation's identity. */
  lemma {:induction false} InstalledTouchesOnlyLocked(s: State, t: SessionId)
    requires Sound(s) && Enabled(s, CommitSession(t))
    ensures var db' := Installed(s.db, s.sessions[t]);
      && db'.nodes.Keys == s.db.nodes.Keys
      && (forall node :: node in s.db.nodes && !s.sessions[t].HoldsNode(node) ==> db'.nodes[node] == s.db.nodes[node])
      && (forall id :: id in db'.reservations && id !in s.db.reservations ==> s.sessions[t].HoldsRow(id))
      && (forall id :: id in s.db.reservations ==>
        id in db'.reservations && SameReservation(db'.reservations[id], s.db.reservations[id]))
  {
    assert Consistent(s.db, s.sessions[t]);
  }

  lemma {:induction false} CommitLeavesOthersConsistent(s: State, t: SessionId, u: SessionId)
    requires Sound(s) && Enabled(s, CommitSession(t))
    requires u in s.sessions && u != t
    ensures Consistent(Installed(s.db, s.sessions[t]), s.sessions[u])
  {
    InstalledTouchesOnlyLocked(s, t);
    var session := s.sessions[u];
    assert Consistent(s.db, session);
    match session.stage
    case NodeLocked(_) => assert session.HoldsNode(session.task.request.node);
    case RowInserted | NodeWritten(_) =>
      assert session.HoldsNode(session.task.request.node) && session.HoldsRow(session.task.id);
    case CountersWritten(row, _) => assert session.HoldsNode(row.node);
    case StatusWritten(row, _, _) => assert session.HoldsNode(row.node);
    case _ =>
  }

  lemma {:induction false} StatusLeavesOthersConsistent(s: State, node: NodeId, status: NodeStatus, u: SessionId)
    requires Sound(s) && Enabled(s, ChangeStatus(node, status))
    requires u in s.sessions
    ensures Consistent(Step(s, ChangeStatus(node, status)).db, s.sessions[u])
  {
  }

  lemma {:induction false} CommitKeepsSound(s: State, t: SessionId)
    requires Sound(s) && Enabled(s, CommitSession(t))
    ensures Sound(Step(s, CommitSession(t)))
  {
    var s' := Step(s, CommitSession(t));
    forall u | u in s'.sessions ensures Consistent(s'.db, s'.sessions[u]) {
      CommitLeavesOthersConsistent(s, t, u);
    }
    assert Consistent(s.db, s.sessions[t]);
  }

  lemma {:induction false} StepKeepsSound(s: State, e: Event)
    requires Sound(s) && Enabled(s, e)
    ensures Sound(Step(s, e))
  {
    match e
    case CommitSession(t) => CommitKeepsSound(s, t);
    case ChangeStatus(node, status) =>
      forall u | u in s.sessions ensures Consistent(Step(s, e).db, s.sessions[u]) {
        StatusLeavesOthersConsistent(s, node, status, u);
      }
    case Begin(_, _) =>
    case Rollback(_) =>
    case _ => AdvanceSound(s, e.session, Step(s, e).sessions[e.session].stage);
  }

  // ---- Every interleaving, whatever resolves what: no node is overcommitted ----

  lemma {:induction false} StepKeepsCapacity(s: State, e: Event)
    requires Sound(s) && WithinCapacity(s.db) && Enabled(s, e)
    ensures WithinCapacity(Step(s, e).db)
  {
    if e.CommitSession? {
      var session, db := s.sessions[e.session], s.db;
      assert Consistent(db, session);
      if session.task.Reserving? {
        AdmissionFits(db.nodes[session.task.request.node], session.task.request.amount);
      } else {
        var row := session.stage.row;
        assert row.amount.NonNegative();
        assert Resolution(row, session.task.target).Row(db.nodes[row.node]).Fits();
      }
    }
  }

  /** A node's counters never exceed its capacity, even when commits, releases and expiries race on one reservation. */
  lemma {:induction false} NoInterleavingOvercommits(s: State, events: seq<Event>)
    requires Sound(s) && WithinCapacity(s.db) && Run(s, events).Some?
    ensures Sound(Run(s, events).value) && WithinCapacity(Run(s, events).value.db)
  {
    if events != [] {
      var before, e := events[..|events| - 1], events[|events| - 1];
      NoInterleavingOvercommits(s, before);
      StepKeepsSound(Run(s, before).value, e);
      StepKeepsCapacity(Run(s, before).value, e);
    }
  }

  // ---- Runs in which no two transactions resolve one reservation: the commit order is a serial order ----

  /** A resolver's copy of its reservation is still what the table holds. */
  ghost predicate CopyCurrent(db: Database, session: Session) {
    session.stage.RowRead? || session.stage.CountersWritten? || session.stage.StatusWritten? ==>
      session.task.id in db.reservations && db.reservations[session.task.id] == session.stage.row
  }

  ghost predicate CopiesCurrent(s: State) {
    forall t :: t in s.sessions ==> CopyCurrent(s.db, s.sessions[t])
  }

  /** The transaction that an event completes. */
  ghost function Effect(s: State, e: Event): seq<Transaction>
    requires Enabled(s, e)
  {
    match e
    case CommitSession(t) =>
      (match s.sessions[t].task
       case Reserving(id, request) => [Reserve(id, request)]
       case Resolving(id, target) => [if target == Committed then Commit(id) else Release(id)])
    case ChangeStatus(node, status) => [SetStatus(node, status)]
    case _ => []
  }

  lemma {:induction false} CommitKeepsCopy(s: State, t: SessionId, u: SessionId)
    requires Sound(s) && CopiesCurrent(s) && SingleResolver(s) && Enabled(s, CommitSession(t))
    requires u in s.sessions && u != t
    ensures CopyCurrent(Installed(s.db, s.sessions[t]), s.sessions[u])
  {
    assert Consistent(s.db, s.sessions[t]) && Consistent(s.db, s.sessions[u]);
    if s.sessions[u].task.Resolving? && s.sessions[t].task.Resolving? {
      assert s.sessions[t].task.id != s.sessions[u].task.id;
    }
  }

  lemma {:induction false} StepKeepsCopies(s: State, e: Event)
    requires Sound(s) && CopiesCurrent(s) && SingleResolver(s) && Enabled(s, e)
    ensures CopiesCurrent(Step(s, e))
  {
    forall u | u in Step(s, e).sessions ensures CopyCurrent(Step(s, e).db, Step(s, e).sessions[u]) {
      if e.CommitSession? {
        CommitKeepsCopy(s, e.session, u);
      } else if u in s.sessions {
        assert CopyCurrent(s.db, s.sessions[u]);
      }
    }
  }

  /** Each event either leaves the committed tables alone or does to them what one whole transaction does. */
  lemma {:induction false} StepRefines(s: State, e: Event)
    requires Sound(s) && CopiesCurrent(s) && Enabled(s, e)
    ensures Effect(s, e) == [] ==> Step(s, e).db == s.db
    ensures Effect(s, e) != [] ==> Apply(s.db, Effect(s, e)[0]) == (Step(s, e).db, Done)
    ensures Effect(s, e) != [] ==> Effect(s, e)[0].WellFormed()
  {
    if e.CommitSession? {
      assert Consistent(s.db, s.sessions[e.session]);
    }
  }

  /** The transactions that a run completes, in the order in which they commit. */
  ghost function Schedule(s: State, events: seq<Event>): seq<Transaction>
    requires Run(s, events).Some?
  {
    if events == [] then []
    else
      var before := events[..|events| - 1];
      Schedule(s, before) + Effect(Run(s, before).value, events[|events| - 1])
  }

  lemma {:induction false} ApplyAllExtends(db: Database, done: seq<Transaction>, next: Transaction)
    ensures ApplyAll(db, done + [next]) == Apply(ApplyAll(db, done), next).0
  {
  }

  /** Read committed with these locks is serializable as long as no reservation is resolved twice at a time:
      the tables are those of the completed transactions taken one after the other. */
  lemma {:induction false} Serializable(s: State, events: seq<Event>)
    requires Sound(s) && CopiesCurrent(s) && RunsApart(s, events)
    ensures var s' := Run(s, events).value;
      && Sound(s') && CopiesCurrent(s')
      && s'.db == ApplyAll(s.db, Schedule(s, events))
      && forall t :: t in Schedule(s, events) ==> t.WellFormed()
  {
    if events != [] {
      var before, e := events[..|events| - 1], events[|events| - 1];
      Serializable(s, before);
      var m := Run(s, before).value;
      StepKeepsSound(m, e);
      StepKeepsCopies(m, e);
      StepRefines(m, e);
      if Effect(m, e) == [] {
        assert Schedule(s, events) == Schedule(s, before);
      } else {
        ApplyAllExtends(s.db, Schedule(s, before), Effect(m, e)[0]);
      }
    }
  }

  /** In every such run the counters of every node equal the sums of its rows, and no node is overcommitted. */
  lemma {:induction false} RunsApartConserve(s: State, base: map<NodeId, Resources>, events: seq<Event>)
    requires s.sessions == map[] && Invariant(s.db, base)
    requires RunsApart(s, events)
    ensures Invariant(Run(s, events).value.db, base)
  {
    Serializable(s, events);
    RunsNeverOvercommit(s.db, base, Schedule(s, events));
  }
}
