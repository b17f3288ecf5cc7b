/** What the counters hold after any interleaving at all, including those in which a commit and a release race on
    one reservation: by how much they drift from the table, and exactly when they do not. */
module DoubleResolution {
  import opened Options
  import opened Identifiers
  import opened Resources
  import opened Totals
  import opened Allocator
  import opened Interleaving

  /** x, added up k times. */
  function Repeated(k: nat, x: int): int {
    if k == 0 then 0 else x + Repeated(k - 1, x)
  }

  function ShareTimes(row: Reservation, node: NodeId, d: Dimension, times: nat): int {
    if row.node == node then Repeated(times, row.amount.Of(d)) else 0
  }

  /** Each row of the node, once. */
  function Entered(node: NodeId, d: Dimension): Weight<ReservationId, Reservation> {
    (id: ReservationId, row: Reservation) => ShareTimes(row, node, d, 1)
  }

  /** Each row of the node, once for every time its delta has been taken off the reserved counters. */
  function TimesResolved(node: NodeId, d: Dimension, history: History): Weight<ReservationId, Reservation> {
    (id: ReservationId, row: Reservation) => ShareTimes(row, node, d, ResolutionsOf(history, id))
  }

  /** Each row of the node, once for every time its delta has been added to the allocated counters. */
  function TimesCommitted(node: NodeId, d: Dimension, history: History): Weight<ReservationId, Reservation> {
    (id: ReservationId, row: Reservation) => ShareTimes(row, node, d, CommitsOf(history, id))
  }

  /** The counters are accounted for by the rows entered and the history of their resolutions. */
  ghost predicate AccountedAt(db: Database, history: History, base: map<NodeId, Resources>, node: NodeId, d: Dimension)
    requires node in db.nodes && node in base
  {
    && db.nodes[node].reserved.Of(d)
      == Total(db.reservations, Entered(node, d)) - Total(db.reservations, TimesResolved(node, d, history))
    && db.nodes[node].alloc.Of(d) == base[node].Of(d) + Total(db.reservations, TimesCommitted(node, d, history))
  }

  /** A row's status says whether, and in which way, it has been resolved at all. */
  predicate StatusAgrees(status: ReservationStatus, commits: nat, releases: nat) {
    match status
    case Reserved => commits == releases == 0
    case Committed => commits > 0
    case Released => releases > 0
  }

  ghost predicate Accounted(s: State, base: map<NodeId, Resources>) {
    && s.db.nodes.Keys == base.Keys
    && (forall node, d :: node in s.db.nodes ==> AccountedAt(s.db, s.history, base, node, d))
    && (forall id :: id in s.db.reservations ==>
      StatusAgrees(s.db.reservations[id].status, CommitsOf(s.history, id), ReleasesOf(s.history, id)))
  }

  // ---- Every step keeps the accounts ----

  lemma {:induction false} HistoryAfterEntry(history: History, id: ReservationId, j: ReservationId)
    ensures var history' := history[id := Resolutions(0, 0)];
      && CommitsOf(history', j) == (if j == id then 0 else CommitsOf(history, j))
      && ResolutionsOf(history', j) == (if j == id then 0 else ResolutionsOf(history, j))
  {
  }

  lemma {:induction false} EnteredAfterEntry(
    rows: map<ReservationId, Reservation>, id: ReservationId, row: Reservation, node: NodeId, d: Dimension)
    requires id !in rows
    ensures Total(rows[id := row], Entered(node, d)) == Total(rows, Entered(node, d)) + ShareTimes(row, node, d, 1)
  {
    hide ShareTimes;
    TotalChange<ReservationId, Reservation>(rows, Entered(node, d), rows[id := row], Entered(node, d), id);
  }

  lemma {:induction false} ResolvedAfterEntry(
    rows: map<ReservationId, Reservation>, history: History, id: ReservationId, row: Reservation, node: NodeId,
    d: Dimension)
    requires id !in rows
    ensures Total(rows[id := row], TimesResolved(node, d, history[id := Resolutions(0, 0)]))
      == Total(rows, TimesResolved(node, d, history))
  {
    var history' := history[id := Resolutions(0, 0)];
    assert ShareTimes(row, node, d, 0) == 0;
    hide ShareTimes, ResolutionsOf;
    forall j ensures ResolutionsOf(history', j) == if j == id then 0 else ResolutionsOf(history, j) {
      HistoryAfterEntry(history, id, j);
    }
    TotalChange<ReservationId, Reservation>(rows, TimesResolved(node, d, history), rows[id := row],
      TimesResolved(node, d, history'), id);
  }

  lemma {:induction false} CommittedAfterEntry(
    rows: map<ReservationId, Reservation>, history: History, id: ReservationId, row: Reservation, node: NodeId,
    d: Dimension)
    requires id !in rows
    ensures Total(rows[id := row], TimesCommitted(node, d, history[id := Resolutions(0, 0)]))
      == Total(rows, TimesCommitted(node, d, history))
  {
    var history' := history[id := Resolutions(0, 0)];
    assert ShareTimes(row, node, d, 0) == 0;
    hide ShareTimes, CommitsOf;
    forall j ensures CommitsOf(history', j) == if j == id then 0 else CommitsOf(history, j) {
      HistoryAfterEntry(history, id, j);
    }
    TotalChange<ReservationId, Reservation>(rows, TimesCommitted(node, d, history), rows[id := row],
      TimesCommitted(node, d, history'), id);
  }

  /** Recording a task changes the history of its own reservation alone. */
  lemma {:induction false} RecordedElsewhere(history: History, task: Task, j: ReservationId)
    ensures var history' := Recorded(history, task);
      if j != task.id then
        CommitsOf(history', j) == CommitsOf(history, j) && ReleasesOf(history', j) == ReleasesOf(history, j)
      else if task.Reserving? then ResolutionsOf(history', j) == 0
      else if task.target == Committed then
        CommitsOf(history', j) == CommitsOf(history, j) + 1 && ReleasesOf(history', j) == ReleasesOf(history, j)
      else CommitsOf(history', j) == CommitsOf(history, j) && ReleasesOf(history', j) == ReleasesOf(history, j) + 1
  {
  }

  lemma {:induction false} ShareGrows(row: Reservation, node: NodeId, d: Dimension, k: nat)
    ensures ShareTimes(row, node, d, k + 1) == ShareTimes(row, node, d, k) + ShareTimes(row, node, d, 1)
    ensures ShareTimes(row, node, d, 0) == 0
    ensures ShareTimes(row, node, d, 1) == if row.node == node then row.amount.Of(d) else 0
  {
    assert Repeated(1, row.amount.Of(d)) == row.amount.Of(d) + Repeated(0, row.amount.Of(d));
  }

  /** A resolution counts its row once more as resolved ... */
  lemma {:induction false} ResolvedGrows(
    rows: map<ReservationId, Reservation>, history: History, row: Reservation, task: Task, node: NodeId, d: Dimension)
    requires task.Resolving? && task.id in rows
    requires rows[task.id].node == row.node && rows[task.id].amount == row.amount
    ensures Total(rows[task.id := row], TimesResolved(node, d, Recorded(history, task)))
      == Total(rows, TimesResolved(node, d, history)) + ShareTimes(row, node, d, 1)
  {
    forall j ensures j != task.id ==> ResolutionsOf(Recorded(history, task), j) == ResolutionsOf(history, j) {
      RecordedElsewhere(history, task, j);
    }
    assert ResolutionsOf(Recorded(history, task), task.id) == ResolutionsOf(history, task.id) + 1 by {
      RecordedElsewhere(history, task, task.id);
    }
    TotalChange(rows, TimesResolved(node, d, history), rows[task.id := row],
      TimesResolved(node, d, Recorded(history, task)), task.id);
    ShareGrows(row, node, d, ResolutionsOf(history, task.id));
  }

  /** ... and, when it commits, once more as committed. */
  lemma {:induction false} CommittedGrows(
    rows: map<ReservationId, Reservation>, history: History, row: Reservation, task: Task, node: NodeId, d: Dimension)
    requires task.Resolving? && task.id in rows
    requires rows[task.id].node == row.node && rows[task.id].amount == row.amount
    ensures Total(rows[task.id := row], TimesCommitted(node, d, Recorded(history, task)))
      == Total(rows, TimesCommitted(node, d, history)) + (if task.target == Committed
        then ShareTimes(row, node, d, 1) else 0)
  {
    forall j ensures j != task.id ==> CommitsOf(Recorded(history, task), j) == CommitsOf(history, j) {
      RecordedElsewhere(history, task, j);
    }
    RecordedElsewhere(history, task, task.id);
    TotalChange(rows, TimesCommitted(node, d, history), rows[task.id := row],
      TimesCommitted(node, d, Recorded(history, task)), task.id);
    ShareGrows(row, node, d, CommitsOf(history, task.id));
  }

  lemma {:induction false} EntryKeepsAccountAt(
    s: State, base: map<NodeId, Resources>, t: SessionId, node: NodeId, d: Dimension)
    requires Sound(s) && Enabled(s, CommitSession(t)) && s.sessions[t].task.Reserving?
    requires node in s.db.nodes && node in base && AccountedAt(s.db, s.history, base, node, d)
    ensures var s' := Step(s, CommitSession(t)); AccountedAt(s'.db, s'.history, base, node, d)
  {
    var task := s.sessions[t].task;
    var row := NewReservation(task.request);
    assert Consistent(s.db, s.sessions[t]);
    EnteredAfterEntry(s.db.reservations, task.id, row, node, d);
    ResolvedAfterEntry(s.db.reservations, s.history, task.id, row, node, d);
    CommittedAfterEntry(s.db.reservations, s.history, task.id, row, node, d);
    ShareGrows(row, node, d, 0);
    hide Entered, TimesResolved, TimesCommitted, ShareTimes;
  }

  lemma {:induction false} EnteredStays(
    rows: map<ReservationId, Reservation>, id: ReservationId, row: Reservation, node: NodeId, d: Dimension)
    requires id in rows && rows[id].node == row.node && rows[id].amount == row.amount
    ensures Total(rows[id := row], Entered(node, d)) == Total(rows, Entered(node, d))
  {
    hide Repeated;
    TotalChange<ReservationId, Reservation>(rows, Entered(node, d), rows[id := row], Entered(node, d), id);
  }

  lemma {:induction false} ResolutionKeepsAccountAt(
    s: State, base: map<NodeId, Resources>, t: SessionId, node: NodeId, d: Dimension)
    requires Sound(s) && Enabled(s, CommitSession(t)) && s.sessions[t].task.Resolving?
    requires node in s.db.nodes && node in base && AccountedAt(s.db, s.history, base, node, d)
    ensures var s' := Step(s, CommitSession(t)); AccountedAt(s'.db, s'.history, base, node, d)
  {
    var task, stage, rows := s.sessions[t].task, s.sessions[t].stage, s.db.reservations;
    assert Consistent(s.db, s.sessions[t]);
    EnteredStays(rows, task.id, stage.newRow, node, d);
    ResolvedGrows(rows, s.history, stage.newRow, task, node, d);
    CommittedGrows(rows, s.history, stage.newRow, task, node, d);
    ShareGrows(stage.newRow, node, d, 0);
    hide Entered, TimesResolved, TimesCommitted, ShareTimes, Recorded;
  }

  lemma {:induction false} StepKeepsAccounts(s: State, base: map<NodeId, Resources>, e: Event)
    requires Sound(s) && Accounted(s, base) && Enabled(s, e)
    ensures Accounted(Step(s, e), base)
  {
    var s' := Step(s, e);
    forall node, d | node in s'.db.nodes
      ensures AccountedAt(s'.db, s'.history, base, node, d)
    {
      assert AccountedAt(s.db, s.history, base, node, d);
      if e.CommitSession? {
        if s.sessions[e.session].task.Reserving? {
          EntryKeepsAccountAt(s, base, e.session, node, d);
        } else {
          ResolutionKeepsAccountAt(s, base, e.session, node, d);
        }
      }
    }
    if e.CommitSession? {
      forall id | id in s'.db.reservations
        ensures StatusAgrees(s'.db.reservations[id].status, CommitsOf(s'.history, id), ReleasesOf(s'.history, id))
      {
        assert Consistent(s.db, s.sessions[e.session]);
        RecordedElsewhere(s.history, s.sessions[e.session].task, id);
      }
    }
  }

  lemma {:induction false} RunKeepsAccounts(s: State, base: map<NodeId, Resources>, events: seq<Event>)
    requires Sound(s) && Accounted(s, base) && Run(s, events).Some?
    ensures Sound(Run(s, events).value) && Accounted(Run(s, events).value, base)
  {
    if events != [] {
      var before, e := events[..|events| - 1], events[|events| - 1];
      RunKeepsAccounts(s, base, before);
      StepKeepsSound(Run(s, before).value, e);
      StepKeepsAccounts(Run(s, before).value, base, e);
    }
  }

  // ---- How far the counters drift, and exactly when they do not ----

  /** Each row of the node, once for every resolution after its first. */
  function Surplus(node: NodeId, d: Dimension, history: History): Weight<ReservationId, Reservation> {
    (id: ReservationId, row: Reservation) =>
      ShareTimes(row, node, d, if ResolutionsOf(history, id) == 0 then 0 else ResolutionsOf(history, id) - 1)
  }

  /** Each row of the node, once for every commit that its status does not show. */
  function HiddenCommits(node: NodeId, d: Dimension, history: History): Weight<ReservationId, Reservation> {
    (id: ReservationId, row: Reservation) =>
      ShareTimes(row, node, d, if row.status == Committed && CommitsOf(history, id) > 0
        then CommitsOf(history, id) - 1 else CommitsOf(history, id))
  }

  function EnteredAndSurplus(node: NodeId, d: Dimension, history: History): Weight<ReservationId, Reservation> {
    (id: ReservationId, row: Reservation) =>
      ShareTimes(row, node, d, 1)
      + ShareTimes(row, node, d, if ResolutionsOf(history, id) == 0 then 0 else ResolutionsOf(history, id) - 1)
  }

  /** A row counts once as entered; it still shows as reserved, or one of its resolutions took it off. */
  lemma {:induction false} RowDrift(row: Reservation, commits: nat, releases: nat, node: NodeId, d: Dimension)
    requires StatusAgrees(row.status, commits, releases)
    ensures var count := commits + releases;
      ShareTimes(row, node, d, 1) + ShareTimes(row, node, d, if count == 0 then 0 else count - 1)
        == Share(row, node, Reserved, d) + ShareTimes(row, node, d, count)
    ensures ShareTimes(row, node, d, commits)
      == Share(row, node, Committed, d)
        + ShareTimes(row, node, d, if row.status == Committed && commits > 0 then commits - 1 else commits)
  {
    var count := commits + releases;
    ShareGrows(row, node, d, 0);
    ShareGrows(row, node, d, if count == 0 then 0 else count - 1);
    ShareGrows(row, node, d, if commits == 0 then 0 else commits - 1);
  }

  /** The reserved counters fall short of the reserved rows by the surplus resolutions. */
  lemma {:induction false} ReservedDrift(s: State, base: map<NodeId, Resources>, node: NodeId, d: Dimension)
    requires Accounted(s, base) && node in s.db.nodes
    ensures s.db.nodes[node].reserved.Of(d)
      == Held(s.db.reservations, node, Reserved, d) - Total(s.db.reservations, Surplus(node, d, s.history))
  {
    var rows, entered, resolved := s.db.reservations, Entered(node, d), TimesResolved(node, d, s.history);
    var held, surplus := CountedOn(node, Reserved, d), Surplus(node, d, s.history);
    var both := EnteredAndSurplus(node, d, s.history);
    forall id | id in rows ensures both(id, rows[id]) == held(id, rows[id]) + resolved(id, rows[id]) {
      RowDrift(rows[id], CommitsOf(s.history, id), ReleasesOf(s.history, id), node, d);
    }
    TotalSum(rows, entered, surplus, both);
    TotalSum(rows, held, resolved, both);
    assert AccountedAt(s.db, s.history, base, node, d);
  }

  /** The allocated counters exceed the committed rows by the hidden commits. */
  lemma {:induction false} AllocatedDrift(s: State, base: map<NodeId, Resources>, node: NodeId, d: Dimension)
    requires Accounted(s, base) && node in s.db.nodes
    ensures s.db.nodes[node].alloc.Of(d)
      == base[node].Of(d) + Held(s.db.reservations, node, Committed, d) + Total(s.db.reservations,
        HiddenCommits(node, d, s.history))
  {
    var rows, committed := s.db.reservations, TimesCommitted(node, d, s.history);
    var held, hidden := CountedOn(node, Committed, d), HiddenCommits(node, d, s.history);
    forall id | id in rows ensures committed(id, rows[id]) == held(id, rows[id]) + hidden(id, rows[id]) {
      RowDrift(rows[id], CommitsOf(s.history, id), ReleasesOf(s.history, id), node, d);
    }
    TotalSum(rows, held, hidden, committed);
    assert AccountedAt(s.db, s.history, base, node, d);
  }

  lemma {:induction false} RepeatedIsZero(k: nat, x: int)
    requires x >= 0
    ensures Repeated(k, x) >= 0
    ensures Repeated(k, x) == 0 <==> k == 0 || x == 0
  {
    if k > 0 {
      RepeatedIsZero(k - 1, x);
    }
  }

  /** No reservation of the node that holds anything has been resolved more than once. */
  ghost predicate ResolvedOnce(s: State, node: NodeId) {
    forall id :: id in s.db.reservations && s.db.reservations[id].node == node && s.db.reservations[id].amount != ZERO
      ==> ResolutionsOf(s.history, id) <= 1
  }

  lemma {:induction false} ConservedOnlyIfResolvedOnce(
    s: State, base: map<NodeId, Resources>, node: NodeId, id: ReservationId, d: Dimension)
    requires WellFormed(s.db) && Accounted(s, base) && node in s.db.nodes && ConservedAt(s.db, base, node, d)
    requires id in s.db.reservations && s.db.reservations[id].node == node && s.db.reservations[id].amount.Of(d) != 0
    ensures ResolutionsOf(s.history, id) <= 1
  {
    var rows, surplus, count := s.db.reservations, Surplus(node, d, s.history), ResolutionsOf(s.history, id);
    ReservedDrift(s, base, node, d);
    forall k | k in rows ensures surplus(k, rows[k]) >= 0 {
      var times := ResolutionsOf(s.history, k);
      RepeatedIsZero(if times == 0 then 0 else times - 1, rows[k].amount.Of(d));
    }
    TotalIsZero<ReservationId, Reservation>(rows, surplus);
    assert surplus(id, rows[id]) == 0;
    RepeatedIsZero(if count == 0 then 0 else count - 1, rows[id].amount.Of(d));
  }

  lemma {:induction false} ConservedIfResolvedOnce(s: State, base: map<NodeId, Resources>, node: NodeId, d: Dimension)
    requires WellFormed(s.db) && Accounted(s, base) && node in s.db.nodes && ResolvedOnce(s, node)
    ensures ConservedAt(s.db, base, node, d)
  {
    var rows, surplus, hidden := s.db.reservations, Surplus(node, d, s.history), HiddenCommits(node, d, s.history);
    forall id | id in rows ensures surplus(id, rows[id]) == 0 && hidden(id, rows[id]) == 0 {
      var row, commits, count := rows[id], CommitsOf(s.history, id), ResolutionsOf(s.history, id);
      assert StatusAgrees(row.status, commits, ReleasesOf(s.history, id));
      RepeatedIsZero(if count == 0 then 0 else count - 1, row.amount.Of(d));
      RepeatedIsZero(if row.status == Committed && commits > 0 then commits - 1 else commits, row.amount.Of(d));
    }
    TotalOfZeros(rows, surplus);
    TotalOfZeros(rows, hidden);
    ReservedDrift(s, base, node, d);
    AllocatedDrift(s, base, node, d);
  }

  lemma {:induction false} RunConservedExactly(s: State, base: map<NodeId, Resources>, events: seq<Event>, node: NodeId)
    requires Sound(s) && Accounted(s, base) && Run(s, events).Some? && node in s.db.nodes
    ensures var s' := Run(s, events).value;
      && node in s'.db.nodes && node in base
      && ((forall d :: ConservedAt(s'.db, base, node, d)) <==> ResolvedOnce(s', node))
  {
    RunKeepsAccounts(s, base, events);
    var s' := Run(s, events).value;
    if ResolvedOnce(s', node) {
      forall d ensures ConservedAt(s'.db, base, node, d) {
        ConservedIfResolvedOnce(s', base, node, d);
      }
    } else {
      var id :| id in s'.db.reservations && s'.db.reservations[id].node == node && s'.db.reservations[id].amount != ZERO
        && ResolutionsOf(s'.history, id) > 1;
      var amount := s'.db.reservations[id].amount;
      var d := if amount.cpu != 0 then Cpu else if amount.memory != 0 then Memory else Disk;
      if ConservedAt(s'.db, base, node, d) {
        ConservedOnlyIfResolvedOnce(s', base, node, id, d);
      }
    }
  }

  // ---- From any conserved database ----

  /** What the statuses of a table's rows say about their past. */
  function HistoryOf(rows: map<ReservationId, Reservation>): History {
    map id | id in rows ::
      match rows[id].status
      case Reserved => Resolutions(0, 0)
      case Committed => Resolutions(1, 0)
      case Released => Resolutions(0, 1)
  }

  function StartOf(db: Database): State {
    State(db, map[], HistoryOf(db.reservations))
  }

  lemma {:induction false} StartAccountedAt(db: Database, base: map<NodeId, Resources>, node: NodeId, d: Dimension)
    requires Invariant(db, base) && node in db.nodes
    ensures AccountedAt(db, HistoryOf(db.reservations), base, node, d)
  {
    var rows, history := db.reservations, HistoryOf(db.reservations);
    var held, resolved, entered := CountedOn(node, Reserved, d), TimesResolved(node, d, history), Entered(node, d);
    forall id | id in rows
      ensures entered(id, rows[id]) == held(id, rows[id]) + resolved(id, rows[id])
      ensures TimesCommitted(node, d, history)(id, rows[id]) == CountedOn(node, Committed, d)(id, rows[id])
    {
      ShareGrows(rows[id], node, d, 0);
    }
    TotalSum<ReservationId, Reservation>(rows, held, resolved, entered);
    TotalCongruence<ReservationId, Reservation, Reservation>(
      rows, TimesCommitted(node, d, history), rows, CountedOn(node, Committed, d));
    assert ConservedAt(db, base, node, d);
  }

  /** After any interleaving at all from a conserved database, a node's counters equal the sums of its rows exactly
      when none of its reservations that holds anything has been resolved twice. */
  lemma {:induction false} ConservedExactlyWhenResolvedOnce(
    db: Database, base: map<NodeId, Resources>, events: seq<Event>, node: NodeId)
    requires Invariant(db, base) && node in db.nodes
    requires Run(StartOf(db), events).Some?
    ensures var s := Run(StartOf(db), events).value;
      && node in s.db.nodes
      && ((forall d :: ConservedAt(s.db, base, node, d)) <==> ResolvedOnce(s, node))
  {
    forall n, d | n in db.nodes ensures AccountedAt(db, HistoryOf(db.reservations), base, n, d) {
      StartAccountedAt(db, base, n, d);
    }
    RunConservedExactly(StartOf(db), base, events, node);
  }

  // ---- The race itself ----

  lemma {:induction false} RunExtends(s: State, events: seq<Event>, e: Event, m: State)
    requires Run(s, events) == Some(m) && Enabled(m, e)
    ensures Run(s, events + [e]) == Some(Step(m, e))
  {
  }

  /** The statements with which a resolver that has read its row carries on to the end. */
  function Finish(t: SessionId): seq<Event> {
    [WriteCounters(t), WriteStatus(t), CommitSession(t)]
  }

  /** A resolver that has read its row carries on with what it read, whatever the table holds by then. */
  lemma {:induction false} ResolverFinishes(s: State, events: seq<Event>, m: State, t: SessionId)
    requires Run(s, events) == Some(m)
    requires forall u :: u in m.sessions ==> m.sessions[u].stage.RowRead?
    requires t in m.sessions && m.sessions[t].task.Resolving?
    requires m.sessions[t].task.id in m.db.reservations && m.sessions[t].stage.row.node in m.db.nodes
    ensures var (task, row) := (m.sessions[t].task, m.sessions[t].stage.row);
      Run(s, events + Finish(t)) == Some(State(
        Database(m.db.nodes[row.node := Resolution(row, task.target).Row(m.db.nodes[row.node])],
                 m.db.reservations[task.id := m.db.reservations[task.id].(status := task.target)]),
        m.sessions - {t},
        Recorded(m.history, task)))
  {
    var finish := Finish(t);
    RunExtends(s, events, finish[0], m);
    var m1 := Step(m, finish[0]);
    RunExtends(s, events + [finish[0]], finish[1], m1);
    var m2 := Step(m1, finish[1]);
    RunExtends(s, events + [finish[0]] + [finish[1]], finish[2], m2);
    assert events + [finish[0]] + [finish[1]] + [finish[2]] == events + finish;
    assert Step(m2, finish[2]).sessions == m.sessions - {t};
  }

  /** A worker starts to commit a reservation, and the reconciler to release it. */
  function BothBegin(id: ReservationId): seq<Event> {
    [Begin(0, Resolving(id, Committed)), ReadRow(0), Begin(1, Resolving(id, Released)), ReadRow(1)]
  }

  lemma {:induction false} BothReadReserved(db: Database, id: ReservationId)
    requires id in db.reservations && db.reservations[id].status == Reserved
    ensures var read := RowRead(db.reservations[id]);
      Run(StartOf(db), BothBegin(id)) == Some(StartOf(db).(sessions :=
        map[0 := Session(Resolving(id, Committed), read), 1 := Session(Resolving(id, Released), read)]))
  {
    var s, begin, read := StartOf(db), BothBegin(id), RowRead(db.reservations[id]);
    var first, second := Resolving(id, Committed), Resolving(id, Released);
    var s1 := s.(sessions := map[0 := Session(first, Begun)]);
    var s2 := s.(sessions := map[0 := Session(first, read)]);
    var s3 := s.(sessions := map[0 := Session(first, read), 1 := Session(second, Begun)]);
    RunExtends(s, [], begin[0], s);
    assert Step(s, begin[0]) == s1;
    RunExtends(s, [] + [begin[0]], begin[1], s1);
    assert Step(s1, begin[1]) == s2;
    RunExtends(s, [] + [begin[0]] + [begin[1]], begin[2], s2);
    assert Step(s2, begin[2]) == s3;
    RunExtends(s, [] + [begin[0]] + [begin[1]] + [begin[2]], begin[3], s3);
    assert Step(s3, begin[3]).sessions == map[0 := Session(first, read), 1 := Session(second, read)];
    assert [] + [begin[0]] + [begin[1]] + [begin[2]] + [begin[3]] == begin;
  }

  /** Both carry on: the commit first, and then the release with what it has read before. */
  function Race(id: ReservationId): seq<Event> {
    BothBegin(id) + Finish(0) + Finish(1)
  }

  lemma {:induction false} RaceEnds(db: Database, id: ReservationId)
    requires id in db.reservations && db.reservations[id].status == Reserved && db.reservations[id].node in db.nodes
    ensures var row := db.reservations[id];
      var history := Recorded(Recorded(HistoryOf(db.reservations), Resolving(id, Committed)), Resolving(id, Released));
      var nodes := db.nodes[row.node := CommitAmount(row.amount).Row(db.nodes[row.node])];
      Run(StartOf(db), Race(id)) == Some(State(
        Database(nodes[row.node := ReservationDelta(row.amount.Negated()).Row(nodes[row.node])],
                 db.reservations[id := row.(status := Committed)]
                   [id := row.(status := Committed).(status := Released)]),
        map[], history))
  {
    hide Run, Enabled, Step, Recorded, HistoryOf;
    var s, row := StartOf(db), db.reservations[id];
    BothReadReserved(db, id);
    ResolverFinishes(s, BothBegin(id), Run(s, BothBegin(id)).value, 0);
    var m := Run(s, BothBegin(id) + Finish(0)).value;
    assert m.sessions == map[1 := Session(Resolving(id, Released), RowRead(row))];
    ResolverFinishes(s, BothBegin(id) + Finish(0), m, 1);
    assert m.sessions - {1} == map[];
  }

  /** The race can happen to every reserved row, and its amount is then taken off the reserved counters twice. */
  lemma {:induction false} RaceAppliesDeltaTwice(db: Database, base: map<NodeId, Resources>, id: ReservationId)
    requires Invariant(db, base) && id in db.reservations && db.reservations[id].status == Reserved
    ensures var (end, row) := (Run(StartOf(db), Race(id)), db.reservations[id]);
      && end.Some? && row.node in end.value.db.nodes
      && end.value.db.nodes[row.node].reserved == db.nodes[row.node].reserved.Minus(row.amount).Minus(row.amount)
      && end.value.db.nodes[row.node].alloc == db.nodes[row.node].alloc.Plus(row.amount)
      && end.value.db.reservations == db.reservations[id := row.(status := Released)]
      && (row.amount != ZERO ==> !Conserved(end.value.db, base))
  {
    var row := db.reservations[id];
    assert row.node in db.nodes;
    hide Run;
    RaceEnds(db, id);
    var end := Run(StartOf(db), Race(id)).value;
    assert ResolutionsOf(end.history, id) == 2;
    if row.amount != ZERO {
      assert !ResolvedOnce(end, row.node);
      ConservedExactlyWhenResolvedOnce(db, base, Race(id), row.node);
    }
  }
}
