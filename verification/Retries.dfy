/** What becomes of one operation under workers that run it, crash or retry it, and a reconciler that takes it for
    stuck. */
module Retries {
  import opened Options
  import opened Identifiers
  import opened Operations

  type WorkerId = nat

  predicate RetriesLeft(op: Operation) {
    op.retryable && op.retryCount < op.maxRetries
  }

  /** What the worker's poll lists. */
  predicate Pending(op: Operation) {
    op.status == Queued || op.status == Retrying
  }

  /** What the reconciler lists: only operations whose status is running. */
  predicate Stuck(op: Operation, threshold: Time) {
    op.status == Running && op.updatedAt < threshold
  }

  /** The update with which a worker, or the reconciler, answers a failed attempt at an operation as it has read it. */
  function Decision(seen: Operation, code: string): Update {
    if RetriesLeft(seen) then Progress(Retrying, "retrying", seen.progress, None) else Fail(code)
  }

  // ---- Any number of workers, and the background runs that fulfilment starts, statement by statement ----

  /** A run of an operation: the row as it was read, whether it is one that fulfilment has started in the background,
      and whether its workflow has started or has given up. */
  datatype Job = Job(seen: Operation, background: bool, started: bool, gaveUp: bool)

  /** `looks` holds what reconcilers have listed and have yet to answer: the row as each has read it. */
  datatype State = State(op: Operation, jobs: map<WorkerId, Job>, looks: map<WorkerId, Operation>)

  datatype Event =
    | Poll(worker: WorkerId)
    | Start(worker: WorkerId, now: Time)
    | Report(worker: WorkerId, update: Update, now: Time)
    | GiveUp(worker: WorkerId, code: string, now: Time)
    | Conclude(worker: WorkerId, succeeded: bool, now: Time)
    | Crash(worker: WorkerId)
    | ListStuck(reconciler: WorkerId, threshold: Time)
    | Recover(reconciler: WorkerId, now: Time)
    | StopLooking(reconciler: WorkerId)

  /** What a workflow itself writes while it runs. */
  predicate WorkflowWrites(update: Update) {
    match update
    case Progress(status, _, _, _) =>
      status == Running || status == WaitingProvider || status == WaitingResource || status == Succeeded
    case Complete => true
    case Fail(_) => false
  }

  predicate Enabled(s: State, e: Event) {
    match e
    case Poll(w) => w !in s.jobs && Pending(s.op)
    case Start(w, _) => w in s.jobs && !s.jobs[w].started
    case Report(w, update, _) => w in s.jobs && s.jobs[w].started && !s.jobs[w].gaveUp && WorkflowWrites(update)
    case GiveUp(w, _, _) => w in s.jobs && s.jobs[w].started && !s.jobs[w].gaveUp
    case Conclude(w, succeeded, _) => w in s.jobs && s.jobs[w].started && (s.jobs[w].gaveUp ==> !succeeded)
    case Crash(w) => w in s.jobs
    case ListStuck(r, threshold) => r !in s.looks && Stuck(s.op, threshold)
    case Recover(r, _) => r in s.looks
    case StopLooking(r) => r in s.looks
  }

  /** How a run answers the end of its workflow; a background run does not look at the retries. */
  function Answer(job: Job, succeeded: bool): Update {
    if succeeded then Complete
    else if job.background then Fail("PROVISION_FAILED")
    else Decision(job.seen, "WORKFLOW_FAILED")
  }

  /** `registered` says whether a workflow is registered for the operation's kind; a background run needs no
      registration. */
  function Step(s: State, e: Event, registered: bool): State
    requires Enabled(s, e)
  {
    match e
    case Poll(w) => s.(jobs := s.jobs[w := Job(s.op, false, false, false)])
    case Start(w, now) =>
      if registered || s.jobs[w].background then
        s.(op := Progress(Running, "running", 5, Some(now)).Row(s.op, now),
           jobs := s.jobs[w := s.jobs[w].(started := true)])
      else s.(op := Fail("UNSUPPORTED_OPERATION").Row(s.op, now), jobs := s.jobs - {w})
    case Report(w, update, now) => s.(op := update.Row(s.op, now))
    case GiveUp(w, code, now) =>
      s.(op := Fail(code).Row(s.op, now), jobs := s.jobs[w := s.jobs[w].(gaveUp := true)])
    case Conclude(w, succeeded, now) =>
      s.(op := Answer(s.jobs[w], succeeded).Row(s.op, now), jobs := s.jobs - {w})
    case Crash(w) => s.(jobs := s.jobs - {w})
    case ListStuck(r, _) => s.(looks := s.looks[r := s.op])
    case Recover(r, now) => // whatever has become of the operation since it was listed
      s.(op := Decision(s.looks[r], "WORKER_CRASHED_OR_TIMEOUT").Row(s.op, now), looks := s.looks - {r})
    case StopLooking(r) => s.(looks := s.looks - {r})
  }

  function Run(s: State, events: seq<Event>, registered: bool): Option<State> {
    if events == [] then Some(s)
    else
      match Run(s, events[..|events| - 1], registered)
      case None => None
      case Some(m) =>
        if Enabled(m, events[|events| - 1]) then Some(Step(m, events[|events| - 1], registered)) else None
  }

  /** The operation as its creation leaves it, with background runs launched for it, perhaps none, that have yet to
      start. */
  function Created(op: Operation, launched: set<WorkerId>): State {
    State(op, map w | w in launched :: Job(op, true, false, false), map[])
  }

  ghost predicate BudgetKept(op: Operation, s: State) {
    && SameOrder(op, s.op)
    && (forall w :: w in s.jobs ==> SameOrder(op, s.jobs[w].seen))
    && (forall r :: r in s.looks ==> SameOrder(op, s.looks[r]))
  }

  lemma {:induction false} StepKeepsBudget(op: Operation, s: State, e: Event, registered: bool)
    requires BudgetKept(op, s) && Enabled(s, e)
    ensures BudgetKept(op, Step(s, e, registered))
  {
    var s' := Step(s, e, registered);
    assert SameOrder(s.op, s'.op);
    forall w | w in s'.jobs ensures SameOrder(op, s'.jobs[w].seen) {
      assert w in s.jobs ==> s'.jobs[w].seen == s.jobs[w].seen;
    }
  }

  /** The retry count is the same in every reachable state, in the row and in every copy that a run decides on. */
  lemma {:induction false} RetryCountNeverMoves(
    op: Operation, launched: set<WorkerId>, events: seq<Event>, registered: bool)
    requires Run(Created(op, launched), events, registered).Some?
    ensures BudgetKept(op, Run(Created(op, launched), events, registered).value)
  {
    if events != [] {
      var before := events[..|events| - 1];
      RetryCountNeverMoves(op, launched, before, registered);
      StepKeepsBudget(op, Run(Created(op, launched), before, registered).value, events[|events| - 1], registered);
    }
  }

  // ---- Exactly when an operation with a retry left fails ----

  /** Every other event writes the operation's status. */
  predicate Writes(e: Event) {
    !e.Poll? && !e.Crash? && !e.ListStuck? && !e.StopLooking?
  }

  /** The event fails the operation for good: its workflow gives up, or a background run of it fails. */
  predicate Fails(s: State, e: Event) {
    e.GiveUp? || (e.Conclude? && !e.succeeded && e.worker in s.jobs && s.jobs[e.worker].background)
  }

  /** Whether the last event of a run that wrote the status was one that fails the operation. */
  function LastWriteFails(s: State, events: seq<Event>): bool
    requires Run(s, events, true).Some?
  {
    events != []
    && var (before, e) := (events[..|events| - 1], events[|events| - 1]);
    if Writes(e) then Fails(Run(s, before, true).value, e) else LastWriteFails(s, before)
  }

  lemma {:induction false} StepFailsExactly(op: Operation, s: State, e: Event)
    requires BudgetKept(op, s) && RetriesLeft(op) && Enabled(s, e)
    ensures (Step(s, e, true).op.status == Failed) <==> if Writes(e) then Fails(s, e) else s.op.status == Failed
  {
  }

  /** In every run, an operation with a registered workflow and a retry left is failed exactly when the last write to
      its status was a workflow giving up by itself or a background run that failed. Workers that fail, however often,
      workers that crash and the recovery of stuck operations never leave it failed. */
  lemma {:induction false} FailedExactlyWhenLastWriteFails(op: Operation, launched: set<WorkerId>, events: seq<Event>)
    requires RetriesLeft(op) && op.status != Failed && Run(Created(op, launched), events, true).Some?
    ensures Run(Created(op, launched), events, true).value.op.status == Failed <==>
      LastWriteFails(Created(op, launched), events)
  {
    if events != [] {
      var before := events[..|events| - 1];
      FailedExactlyWhenLastWriteFails(op, launched, before);
      RetryCountNeverMoves(op, launched, before, true);
      StepFailsExactly(op, Run(Created(op, launched), before, true).value, events[|events| - 1]);
    }
  }

  /** Nothing but workers: no background run has been launched. Then the operation never fails, crashes included, when
      its workflow does not give up by itself. */
  lemma {:induction false} CrashesNeverFailIt(op: Operation, events: seq<Event>)
    requires RetriesLeft(op) && op.status != Failed
    requires Run(Created(op, {}), events, true).Some?
    requires forall e :: e in events ==> !e.GiveUp?
    ensures Run(Created(op, {}), events, true).value.op.status != Failed
    ensures forall w :: w in Run(Created(op, {}), events, true).value.jobs ==>
      !Run(Created(op, {}), events, true).value.jobs[w].background
  {
    if events != [] {
      var before := events[..|events| - 1];
      CrashesNeverFailIt(op, before);
      RetryCountNeverMoves(op, {}, before, true);
      StepFailsExactly(op, Run(Created(op, {}), before, true).value, events[|events| - 1]);
    }
  }

  /** A background run that fails leaves the operation failed although it has all its retries left. */
  lemma {:induction false} BackgroundFailureIgnoresRetries(op: Operation, now: Time)
    requires RetriesLeft(op)
    ensures var end := Run(Created(op, {0}), [Start(0, now), Conclude(0, false, now)], false);
      end.Some? && end.value.jobs == map[] && end.value.op.status == Failed && RetriesLeft(end.value.op)
  {
    var events := [Start(0, now), Conclude(0, false, now)];
    assert events[..2] == events && events[..2][..1] == events[..1] && events[..1][..0] == [];
    assert Run(Created(op, {0}), events[..1], false).Some?;
    assert Run(Created(op, {0}), events, false).value.jobs == map[];
  }

  /** An operation is failed only while a run that has given up still has to report back. */
  ghost predicate FailedOnlyInPassing(s: State) {
    s.op.status == Failed ==> exists w :: w in s.jobs && s.jobs[w].gaveUp
  }

  ghost predicate NoBackground(s: State) {
    forall w :: w in s.jobs ==> !s.jobs[w].background
  }

  /** A worker dies between giving up and reporting back. */
  predicate LosesGivenUp(s: State, e: Event) {
    e.Crash? && e.worker in s.jobs && s.jobs[e.worker].gaveUp
  }

  predicate LosesNone(s: State, events: seq<Event>)
    requires Run(s, events, true).Some?
  {
    events == []
    || (LosesNone(s, events[..|events| - 1]) && !LosesGivenUp(Run(s, events[..|events| - 1], true).value,
      events[|events| - 1]))
  }

  lemma {:induction false} StepFailsOnlyInPassing(op: Operation, s: State, e: Event)
    requires BudgetKept(op, s) && RetriesLeft(op) && FailedOnlyInPassing(s) && NoBackground(s)
    requires Enabled(s, e) && !LosesGivenUp(s, e)
    ensures FailedOnlyInPassing(Step(s, e, true)) && NoBackground(Step(s, e, true))
  {
    var s' := Step(s, e, true);
    if s'.op.status == Failed && s.op.status == Failed {
      var w :| w in s.jobs && s.jobs[w].gaveUp;
      assert w in s'.jobs;
    } else if e.GiveUp? {
      assert s'.jobs[e.worker].gaveUp;
    }
  }

  /** However often its workflow fails or gives up, and however its workers, their crashes and the recovery of stuck
      operations interleave, an operation with a retry left and a registered workflow that only workers run is not
      failed whenever no worker is at work on it, as long as none dies between giving up and reporting back. */
  lemma {:induction false} NeverLeftFailed(op: Operation, events: seq<Event>)
    requires RetriesLeft(op) && op.status != Failed
    requires Run(Created(op, {}), events, true).Some? && LosesNone(Created(op, {}), events)
    ensures var s := Run(Created(op, {}), events, true).value;
      FailedOnlyInPassing(s) && NoBackground(s) && (s.jobs == map[] ==> s.op.status != Failed)
  {
    if events != [] {
      var before := events[..|events| - 1];
      NeverLeftFailed(op, before);
      RetryCountNeverMoves(op, {}, before, true);
      StepFailsOnlyInPassing(op, Run(Created(op, {}), before, true).value, events[|events| - 1]);
    }
  }

  // ---- Stranded operations ----

  /** With nobody at work on it, anything ever happens to an operation again exactly when it is pending or running. */
  lemma {:induction false} RevivedExactlyWhenPendingOrRunning(op: Operation)
    ensures (exists e :: Enabled(State(op, map[], map[]), e)) <==> (Pending(op) || op.status == Running)
  {
    var s := State(op, map[], map[]);
    if Pending(op) {
      assert Enabled(s, Poll(0));
    } else if op.status == Running {
      assert Enabled(s, ListStuck(0, op.updatedAt + 1));
    }
  }

  lemma {:induction false} StaysStranded(op: Operation, events: seq<Event>, registered: bool)
    requires !Pending(op) && op.status != Running && Run(State(op, map[], map[]), events, registered).Some?
    ensures Run(State(op, map[], map[]), events, registered) == Some(State(op, map[], map[]))
  {
    if events != [] {
      StaysStranded(op, events[..|events| - 1], registered);
      RevivedExactlyWhenPendingOrRunning(op);
    }
  }

  /** A worker polls an operation, starts it, gets as far as waiting for a resource or for its provider, and dies. */
  function DiesWaiting(waiting: Status, now: Time): seq<Event> {
    [Poll(0), Start(0, now), Report(0, Progress(waiting, "waiting", 20, None), now), Crash(0)]
  }

  /** Every pending operation can be stranded like that, retries left or not: no worker polls it and no reconciler
      recovers it, and whatever happens afterwards it stays as it is. */
  lemma {:induction false} DeadWhileWaitingIsStranded(op: Operation, waiting: Status, now: Time)
    requires Pending(op) && (waiting == WaitingResource || waiting == WaitingProvider)
    ensures var end := Run(Created(op, {}), DiesWaiting(waiting, now), true);
      && end.Some? && end.value.jobs == map[] && end.value.op.status == waiting
      && forall events, registered | Run(end.value, events, registered).Some? ::
        Run(end.value, events, registered) == end
  {
    var events, s := DiesWaiting(waiting, now), Created(op, {});
    assert events[..4] == events && events[..4][..3] == events[..3] && events[..3][..2] == events[..2];
    assert events[..2][..1] == events[..1] && events[..1][..0] == [];
    assert Run(s, events[..1], true) == Some(State(op, map[0 := Job(op, false, false, false)], map[]));
    var running := Progress(Running, "running", 5, Some(now)).Row(op, now);
    assert map[0 := Job(op, false, false, false)][0 := Job(op, false, true, false)]
      == map[0 := Job(op, false, true, false)];
    assert Run(s, events[..2], true) == Some(State(running, map[0 := Job(op, false, true, false)], map[]));
    var stranded := Progress(waiting, "waiting", 20, None).Row(running, now);
    assert Run(s, events, true) == Some(State(stranded, map[], map[]));
    forall later, registered | Run(State(stranded, map[], map[]), later, registered).Some?
      ensures Run(State(stranded, map[], map[]), later, registered) == Some(State(stranded, map[], map[]))
    {
      StaysStranded(stranded, later, registered);
    }
  }

  /** Nothing keeps two workers from running one pending operation at once. */
  lemma {:induction false} TwoWorkersCanRunIt(op: Operation, now: Time)
    requires Pending(op)
    ensures var end := Run(Created(op, {}), [Poll(0), Poll(1), Start(0, now), Start(1, now)], true);
      end.Some? && end.value.jobs.Keys == {0, 1} && end.value.jobs[0].started && end.value.jobs[1].started
  {
    var events, s, job := [Poll(0), Poll(1), Start(0, now), Start(1, now)], Created(op, {}), Job(op, false, false,
      false);
    assert events[..4] == events && events[..4][..3] == events[..3] && events[..3][..2] == events[..2];
    assert events[..2][..1] == events[..1] && events[..1][..0] == [];
    assert Run(s, events[..1], true) == Some(State(op, map[0 := job], map[]));
    assert Run(s, events[..2], true) == Some(State(op, map[0 := job, 1 := job], map[]));
  }

  // ---- An operation that has ended, run again ----

  /** A run has read the operation and has yet to start. */
  ghost predicate StartUnderWay(s: State) {
    exists w :: w in s.jobs && !s.jobs[w].started
  }

  /** A run can still put the operation back to retrying or running, which a background run that has given up cannot. */
  predicate CanReturn(s: State, w: WorkerId) {
    w in s.jobs && !(s.jobs[w].background && s.jobs[w].gaveUp)
  }

  /** Somebody can still put it back to retrying: a run, or a reconciler that has listed it as stuck. */
  ghost predicate ReturnUnderWay(s: State) {
    s.looks != map[] || exists w :: CanReturn(s, w)
  }

  /** Its workflow is started once more. */
  predicate StartsAgain(s: State, more: seq<Event>) {
    more != [] && more[|more| - 1].Start? && Run(s, more, true).Some?
  }

  /** No run of the operation is to start, and nothing can bring it to that. */
  ghost predicate AtRest(op: Operation, s: State) {
    && BudgetKept(op, s) && !Pending(s.op) && !StartUnderWay(s)
    && (RetriesLeft(op) ==> s.op.status != Running && !ReturnUnderWay(s))
  }

  lemma {:induction false} StepStaysAtRest(op: Operation, s: State, e: Event)
    requires AtRest(op, s) && Enabled(s, e)
    ensures AtRest(op, Step(s, e, true)) && !e.Start?
  {
    StepKeepsBudget(op, s, e, true);
    hide SameOrder;
    var s' := Step(s, e, true);
    forall w | w in s'.jobs ensures s'.jobs[w].started && (RetriesLeft(op) ==> !CanReturn(s', w)) {
      assert w in s.jobs ==> s.jobs[w].started && (RetriesLeft(op) ==> !CanReturn(s, w));
    }
    if e.Report? || e.GiveUp? || e.Conclude? {
      assert RetriesLeft(op) ==> !CanReturn(s, e.worker);
    }
  }

  lemma {:induction false} StaysAtRest(op: Operation, s: State, more: seq<Event>)
    requires AtRest(op, s) && Run(s, more, true).Some?
    ensures AtRest(op, Run(s, more, true).value) && forall e :: e in more ==> !e.Start?
  {
    hide AtRest, Enabled, Step;
    if more != [] {
      StaysAtRest(op, s, more[..|more| - 1]);
      StepStaysAtRest(op, Run(s, more[..|more| - 1], true).value, more[|more| - 1]);
    }
  }

  lemma {:induction false} RunExtends(s: State, events: seq<Event>, e: Event, m: State)
    requires Run(s, events, true) == Some(m) && Enabled(m, e)
    ensures Run(s, events + [e], true) == Some(Step(m, e, true))
  {
  }

  lemma {:induction false} PendingStarts(s: State, events: seq<Event>, m: State) returns (more: seq<Event>)
    requires Run(s, events, true) == Some(m) && Pending(m.op)
    ensures StartsAgain(s, more)
  {
    var w := Unused(m.jobs.Keys);
    RunExtends(s, events, Poll(w), m);
    RunExtends(s, events + [Poll(w)], Start(w, 0), Step(m, Poll(w), true));
    more := events + [Poll(w)] + [Start(w, 0)];
  }

  lemma {:induction false} ListedStarts(s: State, events: seq<Event>, m: State, r: WorkerId)
    returns (more: seq<Event>)
    requires Run(s, events, true) == Some(m) && r in m.looks && RetriesLeft(m.looks[r])
    ensures StartsAgain(s, more)
  {
    RunExtends(s, events, Recover(r, 0), m);
    more := PendingStarts(s, events + [Recover(r, 0)], Step(m, Recover(r, 0), true));
  }

  lemma {:induction false} RunningStarts(s: State, w: WorkerId) returns (more: seq<Event>)
    requires CanReturn(s, w) && s.jobs[w].started && RetriesLeft(s.op) && RetriesLeft(s.jobs[w].seen)
    ensures StartsAgain(s, more)
  {
    if s.jobs[w].gaveUp {
      RunExtends(s, [], Conclude(w, false, 0), s);
      more := PendingStarts(s, [] + [Conclude(w, false, 0)], Step(s, Conclude(w, false, 0), true));
    } else {
      var report := Report(w, Progress(Running, "running", 0, None), 0);
      var r := Unused(s.looks.Keys);
      RunExtends(s, [], report, s);
      var running := Step(s, report, true);
      RunExtends(s, [] + [report], ListStuck(r, 1), running);
      more := ListedStarts(s, [] + [report] + [ListStuck(r, 1)], Step(running, ListStuck(r, 1), true), r);
    }
  }

  /** An operation that neither the poll nor the reconciler lists any more, such as one that has succeeded, is run once
      more in some continuation exactly when a run of it has yet to start or, provided that it had a retry left, a run
      or a reconciler that has read it before is still at work on it. */
  lemma {:induction false} RunsAgainExactlyWhen(op: Operation, launched: set<WorkerId>, events: seq<Event>)
    requires Run(Created(op, launched), events, true).Some?
    requires var s := Run(Created(op, launched), events, true).value; !Pending(s.op) && s.op.status != Running
    ensures var s := Run(Created(op, launched), events, true).value;
      (exists more :: StartsAgain(s, more)) <==> StartUnderWay(s) || (RetriesLeft(op) && ReturnUnderWay(s))
  {
    RetryCountNeverMoves(op, launched, events, true);
    var s := Run(Created(op, launched), events, true).value;
    if w :| w in s.jobs && !s.jobs[w].started {
      RunExtends(s, [], Start(w, 0), s);
      assert StartsAgain(s, [] + [Start(w, 0)]);
    } else if RetriesLeft(op) && s.looks != map[] {
      var r :| r in s.looks;
      var more := ListedStarts(s, [], s, r);
    } else if w :| RetriesLeft(op) && CanReturn(s, w) {
      var more := RunningStarts(s, w);
    } else {
      forall more ensures !StartsAgain(s, more) {
        if Run(s, more, true).Some? {
          StaysAtRest(op, s, more);
        }
      }
    }
  }

  /** A reconciler lists an operation as stuck, its worker finishes it after all, and the reconciler puts it back. */
  function FinishedAfterListing(now: Time): seq<Event> {
    [] + [Poll(0)] + [Start(0, now)] + [ListStuck(0, now + 1)] + [Conclude(0, true, now)] + [Recover(0, now)]
  }

  /** The operation had succeeded, and is started again. */
  lemma {:induction false} SucceededIsRunAgain(op: Operation, now: Time)
    requires Pending(op) && RetriesLeft(op)
    ensures var end := Run(Created(op, {}), FinishedAfterListing(now), true);
      && end.Some? && end.value.op.status == Retrying && end.value.jobs == map[]
      && Run(Created(op, {}), FinishedAfterListing(now)[..4], true).Some?
      && Run(Created(op, {}), FinishedAfterListing(now)[..4], true).value.op.status == Succeeded
      && exists more :: StartsAgain(end.value, more)
  {
    var s, job := Created(op, {}), Job(op, false, true, false);
    assert s.jobs == map[] && map[0 := job.(started := false)][0 := job] == map[0 := job];
    var running := Progress(Running, "running", 5, Some(now)).Row(op, now);
    RunExtends(s, [], Poll(0), s);
    RunExtends(s, [] + [Poll(0)], Start(0, now), State(op, map[0 := job.(started := false)], map[]));
    var started := [] + [Poll(0)] + [Start(0, now)];
    RunExtends(s, started, ListStuck(0, now + 1), State(running, map[0 := job], map[]));
    var listed := State(running, map[0 := job], map[0 := running]);
    RunExtends(s, started + [ListStuck(0, now + 1)], Conclude(0, true, now), listed);
    var finished := Step(listed, Conclude(0, true, now), true);
    assert finished.jobs == map[];
    RunExtends(s, started + [ListStuck(0, now + 1)] + [Conclude(0, true, now)], Recover(0, now), finished);
    assert FinishedAfterListing(now)[..4] == started + [ListStuck(0, now + 1)] + [Conclude(0, true, now)];
    var end := Step(finished, Recover(0, now), true);
    var more := PendingStarts(end, [], end);
  }

  // ---- One execution after another ----

  /** What one execution of the workflow does: its own updates, in order, and its result. */
  datatype Script = Script(updates: seq<Update>, succeeded: bool)

  function Updated(op: Operation, updates: seq<Update>, now: Time): Operation {
    if updates == [] then op
    else updates[|updates| - 1].Row(Updated(op, updates[..|updates| - 1], now), now)
  }

  /** The row after one execution by a worker that has read it as `seen`. */
  function Processed(op: Operation, seen: Operation, registered: bool, script: Script, now: Time): Operation {
    if !registered then Fail("UNSUPPORTED_OPERATION").Row(op, now)
    else
      var running := Progress(Running, "running", 5, Some(now)).Row(op, now);
      var worked := Updated(running, script.updates, now);
      if script.succeeded then Complete.Row(worked, now) else Decision(seen, "WORKFLOW_FAILED").Row(worked, now)
  }

  /** The row after as many of the scripts as are executed: an operation is executed while it is pending. With
      `counting`, each retry is also counted in the row, which no statement of the program does. */
  function Executed(
    op: Operation, registered: bool, scripts: seq<Script>, now: Time, counting: bool): (Operation, nat) {
    if scripts == [] then (op, 0)
    else
      var (before, n) := Executed(op, registered, scripts[..|scripts| - 1], now, counting);
      if !Pending(before) then (before, n)
      else
        var after := Processed(before, before, registered, scripts[|scripts| - 1], now);
        (if counting && after.status == Retrying then after.(retryCount := before.retryCount + 1) else after, n + 1)
  }

  lemma {:induction false} UpdatedKeepsOrder(op: Operation, updates: seq<Update>, now: Time)
    ensures SameOrder(op, Updated(op, updates, now))
  {
    if updates != [] {
      UpdatedKeepsOrder(op, updates[..|updates| - 1], now);
    }
  }

  predicate AllFail(scripts: seq<Script>) {
    forall i :: 0 <= i < |scripts| ==> !scripts[i].succeeded
  }

  /** An operation whose every execution fails is executed again and again, for ever, exactly when it had a retry left
      at the start: the bound on its retries is never spent. */
  lemma {:induction false} AlwaysFailingRetriesForever(op: Operation, registered: bool, scripts: seq<Script>, now: Time)
    requires Pending(op) && AllFail(scripts) && scripts != []
    ensures var (after, executions) := Executed(op, registered, scripts, now, false);
      && SameOrder(op, after)
      && (if registered && RetriesLeft(op) then after.status == Retrying && executions == |scripts|
          else after.status == Failed && executions == 1)
  {
    var init := scripts[..|scripts| - 1];
    assert AllFail(init) && !scripts[|scripts| - 1].succeeded;
    var before := op;
    if init == [] {
      assert Executed(op, registered, init, now, false) == (op, 0);
    } else {
      AlwaysFailingRetriesForever(op, registered, init, now);
      before := Executed(op, registered, init, now, false).0;
    }
    UpdatedKeepsOrder(Progress(Running, "running", 5, Some(now)).Row(before, now), scripts[|scripts| - 1].updates, now);
  }

  function Budget(op: Operation): nat {
    if RetriesLeft(op) then op.maxRetries - op.retryCount else 0
  }

  /** Were each retry counted, an always failing operation would fail for good after exactly its remaining retries plus
      one executions. */
  lemma {:induction false} CountedRetriesEnd(op: Operation, scripts: seq<Script>, now: Time)
    requires Pending(op) && AllFail(scripts) && scripts != []
    ensures var (after, executions) := Executed(op, true, scripts, now, true);
      if |scripts| <= Budget(op) then
        after.status == Retrying && executions == |scripts| && after.retryCount == op.retryCount + |scripts|
        && after.retryable == op.retryable && after.maxRetries == op.maxRetries
      else after.status == Failed && executions == Budget(op) + 1
  {
    var init := scripts[..|scripts| - 1];
    assert AllFail(init) && !scripts[|scripts| - 1].succeeded;
    var before := op;
    if init == [] {
      assert Executed(op, true, init, now, true) == (op, 0);
    } else {
      CountedRetriesEnd(op, init, now);
      before := Executed(op, true, init, now, true).0;
    }
    UpdatedKeepsOrder(Progress(Running, "running", 5, Some(now)).Row(before, now), scripts[|scripts| - 1].updates, now);
  }

  class Worker {
    const service: Service
    const registry: set<string>

    constructor (service: Service, registry: set<string>)
      ensures this.service == service && this.registry == registry
    {
      this.service, this.registry := service, registry;
    }

    /** Runs an operation that the poll has read as `seen`. */
    method ProcessOperation(id: OperationId, seen: Operation, script: Script, now: Time)
      requires id in service.operations
      modifies service
      ensures service.operations == old(service.operations)[id :=
        Processed(old(service.operations[id]), seen, seen.kind in registry, script, now)]
    {
      if seen.kind !in registry {
        service.FailOperation(id, "UNSUPPORTED_OPERATION", now);
        return;
      }
      service.UpdateProgress(id, Running, "running", 5, Some(now), now);
      Execute(id, script.updates, now);
      if !script.succeeded {
        if seen.retryable && seen.retryCount < seen.maxRetries {
          service.UpdateProgress(id, Retrying, "retrying", seen.progress, None, now);
        } else {
          service.FailOperation(id, "WORKFLOW_FAILED", now);
        }
        return;
      }
      service.CompleteOperation(id, now);
    }

    /** The updates that the workflow makes while it runs. */
    method Execute(id: OperationId, updates: seq<Update>, now: Time)
      requires id in service.operations
      modifies service
      ensures service.operations == old(service.operations)[id := Updated(old(service.operations[id]), updates, now)]
    {
      for i := 0 to |updates|
        invariant service.operations == old(service.operations)[id := Updated(old(service.operations[id]), updates[..i],
          now)]
      {
        assert updates[..i + 1][..i] == updates[..i];
        match updates[i] {
          case Progress(status, phase, progress, startedAt) => service.UpdateProgress(id, status, phase, progress,
            startedAt, now);
          case Complete => service.CompleteOperation(id, now);
          case Fail(code) => service.FailOperation(id, code, now);
        }
      }
      assert updates[..|updates|] == updates;
    }
  }
}
