/** What becomes of an operation's row, column by column: its creation, any updates, and one execution by a worker. */
module OperationLaws {
  import opened Options
  import opened Identifiers
  import opened Operations
  import Retries

  // ---- Rows ----

  /** A call that creates an operation gives the one that holds its key, if it names one, and otherwise enters one
      queued row under a key and an id that are free. */
  lemma {:induction false} CreatesExactly(table: Table, input: Input, id: OperationId, now: Time)
    requires UniqueKeys(table)
    ensures var (table', reply) := Served(table, Create(input, id, now));
      var taken := exists o :: o in table && table[o].key == input.key;
      && (table' != table <==> !taken && id !in table)
      && (reply == UniqueViolation <==> if taken then input.key == "" else id in table)
      && (reply.Ok? && taken ==> reply.id in table && table[reply.id].key == input.key)
      && (!taken && id !in table ==>
        && reply == Ok(id) && table'.Keys == table.Keys + {id}
        && (forall o :: o in table ==> table'[o] == table[o])
        && table'[id] == Operation(input.kind, input.resource, Queued, "queued", 0, input.key, input.retryable, 0,
          input.maxRetries, None, None, None, now))
  {
    forall o ensures Holds(table, o, input.key) <==> o in table && table[o].key == input.key {
    }
  }

  datatype Write = Write(update: Update, time: Time)

  function Written(op: Operation, writes: seq<Write>): Operation {
    if writes == [] then op
    else writes[|writes| - 1].update.Row(Written(op, writes[..|writes| - 1]), writes[|writes| - 1].time)
  }

  function StatusOf(update: Update): Status {
    match update
    case Progress(status, _, _, _) => status
    case Complete => Succeeded
    case Fail(_) => Failed
  }

  /** No later write concerns the column that this one has written. */
  ghost predicate LastSuch(writes: seq<Write>, i: int, such: Write -> bool) {
    0 <= i < |writes| && such(writes[i]) && forall j :: i < j < |writes| ==> !such(writes[j])
  }

  predicate Ends(w: Write) {
    !w.update.Progress?
  }

  predicate Breaks(w: Write) {
    w.update.Fail?
  }

  predicate Begins(w: Write) {
    w.update.Progress? && w.update.startedAt.Some?
  }

  ghost predicate FirstBegin(writes: seq<Write>, i: int) {
    0 <= i < |writes| && Begins(writes[i]) && forall j :: 0 <= j < i ==> !Begins(writes[j])
  }

  lemma {:induction false} LastBefore(writes: seq<Write>, i: int, such: Write -> bool)
    requires LastSuch(writes, i, such) && i < |writes| - 1
    ensures LastSuch(writes[..|writes| - 1], i, such) && !such(writes[|writes| - 1])
  {
  }

  /** Over any updates a row shows the status and the time of the last one, the instant of the last one that ended it,
      and the error of the last failure; what it is for, its key and its retry columns stay. */
  lemma {:induction false} ShowsTheLastWrites(op: Operation, writes: seq<Write>, i: int)
    ensures var after := Written(op, writes);
      && (writes != [] ==>
        && after.status == StatusOf(writes[|writes| - 1].update)
        && after.updatedAt == writes[|writes| - 1].time)
      && (LastSuch(writes, i, Ends) ==> after.finishedAt == Some(writes[i].time))
      && (LastSuch(writes, i, Breaks) ==> after.error == Some(writes[i].update.code))
      && after.kind == op.kind && after.resource == op.resource && after.key == op.key
      && after.retryable == op.retryable && after.retryCount == op.retryCount && after.maxRetries == op.maxRetries
  {
    if writes != [] {
      var init := writes[..|writes| - 1];
      ShowsTheLastWrites(op, init, i);
      if i < |init| {
        if LastSuch(writes, i, Ends) {
          LastBefore(writes, i, Ends);
        }
        if LastSuch(writes, i, Breaks) {
          LastBefore(writes, i, Breaks);
        }
      }
    }
  }

  /** An operation starts once: the instant that it has, or else the first one that an update brings, stays. */
  lemma {:induction false} StartsOnce(op: Operation, writes: seq<Write>, i: int)
    ensures op.startedAt.Some? ==> Written(op, writes).startedAt == op.startedAt
    ensures op.startedAt.None? && FirstBegin(writes, i) ==>
      Written(op, writes).startedAt == writes[i].update.startedAt
    ensures op.startedAt.None? && (forall j :: 0 <= j < |writes| ==> !Begins(writes[j])) ==>
      Written(op, writes).startedAt.None?
  {
    if writes != [] {
      var init := writes[..|writes| - 1];
      StartsOnce(op, init, i);
      if i == |init| {
        StartsOnce(op, init, 0);
      }
    }
  }

  /** A progress update within 0 to 100 shows as it is, and beyond that as the nearer bound; the end of an operation by
      success shows as 100, and by failure leaves it. */
  lemma {:induction false} ProgressIsClamped(op: Operation, update: Update, now: Time)
    ensures update.Progress? ==>
      var shown := update.Row(op, now).progress;
      && 0 <= shown <= 100 && update.Row(op, now).phase == update.phase
      && (shown == update.progress <==> 0 <= update.progress <= 100)
      && (update.progress < 0 ==> shown == 0) && (update.progress > 100 ==> shown == 100)
    ensures update.Complete? ==> update.Row(op, now).progress == 100 && update.Row(op, now).phase == "completed"
    ensures update.Fail? ==> update.Row(op, now).progress == op.progress && update.Row(op, now).phase == op.phase
  {
  }

  // ---- One execution by a worker ----

  lemma {:induction false} UpdatesKeepStart(op: Operation, updates: seq<Update>, now: Time)
    requires op.startedAt.Some?
    ensures Retries.Updated(op, updates, now).startedAt == op.startedAt
  {
    if updates != [] {
      UpdatesKeepStart(op, updates[..|updates| - 1], now);
    }
  }

  /** How the row ends after a worker has executed an operation that it had read before: succeeded, back to retrying
      with the progress that it had read, or failed; without a registered workflow it fails and never starts. */
  lemma {:induction false} ExecutionEndsExactly(
    op: Operation, seen: Operation, registered: bool, script: Retries.Script, now: Time)
    ensures var after := Retries.Processed(op, seen, registered, script, now);
      var retries := seen.retryable && seen.retryCount < seen.maxRetries;
      && after.status == (if !registered then Failed else if script.succeeded then Succeeded
        else if retries then Retrying else Failed)
      && after.updatedAt == now
      && after.startedAt == (if !registered || op.startedAt.Some? then op.startedAt else Some(now))
      && (!registered ==> after.error == Some("UNSUPPORTED_OPERATION") && after.finishedAt == Some(now))
      && (registered && script.succeeded ==>
        after.phase == "completed" && after.progress == 100 && after.finishedAt == Some(now))
      && (registered && !script.succeeded && retries ==>
        && after.phase == "retrying"
        && after.progress == (if seen.progress < 0 then 0 else if seen.progress > 100 then 100 else seen.progress))
      && (registered && !script.succeeded && !retries ==>
        after.error == Some("WORKFLOW_FAILED") && after.finishedAt == Some(now))
  {
    if registered {
      var running := Progress(Running, "running", 5, Some(now)).Row(op, now);
      UpdatesKeepStart(running, script.updates, now);
    }
  }

  /** A worker can poll an operation exactly while it is queued or retrying, and the reconciler lists it exactly while
      it is running and has not been updated since the threshold. */
  lemma {:induction false} ListedExactlyWhen(s: Retries.State, w: Retries.WorkerId, threshold: Time)
    ensures Retries.Enabled(s, Retries.Poll(w)) <==>
      w !in s.jobs && (s.op.status == Queued || s.op.status == Retrying)
    ensures Retries.Enabled(s, Retries.ListStuck(w, threshold)) <==>
      w !in s.looks && s.op.status == Running && s.op.updatedAt < threshold
  {
  }

  // ---- One execution is a run of its steps ----

  lemma {:induction false} RunNext(
    s: Retries.State, events: seq<Retries.Event>, e: Retries.Event, registered: bool, m: Retries.State)
    requires Retries.Run(s, events, registered) == Some(m) && Retries.Enabled(m, e)
    ensures Retries.Run(s, events + [e], registered) == Some(Retries.Step(m, e, registered))
  {
  }

  function Reports(updates: seq<Update>, now: Time): seq<Retries.Event> {
    if updates == [] then []
    else Reports(updates[..|updates| - 1], now) + [Retries.Report(0, updates[|updates| - 1], now)]
  }

  /** A worker polls the operation, starts it, reports what its workflow reports, and concludes. */
  function Steps(registered: bool, script: Retries.Script, now: Time): seq<Retries.Event> {
    var begin := [] + [Retries.Poll(0)] + [Retries.Start(0, now)];
    if registered then begin + Reports(script.updates, now) + [Retries.Conclude(0, script.succeeded, now)] else begin
  }

  function Working(op: Operation, seen: Operation): Retries.State {
    Retries.State(op, map[0 := Retries.Job(seen, false, true, false)], map[])
  }

  lemma {:induction false} StartsWorking(op: Operation, registered: bool, now: Time)
    requires Retries.Pending(op)
    ensures Retries.Run(Retries.Created(op, {}), [] + [Retries.Poll(0)] + [Retries.Start(0, now)], registered) == Some(
      if registered then Working(Progress(Running, "running", 5, Some(now)).Row(op, now), op)
      else Retries.State(Fail("UNSUPPORTED_OPERATION").Row(op, now), map[], map[]))
  {
    var s, polled := Retries.Created(op, {}), Retries.State(op, map[0 := Retries.Job(op, false, false, false)], map[]);
    assert s == Retries.State(op, map[], map[]);
    RunNext(s, [], Retries.Poll(0), registered, s);
    RunNext(s, [] + [Retries.Poll(0)], Retries.Start(0, now), registered, polled);
    assert Retries.Step(polled, Retries.Start(0, now), registered).jobs
      == if registered then map[0 := Retries.Job(op, false, true, false)] else map[];
  }

  lemma {:induction false} ReportsRun(
    s: Retries.State, events: seq<Retries.Event>, op: Operation, seen: Operation, updates: seq<Update>, now: Time)
    requires Retries.Run(s, events, true) == Some(Working(op, seen))
    requires forall u :: u in updates ==> Retries.WorkflowWrites(u)
    ensures Retries.Run(s, events + Reports(updates, now), true)
      == Some(Working(Retries.Updated(op, updates, now), seen))
  {
    if updates == [] {
      assert events + [] == events;
    } else {
      var init, last := updates[..|updates| - 1], updates[|updates| - 1];
      ReportsRun(s, events, op, seen, init, now);
      hide Retries.Run;
      assert last in updates;
      RunNext(s, events + Reports(init, now), Retries.Report(0, last, now), true,
        Working(Retries.Updated(op, init, now), seen));
      assert events + Reports(init, now) + [Retries.Report(0, last, now)] == events + Reports(updates, now);
    }
  }

  /** With nobody else at work, the steps of one execution end with the row that the execution as a whole does. */
  lemma {:induction false} ExecutionIsARun(op: Operation, registered: bool, script: Retries.Script, now: Time)
    requires Retries.Pending(op) && forall u :: u in script.updates ==> Retries.WorkflowWrites(u)
    ensures Retries.Run(Retries.Created(op, {}), Steps(registered, script, now), registered)
      == Some(Retries.State(Retries.Processed(op, op, registered, script, now), map[], map[]))
  {
    hide Retries.Run;
    StartsWorking(op, registered, now);
    if registered {
      var s, begin := Retries.Created(op, {}), [] + [Retries.Poll(0)] + [Retries.Start(0, now)];
      var running := Progress(Running, "running", 5, Some(now)).Row(op, now);
      ReportsRun(s, begin, running, op, script.updates, now);
      var worked := Working(Retries.Updated(running, script.updates, now), op);
      var conclude := Retries.Conclude(0, script.succeeded, now);
      RunNext(s, begin + Reports(script.updates, now), conclude, true, worked);
      assert Retries.Step(worked, conclude, true).jobs == map[];
    }
  }
}
