/** What becomes of requests on instances and of the workflow behind them, in the columns of the rows alone. */
module ActionLaws {
  import opened Options
  import opened Identifiers
  import opened Instances
  import Lifecycle
  import OperationLaws
  import Operations
  import Retries
  import Texts
  import A = InstanceActions

  /** The state that each kind of action aims at. */
  ghost predicate AimsAt(kind: string, observed: string, state: string) {
    && (kind == "stop_instance" ==> state == "stopped")
    && (kind == "delete_instance" ==> state == "deleted")
    && (kind == "reset_password" ==> state == if observed == "" then "running" else observed)
    && (kind !in ["stop_instance", "delete_instance", "reset_password"] ==> state == "running")
  }

  /** A workflow on an instance succeeds exactly when the instance is there, a provider is, it carries out the action if
      the kind is known, and the new states can be stored; the instance then has the state aimed at as both, and
      otherwise stays. */
  lemma {:induction false} WorkflowEndsExactly(kind: string, instances: Table, id: InstanceId, a: Lifecycle.Answers)
    ensures var (after, ok) := (Lifecycle.Acted(kind, instances, id, a),
        Lifecycle.ScriptOf(kind, instances, id, a).succeeded);
      && (ok <==>
        && id in instances && !instances[id].deleted && a.provider && a.stored && (kind in A.KINDS ==> a.acted))
      && (!ok ==> after == instances)
      && (ok ==>
        && after == instances[id := instances[id].(desired := after[id].desired, observed := after[id].observed)]
        && after[id].desired == after[id].observed && AimsAt(kind, instances[id].observed, after[id].desired))
  {
  }

  /** The status and the error that the workflow itself leaves on its operation: completed, failed for want of a
      provider, waiting for one that has not carried out the action, or running where a row is missing or cannot be
      stored. */
  lemma {:induction false} WorkflowLeavesOperation(
    op: Operations.Operation, instances: Table, id: InstanceId, a: Lifecycle.Answers)
    ensures var script := Lifecycle.ScriptOf(op.kind, instances, id, a);
      var after := Retries.Updated(op, script.updates, a.now);
      var found := id in instances && !instances[id].deleted;
      && after.status == (if script.succeeded then Operations.Succeeded
        else if found && !a.provider then Operations.Failed
        else if found && op.kind in A.KINDS && !a.acted then Operations.WaitingProvider
        else Operations.Running)
      && after.error == (if found && !a.provider then Some("PROVIDER_UNAVAILABLE") else op.error)
      && after.finishedAt == (if script.succeeded || (found && !a.provider) then Some(a.now) else op.finishedAt)
  {
    var script := Lifecycle.ScriptOf(op.kind, instances, id, a);
    hide Lifecycle.Target, Lifecycle.Verify;
    Lifecycle.DidPart(op, script.updates, 0, a.now);
    if |script.updates| > 1 {
      Lifecycle.DidPart(op, script.updates, 1, a.now);
    }
    if |script.updates| > 2 {
      Lifecycle.DidPart(op, script.updates, 2, a.now);
    }
    if |script.updates| > 3 {
      Lifecycle.DidPart(op, script.updates, 3, a.now);
    }
  }

  /** An operation on the instance that is queued, running or retrying. */
  predicate Busy(op: Operations.Operation, instance: InstanceId) {
    && op.kind != "provision_instance" && op.resource == instance
    && op.status in [Operations.Queued, Operations.Running, Operations.Retrying]
  }

  /** Exactly when a request on an instance gets which answer, in the columns of the operations. */
  lemma {:induction false} RequestAnswersExactly(r: A.Records, a: A.Action)
    requires Operations.UniqueKeys(r.operations)
    ensures var (r', answer) := A.Handled(r, a);
      var known := a.instance in r.instances && !r.instances[a.instance].deleted && a.owned;
      var busy := exists o :: o in r.operations && Busy(r.operations[o], a.instance);
      && (answer == A.NotFound <==> !known)
      && (answer == A.Conflict <==> known && a.listed && busy)
      && (!answer.Accepted? ==> r' == r)
      && (answer.Accepted? ==>
        && answer.operation in r'.operations
        && r'.operations[answer.operation].key == A.ActionKey(a.kind, a.instance)
        && r'.instances.Keys == r.instances.Keys
        && (forall i :: i in r.instances && i != a.instance ==> r'.instances[i] == r.instances[i])
        && r'.instances[a.instance] == (if a.stored then r.instances[a.instance].(desired :=
          if a.kind == "stop_instance" then "stopped" else if a.kind == "delete_instance" then "deleted" else "running")
          else r.instances[a.instance]))
      && (answer.Accepted? && answer.operation !in r.operations ==>
        r'.operations[answer.operation] == Operations.Operation(a.kind, a.instance, Operations.Queued, "queued", 0,
          A.ActionKey(a.kind, a.instance), true, 0, 3, None, None, None, a.now))
  {
    hide A.ActionKey;
    OperationLaws.CreatesExactly(r.operations, A.ActionInput(a.kind, a.instance), a.newId, a.now);
    forall o | o in r.operations ensures A.Blocks(r.operations[o], a.instance) <==> Busy(r.operations[o], a.instance) {
    }
  }

  /** What a request writes as the desired state is what its workflow ends with, exactly unless it resets the password
      of an instance that is observed in another state than running. */
  lemma {:induction false} RequestAndWorkflowAgree(
    instances: Table, action: A.Action, a: Lifecycle.Answers, r: A.Records)
    requires action.kind in A.KINDS && action.stored && r.instances == instances
    requires A.Handled(r, action).1.Accepted?
    requires Lifecycle.ScriptOf(action.kind, A.Handled(r, action).0.instances, action.instance, a).succeeded
    ensures var requested := A.Handled(r, action).0.instances;
      var ended := Lifecycle.Acted(action.kind, requested, action.instance, a);
      && action.instance in instances && action.instance in requested && action.instance in ended
      && (ended[action.instance].desired == requested[action.instance].desired <==>
        (action.kind == "reset_password" ==> instances[action.instance].observed in ["", "running"]))
  {
  }

  /** The key of a request says its kind and its instance, and where its timestamp should be, what Go's fmt package
      prints for a number that is not there. */
  lemma {:induction false} KeySpelledOut(kind: string, instance: InstanceId)
    ensures A.ActionKey(kind, instance) == kind + "-" + Texts.Canonical(instance) + "-%!d(<nil>)"
  {
    assert kind + ("-" + Texts.Canonical(instance) + "-%!d(<nil>)")
      == kind + "-" + Texts.Canonical(instance) + "-%!d(<nil>)";
  }
}
