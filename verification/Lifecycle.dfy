/** The workflow behind start, stop, restart, reinstall, reset and delete: it asks the instance's provider to act and
    then takes the state that the action aims at for both the desired and the observed state. */
module Lifecycle {
  import opened Options
  import opened Identifiers
  import opened Instances
  import Operations
  import Retries

  /** What an execution meets: whether some provider is there, whether it carries out the action, whether the database
      takes the new states, and the clock. */
  datatype Answers = Answers(provider: bool, acted: bool, stored: bool, now: Time)

  /** The state that an operation on an instance aims at; an unknown kind of operation aims at a running instance. */
  function Target(kind: string, instance: Instance): string {
    if kind == "stop_instance" then "stopped"
    else if kind == "delete_instance" then "deleted"
    else if kind == "reset_password" && instance.observed != "" then instance.observed
    else "running"
  }

  /** An unknown kind asks nothing of the provider. */
  predicate AsksProvider(kind: string) {
    kind in ["start_instance", "stop_instance", "restart_instance", "reinstall_instance", "reset_password",
      "delete_instance"]
  }

  function Verify(target: string): string {
    if target == "stopped" then "verify_stopped" else if target == "deleted" then "verify_deleted" else "verify_running"
  }

  predicate Found(instances: Table, id: InstanceId) {
    id in instances && !instances[id].deleted
  }

  /** What the workflow writes into its operation's row, in order, and whether it succeeds. */
  function ScriptOf(kind: string, instances: Table, id: InstanceId, a: Answers): Retries.Script {
    var validate := Operations.Progress(Operations.Running, "validate", 20, None);
    var submit := Operations.Progress(Operations.WaitingProvider, "submit_provider", 50, None);
    if !Found(instances, id) then Retries.Script([validate], false)
    else if !a.provider then Retries.Script([validate, Operations.Fail("PROVIDER_UNAVAILABLE")], false)
    else if AsksProvider(kind) && !a.acted then Retries.Script([validate, submit], false)
    else
      var verify := Operations.Progress(Operations.Running, Verify(Target(kind, instances[id])), 80, None);
      if !a.stored then Retries.Script([validate, submit, verify], false)
      else Retries.Script([validate, submit, verify, Operations.Complete], true)
  }

  /** The instances after the workflow. */
  function Acted(kind: string, instances: Table, id: InstanceId, a: Answers): Table {
    if ScriptOf(kind, instances, id, a).succeeded && id in instances then
      instances[id := instances[id].WithStates(Target(kind, instances[id]), Target(kind, instances[id]), None)]
    else instances
  }

  /** An execution that fails leaves every instance as it was; one that succeeds leaves its own instance in the state
      that it aims at, desired and observed alike, and still recorded, even when it aims at deletion. */
  lemma {:induction false} AllOrNothing(kind: string, instances: Table, id: InstanceId, a: Answers)
    ensures var (after, script) := (Acted(kind, instances, id, a), ScriptOf(kind, instances, id, a));
      && (!script.succeeded ==> after == instances)
      && (script.succeeded ==>
        && id in after && after.Keys == instances.Keys
        && after[id].desired == after[id].observed == Target(kind, instances[id])
        && after[id].deleted == instances[id].deleted == false
        && after[id].providerInstance == instances[id].providerInstance
        && forall other :: other in instances && other != id ==> after[other] == instances[other])
  {
  }

  /** Giving up is not final: an execution that finds no provider marks its operation failed, but the worker puts it
      back into the queue as long as it has a retry left, with the error and the finishing time of the failure still on
      it. */
  lemma {:induction false} GivingUpIsUndone(op: Operations.Operation, instances: Table, id: InstanceId, a: Answers)
    requires Found(instances, id) && !a.provider
    ensures var after := Retries.Processed(op, op, true, ScriptOf(op.kind, instances, id, a), a.now);
      && after.error == Some(if Retries.RetriesLeft(op) then "PROVIDER_UNAVAILABLE" else "WORKFLOW_FAILED")
      && after.finishedAt == Some(a.now)
      && after.status == if Retries.RetriesLeft(op) then Operations.Retrying else Operations.Failed
  {
  }

  class InstanceLifecycleWorkflow {
    const service: Operations.Service
    var instances: Table

    constructor (service: Operations.Service, instances: Table)
      ensures this.service == service && this.instances == instances
    {
      this.service, this.instances := service, instances;
    }

    method Execute(operation: OperationId, kind: string, id: InstanceId, a: Answers) returns (ok: bool)
      requires operation in service.operations
      modifies this, service
      ensures ok == ScriptOf(kind, old(instances), id, a).succeeded
      ensures instances == Acted(kind, old(instances), id, a)
      ensures service.operations == old(service.operations)[operation :=
        Retries.Updated(old(service.operations)[operation], ScriptOf(kind, old(instances), id, a).updates, a.now)]
    {
      hide Retries.Updated, Target, Verify;
      ghost var start, script := service.operations[operation], ScriptOf(kind, instances, id, a);
      service.UpdateProgress(operation, Operations.Running, "validate", 20, None, a.now);
      DidPart(start, script.updates, 0, a.now);
      if id !in instances || instances[id].deleted {
        return false;
      }
      if !a.provider {
        service.FailOperation(operation, "PROVIDER_UNAVAILABLE", a.now);
        DidPart(start, script.updates, 1, a.now);
        return false;
      }
      service.UpdateProgress(operation, Operations.WaitingProvider, "submit_provider", 50, None, a.now);
      DidPart(start, script.updates, 1, a.now);
      var target := Target(kind, instances[id]);
      if AsksProvider(kind) && !a.acted {
        return false;
      }
      service.UpdateProgress(operation, Operations.Running, Verify(target), 80, None, a.now);
      DidPart(start, script.updates, 2, a.now);
      if !a.stored {
        return false;
      }
      instances := instances[id := instances[id].WithStates(target, target, None)];
      service.CompleteOperation(operation, a.now);
      DidPart(start, script.updates, 3, a.now);
      return true;
    }
  }

  lemma {:induction false} DidPart(op: Operations.Operation, updates: seq<Operations.Update>, i: nat, now: Time)
    requires i < |updates|
    ensures Retries.Updated(op, updates[..i + 1], now) == updates[i].Row(Retries.Updated(op, updates[..i], now), now)
    ensures i + 1 == |updates| ==> updates[..i + 1] == updates
    ensures i == 0 ==> Retries.Updated(op, updates[..i], now) == op
  {
    assert updates[..i + 1] == updates[..i] + [updates[i]];
    Did(op, updates[..i], updates[i], now);
  }

  lemma {:induction false} Did(
    op: Operations.Operation, done: seq<Operations.Update>, next: Operations.Update, now: Time)
    ensures Retries.Updated(op, done + [next], now) == next.Row(Retries.Updated(op, done, now), now)
  {
  }
}
