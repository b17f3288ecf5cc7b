/** Whole requests, workflows and reconciler runs, one at a time, as runs of their reads and writes on an instance. */
module IntentLaws {
  import opened Options
  import opened Identifiers
  import opened Instances
  import A = InstanceActions
  import I = IntentInterleaving
  import Lifecycle
  import Reconciler

  function Alone(row: Instance): I.State {
    I.State(row, map[], map[])
  }

  lemma {:induction false} RunOfTwo(s: I.State, e: I.Event, e': I.Event)
    requires I.Enabled(s, e) && I.Enabled(I.Step(s, e), e')
    ensures I.Run(s, [e, e']) == Some(I.Step(I.Step(s, e), e'))
  {
    assert [e, e'][1..] == [e'] && [e'][1..] == [];
    assert I.Run(I.Step(s, e), [e']) == I.Run(I.Step(I.Step(s, e), e'), []);
  }

  lemma {:induction false} RequestSteps(row: Instance, desired: string)
    ensures I.Run(Alone(row), [I.ReadForRequest(0), I.WriteRequest(0, desired)])
      == Some(Alone(row.(desired := desired)))
  {
    RunOfTwo(Alone(row), I.ReadForRequest(0), I.WriteRequest(0, desired));
    assert I.Step(I.Step(Alone(row), I.ReadForRequest(0)), I.WriteRequest(0, desired)).requests == map[];
  }

  lemma {:induction false} LookSteps(row: Instance, observed: string)
    ensures I.Run(Alone(row), [I.Look(0), I.WriteBack(0, observed)]) == Some(Alone(row.(observed := observed)))
  {
    RunOfTwo(Alone(row), I.Look(0), I.WriteBack(0, observed));
    assert I.Step(I.Step(Alone(row), I.Look(0)), I.WriteBack(0, observed)).looks == map[];
  }

  /** A request that is accepted and whose write comes through reads its instance and writes what its kind asks for. */
  lemma {:induction false} RequestIsARun(r: A.Records, a: A.Action)
    requires A.Handled(r, a).1.Accepted? && a.stored
    ensures var asked := if a.kind == "stop_instance" then "stopped"
        else if a.kind == "delete_instance" then "deleted" else "running";
      && a.instance in r.instances && a.instance in A.Handled(r, a).0.instances
      && I.Run(Alone(r.instances[a.instance]), [I.ReadForRequest(0), I.WriteRequest(0, asked)])
        == Some(Alone(A.Handled(r, a).0.instances[a.instance]))
  {
    RequestSteps(r.instances[a.instance], A.Desired(a.kind));
  }

  /** A workflow that succeeds makes one write, of the state that it aims at. */
  lemma {:induction false} WorkflowIsARun(kind: string, instances: Table, id: InstanceId, a: Lifecycle.Answers)
    requires Lifecycle.ScriptOf(kind, instances, id, a).succeeded
    ensures var after := Lifecycle.Acted(kind, instances, id, a);
      && id in instances && id in after
      && I.Run(Alone(instances[id]), [I.Achieve(after[id].desired)]) == Some(Alone(after[id]))
  {
    var e := I.Achieve(Lifecycle.Target(kind, instances[id]));
    assert [e][1..] == [];
    assert I.Run(Alone(instances[id]), [e]) == I.Run(I.Step(Alone(instances[id]), e), []);
  }

  /** A whole run of the reconciler comes, for each instance, to one look and one write back of what it then shows. */
  lemma {:induction false} ReconcilerIsARun(c: Reconciler.Cluster, w: Reconciler.World, id: InstanceId)
    requires id in c.instances
    ensures id in Reconciler.Reconciled(c, w).instances
    ensures var after := Reconciler.Reconciled(c, w).instances[id];
      I.Run(Alone(c.instances[id]), [I.Look(0), I.WriteBack(0, after.observed)]) == Some(Alone(after))
  {
    Reconciler.RunLeavesIntentAlone(c, w);
    Reconciler.SilentNodesGoOffline(c, w);
    hide Reconciler.Reconciled;
    LookSteps(c.instances[id], Reconciler.Reconciled(c, w).instances[id].observed);
  }
}
