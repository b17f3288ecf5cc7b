/** Instance rows. */
module Instances {
  import opened Options
  import opened Identifiers
  import opened Resources

  datatype Instance = Instance(
    subscription: SubscriptionId,
    node: Option<NodeId>,
    provider: Option<ProviderId>,
    providerInstance: Option<string>,
    spec: Resources,
    desired: string,
    observed: string,
    deleted: bool
  ) {
    /** The one UPDATE of an instance's states; it keeps the provider's id unless it is given a new one. */
    function WithStates(desired: string, observed: string, providerInstance: Option<string>): Instance {
      this.(desired := desired, observed := observed,
            providerInstance := if providerInstance.Some? then providerInstance else this.providerInstance)
    }
  }

  type Table = map<InstanceId, Instance>

  const UNKNOWN := "unknown"

  /** One call of that UPDATE. */
  datatype StateWrite = StateWrite(desired: string, observed: string, providerInstance: Option<string>)

  function Rewritten(instance: Instance, writes: seq<StateWrite>): Instance {
    if writes == [] then instance
    else
      var last := writes[|writes| - 1];
      Rewritten(instance, writes[..|writes| - 1]).WithStates(last.desired, last.observed, last.providerInstance)
  }

  /** The last of some updates that brings a provider's id. */
  predicate LastGiven(writes: seq<StateWrite>, i: int) {
    && 0 <= i < |writes| && writes[i].providerInstance.Some?
    && forall j :: i < j < |writes| ==> writes[j].providerInstance.None?
  }

  /** Over any number of updates an instance keeps its subscription, node, provider and resources, and shows the states
      of the last one. */
  lemma {:induction false} UpdatesKeepIdentity(instance: Instance, writes: seq<StateWrite>)
    ensures var after := Rewritten(instance, writes);
      after == instance.(
        desired := after.desired, observed := after.observed, providerInstance := after.providerInstance)
    ensures writes != [] ==>
      Rewritten(instance, writes).desired == writes[|writes| - 1].desired
      && Rewritten(instance, writes).observed == writes[|writes| - 1].observed
  {
    if writes != [] {
      UpdatesKeepIdentity(instance, writes[..|writes| - 1]);
    }
  }

  lemma {:induction false} LastGivenStays(instance: Instance, writes: seq<StateWrite>, i: nat)
    requires LastGiven(writes, i)
    ensures Rewritten(instance, writes).providerInstance == writes[i].providerInstance
  {
    var init := writes[..|writes| - 1];
    if i < |init| {
      assert writes[|init|].providerInstance.None?;
      assert LastGiven(init, i);
      LastGivenStays(instance, init, i);
    }
  }

  predicate NoneGiven(writes: seq<StateWrite>) {
    forall i :: 0 <= i < |writes| ==> writes[i].providerInstance.None?
  }

  lemma {:induction false} NoneGivenKeeps(instance: Instance, writes: seq<StateWrite>)
    requires NoneGiven(writes)
    ensures Rewritten(instance, writes).providerInstance == instance.providerInstance
  {
    if writes != [] {
      assert NoneGiven(writes[..|writes| - 1]) && writes[|writes| - 1].providerInstance.None?;
      NoneGivenKeeps(instance, writes[..|writes| - 1]);
    }
  }

  /** Over any number of updates its provider's id is what the last update to bring one brought, or else what it was: no
      update without an id takes it away. */
  lemma {:induction false} UpdatesKeepProviderId(instance: Instance, writes: seq<StateWrite>)
    ensures forall i :: LastGiven(writes, i) ==>
      Rewritten(instance, writes).providerInstance == writes[i].providerInstance
    ensures NoneGiven(writes) ==> Rewritten(instance, writes).providerInstance == instance.providerInstance
  {
    hide Rewritten;
    forall i | LastGiven(writes, i)
      ensures Rewritten(instance, writes).providerInstance == writes[i].providerInstance
    {
      LastGivenStays(instance, writes, i);
    }
    if NoneGiven(writes) {
      NoneGivenKeeps(instance, writes);
    }
  }
}
