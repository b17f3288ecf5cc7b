/** Row ids (UUIDs, taken as the 128-bit numbers they are, whose order `Texts.CanonicalKeepsOrder` proves to be
    that of their canonical strings) and instants. */
module Identifiers {
  type NodeId = nat
  type ReservationId = nat
  type OperationId = nat
  type InstanceId = nat
  type SubscriptionId = nat
  type PlanId = nat
  type UserId = nat
  type OrderId = nat
  type PaymentId = nat
  type WalletId = nat
  type ProviderId = nat

  /** A point in time, in seconds. */
  type Time = int

  /** An id greater than all of some, and so not among them. */
  lemma {:induction false} Unused(ids: set<nat>) returns (id: nat)
    ensures forall other :: other in ids ==> other < id
  {
    if ids == {} {
      id := 0;
    } else {
      var one :| one in ids;
      var rest := Unused(ids - {one});
      id := if one < rest then rest else one + 1;
      assert forall other :: other in ids ==> other == one || other in ids - {one};
    }
  }
}
