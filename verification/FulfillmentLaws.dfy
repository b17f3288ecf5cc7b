/** What fulfilling an order puts into the shop, in the columns of its rows alone. */
module FulfillmentLaws {
  import opened Options
  import opened Identifiers
  import opened Texts
  import opened Fulfillment
  import Calendar
  import Operations
  import Orders
  import Subscriptions

  /** The same time of day, as many days later as the month of that day is long. */
  function MonthLater(t: Time): Time {
    var date := Calendar.DateOf(t / 86400);
    if 1 <= date.month <= 12 then t + Calendar.MonthDays(date.year, date.month) * 86400 else t
  }

  lemma {:induction false} OneMonth(t: Time)
    ensures Subscriptions.AddMonths(t, 1) == MonthLater(t)
  {
    Subscriptions.PeriodLength(t, "monthly");
  }

  /** A subscription to an item's plan for the order's user, at the item's price in the order's currency: pending, and
      for the one month from an instant on. */
  ghost predicate SoldSubscription(
    sub: Subscriptions.Subscription, order: Orders.Order, item: Orders.Item, cycle: string, now: Time) {
    && sub.user == order.user && sub.plan == item.plan && sub.price == item.unitPrice && sub.currency == order.currency
    && sub.status == Subscriptions.Pending && sub.cycle == cycle
    && sub.startedAt == Some(now) && sub.periodStart == Some(now)
    && sub.periodEnd == Some(MonthLater(now)) && sub.nextDue == Some(MonthLater(now))
    && sub.graceUntil == None && !sub.cancelAtPeriodEnd && sub.endedAt == None
  }

  /** A queued operation that is to provision a subscription, under the key of the unit, with three retries of which
      none has been used. */
  ghost predicate ProvisionsSubscription(
    op: Operations.Operation, subscription: SubscriptionId, id: OrderId, i: nat, q: nat) {
    && op.kind == "provision_instance" && op.resource == subscription
    && op.key == "provision-" + Canonical(id) + "-" + (Decimal(i) + "-" + Decimal(q))
    && op.status == Operations.Queued && op.progress == 0
    && op.retryable && op.maxRetries == 3 && op.retryCount == 0
    && op.error == None && op.startedAt == None && op.finishedAt == None
  }

  /** A unit has its own rows in both tables. */
  ghost predicate UnitSold(shop: Shop, id: OrderId, order: Orders.Order, w: World, i: nat, q: nat)
    requires i < |order.items| && order.items[i].plan in w.cycles
  {
    var draw, item := w.draw(i, q), order.items[i];
    && draw.subscription in shop.subscriptions
    && SoldSubscription(shop.subscriptions[draw.subscription], order, item, w.cycles[item.plan], draw.now)
    && draw.operation in shop.operations
    && ProvisionsSubscription(shop.operations[draw.operation], draw.subscription, id, i, q)
  }

  lemma {:induction false} BothAreSold(shop: Shop, id: OrderId, order: Orders.Order, w: World, i: nat, q: nat)
    requires i < |order.items| && order.items[i].plan in w.cycles && HasBoth(shop, id, order, w, i, q)
    ensures UnitSold(shop, id, order, w, i, q)
  {
    hide Canonical, Decimal, Subscriptions.AddMonths;
    OneMonth(w.draw(i, q).now);
  }

  /** A unit that some row of the shop is for. */
  ghost predicate IsOfUnit(order: Orders.Order, w: World, subscription: SubscriptionId, operation: OperationId) {
    exists i: nat, q: nat ::
      IsUnit(order, i, q) && w.draw(i, q).subscription == subscription && w.draw(i, q).operation == operation
  }

  ghost predicate AllUnitsSold(shop: Shop, shop': Shop, id: OrderId, order: Orders.Order, w: World) {
    forall i: nat, q: nat :: IsUnit(order, i, q) ==>
      && order.items[i].plan in w.cycles && UnitSold(shop', id, order, w, i, q)
      && w.draw(i, q).subscription !in shop.subscriptions && w.draw(i, q).operation !in shop.operations
  }

  ghost predicate UnitsApart(order: Orders.Order, w: World) {
    forall i: nat, q: nat, j: nat, r: nat :: IsUnit(order, i, q) && IsUnit(order, j, r) && (i != j || q != r) ==>
      && w.draw(i, q).subscription != w.draw(j, r).subscription
      && w.draw(i, q).operation != w.draw(j, r).operation
  }

  ghost predicate OnlyUnitsAdded(shop: Shop, shop': Shop, order: Orders.Order, w: World) {
    && (forall s :: s in shop'.subscriptions && s !in shop.subscriptions ==> exists o :: IsOfUnit(order, w, s, o))
    && (forall o :: o in shop'.operations && o !in shop.operations ==> exists s :: IsOfUnit(order, w, s, o))
    && (forall s :: s in shop.subscriptions ==>
      s in shop'.subscriptions && shop'.subscriptions[s] == shop.subscriptions[s])
    && (forall o :: o in shop.operations ==> o in shop'.operations && shop'.operations[o] == shop.operations[o])
  }

  lemma {:induction false} NewRowsAreOfUnits(
    shop: Shop, shop': Shop, id: OrderId, order: Orders.Order, w: World)
    requires forall i :: 0 <= i < |order.items| ==> order.items[i].plan in w.cycles
    requires DoneUpTo(shop, shop', id, order, w, |order.items|, 0)
    ensures OnlyUnitsAdded(shop, shop', order, w)
  {
    hide HasBoth;
    forall s | s in shop'.subscriptions && s !in shop.subscriptions ensures exists o :: IsOfUnit(order, w, s, o) {
      var i: nat, q: nat :| Earlier(order, i, q, |order.items|, 0) && w.draw(i, q).subscription == s;
      assert IsOfUnit(order, w, s, w.draw(i, q).operation);
    }
    forall o | o in shop'.operations && o !in shop.operations ensures exists s :: IsOfUnit(order, w, s, o) {
      var i: nat, q: nat :| Earlier(order, i, q, |order.items|, 0) && w.draw(i, q).operation == o;
      assert IsOfUnit(order, w, w.draw(i, q).subscription, o);
    }
  }

  /** Fulfilling a paid order for the first time, when everything comes through, maps its units one-to-one onto the new
      subscriptions and onto the new operations, each operation being for just its unit's subscription; all other rows
      are as they were. */
  lemma {:induction false} UnitsMapOntoNewRows(shop: Shop, orders: map<OrderId, Orders.Order>, id: OrderId, w: World)
    requires id in orders && orders[id].status == Orders.Paid && IsUuid(id)
    requires AllComesThrough(shop, orders[id], w) && Fresh(shop, id)
    ensures var (order, shop') := (orders[id], Fulfilled(shop, orders, id, w));
      && AllUnitsSold(shop, shop', id, order, w) && UnitsApart(order, w) && OnlyUnitsAdded(shop, shop', order, w)
  {
    var order, shop' := orders[id], Fulfilled(shop, orders, id, w);
    FulfilsEachUnitOnce(shop, orders, id, w);
    ItemsKeep(shop, id, order, w, |order.items|);
    assert shop' == ItemsDone(shop, id, order, w, |order.items|);
    hide Fulfilled, ItemsDone, HasBoth, UnitSold, Fresh, DoneUpTo, OnlyUnitsAdded;
    NewRowsAreOfUnits(shop, shop', id, order, w);
    forall i: nat, q: nat | IsUnit(order, i, q) ensures UnitSold(shop', id, order, w, i, q) {
      BothAreSold(shop', id, order, w, i, q);
    }
  }

  /** An order that is not paid gets nothing. */
  lemma {:induction false} UnpaidGetsNothing(shop: Shop, orders: map<OrderId, Orders.Order>, id: OrderId, w: World)
    requires !(id in orders && orders[id].status == Orders.Paid)
    ensures Fulfilled(shop, orders, id, w) == shop
  {
  }

  /** What one unit does, whatever comes through: its subscription is entered unless that fails or its id is taken, and
      then its operation unless that fails, its key is taken or its id is. */
  lemma {:induction false} UnitDoesExactly(shop: Shop, id: OrderId, order: Orders.Order, w: World, i: nat, q: nat)
    requires i < |order.items| && order.items[i].plan in w.cycles
    ensures var (draw, item, shop') := (w.draw(i, q), order.items[i], UnitDone(shop, id, order, w, i, q));
      var key := "provision-" + Canonical(id) + "-" + (Decimal(i) + "-" + Decimal(q));
      var sells := draw.subscriptionOk && draw.subscription !in shop.subscriptions;
      var provisions := sells && draw.operationOk && draw.operation !in shop.operations
        && forall o :: o in shop.operations ==> shop.operations[o].key != key;
      && shop'.subscriptions.Keys == shop.subscriptions.Keys + (if sells then {draw.subscription} else {})
      && shop'.operations.Keys == shop.operations.Keys + (if provisions then {draw.operation} else {})
      && (forall s :: s in shop.subscriptions ==> shop'.subscriptions[s] == shop.subscriptions[s])
      && (forall o :: o in shop.operations ==> shop'.operations[o] == shop.operations[o])
      && (sells ==>
        SoldSubscription(shop'.subscriptions[draw.subscription], order, item, w.cycles[item.plan], draw.now))
      && (provisions ==> ProvisionsSubscription(shop'.operations[draw.operation], draw.subscription, id, i, q))
  {
    OneMonth(w.draw(i, q).now);
    hide Canonical, Decimal, Subscriptions.AddMonths, MonthLater;
    forall o | o in shop.operations
      ensures Operations.Holds(shop.operations, o, ProvisionKey(id, i, q)) <==>
        shop.operations[o].key == "provision-" + Canonical(id) + "-" + (Decimal(i) + "-" + Decimal(q))
    {
    }
  }
}
