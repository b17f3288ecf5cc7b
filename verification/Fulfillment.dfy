/** Fulfilling a paid order: one subscription, and one operation to provision it, for each unit of each item. */
module Fulfillment {
  import opened Options
  import opened Identifiers
  import opened Texts
  import opened Totals
  import Orders
  import Operations
  import Subscriptions

  datatype Shop = Shop(subscriptions: Subscriptions.Table, operations: Operations.Table)

  /** What one unit draws from outside: fresh ids, the clock, and whether its two writes come through. */
  datatype Draw = Draw(
    subscription: SubscriptionId, subscriptionOk: bool, operation: OperationId, operationOk: bool, now: Time)

  /** The billing cycle of each plan that can be looked up, and the draw of each unit of each item. */
  datatype World = World(cycles: map<PlanId, string>, draw: (nat, nat) -> Draw)

  const MAX_RETRIES := 3

  function ProvisionInput(order: OrderId, item: nat, unit: nat, subscription: SubscriptionId): Operations.Input {
    Operations.Input("provision_instance", subscription, ProvisionKey(order, item, unit), true, MAX_RETRIES)
  }

  /** The first period of a fulfilled subscription is a month, whatever its plan's cycle. */
  function NewSubscription(
    order: Orders.Order, item: Orders.Item, cycle: string, now: Time): Subscriptions.Subscription {
    Subscriptions.Created(
      order.user, item.plan, Subscriptions.Pending, cycle, item.unitPrice, order.currency, now,
      Subscriptions.AddMonths(now, 1))
  }

  ghost function UnitDone(shop: Shop, id: OrderId, order: Orders.Order, w: World, i: nat, q: nat): Shop
    requires i < |order.items| && order.items[i].plan in w.cycles
  {
    var item, draw := order.items[i], w.draw(i, q);
    if !draw.subscriptionOk || draw.subscription in shop.subscriptions then shop
    else
      var subscriptions := shop.subscriptions[draw.subscription := NewSubscription(order, item, w.cycles[item.plan],
        draw.now)];
      if !draw.operationOk then shop.(subscriptions := subscriptions)
      else
        Shop(subscriptions, Operations.Served(shop.operations,
          Operations.Create(ProvisionInput(id, i, q, draw.subscription), draw.operation, draw.now)).0)
  }

  /** The shop after the first n units of an item. */
  ghost function UnitsDone(shop: Shop, id: OrderId, order: Orders.Order, w: World, i: nat, n: nat): Shop
    requires i < |order.items| && order.items[i].plan in w.cycles
  {
    if n == 0 then shop else UnitDone(UnitsDone(shop, id, order, w, i, n - 1), id, order, w, i, n - 1)
  }

  function Units(item: Orders.Item): nat {
    if item.quantity < 0 then 0 else item.quantity
  }

  /** The shop after the first n items. */
  ghost function ItemsDone(shop: Shop, id: OrderId, order: Orders.Order, w: World, n: nat): Shop
    requires n <= |order.items|
  {
    if n == 0 then shop
    else
      var before, item := ItemsDone(shop, id, order, w, n - 1), order.items[n - 1];
      if item.plan !in w.cycles then before else UnitsDone(before, id, order, w, n - 1, Units(item))
  }

  /** The shop after one call for an order. */
  ghost function Fulfilled(shop: Shop, orders: map<OrderId, Orders.Order>, id: OrderId, w: World): Shop {
    if id !in orders || orders[id].status != Orders.Paid then shop
    else ItemsDone(shop, id, orders[id], w, |orders[id].items|)
  }

  // ---- When everything comes through ----

  function UnitsOf(items: seq<Orders.Item>): nat {
    if items == [] then 0 else UnitsOf(items[..|items| - 1]) + Units(items[|items| - 1])
  }

  predicate IsUnit(order: Orders.Order, i: nat, q: nat) {
    i < |order.items| && q < Units(order.items[i])
  }

  /** Unit (i, q) is reached before unit (j, r). */
  predicate Before(i: nat, q: nat, j: nat, r: nat) {
    i < j || (i == j && q < r)
  }

  /** Every lookup and write comes through, and every id drawn is fresh. */
  ghost predicate AllComesThrough(shop: Shop, order: Orders.Order, w: World) {
    && (forall i :: 0 <= i < |order.items| ==> order.items[i].plan in w.cycles)
    && (forall i: nat, q: nat :: IsUnit(order, i, q) ==>
      && w.draw(i, q).subscriptionOk && w.draw(i, q).subscription !in shop.subscriptions
      && w.draw(i, q).operationOk && w.draw(i, q).operation !in shop.operations)
    && (forall i: nat, q: nat, j: nat, r: nat :: IsUnit(order, i, q) && IsUnit(order, j, r) && Before(i, q, j, r) ==>
      && w.draw(i, q).subscription != w.draw(j, r).subscription
      && w.draw(i, q).operation != w.draw(j, r).operation)
  }

  /** The order has not been fulfilled before: none of its keys is taken. */
  ghost predicate Fresh(shop: Shop, id: OrderId) {
    forall i: nat, q: nat :: !Operations.KeyTaken(shop.operations, ProvisionKey(id, i, q))
  }

  /** The unit has its subscription and, under its key, an operation for just that subscription. */
  ghost predicate HasBoth(shop: Shop, id: OrderId, order: Orders.Order, w: World, i: nat, q: nat)
    requires i < |order.items| && order.items[i].plan in w.cycles
  {
    var item, draw := order.items[i], w.draw(i, q);
    && draw.subscription in shop.subscriptions
    && shop.subscriptions[draw.subscription] == NewSubscription(order, item, w.cycles[item.plan], draw.now)
    && draw.operation in shop.operations
    && shop.operations[draw.operation] == Operations.Created(ProvisionInput(id, i, q, draw.subscription), draw.now)
  }

  /** A unit that is reached before unit (n, k). */
  predicate Earlier(order: Orders.Order, i: nat, q: nat, n: nat, k: nat) {
    IsUnit(order, i, q) && Before(i, q, n, k)
  }

  ghost predicate DrewSubscription(order: Orders.Order, w: World, n: nat, k: nat, s: SubscriptionId) {
    exists i: nat, q: nat :: Earlier(order, i, q, n, k) && w.draw(i, q).subscription == s
  }

  ghost predicate DrewOperation(order: Orders.Order, w: World, n: nat, k: nat, o: OperationId) {
    exists i: nat, q: nat :: Earlier(order, i, q, n, k) && w.draw(i, q).operation == o
  }

  /** The state before unit (n, k): all earlier units have both, and nothing else is new or has changed. */
  ghost predicate DoneUpTo(start: Shop, shop: Shop, id: OrderId, order: Orders.Order, w: World, n: nat, k: nat)
    requires forall i :: 0 <= i < |order.items| ==> order.items[i].plan in w.cycles
  {
    && (forall i: nat, q: nat :: Earlier(order, i, q, n, k) ==> HasBoth(shop, id, order, w, i, q))
    && NothingElse(start, shop, order, w, n, k)
  }

  ghost predicate NothingElse(start: Shop, shop: Shop, order: Orders.Order, w: World, n: nat, k: nat) {
    && (forall s :: s in shop.subscriptions ==> s in start.subscriptions || DrewSubscription(order, w, n, k, s))
    && (forall o :: o in shop.operations ==> o in start.operations || DrewOperation(order, w, n, k, o))
    && (forall s :: s in start.subscriptions ==>
      s in shop.subscriptions && shop.subscriptions[s] == start.subscriptions[s])
    && (forall o :: o in start.operations ==> o in shop.operations && shop.operations[o] == start.operations[o])
  }

  /** Nothing stands in the way of unit (n, k). */
  lemma {:induction false} UnitIsFree(
    start: Shop, shop: Shop, id: OrderId, order: Orders.Order, w: World, n: nat, k: nat)
    requires IsUuid(id) && AllComesThrough(start, order, w) && Fresh(start, id)
    requires DoneUpTo(start, shop, id, order, w, n, k) && IsUnit(order, n, k)
    ensures w.draw(n, k).subscription !in shop.subscriptions && w.draw(n, k).operation !in shop.operations
    ensures !Operations.KeyTaken(shop.operations, ProvisionKey(id, n, k))
  {
    forall i: nat, q: nat | Earlier(order, i, q, n, k)
      ensures w.draw(i, q).subscription != w.draw(n, k).subscription && w.draw(i, q).operation != w.draw(n, k).operation
    {
    }
    assert !DrewSubscription(order, w, n, k, w.draw(n, k).subscription);
    assert !DrewOperation(order, w, n, k, w.draw(n, k).operation);
    var key := ProvisionKey(id, n, k);
    forall o | o in shop.operations ensures shop.operations[o].key != key {
      if o in start.operations {
        assert !Operations.KeyTaken(start.operations, key);
        assert !Operations.Holds(start.operations, o, key);
      } else {
        var i: nat, q: nat :| Earlier(order, i, q, n, k) && w.draw(i, q).operation == o;
        assert HasBoth(shop, id, order, w, i, q);
        ProvisionKeyInjective(id, i, q, id, n, k);
      }
    }
  }

  /** One unit has been added to the shop, with both its rows, under fresh ids. */
  ghost predicate Adds(shop: Shop, shop': Shop, id: OrderId, order: Orders.Order, w: World, n: nat, k: nat)
    requires n < |order.items| && order.items[n].plan in w.cycles
  {
    var draw := w.draw(n, k);
    && draw.subscription !in shop.subscriptions && draw.operation !in shop.operations
    && shop'.subscriptions == shop.subscriptions[draw.subscription :=
      NewSubscription(order, order.items[n], w.cycles[order.items[n].plan], draw.now)]
    && shop'.operations == shop.operations[draw.operation :=
      Operations.Created(ProvisionInput(id, n, k, draw.subscription), draw.now)]
  }

  lemma {:induction false} UnitAdds(start: Shop, shop: Shop, id: OrderId, order: Orders.Order, w: World, n: nat, k: nat)
    requires IsUuid(id) && AllComesThrough(start, order, w) && Fresh(start, id)
    requires DoneUpTo(start, shop, id, order, w, n, k) && IsUnit(order, n, k)
    ensures Adds(shop, UnitDone(shop, id, order, w, n, k), id, order, w, n, k)
  {
    hide ProvisionKey, NewSubscription, DoneUpTo;
    UnitIsFree(start, shop, id, order, w, n, k);
  }

  lemma {:induction false} AddingKeepsBoth(
    shop: Shop, shop': Shop, id: OrderId, order: Orders.Order, w: World, n: nat, k: nat, i: nat, q: nat)
    requires forall j :: 0 <= j < |order.items| ==> order.items[j].plan in w.cycles
    requires IsUnit(order, n, k) && Adds(shop, shop', id, order, w, n, k) && Earlier(order, i, q, n, k + 1)
    requires Earlier(order, i, q, n, k) ==> HasBoth(shop, id, order, w, i, q)
    ensures HasBoth(shop', id, order, w, i, q)
  {
    hide NewSubscription, Operations.Created, ProvisionKey;
  }

  lemma {:induction false} DrawsAccumulate(order: Orders.Order, w: World, n: nat, k: nat)
    requires IsUnit(order, n, k)
    ensures forall s :: DrewSubscription(order, w, n, k, s) || s == w.draw(n, k).subscription ==>
      DrewSubscription(order, w, n, k + 1, s)
    ensures forall o :: DrewOperation(order, w, n, k, o) || o == w.draw(n, k).operation ==>
      DrewOperation(order, w, n, k + 1, o)
  {
    assert Earlier(order, n, k, n, k + 1);
    forall s | DrewSubscription(order, w, n, k, s) || s == w.draw(n, k).subscription
      ensures DrewSubscription(order, w, n, k + 1, s)
    {
      if s != w.draw(n, k).subscription {
        var i: nat, q: nat :| Earlier(order, i, q, n, k) && w.draw(i, q).subscription == s;
        assert Earlier(order, i, q, n, k + 1);
      }
    }
    forall o | DrewOperation(order, w, n, k, o) || o == w.draw(n, k).operation
      ensures DrewOperation(order, w, n, k + 1, o)
    {
      if o != w.draw(n, k).operation {
        var i: nat, q: nat :| Earlier(order, i, q, n, k) && w.draw(i, q).operation == o;
        assert Earlier(order, i, q, n, k + 1);
      }
    }
  }

  lemma {:induction false} AddingKeepsOthers(
    start: Shop, shop: Shop, shop': Shop, id: OrderId, order: Orders.Order, w: World, n: nat, k: nat)
    requires forall j :: 0 <= j < |order.items| ==> order.items[j].plan in w.cycles
    requires IsUnit(order, n, k) && Adds(shop, shop', id, order, w, n, k) && NothingElse(start, shop, order, w, n, k)
    ensures NothingElse(start, shop', order, w, n, k + 1)
  {
    DrawsAccumulate(order, w, n, k);
    hide NewSubscription, Operations.Created, ProvisionInput, DrewSubscription, DrewOperation;
  }

  lemma {:induction false} AddingKeepsDone(
    start: Shop, shop: Shop, shop': Shop, id: OrderId, order: Orders.Order, w: World, n: nat, k: nat)
    requires forall j :: 0 <= j < |order.items| ==> order.items[j].plan in w.cycles
    requires IsUnit(order, n, k) && Adds(shop, shop', id, order, w, n, k) && DoneUpTo(start, shop, id, order, w, n, k)
    ensures DoneUpTo(start, shop', id, order, w, n, k + 1)
  {
    hide NothingElse, Adds, HasBoth;
    AddingKeepsOthers(start, shop, shop', id, order, w, n, k);
    forall i: nat, q: nat | Earlier(order, i, q, n, k + 1) ensures HasBoth(shop', id, order, w, i, q) {
      AddingKeepsBoth(shop, shop', id, order, w, n, k, i, q);
    }
  }

  lemma {:induction false} GrowsByOne<K, V>(rows: map<K, V>, k: K, v: V)
    requires k !in rows
    ensures |rows[k := v]| == |rows| + 1
  {
  }

  lemma {:induction false} UnitKeeps(
    start: Shop, shop: Shop, id: OrderId, order: Orders.Order, w: World, n: nat, k: nat)
    requires IsUuid(id) && AllComesThrough(start, order, w) && Fresh(start, id)
    requires DoneUpTo(start, shop, id, order, w, n, k) && IsUnit(order, n, k)
    ensures var shop' := UnitDone(shop, id, order, w, n, k);
      && DoneUpTo(start, shop', id, order, w, n, k + 1)
      && |shop'.subscriptions| == |shop.subscriptions| + 1 && |shop'.operations| == |shop.operations| + 1
  {
    hide DoneUpTo, UnitDone, Fresh, NewSubscription;
    UnitAdds(start, shop, id, order, w, n, k);
    var shop', draw := UnitDone(shop, id, order, w, n, k), w.draw(n, k);
    AddingKeepsDone(start, shop, shop', id, order, w, n, k);
    GrowsByOne(shop.subscriptions, draw.subscription, shop'.subscriptions[draw.subscription]);
    GrowsByOne(shop.operations, draw.operation, shop'.operations[draw.operation]);
  }

  lemma {:induction false} UnitsKeep(
    start: Shop, shop: Shop, id: OrderId, order: Orders.Order, w: World, n: nat, k: nat)
    requires IsUuid(id) && AllComesThrough(start, order, w) && Fresh(start, id)
    requires n < |order.items| && k <= Units(order.items[n]) && DoneUpTo(start, shop, id, order, w, n, 0)
    ensures var shop' := UnitsDone(shop, id, order, w, n, k);
      && DoneUpTo(start, shop', id, order, w, n, k)
      && |shop'.subscriptions| == |shop.subscriptions| + k && |shop'.operations| == |shop.operations| + k
    decreases k
  {
    hide UnitDone, DoneUpTo, Fresh;
    if k > 0 {
      UnitsKeep(start, shop, id, order, w, n, k - 1);
      UnitKeeps(start, UnitsDone(shop, id, order, w, n, k - 1), id, order, w, n, k - 1);
    }
  }

  lemma {:induction false} DrawsCarryOver(order: Orders.Order, w: World, n: nat)
    requires n < |order.items|
    ensures forall i: nat, q: nat :: Earlier(order, i, q, n, Units(order.items[n])) <==> Earlier(order, i, q, n + 1, 0)
    ensures forall s :: DrewSubscription(order, w, n, Units(order.items[n]), s) ==>
      DrewSubscription(order, w, n + 1, 0, s)
    ensures forall o :: DrewOperation(order, w, n, Units(order.items[n]), o) ==> DrewOperation(order, w, n + 1, 0, o)
  {
  }

  /** The end of one item is the beginning of the next. */
  lemma {:induction false} NextItem(start: Shop, shop: Shop, id: OrderId, order: Orders.Order, w: World, n: nat)
    requires forall i :: 0 <= i < |order.items| ==> order.items[i].plan in w.cycles
    requires n < |order.items| && DoneUpTo(start, shop, id, order, w, n, Units(order.items[n]))
    ensures DoneUpTo(start, shop, id, order, w, n + 1, 0)
  {
    hide HasBoth, DrewSubscription, DrewOperation;
    DrawsCarryOver(order, w, n);
    forall i: nat, q: nat | Earlier(order, i, q, n + 1, 0) ensures HasBoth(shop, id, order, w, i, q) {
      assert Earlier(order, i, q, n, Units(order.items[n]));
    }
    hide Earlier;
  }

  lemma {:induction false} NothingDoneAtFirst(start: Shop, id: OrderId, order: Orders.Order, w: World)
    requires forall i :: 0 <= i < |order.items| ==> order.items[i].plan in w.cycles
    ensures DoneUpTo(start, start, id, order, w, 0, 0)
  {
  }

  lemma {:induction false} ItemsKeep(start: Shop, id: OrderId, order: Orders.Order, w: World, n: nat)
    requires IsUuid(id) && AllComesThrough(start, order, w) && Fresh(start, id) && n <= |order.items|
    ensures var shop := ItemsDone(start, id, order, w, n);
      && DoneUpTo(start, shop, id, order, w, n, 0)
      && |shop.subscriptions| == |start.subscriptions| + UnitsOf(order.items[..n])
      && |shop.operations| == |start.operations| + UnitsOf(order.items[..n])
  {
    hide UnitsDone, Fresh, DoneUpTo, Units;
    if n == 0 {
      NothingDoneAtFirst(start, id, order, w);
    } else {
      ItemsKeep(start, id, order, w, n - 1);
      UnitsKeep(start, ItemsDone(start, id, order, w, n - 1), id, order, w, n - 1, Units(order.items[n - 1]));
      NextItem(start, ItemsDone(start, id, order, w, n), id, order, w, n - 1);
      assert order.items[..n][..n - 1] == order.items[..n - 1];
    }
  }

  /** When every lookup and write comes through, fulfilling a paid order for the first time creates exactly as many
      subscriptions, and as many operations, as it has units; each unit has a subscription of its own and, under its own
      key, an operation for just that subscription. */
  lemma {:induction false} FulfilsEachUnitOnce(shop: Shop, orders: map<OrderId, Orders.Order>, id: OrderId, w: World)
    requires id in orders && orders[id].status == Orders.Paid && IsUuid(id)
    requires AllComesThrough(shop, orders[id], w) && Fresh(shop, id)
    ensures var (order, shop') := (orders[id], Fulfilled(shop, orders, id, w));
      && |shop'.subscriptions| == |shop.subscriptions| + UnitsOf(order.items)
      && |shop'.operations| == |shop.operations| + UnitsOf(order.items)
      && (forall i: nat, q: nat :: IsUnit(order, i, q) ==> HasBoth(shop', id, order, w, i, q))
      && (forall i: nat, q: nat, j: nat, r: nat :: IsUnit(order, i, q) && IsUnit(order, j, r) && (i != j || q != r) ==>
        && w.draw(i, q).subscription != w.draw(j, r).subscription
        && w.draw(i, q).operation != w.draw(j, r).operation)
  {
    var order := orders[id];
    hide ItemsDone, HasBoth, Fresh;
    ItemsKeep(shop, id, order, w, |order.items|);
    assert order.items[..|order.items|] == order.items;
    forall i: nat, q: nat | IsUnit(order, i, q) ensures HasBoth(Fulfilled(shop, orders, id, w), id, order, w, i, q) {
      assert Earlier(order, i, q, |order.items|, 0);
    }
    forall i: nat, q: nat, j: nat, r: nat | IsUnit(order, i, q) && IsUnit(order, j, r) && (i != j || q != r)
      ensures w.draw(i, q).subscription != w.draw(j, r).subscription && w.draw(i, q).operation != w.draw(j, r).operation
    {
      assert Before(i, q, j, r) || Before(j, r, i, q);
    }
  }

  // ---- What is sold is what is charged ----

  function Price(): Weight<SubscriptionId, Subscriptions.Subscription> {
    (_: SubscriptionId, sub: Subscriptions.Subscription) => sub.price
  }

  lemma {:induction false} UnitAddsPrice(
    shop: Shop, shop': Shop, id: OrderId, order: Orders.Order, w: World, n: nat, k: nat)
    requires n < |order.items| && order.items[n].plan in w.cycles && Adds(shop, shop', id, order, w, n, k)
    ensures Total(shop'.subscriptions, Price()) == Total(shop.subscriptions, Price()) + order.items[n].unitPrice
  {
    TotalChange<SubscriptionId, Subscriptions.Subscription>(
      shop.subscriptions, Price(), shop'.subscriptions, Price(), w.draw(n, k).subscription);
  }

  /** x, added up k times. */
  function Times(k: nat, x: int): int {
    if k == 0 then 0 else Times(k - 1, x) + x
  }

  lemma {:induction false} TimesIsProduct(k: nat, x: int)
    ensures Times(k, x) == x * k
  {
    if k > 0 {
      TimesIsProduct(k - 1, x);
      assert x * k == x * (k - 1) + x;
    }
  }

  lemma {:induction false} UnitsAddPrices(
    start: Shop, shop: Shop, id: OrderId, order: Orders.Order, w: World, n: nat, k: nat)
    requires IsUuid(id) && AllComesThrough(start, order, w) && Fresh(start, id)
    requires n < |order.items| && k <= Units(order.items[n]) && DoneUpTo(start, shop, id, order, w, n, 0)
    ensures Total(UnitsDone(shop, id, order, w, n, k).subscriptions, Price())
      == Total(shop.subscriptions, Price()) + Times(k, order.items[n].unitPrice)
    decreases k
  {
    hide UnitDone, DoneUpTo, Fresh, Adds, Price, Total;
    if k > 0 {
      var before := UnitsDone(shop, id, order, w, n, k - 1);
      UnitsAddPrices(start, shop, id, order, w, n, k - 1);
      UnitsKeep(start, shop, id, order, w, n, k - 1);
      UnitAdds(start, before, id, order, w, n, k - 1);
      UnitAddsPrice(before, UnitDone(before, id, order, w, n, k - 1), id, order, w, n, k - 1);
    }
  }

  lemma {:induction false} ItemsAddWorth(start: Shop, id: OrderId, order: Orders.Order, w: World, n: nat)
    requires IsUuid(id) && AllComesThrough(start, order, w) && Fresh(start, id) && n <= |order.items|
    requires forall i :: 0 <= i < |order.items| ==> order.items[i].quantity >= 0
    ensures Total(ItemsDone(start, id, order, w, n).subscriptions, Price())
      == Total(start.subscriptions, Price()) + Orders.Worth(order.items[..n])
  {
    hide UnitsDone, Fresh, DoneUpTo, Price, Times, Total;
    if n > 0 {
      var item := order.items[n - 1];
      ItemsAddWorth(start, id, order, w, n - 1);
      ItemsKeep(start, id, order, w, n - 1);
      UnitsAddPrices(start, ItemsDone(start, id, order, w, n - 1), id, order, w, n - 1, Units(item));
      TimesIsProduct(Units(item), item.unitPrice);
      Orders.WorthExtends(order.items[..n - 1], item);
      assert order.items[..n] == order.items[..n - 1] + [item];
      hide Orders.Worth;
    }
  }

  /** The prices of the subscriptions that fulfilment creates add up to what the order's items are worth, and so, for an
      order whose total is its worth, to what was charged for it. */
  lemma {:induction false} SubscriptionsAreWorthTheOrder(
    shop: Shop, orders: map<OrderId, Orders.Order>, id: OrderId, w: World)
    requires id in orders && orders[id].status == Orders.Paid && IsUuid(id)
    requires AllComesThrough(shop, orders[id], w) && Fresh(shop, id)
    requires forall i :: 0 <= i < |orders[id].items| ==> orders[id].items[i].quantity >= 0
    ensures Total(Fulfilled(shop, orders, id, w).subscriptions, Price())
      == Total(shop.subscriptions, Price()) + Orders.Worth(orders[id].items)
  {
    hide ItemsDone, Fresh, AllComesThrough;
    ItemsAddWorth(shop, id, orders[id], w, |orders[id].items|);
    assert orders[id].items[..|orders[id].items|] == orders[id].items;
  }

  // ---- Fulfilling an order again ----

  ghost predicate KeysTaken(shop: Shop, id: OrderId, order: Orders.Order) {
    forall i: nat, q: nat :: IsUnit(order, i, q) ==> Operations.KeyTaken(shop.operations, ProvisionKey(id, i, q))
  }

  ghost predicate KnownSubscriptions(start: Shop, shop: Shop, order: Orders.Order, w: World, n: nat, k: nat) {
    forall s :: s in shop.subscriptions ==> s in start.subscriptions || DrewSubscription(order, w, n, k, s)
  }

  lemma {:induction false} UnitAgain(
    start: Shop, shop: Shop, id: OrderId, order: Orders.Order, w: World, n: nat, k: nat)
    requires AllComesThrough(start, order, w) && KeysTaken(start, id, order) && IsUnit(order, n, k)
    requires KnownSubscriptions(start, shop, order, w, n, k) && shop.operations == start.operations
    ensures var shop' := UnitDone(shop, id, order, w, n, k);
      && KnownSubscriptions(start, shop', order, w, n, k + 1) && shop'.operations == start.operations
      && |shop'.subscriptions| == |shop.subscriptions| + 1
  {
  }

  lemma {:induction false} UnitsAgain(
    start: Shop, shop: Shop, id: OrderId, order: Orders.Order, w: World, n: nat, k: nat)
    requires AllComesThrough(start, order, w) && KeysTaken(start, id, order)
    requires n < |order.items| && k <= Units(order.items[n])
    requires KnownSubscriptions(start, shop, order, w, n, 0) && shop.operations == start.operations
    ensures var shop' := UnitsDone(shop, id, order, w, n, k);
      && KnownSubscriptions(start, shop', order, w, n, k) && shop'.operations == start.operations
      && |shop'.subscriptions| == |shop.subscriptions| + k
    decreases k
  {
    hide UnitDone, KnownSubscriptions, KeysTaken;
    if k > 0 {
      UnitsAgain(start, shop, id, order, w, n, k - 1);
      UnitAgain(start, UnitsDone(shop, id, order, w, n, k - 1), id, order, w, n, k - 1);
    }
  }

  lemma {:induction false} ItemsAgain(start: Shop, id: OrderId, order: Orders.Order, w: World, n: nat)
    requires AllComesThrough(start, order, w) && KeysTaken(start, id, order) && n <= |order.items|
    ensures var shop := ItemsDone(start, id, order, w, n);
      && KnownSubscriptions(start, shop, order, w, n, 0) && shop.operations == start.operations
      && |shop.subscriptions| == |start.subscriptions| + UnitsOf(order.items[..n])
  {
    hide UnitsDone, KeysTaken, DrewSubscription, Earlier, Units;
    if n > 0 {
      var before := ItemsDone(start, id, order, w, n - 1);
      ItemsAgain(start, id, order, w, n - 1);
      UnitsAgain(start, before, id, order, w, n - 1, Units(order.items[n - 1]));
      DrawsCarryOver(order, w, n - 1);
      assert order.items[..n][..n - 1] == order.items[..n - 1];
    }
  }

  /** Fulfilling an order is not idempotent: a second call creates all its subscriptions once more, and no operation for
      any of them. */
  lemma {:induction false} SecondCallDoublesSubscriptions(
    shop: Shop, orders: map<OrderId, Orders.Order>, id: OrderId, first: World, second: World)
    requires id in orders && orders[id].status == Orders.Paid && IsUuid(id)
    requires AllComesThrough(shop, orders[id], first) && Fresh(shop, id)
    requires AllComesThrough(Fulfilled(shop, orders, id, first), orders[id], second)
    ensures var (once, twice) := (Fulfilled(shop, orders, id, first),
      Fulfilled(Fulfilled(shop, orders, id, first), orders, id, second));
      && |twice.subscriptions| == |shop.subscriptions| + UnitsOf(orders[id].items) + UnitsOf(orders[id].items)
      && twice.operations == once.operations
  {
    var order := orders[id];
    hide ItemsDone, Fresh, AllComesThrough, ProvisionKey, NewSubscription;
    FulfilsEachUnitOnce(shop, orders, id, first);
    var once := Fulfilled(shop, orders, id, first);
    forall i: nat, q: nat | IsUnit(order, i, q) ensures Operations.KeyTaken(once.operations, ProvisionKey(id, i, q)) {
      assert HasBoth(once, id, order, first, i, q);
      assert Operations.Holds(once.operations, first.draw(i, q).operation, ProvisionKey(id, i, q));
    }
    ItemsAgain(once, id, order, second, |order.items|);
    assert order.items[..|order.items|] == order.items;
  }

  // ---- The service ----

  class FulfillmentService {
    const operationService: Operations.Service
    var subscriptions: Subscriptions.Table

    ghost function Snapshot(): Shop
      reads this, operationService
    {
      Shop(subscriptions, operationService.operations)
    }

    constructor (operationService: Operations.Service, subscriptions: Subscriptions.Table)
      ensures this.operationService == operationService && this.subscriptions == subscriptions
    {
      this.operationService, this.subscriptions := operationService, subscriptions;
    }

    method FulfillPaidOrder(orders: map<OrderId, Orders.Order>, id: OrderId, w: World) returns (ok: bool)
      requires Operations.UniqueKeys(operationService.operations)
      modifies this, operationService
      ensures Snapshot() == Fulfilled(old(Snapshot()), orders, id, w)
      ensures ok == (id in orders && orders[id].status == Orders.Paid)
      ensures Operations.UniqueKeys(operationService.operations)
    {
      if id !in orders {
        return false;
      }
      var order := orders[id];
      if order.status != Orders.Paid {
        return false;
      }
      hide UnitDone, Operations.UniqueKeys;
      ghost var start := Snapshot();
      for i := 0 to |order.items|
        invariant Snapshot() == ItemsDone(start, id, order, w, i)
        invariant Operations.UniqueKeys(operationService.operations)
      {
        if order.items[i].plan !in w.cycles {
          continue;
        }
        ghost var before := Snapshot();
        var q := 0;
        while q < order.items[i].quantity
          invariant 0 <= q <= Units(order.items[i])
          invariant Snapshot() == UnitsDone(before, id, order, w, i, q)
          invariant Operations.UniqueKeys(operationService.operations)
        {
          FulfillUnit(id, order, w, i, q);
          q := q + 1;
        }
      }
      return true;
    }

    /** The body of the inner loop. */
    method FulfillUnit(id: OrderId, order: Orders.Order, w: World, i: nat, q: nat)
      requires i < |order.items| && order.items[i].plan in w.cycles
      requires Operations.UniqueKeys(operationService.operations)
      modifies this, operationService
      ensures Snapshot() == UnitDone(old(Snapshot()), id, order, w, i, q)
      ensures Operations.UniqueKeys(operationService.operations)
    {
      var item, draw := order.items[i], w.draw(i, q);
      var periodEnd := Subscriptions.AddMonths(draw.now, 1);
      if !draw.subscriptionOk || draw.subscription in subscriptions {
        return;
      }
      subscriptions := subscriptions[draw.subscription := Subscriptions.Subscription(
        order.user, item.plan, Subscriptions.Pending, w.cycles[item.plan], item.unitPrice, order.currency,
        Some(draw.now), Some(draw.now), Some(periodEnd), Some(periodEnd), None, false, None)];
      if !draw.operationOk {
        return;
      }
      var input := Operations.Input("provision_instance", draw.subscription, ProvisionKey(id, i, q), true, MAX_RETRIES);
      Operations.CreateKeepsKeys(operationService.operations, Operations.Create(input, draw.operation, draw.now));
      var reply := operationService.CreateOperation(input, draw.operation, draw.now);
    }
  }
}
