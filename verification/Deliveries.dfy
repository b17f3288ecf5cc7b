/** From webhook deliveries to subscriptions: payment, settlement and fulfilment taken together. */
module Deliveries {
  import opened Identifiers
  import opened Texts
  import opened Totals
  import opened Commerce
  import opened Bookkeeping
  import opened Fulfillment
  import Orders

  /** The shop after the fulfilment of an order has run each time that a request triggered it. */
  ghost function ShopAfter(shop: Shop, requests: seq<Request>, order: OrderId, w: World): Shop {
    if requests == [] then shop
    else
      var (before, last) := (requests[..|requests| - 1], requests[|requests| - 1]);
      var (b, earlier) := (HandleAll(EMPTY, before), ShopAfter(shop, before, order, w));
      var (b', reply) := Handle(b, last);
      if IsTrigger(b, reply, order) then Fulfilled(earlier, b'.orders, order, w) else earlier
  }

  /** An order that a payment has succeeded for is paid, and stays as it is. */
  lemma {:induction false} PaidOrderStays(b: Books, request: Request, order: OrderId)
    requires Kept(b) && PaidFor(b, order)
    ensures order in b.orders && b.orders[order].status == Orders.Paid
    ensures order in Handle(b, request).0.orders && Handle(b, request).0.orders[order] == b.orders[order]
  {
    PaidOrderHasPayer(b, order, "");
    assert ForItsOrder(b, PayerOf(b, order));
  }

  lemma {:induction false} FulfilledIfPaid(shop: Shop, requests: seq<Request>, order: OrderId, w: World)
    ensures var b := HandleAll(EMPTY, requests);
      if PaidFor(b, order) then
        order in b.orders && ShopAfter(shop, requests, order, w) == Fulfilled(shop, b.orders, order, w)
      else ShopAfter(shop, requests, order, w) == shop
  {
    if requests != [] {
      var before, last := requests[..|requests| - 1], requests[|requests| - 1];
      var b := HandleAll(EMPTY, before);
      FulfilledIfPaid(shop, before, order, w);
      RunsKeep(before);
      RunsKeep(requests);
      hide Handle, Kept, Fulfilled;
      PaidByTrigger(b, last, order);
      if PaidFor(b, order) {
        PaidOrderStays(b, last, order);
        SameOrderSameShop(shop, b.orders, Handle(b, last).0.orders, order, w);
      } else if PaidFor(Handle(b, last).0, order) {
        PaidOrderStays(Handle(b, last).0, last, order);
      }
    }
  }

  lemma {:induction false} SameOrderSameShop(
    shop: Shop, orders: map<OrderId, Orders.Order>, orders': map<OrderId, Orders.Order>, id: OrderId, w: World)
    requires id in orders && id in orders' && orders[id] == orders'[id]
    ensures Fulfilled(shop, orders, id, w) == Fulfilled(shop, orders', id, w)
  {
  }

  /** Each unit of an order has a subscription and an operation for just that subscription, and no two units share
      one. */
  ghost predicate UnitsMatched(shop: Shop, id: OrderId, order: Orders.Order, w: World) {
    && (forall i: nat, q: nat :: IsUnit(order, i, q) ==>
      order.items[i].plan in w.cycles && HasBoth(shop, id, order, w, i, q))
    && (forall i: nat, q: nat, j: nat, r: nat :: IsUnit(order, i, q) && IsUnit(order, j, r) && (i != j || q != r) ==>
      && w.draw(i, q).subscription != w.draw(j, r).subscription
      && w.draw(i, q).operation != w.draw(j, r).operation)
  }

  /** However often and in whatever order the webhooks of a paid order are delivered: each of its units ends up with one
      subscription of its own and one operation for just that subscription, there are exactly as many new ones, and
      their prices add up to exactly what was charged. An order that no payment has succeeded for has none. */
  lemma {:induction false} DeliveriesSellWhatWasCharged(shop: Shop, requests: seq<Request>, id: OrderId, w: World)
    requires forall r :: r in requests ==> Ordinary(r)
    requires var b := HandleAll(EMPTY, requests);
      PaidFor(b, id) && id in b.orders ==>
        IsUuid(id) && AllComesThrough(shop, b.orders[id], w) && Fresh(shop, id)
    ensures var (b, after) := (HandleAll(EMPTY, requests), ShopAfter(shop, requests, id, w));
      if PaidFor(b, id) then
        && id in b.orders
        && UnitsMatched(after, id, b.orders[id], w)
        && |after.subscriptions| == |shop.subscriptions| + UnitsOf(b.orders[id].items)
        && |after.operations| == |shop.operations| + UnitsOf(b.orders[id].items)
        && Total(after.subscriptions, Price()) == Total(shop.subscriptions, Price()) + b.orders[id].total
      else after == shop
  {
    hide Fresh, HandleAll, ShopAfter, Fulfilled, Total, Ordinary, HasBoth;
    FulfilledIfPaid(shop, requests, id, w);
    var b := HandleAll(EMPTY, requests);
    if PaidFor(b, id) {
      RunsKeep(requests);
      PaidOrderStays(b, OpenWallet(Purse(0, "")), id);
      OrdersStayWorthTheirTotal(requests);
      assert WorthItsTotal(b.orders[id]);
      FulfilsEachUnitOnce(shop, b.orders, id, w);
      SubscriptionsAreWorthTheOrder(shop, b.orders, id, w);
    }
  }
}
