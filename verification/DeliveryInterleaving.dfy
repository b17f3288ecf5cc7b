/** From settlement to subscriptions when deliveries, cancellations and fulfilments interleave: each first delivery
    starts a background fulfilment, which reads the order only later. */
module DeliveryInterleaving {
  import opened Options
  import opened Identifiers
  import opened Texts
  import opened Totals
  import opened Commerce
  import opened Bookkeeping
  import opened Fulfillment
  import M = MoneyInterleaving
  import D = Deliveries
  import Orders

  /** `waiting` holds the fulfilments that have been triggered and have yet to read their order. The others only
      observe: which of them found it paid, and what they drew; which found it otherwise; and which died before they
      read it. */
  datatype State = State(
    money: M.State,
    shop: Shop,
    waiting: multiset<OrderId>,
    fulfilled: multiset<OrderId>,
    refused: multiset<OrderId>,
    lost: multiset<OrderId>,
    worlds: map<OrderId, World>
  )

  datatype Event =
    | Money(step: M.Step)
    | Fulfil(order: OrderId, world: World)
    | Lose(order: OrderId)

  ghost predicate Enabled(s: State, e: Event) {
    match e
    case Money(step) => M.Enabled(s.money, step)
    case Fulfil(order, _) => order in s.waiting
    case Lose(order) => order in s.waiting
  }

  /** The step commits the settlement of a payment for the order. */
  predicate Settles(m: M.State, step: M.Step, order: OrderId) {
    && step.Commit? && step.t in m.sessions
    && m.sessions[step.t].task.Settling? && m.sessions[step.t].task.order == order
  }

  /** What a step of the money side triggers. */
  function Triggered(m: M.State, step: M.Step): multiset<OrderId> {
    if step.Commit? && step.t in m.sessions && m.sessions[step.t].task.Settling? then
      multiset{m.sessions[step.t].task.order}
    else multiset{}
  }

  ghost function Step(s: State, e: Event): State
    requires Enabled(s, e)
  {
    match e
    case Money(step) => s.(money := M.After(s.money, step), waiting := s.waiting + Triggered(s.money, step))
    case Fulfil(order, world) =>
      if HasStatus(s.money.books, order, Orders.Paid) then
        s.(shop := Fulfilled(s.shop, s.money.books.orders, order, world),
           waiting := s.waiting - multiset{order}, fulfilled := s.fulfilled + multiset{order},
           worlds := s.worlds[order := world])
      else s.(waiting := s.waiting - multiset{order}, refused := s.refused + multiset{order})
    case Lose(order) => s.(waiting := s.waiting - multiset{order}, lost := s.lost + multiset{order})
  }

  ghost function Run(s: State, events: seq<Event>): Option<State> {
    if events == [] then Some(s)
    else
      match Run(s, events[..|events| - 1])
      case None => None
      case Some(m) => if Enabled(m, events[|events| - 1]) then Some(Step(m, events[|events| - 1])) else None
  }

  /** Nobody has ordered anything yet, in a shop as others have left it. */
  function Opened(shop: Shop): State {
    State(M.START, shop, multiset{}, multiset{}, multiset{}, multiset{}, map[])
  }

  /** The steps on the money side. */
  function Steps(events: seq<Event>): seq<M.Step> {
    if events == [] then []
    else
      Steps(events[..|events| - 1])
      + if events[|events| - 1].Money? then [events[|events| - 1].step] else []
  }

  lemma {:induction false} MoneyRuns(shop: Shop, events: seq<Event>)
    requires Run(Opened(shop), events).Some?
    ensures M.Run(M.START, Steps(events)) == Some(Run(Opened(shop), events).value.money)
  {
    if events != [] {
      var before, last := events[..|events| - 1], events[|events| - 1];
      MoneyRuns(shop, before);
      hide M.Run, M.After, M.Enabled, Fulfilled;
      if last.Money? {
        M.RunExtends(M.START, Steps(before), last.step, Run(Opened(shop), before).value.money);
      } else {
        assert Steps(events) == Steps(before);
      }
    }
  }

  // ---- Triggered once ----

  lemma {:induction false} CommitPays(m: M.State, step: M.Step, order: OrderId)
    requires M.Sound(m) && Accounts(m.books) && Matched(m.books) && M.Enabled(m, step) && step.Commit?
    ensures PaidFor(M.After(m, step).books, order) <==> PaidFor(m.books, order) || Settles(m, step, order)
    ensures Settles(m, step, order) ==> !PaidFor(m.books, order)
  {
    var b, b', task := m.books, M.After(m, step).books, m.sessions[step.t].task;
    assert M.Consistent(b, m.sessions[step.t]);
    if PaidFor(b, order) {
      var p :| Succeeded(b.payments, p) && b.payments[p].order == order;
      assert Succeeded(b'.payments, p) && b'.payments[p].order == order;
      if Settles(m, step, order) {
        OnePaymentPerOrder(b, p, task.id);
      }
    } else if Settles(m, step, order) {
      assert Succeeded(b'.payments, task.id) && b'.payments[task.id].order == order;
    }
  }

  lemma {:induction false} OthersPayNothing(m: M.State, step: M.Step, order: OrderId)
    requires M.Enabled(m, step) && !step.Commit?
    ensures PaidFor(M.After(m, step).books, order) <==> PaidFor(m.books, order)
  {
    var b, b' := m.books, M.After(m, step).books;
    forall p ensures Succeeded(b'.payments, p) && b'.payments[p].order == order
      <==> Succeeded(b.payments, p) && b.payments[p].order == order
    {
    }
  }

  /** How often the fulfilment of an order has been triggered. */
  function Triggers(s: State, order: OrderId): nat {
    s.waiting[order] + s.fulfilled[order] + s.refused[order] + s.lost[order]
  }

  /** In every interleaving, an order's fulfilment is triggered exactly once if a payment for it has succeeded, and
      never otherwise. */
  lemma {:induction false} TriggeredOnceInterleaved(shop: Shop, events: seq<Event>, order: OrderId)
    requires Run(Opened(shop), events).Some?
    ensures var s := Run(Opened(shop), events).value;
      Triggers(s, order) == if PaidFor(s.money.books, order) then 1 else 0
  {
    if events != [] {
      var before, last := events[..|events| - 1], events[|events| - 1];
      TriggeredOnceInterleaved(shop, before, order);
      var m := Run(Opened(shop), before).value;
      if last.Money? {
        MoneyRuns(shop, before);
        M.RunKeepsAccounts(Steps(before));
        M.RunKeepsMatched(Steps(before));
        hide M.Sound, Accounts, Matched, M.Enabled, M.After, PaidFor, M.Run;
        if last.step.Commit? {
          CommitPays(m.money, last.step, order);
        } else {
          OthersPayNothing(m.money, last.step, order);
        }
      }
    }
  }

  // ---- Exactly when an order is fulfilled ----

  /** A waiting fulfilment that reads its order now fulfils it exactly when the last transaction to have written the
      order's status was a settlement; it gives up, for good, when that was a cancellation. */
  lemma {:induction false} FulfilsExactlyWhenSettledLast(
    shop: Shop, events: seq<Event>, order: OrderId, world: World)
    requires Run(Opened(shop), events).Some? && order in Run(Opened(shop), events).value.waiting
    ensures var s := Run(Opened(shop), events).value;
      var s' := Step(s, Fulfil(order, world));
      && M.Run(M.START, Steps(events)).Some?
      && (s'.fulfilled[order] == 1 <==> M.LastWrite(Steps(events), order) == M.BySettlement)
      && (s'.refused[order] == 1 <==> M.LastWrite(Steps(events), order) == M.ByCancellation)
      && s'.fulfilled[order] + s'.refused[order] == 1 && s'.waiting[order] == 0
  {
    MoneyRuns(shop, events);
    TriggeredOnceInterleaved(shop, events, order);
    hide Run, M.Run, Fulfilled, PaidFor;
    M.PaidExactlyWhenSettledLast(Steps(events), order);
  }

  lemma {:induction false} RunExtends(s: State, events: seq<Event>, e: Event, m: State)
    requires Run(s, events) == Some(m) && Enabled(m, e)
    ensures Run(s, events + [e]) == Some(Step(m, e))
  {
  }

  /** The run on the money side alone. */
  function Lifted(steps: seq<M.Step>): seq<Event> {
    if steps == [] then [] else Lifted(steps[..|steps| - 1]) + [Money(steps[|steps| - 1])]
  }

  lemma {:induction false} LiftedRuns(s: State, steps: seq<M.Step>)
    requires M.Run(s.money, steps).Some?
    ensures Run(s, Lifted(steps)).Some?
    ensures var end := Run(s, Lifted(steps)).value;
      end.money == M.Run(s.money, steps).value && s.waiting <= end.waiting && end.refused == s.refused
  {
    if steps != [] {
      var before, last := steps[..|steps| - 1], steps[|steps| - 1];
      LiftedRuns(s, before);
      hide Run, M.After, M.Enabled, Fulfilled;
      RunExtends(s, Lifted(before), Money(last), Run(s, Lifted(before)).value);
    }
  }

  ghost predicate EndsRefused(s: State, more: seq<Event>, order: OrderId) {
    Run(s, more).Some? && Run(s, more).value.refused[order] > 0
  }

  lemma {:induction false} StaysFulfillable(s: State, more: seq<Event>, order: OrderId)
    requires HasStatus(s.money.books, order, Orders.Paid) && !M.CancellationUnderWay(s.money, order)
    requires s.refused[order] == 0 && Run(s, more).Some?
    ensures var end := Run(s, more).value;
      && HasStatus(end.money.books, order, Orders.Paid) && !M.CancellationUnderWay(end.money, order)
      && end.refused[order] == 0
  {
    if more != [] {
      var before, last := more[..|more| - 1], more[|more| - 1];
      StaysFulfillable(s, before, order);
      hide M.After, M.Enabled, Fulfilled, HasStatus, M.CancellationUnderWay;
      if last.Money? {
        M.StepStaysPaid(Run(s, before).value.money, last.step, order);
      }
    }
  }

  /** A paid order whose fulfilment still has to read it can end up refused exactly when a cancellation that has read it
      as pending is still at work; the customer has then paid and gets nothing. */
  lemma {:induction false} RefusedExactlyWhenReadBefore(
    shop: Shop, events: seq<Event>, order: OrderId, world: World)
    requires Run(Opened(shop), events).Some?
    requires var s := Run(Opened(shop), events).value;
      order in s.waiting && HasStatus(s.money.books, order, Orders.Paid)
    ensures var s := Run(Opened(shop), events).value;
      (exists more :: EndsRefused(s, more, order)) <==> M.CancellationUnderWay(s.money, order)
  {
    var s := Run(Opened(shop), events).value;
    TriggeredOnceInterleaved(shop, events, order);
    MoneyRuns(shop, events);
    M.RunKeepsAccounts(Steps(events));
    M.RunKeepsMatched(Steps(events));
    hide Run, M.Run, Accounts, Matched, M.Sound, M.CancellationUnderWay, Fulfilled;
    if M.CancellationUnderWay(s.money, order) {
      var steps := M.UnderWayCanCancel(s.money, order);
      LiftedRuns(s, steps);
      var m := Run(s, Lifted(steps)).value;
      RunExtends(s, Lifted(steps), Fulfil(order, world), m);
      assert EndsRefused(s, Lifted(steps) + [Fulfil(order, world)], order);
    } else {
      forall more ensures !EndsRefused(s, more, order) {
        if Run(s, more).Some? {
          StaysFulfillable(s, more, order);
        }
      }
    }
  }

  // ---- What has been sold ----

  /** The orders on the money side are ordinary, and whatever a fulfilment that finds its order paid looks up, draws and
      writes comes through. */
  ghost predicate Smooth(s: State, e: Event) {
    match e
    case Money(step) => M.OrdinaryStep(step)
    case Fulfil(order, world) =>
      HasStatus(s.money.books, order, Orders.Paid) ==>
        IsUuid(order) && AllComesThrough(s.shop, s.money.books.orders[order], world)
    case Lose(_) => true
  }

  ghost predicate AllSmooth(s: State, events: seq<Event>)
    requires Run(s, events).Some?
  {
    events == []
    || (AllSmooth(s, events[..|events| - 1]) && Smooth(Run(s, events[..|events| - 1]).value, events[|events| - 1]))
  }

  ghost function SoldShare(s: State, id: OrderId, order: Orders.Order): int {
    if id in s.fulfilled then order.total else 0
  }

  ghost function Sold(s: State): Weight<OrderId, Orders.Order> {
    (id: OrderId, order: Orders.Order) => SoldShare(s, id, order)
  }

  ghost predicate IsKeyOf(id: OrderId, key: string) {
    exists i: nat, q: nat :: key == ProvisionKey(id, i, q)
  }

  lemma {:induction false} NewOperationsAreOwn(
    shop: Shop, shop': Shop, id: OrderId, order: Orders.Order, w: World, o: OperationId)
    requires forall i :: 0 <= i < |order.items| ==> order.items[i].plan in w.cycles
    requires DoneUpTo(shop, shop', id, order, w, |order.items|, 0)
    requires o in shop'.operations && o !in shop.operations
    ensures IsKeyOf(id, shop'.operations[o].key)
  {
    hide ProvisionKey, NewSubscription;
    var i: nat, q: nat :| Earlier(order, i, q, |order.items|, 0) && w.draw(i, q).operation == o;
    assert HasBoth(shop', id, order, w, i, q);
    assert shop'.operations[o].key == ProvisionKey(id, i, q);
  }

  lemma {:induction false} KeysApart(id: OrderId, other: OrderId, i: nat, q: nat, key: string)
    requires IsUuid(id) && IsUuid(other) && id != other && IsKeyOf(id, key)
    ensures key != ProvisionKey(other, i, q)
  {
    hide ProvisionKey;
    var j: nat, r: nat :| key == ProvisionKey(id, j, r);
    ProvisionKeyInjective(id, j, r, other, i, q);
  }

  /** Fulfilling one order takes no other order's keys. */
  lemma {:induction false} FulfillingLeavesOthers(
    shop: Shop, orders: map<OrderId, Orders.Order>, id: OrderId, w: World, other: OrderId)
    requires id in orders && orders[id].status == Orders.Paid && IsUuid(id) && IsUuid(other) && id != other
    requires AllComesThrough(shop, orders[id], w) && Fresh(shop, id) && Fresh(shop, other)
    ensures Fresh(Fulfilled(shop, orders, id, w), other)
  {
    var order, shop' := orders[id], Fulfilled(shop, orders, id, w);
    ItemsKeep(shop, id, order, w, |order.items|);
    hide ItemsDone, ProvisionKey, NewSubscription, HasBoth, DrewOperation, DrewSubscription;
    forall o, i: nat, q: nat ensures !Operations.Holds(shop'.operations, o, ProvisionKey(other, i, q)) {
      if o in shop.operations {
        assert !Operations.KeyTaken(shop.operations, ProvisionKey(other, i, q));
        assert !Operations.Holds(shop.operations, o, ProvisionKey(other, i, q));
      } else if o in shop'.operations {
        NewOperationsAreOwn(shop, shop', id, order, w, o);
        KeysApart(id, other, i, q, shop'.operations[o].key);
      }
    }
  }

  /** A fulfilment keeps the rows that are there. */
  lemma {:induction false} FulfillingKeepsRows(shop: Shop, orders: map<OrderId, Orders.Order>, id: OrderId, w: World)
    requires id in orders && orders[id].status == Orders.Paid && IsUuid(id)
    requires AllComesThrough(shop, orders[id], w) && Fresh(shop, id)
    ensures var shop' := Fulfilled(shop, orders, id, w);
      && (forall k :: k in shop.subscriptions ==>
        k in shop'.subscriptions && shop'.subscriptions[k] == shop.subscriptions[k])
      && (forall k :: k in shop.operations ==> k in shop'.operations && shop'.operations[k] == shop.operations[k])
  {
    ItemsKeep(shop, id, orders[id], w, |orders[id].items|);
    hide ItemsDone, ProvisionKey, NewSubscription, HasBoth, DrewOperation, DrewSubscription;
  }

  /** Whoever has not been fulfilled yet finds its keys free. */
  ghost predicate OthersFresh(s: State) {
    forall id :: IsUuid(id) && id !in s.fulfilled ==> Fresh(s.shop, id)
  }

  ghost predicate AllServed(s: State) {
    forall id :: id in s.fulfilled ==> Served(s, id)
  }

  /** What the shop has sold is worth what the orders that have been fulfilled were charged. */
  ghost predicate SoldAsCharged(start: Shop, s: State) {
    Total(s.shop.subscriptions, Price()) == Total(start.subscriptions, Price()) + Total(s.money.books.orders, Sold(s))
  }

  ghost predicate Settled(start: Shop, s: State) {
    AllWorthTheirTotal(s.money.books) && OthersFresh(s) && AllServed(s) && SoldAsCharged(start, s)
  }

  /** Each unit of the order has a subscription of its own and an operation for just that one. */
  ghost predicate Served(s: State, id: OrderId) {
    && id in s.money.books.orders && id in s.worlds
    && D.UnitsMatched(s.shop, id, s.money.books.orders[id], s.worlds[id])
  }

  /** The columns of an order that no request changes. */
  predicate SameOrder(order: Orders.Order, order': Orders.Order) {
    order' == order.(status := order'.status)
  }

  lemma {:induction false} CommitKeepsOrders(m: M.State, t: M.SessionId, id: OrderId)
    requires M.Enabled(m, M.Commit(t)) && id in m.books.orders
    ensures id in M.After(m, M.Commit(t)).books.orders
    ensures SameOrder(m.books.orders[id], M.After(m, M.Commit(t)).books.orders[id])
  {
  }

  lemma {:induction false} WholeKeepsOrders(b: Books, request: Request, id: OrderId)
    requires (request.Place? || request.Initiate? || request.OpenWallet?) && id in b.orders
    ensures id in Handle(b, request).0.orders && SameOrder(b.orders[id], Handle(b, request).0.orders[id])
  {
  }

  lemma {:induction false} MoneyKeepsOrders(m: M.State, step: M.Step, id: OrderId)
    requires M.Enabled(m, step) && id in m.books.orders
    ensures id in M.After(m, step).books.orders
    ensures SameOrder(m.books.orders[id], M.After(m, step).books.orders[id])
  {
    hide Handle, M.Installed, SameOrder;
    match step
    case Commit(t) => CommitKeepsOrders(m, t, id);
    case Whole(request) => WholeKeepsOrders(m.books, request, id);
    case _ => SameAsItself(m.books.orders[id]);
  }

  lemma {:induction false} SameAsItself(order: Orders.Order)
    ensures SameOrder(order, order)
  {
  }

  lemma {:induction false} MatchesSameOrder(
    shop: Shop, id: OrderId, order: Orders.Order, order': Orders.Order, w: World)
    requires D.UnitsMatched(shop, id, order, w) && SameOrder(order, order')
    ensures D.UnitsMatched(shop, id, order', w)
  {
    hide ProvisionKey;
    forall i: nat, q: nat | IsUnit(order', i, q)
      ensures order'.items[i].plan in w.cycles && HasBoth(shop, id, order', w, i, q)
    {
      assert IsUnit(order, i, q) && HasBoth(shop, id, order, w, i, q);
    }
    forall i: nat, q: nat, j: nat, r: nat | IsUnit(order', i, q) && IsUnit(order', j, r) && (i != j || q != r)
      ensures w.draw(i, q).subscription != w.draw(j, r).subscription && w.draw(i, q).operation != w.draw(j, r).operation
    {
      assert IsUnit(order, i, q) && IsUnit(order, j, r);
    }
  }

  /** No order goes away, and none changes but for its status. */
  ghost predicate OrdersStay(s: State, s': State) {
    forall id :: id in s.money.books.orders ==>
      id in s'.money.books.orders && SameOrder(s.money.books.orders[id], s'.money.books.orders[id])
  }

  lemma {:induction false} StaysServed(s: State, s': State)
    requires AllServed(s) && OrdersStay(s, s')
    requires s'.shop == s.shop && s'.fulfilled == s.fulfilled && s'.worlds == s.worlds
    ensures AllServed(s')
  {
    hide D.UnitsMatched, SameOrder;
    forall id | id in s'.fulfilled ensures Served(s', id) {
      assert Served(s, id);
      MatchesSameOrder(s.shop, id, s.money.books.orders[id], s'.money.books.orders[id], s.worlds[id]);
    }
  }

  lemma {:induction false} StaysSold(start: Shop, s: State, s': State)
    requires AllServed(s) && SoldAsCharged(start, s) && OrdersStay(s, s')
    requires s'.shop == s.shop && s'.fulfilled == s.fulfilled
    ensures SoldAsCharged(start, s')
  {
    hide D.UnitsMatched;
    forall id | id in s'.fulfilled ensures id in s.money.books.orders {
      assert Served(s, id);
    }
    TotalExtends<OrderId, Orders.Order>(s.money.books.orders, Sold(s), s'.money.books.orders, Sold(s'));
  }

  lemma {:induction false} MoneyKeepsSettled(start: Shop, s: State, step: M.Step)
    requires Settled(start, s) && M.Enabled(s.money, step) && M.OrdinaryStep(step)
    ensures Settled(start, Step(s, Money(step)))
  {
    hide M.After, M.Enabled, AllWorthTheirTotal, Fresh, AllServed, SoldAsCharged, M.OrdinaryStep;
    var s' := Step(s, Money(step));
    M.StepKeepsWorth(s.money, step);
    forall id | id in s.money.books.orders
      ensures id in s'.money.books.orders && SameOrder(s.money.books.orders[id], s'.money.books.orders[id])
    {
      MoneyKeepsOrders(s.money, step, id);
    }
    StaysServed(s, s');
    StaysSold(start, s, s');
  }

  lemma {:induction false} KeepingRowsKeepsUnits(
    shop: Shop, shop': Shop, id: OrderId, order: Orders.Order, w: World)
    requires D.UnitsMatched(shop, id, order, w)
    requires forall k :: k in shop.subscriptions ==>
      k in shop'.subscriptions && shop'.subscriptions[k] == shop.subscriptions[k]
    requires forall k :: k in shop.operations ==> k in shop'.operations && shop'.operations[k] == shop.operations[k]
    ensures D.UnitsMatched(shop', id, order, w)
  {
    hide ProvisionKey, NewSubscription;
    forall i: nat, q: nat | IsUnit(order, i, q) ensures HasBoth(shop', id, order, w, i, q) {
      assert HasBoth(shop, id, order, w, i, q);
    }
  }

  /** A fulfilment reads a paid order that has not been fulfilled before, and everything comes through. */
  ghost predicate Fulfils(s: State, id: OrderId, world: World) {
    && Enabled(s, Fulfil(id, world)) && s.fulfilled[id] == 0 && HasStatus(s.money.books, id, Orders.Paid)
    && IsUuid(id) && AllComesThrough(s.shop, s.money.books.orders[id], world) && Fresh(s.shop, id)
  }

  lemma {:induction false} FulfilMatches(s: State, id: OrderId, world: World)
    requires Fulfils(s, id, world)
    ensures D.UnitsMatched(Step(s, Fulfil(id, world)).shop, id, s.money.books.orders[id], world)
  {
    FulfilsEachUnitOnce(s.shop, s.money.books.orders, id, world);
    hide Fulfilled, HasBoth, Fresh;
  }

  lemma {:induction false} FulfilServes(s: State, id: OrderId, world: World)
    requires Fulfils(s, id, world) && AllServed(s)
    ensures AllServed(Step(s, Fulfil(id, world)))
  {
    hide Fulfilled, AllComesThrough, Fresh, HasBoth, D.UnitsMatched;
    var s', orders := Step(s, Fulfil(id, world)), s.money.books.orders;
    FulfilMatches(s, id, world);
    FulfillingKeepsRows(s.shop, orders, id, world);
    forall other | other in s'.fulfilled ensures Served(s', other) {
      if other != id {
        assert Served(s, other);
        KeepingRowsKeepsUnits(s.shop, s'.shop, other, orders[other], s.worlds[other]);
      }
    }
  }

  lemma {:induction false} FulfilSells(start: Shop, s: State, id: OrderId, world: World)
    requires Fulfils(s, id, world) && AllWorthTheirTotal(s.money.books) && SoldAsCharged(start, s)
    ensures SoldAsCharged(start, Step(s, Fulfil(id, world)))
  {
    hide Fulfilled, AllComesThrough, Fresh;
    var s', orders := Step(s, Fulfil(id, world)), s.money.books.orders;
    assert WorthItsTotal(orders[id]);
    SubscriptionsAreWorthTheOrder(s.shop, orders, id, world);
    TotalChange<OrderId, Orders.Order>(orders, Sold(s), orders, Sold(s'), id);
  }

  lemma {:induction false} FulfilLeavesFresh(s: State, id: OrderId, world: World)
    requires Fulfils(s, id, world) && OthersFresh(s)
    ensures OthersFresh(Step(s, Fulfil(id, world)))
  {
    hide Fulfilled, AllComesThrough, Fresh;
    var s' := Step(s, Fulfil(id, world));
    forall other | IsUuid(other) && other !in s'.fulfilled ensures Fresh(s'.shop, other) {
      FulfillingLeavesOthers(s.shop, s.money.books.orders, id, world, other);
    }
  }

  lemma {:induction false} FulfilKeepsSettled(start: Shop, s: State, id: OrderId, world: World)
    requires Settled(start, s) && Enabled(s, Fulfil(id, world)) && Smooth(s, Fulfil(id, world))
    requires s.fulfilled[id] == 0
    ensures Settled(start, Step(s, Fulfil(id, world)))
  {
    hide AllServed, SoldAsCharged, AllWorthTheirTotal, Fulfilled, AllComesThrough, Fresh;
    if HasStatus(s.money.books, id, Orders.Paid) {
      FulfilServes(s, id, world);
      FulfilSells(start, s, id, world);
      FulfilLeavesFresh(s, id, world);
    } else {
      SettledStays(start, s, Step(s, Fulfil(id, world)));
    }
  }

  /** Settled does not depend on who waits, was refused or was lost. */
  lemma {:induction false} SettledStays(start: Shop, s: State, s': State)
    requires Settled(start, s)
    requires s'.money == s.money && s'.shop == s.shop && s'.fulfilled == s.fulfilled && s'.worlds == s.worlds
    ensures Settled(start, s')
  {
    hide AllServed, SoldAsCharged, AllWorthTheirTotal, Fresh;
    forall id | id in s.money.books.orders ensures SameOrder(s.money.books.orders[id], s'.money.books.orders[id]) {
    }
    StaysServed(s, s');
    StaysSold(start, s, s');
  }

  lemma {:induction false} OpenedIsSettled(shop: Shop)
    requires forall id :: IsUuid(id) ==> Fresh(shop, id)
    ensures Settled(shop, Opened(shop))
  {
  }

  /** Over any interleaving of orders, payments, cancellations and fulfilments in which what fulfilments look up and
      write comes through: each order that a fulfilment found paid has, for each of its units, one subscription of its
      own and one operation for just that; and what the shop has sold is worth exactly what these orders were charged.
      */
  lemma {:induction false} SoldIsWhatWasFulfilled(shop: Shop, events: seq<Event>)
    requires Run(Opened(shop), events).Some? && AllSmooth(Opened(shop), events)
    requires forall id :: IsUuid(id) ==> Fresh(shop, id)
    ensures var s := Run(Opened(shop), events).value;
      && (forall id :: id in s.fulfilled ==> s.fulfilled[id] == 1 && PaidFor(s.money.books, id) && Served(s, id))
      && Total(s.shop.subscriptions, Price())
        == Total(shop.subscriptions, Price()) + Total(s.money.books.orders, Sold(s))
  {
    forall id ensures var s := Run(Opened(shop), events).value;
      id in s.fulfilled ==> s.fulfilled[id] == 1 && PaidFor(s.money.books, id)
    {
      TriggeredOnceInterleaved(shop, events, id);
    }
    RunKeepsSettled(shop, events);
  }

  lemma {:induction false} RunKeepsSettled(shop: Shop, events: seq<Event>)
    requires Run(Opened(shop), events).Some? && AllSmooth(Opened(shop), events)
    requires forall id :: IsUuid(id) ==> Fresh(shop, id)
    ensures Settled(shop, Run(Opened(shop), events).value)
  {
    hide Fresh, Settled;
    if events == [] {
      OpenedIsSettled(shop);
    } else {
      var before, last := events[..|events| - 1], events[|events| - 1];
      RunKeepsSettled(shop, before);
      var s := Run(Opened(shop), before).value;
      match last
      case Money(step) => MoneyKeepsSettled(shop, s, step);
      case Fulfil(id, world) =>
        TriggeredOnceInterleaved(shop, before, id);
        FulfilKeepsSettled(shop, s, id, world);
      case Lose(id) => SettledStays(shop, s, Step(s, last));
    }
  }
}
