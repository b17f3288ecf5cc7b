/** What holds of the books after any requests in any order: each payment is settled exactly once if it is settled at
    all, each wallet is a projection of the ledger, and revenue is what the paid orders are worth. */
module Bookkeeping {
  import opened Options
  import opened Identifiers
  import opened Words
  import opened Totals
  import opened Ledger
  import opened Commerce
  import Orders

  // ---- What every request keeps ----

  function Announcements(outbox: seq<Event>, payment: PaymentId): nat {
    if outbox == [] then 0
    else
      Announcements(outbox[..|outbox| - 1], payment)
      + if outbox[|outbox| - 1] == PaymentSucceededV1(payment) then 1 else 0
  }

  predicate Succeeded(payments: map<PaymentId, Payment>, p: PaymentId) {
    p in payments && payments[p].status == PaymentSucceeded
  }

  /** A payment is for its order's total, in its order's currency, under its order's key. */
  ghost predicate MatchesOrder(b: Books, p: PaymentId)
    requires p in b.payments
  {
    var payment := b.payments[p];
    && payment.order in b.orders && payment.key == Key(payment.order, FAKE)
    && payment.amount == b.orders[payment.order].total && payment.currency == b.orders[payment.order].currency
    && (payment.status == PaymentSucceeded ==> payment.amount >= 0)
  }

  /** Once a payment has succeeded, the order it is for is paid. */
  ghost predicate ForItsOrder(b: Books, p: PaymentId)
    requires p in b.payments
  {
    && MatchesOrder(b, p)
    && (b.payments[p].status == PaymentSucceeded ==> b.orders[b.payments[p].order].status == Orders.Paid)
  }

  /** A payment has one settlement in the ledger and one event in the outbox if it has succeeded, and none otherwise. */
  ghost predicate SettledOnce(b: Books, p: PaymentId) {
    Settlements(b.ledger, p) == Announcements(b.outbox, p) == if Succeeded(b.payments, p) then 1 else 0
  }

  ghost predicate Projected(b: Books, purse: Purse) {
    var net := Net(b.ledger, UserWallet(purse.user), purse.currency);
    if purse in b.wallets then b.wallets[purse] == Wrap64(net) else net == 0
  }

  function SettledAmount(payment: Payment, currency: string): int {
    if payment.status == PaymentSucceeded && payment.currency == currency then payment.amount else 0
  }

  function SettledIn(currency: string): Weight<PaymentId, Payment> {
    (_: PaymentId, payment: Payment) => SettledAmount(payment, currency)
  }

  ghost predicate RevenueIs(b: Books, currency: string) {
    Net(b.ledger, PlatformRevenue, currency) == Total(b.payments, SettledIn(currency))
  }

  ghost predicate AllIncoming(ledger: seq<Posting>) {
    forall i :: 0 <= i < |ledger| ==> IsIncoming(ledger[i])
  }

  /** What holds of payments, wallets and the ledger, whatever becomes of orders. */
  ghost predicate Accounts(b: Books) {
    && UniquePayments(b.payments)
    && AllIncoming(b.ledger)
    && (forall p :: SettledOnce(b, p))
    && (forall purse :: Projected(b, purse))
    && (forall currency :: RevenueIs(b, currency))
  }

  ghost predicate Matched(b: Books) {
    forall p :: p in b.payments ==> MatchesOrder(b, p)
  }

  ghost predicate Kept(b: Books) {
    Accounts(b) && forall p :: p in b.payments ==> ForItsOrder(b, p)
  }

  lemma {:induction false} Announced(outbox: seq<Event>, e: Event, p: PaymentId)
    ensures Announcements(outbox + [e], p) == Announcements(outbox, p) + if e == PaymentSucceededV1(p) then 1 else 0
  {
  }

  lemma {:induction false} EmptyIsKept()
    ensures Kept(EMPTY)
  {
  }

  /** A change of orders, invoices or empty wallets alone. */
  lemma {:induction false} OrdersKeepAccounts(b: Books, b': Books)
    requires Accounts(b)
    requires b'.payments == b.payments && b'.ledger == b.ledger && b'.outbox == b.outbox
    requires b'.wallets == b.wallets || exists purse :: purse !in b.wallets && b'.wallets == b.wallets[purse := 0]
    ensures Accounts(b')
  {
    forall p ensures SettledOnce(b', p) {
      assert SettledOnce(b, p);
    }
    forall purse ensures Projected(b', purse) {
      assert Projected(b, purse);
    }
    forall currency ensures RevenueIs(b', currency) {
      assert RevenueIs(b, currency);
    }
  }

  lemma {:induction false} OrdersKept(b: Books, request: Request)
    requires Kept(b) && (request.Place? || request.Cancel? || request.OpenWallet?)
    ensures Kept(Handle(b, request).0)
  {
    var b' := Handle(b, request).0;
    OrdersKeepAccounts(b, b');
    forall p | p in b'.payments ensures ForItsOrder(b', p) {
      assert ForItsOrder(b, p);
    }
  }

  lemma {:induction false} InitiatedKeepsAccounts(
    b: Books, order: OrderId, gateway: string, id: PaymentId, number: string)
    requires Accounts(b)
    ensures Accounts(InitiatedIn(b, order, gateway, id, number).0)
  {
    var b' := InitiatedIn(b, order, gateway, id, number).0;
    if b' != b {
      forall p ensures SettledOnce(b', p) {
        assert SettledOnce(b, p);
      }
      forall purse ensures Projected(b', purse) {
        assert Projected(b, purse);
      }
      forall currency ensures RevenueIs(b', currency) {
        assert RevenueIs(b, currency);
        TotalChange<PaymentId, Payment>(b.payments, SettledIn(currency), b'.payments, SettledIn(currency), id);
      }
      forall p | p in b.payments
        ensures !Clash(b.payments[p], b'.payments[id]) && !Clash(b'.payments[id], b.payments[p])
      {
        assert !HasKey(b.payments, p, Key(order, gateway)) && !HasNumber(b.payments, p, number);
      }
    }
  }

  lemma {:induction false} InitiatedKept(b: Books, order: OrderId, gateway: string, id: PaymentId, number: string)
    requires Kept(b)
    ensures Kept(InitiatedIn(b, order, gateway, id, number).0)
  {
    InitiatedKeepsAccounts(b, order, gateway, id, number);
    var b' := InitiatedIn(b, order, gateway, id, number).0;
    forall p | p in b'.payments ensures ForItsOrder(b', p) {
      assert p in b.payments ==> ForItsOrder(b, p);
    }
  }

  lemma {:induction false} DepositKept(b: Books, purse: Purse, amount: int)
    requires Kept(b)
    ensures Kept(DepositedIn(b, purse, amount).0)
  {
    DepositKeepsAccounts(b, purse, amount);
    forall p | p in b.payments ensures ForItsOrder(DepositedIn(b, purse, amount).0, p) {
      assert ForItsOrder(b, p);
    }
  }

  /** A deposit adds one posting, and its absolute balance is what the wallet's postings then come to. */
  lemma {:induction false} DepositKeepsAccounts(b: Books, purse: Purse, amount: int)
    requires Accounts(b)
    ensures Accounts(DepositedIn(b, purse, amount).0)
  {
    hide Net, NetOf, Settlements, Announcements, Wrap64;
    var b' := DepositedIn(b, purse, amount).0;
    if amount >= 0 {
      var named, posting := Named(purse), b'.ledger[|b.ledger|];
      forall p ensures SettledOnce(b', p) {
        assert SettledOnce(b, p);
        Announced(b.outbox, b'.outbox[|b.outbox|], p);
        Append(b.ledger, posting, PlatformRevenue, "", p);
      }
      forall q ensures Projected(b', q) {
        assert Projected(b, q);
        Append(b.ledger, posting, UserWallet(q.user), q.currency, 0);
        IncomingNet(posting, UserWallet(q.user), q.currency);
        WrapSum(Net(b.ledger, UserWallet(q.user), q.currency), amount);
      }
      forall currency ensures RevenueIs(b', currency) {
        assert RevenueIs(b, currency);
        Append(b.ledger, posting, PlatformRevenue, currency, 0);
        IncomingNet(posting, PlatformRevenue, currency);
      }
    }
  }

  lemma {:induction false} SettledKept(b: Books, id: PaymentId, reference: string)
    requires Kept(b) && id in b.payments
    ensures var p := b.payments[id]; Kept(Settled(b, id, p.order, p.amount, p.currency, reference).0)
  {
    SettledKeepsAccounts(b, id, reference);
    var payment := b.payments[id];
    var b' := Settled(b, id, payment.order, payment.amount, payment.currency, reference).0;
    forall p | p in b'.payments ensures ForItsOrder(b', p) {
      assert ForItsOrder(b, p);
    }
  }

  /** A settlement adds one posting and one event, and moves one payment to succeeded. */
  lemma {:induction false} SettledKeepsAccounts(b: Books, id: PaymentId, reference: string)
    requires Accounts(b) && id in b.payments
    ensures var p := b.payments[id]; Accounts(Settled(b, id, p.order, p.amount, p.currency, reference).0)
  {
    hide Net, NetOf, Settlements, Announcements, Wrap64, RevenueIs;
    var payment := b.payments[id];
    var b' := Settled(b, id, payment.order, payment.amount, payment.currency, reference).0;
    if b' != b {
      var posting := b'.ledger[|b.ledger|];
      forall p ensures SettledOnce(b', p) {
        assert SettledOnce(b, p);
        Announced(b.outbox, b'.outbox[|b.outbox|], p);
        Append(b.ledger, posting, PlatformRevenue, "", p);
      }
      forall q ensures Projected(b', q) {
        assert Projected(b, q);
        Append(b.ledger, posting, UserWallet(q.user), q.currency, 0);
        IncomingNet(posting, UserWallet(q.user), q.currency);
      }
      forall currency ensures RevenueIs(b', currency) {
        SettledRevenue(b, id, reference, currency);
      }
      SettledKeepsUnique(b, id, reference);
    }
  }

  /** One payment more that has succeeded counts for its amount in its currency. */
  lemma {:induction false} SucceedingCounts(
    payments: map<PaymentId, Payment>, id: PaymentId, reference: string, currency: string)
    requires id in payments && payments[id].status != PaymentSucceeded
    ensures Total(payments[id := Referenced(payments[id], reference)], SettledIn(currency))
      == Total(payments, SettledIn(currency)) + if payments[id].currency == currency then payments[id].amount else 0
  {
    TotalChange<PaymentId, Payment>(
      payments, SettledIn(currency), payments[id := Referenced(payments[id], reference)], SettledIn(currency), id);
  }

  /** One settlement more in the ledger is revenue of its amount in its currency. */
  lemma {:induction false} SettlementEarns(
    ledger: seq<Posting>, id: PaymentId, amount: int, currency: string, other: string)
    requires amount >= 0
    ensures Net(ledger + [Incoming(OrderPayment(id), PlatformRevenue, amount, currency)], PlatformRevenue, other)
      == Net(ledger, PlatformRevenue, other) + if currency == other then amount else 0
  {
    var posting := Incoming(OrderPayment(id), PlatformRevenue, amount, currency);
    Append(ledger, posting, PlatformRevenue, other, id);
    IncomingNet(posting, PlatformRevenue, other);
  }

  lemma {:induction false} SettledRevenue(b: Books, id: PaymentId, reference: string, currency: string)
    requires RevenueIs(b, currency) && id in b.payments
    ensures var p := b.payments[id]; RevenueIs(Settled(b, id, p.order, p.amount, p.currency, reference).0, currency)
  {
    hide Net, Total, SettledIn, Incoming, Referenced;
    var payment := b.payments[id];
    if Settled(b, id, payment.order, payment.amount, payment.currency, reference).0 != b {
      SettlementEarns(b.ledger, id, payment.amount, payment.currency, currency);
      SucceedingCounts(b.payments, id, reference, currency);
    }
  }

  lemma {:induction false} SettledKeepsUnique(b: Books, id: PaymentId, reference: string)
    requires UniquePayments(b.payments) && id in b.payments
    ensures var p := b.payments[id]; UniquePayments(Settled(b, id, p.order, p.amount, p.currency, reference).0.payments)
  {
    var payment := b.payments[id];
    var b' := Settled(b, id, payment.order, payment.amount, payment.currency, reference).0;
    if b' != b {
      forall p, q | p in b'.payments && q in b'.payments && Clash(b'.payments[p], b'.payments[q]) ensures p == q {
        assert reference != "" && p != id ==> !HasReference(b.payments, p, reference);
        assert reference != "" && q != id ==> !HasReference(b.payments, q, reference);
        assert Clash(b.payments[p], b.payments[q]) ==> p == q;
      }
    }
  }

  lemma {:induction false} HandleKeeps(b: Books, request: Request)
    requires Kept(b)
    ensures Kept(Handle(b, request).0)
  {
    match request
    case Initiate(order, gateway, id, number) => InitiatedKept(b, order, gateway, id, number);
    case Deposit(purse, amount) => DepositKept(b, purse, amount);
    case Webhook(gateway, notice) =>
      if Handle(b, request).0 != b {
        var p :| HasNumber(b.payments, p, notice.number) && Handle(b, request)
          == Settled(b, p, b.payments[p].order, b.payments[p].amount, b.payments[p].currency, notice.reference);
        SettledKept(b, p, notice.reference);
      }
    case _ => OrdersKept(b, request);
  }

  lemma {:induction false} RunsKeep(requests: seq<Request>)
    ensures Kept(HandleAll(EMPTY, requests))
  {
    if requests == [] {
      EmptyIsKept();
    } else {
      RunsKeep(requests[..|requests| - 1]);
      HandleKeeps(HandleAll(EMPTY, requests[..|requests| - 1]), requests[|requests| - 1]);
    }
  }

  // ---- Exactly-once settlement ----

  /** How many requests of a run were answered as the first delivery for a payment. */
  ghost function FirstDeliveries(requests: seq<Request>, p: PaymentId): nat {
    if requests == [] then 0
    else
      FirstDeliveries(requests[..|requests| - 1], p)
      + if Handle(HandleAll(EMPTY, requests[..|requests| - 1]), requests[|requests| - 1]).1 == Delivered(p, false)
        then 1 else 0
  }

  /** One request moves a payment to succeeded exactly when it is answered as its first delivery, and never back. */
  lemma {:induction false} SucceedsByFirstDelivery(b: Books, request: Request, p: PaymentId)
    requires Kept(b)
    ensures var (b', reply) := Handle(b, request);
      && (reply == Delivered(p, false) ==> !Succeeded(b.payments, p))
      && (Succeeded(b'.payments, p) <==> Succeeded(b.payments, p) || reply == Delivered(p, false))
      && (reply == Delivered(p, true) ==> b' == b && Succeeded(b.payments, p))
  {
  }

  /** Over any requests, in any order and however often a webhook is delivered: a payment has exactly one ledger posting
      and one outbox event, and exactly one delivery is told that it was the first, if the payment has succeeded; and
      none of them if it has not. */
  lemma {:induction false} SettledExactlyOnce(requests: seq<Request>, p: PaymentId)
    ensures var b := HandleAll(EMPTY, requests);
      var times := if Succeeded(b.payments, p) then 1 else 0;
      Settlements(b.ledger, p) == times && Announcements(b.outbox, p) == times && FirstDeliveries(requests, p) == times
  {
    RunsKeep(requests);
    assert SettledOnce(HandleAll(EMPTY, requests), p);
    if requests != [] {
      var before := requests[..|requests| - 1];
      SettledExactlyOnce(before, p);
      RunsKeep(before);
      SucceedsByFirstDelivery(HandleAll(EMPTY, before), requests[|requests| - 1], p);
    }
  }

  /** Succeeded is absorbing, and with it the amount, the order and the payment's place in the books. */
  lemma {:induction false} SuccessIsFinal(requests: seq<Request>, more: seq<Request>, p: PaymentId)
    requires Succeeded(HandleAll(EMPTY, requests).payments, p)
    ensures Succeeded(HandleAll(EMPTY, requests + more).payments, p)
  {
    if more == [] {
      assert requests + more == requests;
    } else {
      var before := requests + more[..|more| - 1];
      assert (requests + more)[..|requests + more| - 1] == before;
      SuccessIsFinal(requests, more[..|more| - 1], p);
      RunsKeep(before);
      SucceedsByFirstDelivery(HandleAll(EMPTY, before), (requests + more)[|requests + more| - 1], p);
    }
  }

  // ---- The wallet is a projection of the ledger ----

  /** In every reachable state a wallet's balance is its credits minus its debits, wrapped to an int64; it is that sum
      itself exactly while the sum fits. */
  lemma {:induction false} WalletProjectsLedger(requests: seq<Request>, purse: Purse)
    ensures var b := HandleAll(EMPTY, requests);
      var net := Net(b.ledger, UserWallet(purse.user), purse.currency);
      Balance(b, purse) == Wrap64(net) && (Balance(b, purse) == net <==> IsInt64(net))
  {
    RunsKeep(requests);
    assert Projected(HandleAll(EMPTY, requests), purse);
    Wrap64Range(Net(HandleAll(EMPTY, requests).ledger, UserWallet(purse.user), purse.currency));
  }

  // ---- A cancelled order can still be paid ----

  predicate HasStatus(b: Books, order: OrderId, status: Orders.OrderStatus) {
    order in b.orders && b.orders[order].status == status
  }

  /** A payment of the order is pending that a delivery can name and settle. */
  ghost predicate Payable(b: Books, order: OrderId) {
    exists p :: IsPayable(b, order, p)
  }

  ghost predicate IsPayable(b: Books, order: OrderId, p: PaymentId) {
    && p in b.payments && b.payments[p].order == order && b.payments[p].status == PaymentPending
    && b.payments[p].number != "" && b.payments[p].amount >= 0
  }

  lemma {:induction false} StepStaysCancelled(b: Books, request: Request, order: OrderId)
    requires Kept(b) && HasStatus(b, order, Orders.Cancelled) && !Payable(b, order)
    ensures HasStatus(Handle(b, request).0, order, Orders.Cancelled) && !Payable(Handle(b, request).0, order)
  {
    var b' := Handle(b, request).0;
    forall p ensures !IsPayable(b', order, p) {
      assert !IsPayable(b, order, p);
    }
    if request.Webhook? && b' != b {
      var p :| HasNumber(b.payments, p, request.notice.number) && Handle(b, request)
        == Settled(b, p, b.payments[p].order, b.payments[p].amount, b.payments[p].currency, request.notice.reference);
      assert !IsPayable(b, order, p) && b.payments[p].amount >= 0;
    }
  }

  lemma {:induction false} StaysCancelled(b: Books, more: seq<Request>, order: OrderId)
    requires Kept(b) && HasStatus(b, order, Orders.Cancelled) && !Payable(b, order)
    ensures var end := HandleAll(b, more);
      Kept(end) && HasStatus(end, order, Orders.Cancelled) && !Payable(end, order)
  {
    if more != [] {
      StaysCancelled(b, more[..|more| - 1], order);
      hide Kept, Handle, Payable;
      HandleKeeps(HandleAll(b, more[..|more| - 1]), more[|more| - 1]);
      StepStaysCancelled(HandleAll(b, more[..|more| - 1]), more[|more| - 1], order);
    }
  }

  lemma {:induction false} DeliveryPays(b: Books, order: OrderId, p: PaymentId) returns (request: Request)
    requires Kept(b) && IsPayable(b, order, p)
    ensures HasStatus(Handle(b, request).0, order, Orders.Paid)
  {
    assert ForItsOrder(b, p);
    var payment := b.payments[p];
    request := Webhook(FAKE, Notice(true, payment.number, payment.amount, payment.currency, true, ""));
    forall q | HasNumber(b.payments, q, payment.number) ensures q == p {
      assert Clash(b.payments[q], b.payments[p]);
    }
    assert HasNumber(b.payments, p, payment.number);
  }

  lemma {:induction false} HandleOne(b: Books, request: Request)
    ensures HandleAll(b, [request]) == Handle(b, request).0
  {
    hide Handle;
    assert [request][..0] == [];
    assert HandleAll(b, []) == b;
  }

  /** Settlement does not look at the order's status: from any reachable state in which an order is cancelled, it can
      still become paid exactly when a payment of it is pending that a delivery can name and settle. Otherwise it stays
      cancelled for ever. */
  lemma {:induction false} CancelledIsPaidExactlyWhenPayable(requests: seq<Request>, order: OrderId)
    requires HasStatus(HandleAll(EMPTY, requests), order, Orders.Cancelled)
    ensures var b := HandleAll(EMPTY, requests);
      (exists more :: HasStatus(HandleAll(b, more), order, Orders.Paid)) <==> Payable(b, order)
  {
    RunsKeep(requests);
    hide Kept, Handle, IsPayable;
    var b := HandleAll(EMPTY, requests);
    if p :| IsPayable(b, order, p) {
      var request := DeliveryPays(b, order, p);
      HandleOne(b, request);
      assert HasStatus(HandleAll(b, [request]), order, Orders.Paid);
    } else {
      forall more ensures !HasStatus(HandleAll(b, more), order, Orders.Paid) {
        StaysCancelled(b, more, order);
      }
    }
  }

  // ---- Trial balance and price conservation ----

  ghost predicate PaidFor(b: Books, id: OrderId) {
    exists p :: Succeeded(b.payments, p) && b.payments[p].order == id
  }

  ghost function PaidAmount(b: Books, id: OrderId, order: Orders.Order, currency: string): int {
    if PaidFor(b, id) && order.currency == currency then order.total else 0
  }

  ghost function PaidIn(b: Books, currency: string): Weight<OrderId, Orders.Order> {
    (id: OrderId, order: Orders.Order) => PaidAmount(b, id, order, currency)
  }

  /** The payment that paid an order. */
  ghost function PayerOf(b: Books, id: OrderId): PaymentId
    requires PaidFor(b, id)
  {
    var p :| Succeeded(b.payments, p) && b.payments[p].order == id;
    p
  }

  lemma {:induction false} PaidOrderHasPayer(b: Books, id: OrderId, currency: string)
    requires Accounts(b) && Matched(b) && PaidFor(b, id)
    ensures var p := PayerOf(b, id);
      && p in b.payments && b.payments[p].order == id && id in b.orders
      && SettledAmount(b.payments[p], currency) == PaidAmount(b, id, b.orders[id], currency) >= 0
  {
  }

  lemma {:induction false} OnePaymentPerOrder(b: Books, p: PaymentId, q: PaymentId)
    requires Accounts(b) && Matched(b) && p in b.payments && q in b.payments
    requires b.payments[p].order == b.payments[q].order
    ensures p == q
  {
  }

  lemma {:induction false} PaymentsWithinOrders(b: Books, currency: string)
    requires Accounts(b) && Matched(b)
    ensures Total(b.payments, SettledIn(currency)) <= Total(b.orders, PaidIn(b, currency))
  {
    var f, g := SettledIn(currency), PaidIn(b, currency);
    var orderOf := map p | p in b.payments :: b.payments[p].order;
    forall p | p in b.payments && f(p, b.payments[p]) != 0
      ensures orderOf[p] in b.orders && g(orderOf[p], b.orders[orderOf[p]]) == f(p, b.payments[p])
    {
      assert MatchesOrder(b, p);
      assert PaidFor(b, orderOf[p]);
    }
    forall id | id in b.orders ensures g(id, b.orders[id]) >= 0 {
      if PaidFor(b, id) {
        PaidOrderHasPayer(b, id, currency);
      }
    }
    forall p, q | p in b.payments && q in b.payments && orderOf[p] == orderOf[q] ensures p == q {
      OnePaymentPerOrder(b, p, q);
    }
    TotalInjects<PaymentId, Payment, OrderId, Orders.Order>(b.payments, f, b.orders, g, orderOf);
  }

  lemma {:induction false} OrdersWithinPayments(b: Books, currency: string)
    requires Accounts(b) && Matched(b)
    ensures Total(b.orders, PaidIn(b, currency)) <= Total(b.payments, SettledIn(currency))
  {
    var f, g := SettledIn(currency), PaidIn(b, currency);
    var payerOf := map id | id in b.orders && PaidFor(b, id) :: PayerOf(b, id);
    forall id | id in b.orders && g(id, b.orders[id]) != 0
      ensures id in payerOf && payerOf[id] in b.payments && b.payments[payerOf[id]].order == id
      ensures f(payerOf[id], b.payments[payerOf[id]]) == g(id, b.orders[id])
    {
      PaidOrderHasPayer(b, id, currency);
    }
    forall p | p in b.payments ensures f(p, b.payments[p]) >= 0 {
      assert MatchesOrder(b, p);
    }
    TotalInjects<OrderId, Orders.Order, PaymentId, Payment>(b.orders, g, b.payments, f, payerOf);
  }

  /** In every reachable state and every currency: debits equal credits; what the gateway was debited is what revenue
      and wallets were credited; and revenue is the sum of the totals of the orders that a payment has succeeded for. */
  lemma {:induction false} BooksBalance(requests: seq<Request>, currency: string)
    ensures var b := HandleAll(EMPTY, requests);
      && Side(b.ledger, Debit, currency) == Side(b.ledger, Credit, currency)
      && -Net(b.ledger, PaymentGateway, currency)
        == Net(b.ledger, PlatformRevenue, currency) + WalletsNet(b.ledger, currency)
      && Net(b.ledger, PlatformRevenue, currency) == Total(b.orders, PaidIn(b, currency))
  {
    RunsKeep(requests);
    var b := HandleAll(EMPTY, requests);
    TrialBalance(b.ledger, currency);
    assert RevenueIs(b, currency);
    PaymentsWithinOrders(b, currency);
    OrdersWithinPayments(b, currency);
  }

  /** A request that places an order within int32 quantities whose worth fits an int64. */
  ghost predicate Ordinary(request: Request) {
    request.Place? ==>
      && (forall i :: 0 <= i < |request.lines| ==> request.lines[i].quantity < 0x8000_0000)
      && (Orders.Placed(request.catalog, request.user, request.lines).Ok? ==>
        IsInt64(Orders.Worth(Orders.Placed(request.catalog, request.user, request.lines).value.items)))
  }

  ghost predicate WorthItsTotal(order: Orders.Order) {
    && order.total == Orders.Worth(order.items)
    && Orders.OneCurrency(order.items, order.currency)
    && forall i :: 0 <= i < |order.items| ==> order.items[i].quantity > 0
  }

  ghost predicate AllWorthTheirTotal(b: Books) {
    forall id :: id in b.orders ==> WorthItsTotal(b.orders[id])
  }

  lemma {:induction false} PlacingKeepsWorth(b: Books, request: Request)
    requires AllWorthTheirTotal(b) && Ordinary(request) && request.Place?
    ensures AllWorthTheirTotal(Handle(b, request).0)
  {
    if Handle(b, request).0 != b {
      Orders.ChargesWorth(request.catalog, request.user, request.lines);
      var order := Orders.Placed(request.catalog, request.user, request.lines).value;
      forall i | 0 <= i < |order.items| ensures order.items[i].quantity > 0 {
        assert Orders.ItemFor(request.catalog, request.lines[i], order.items[i]);
      }
    }
  }

  lemma {:induction false} OthersKeepWorth(b: Books, request: Request)
    requires AllWorthTheirTotal(b) && !request.Place?
    ensures AllWorthTheirTotal(Handle(b, request).0)
  {
    hide Orders.Worth, Orders.OneCurrency;
  }

  /** Orders keep the items, the total and the one currency that they were placed with. */
  lemma {:induction false} OrdersStayWorthTheirTotal(requests: seq<Request>)
    requires forall r :: r in requests ==> Ordinary(r)
    ensures AllWorthTheirTotal(HandleAll(EMPTY, requests))
  {
    if requests != [] {
      var before, last := requests[..|requests| - 1], requests[|requests| - 1];
      OrdersStayWorthTheirTotal(before);
      var b := HandleAll(EMPTY, before);
      assert Ordinary(last);
      hide Ordinary, Handle, AllWorthTheirTotal;
      if last.Place? {
        PlacingKeepsWorth(b, last);
      } else {
        OthersKeepWorth(b, last);
      }
    }
  }

  ghost function PaidWorth(b: Books, id: OrderId, order: Orders.Order, currency: string): int {
    if PaidFor(b, id) && order.currency == currency then Orders.Worth(order.items) else 0
  }

  ghost function WorthIn(b: Books, currency: string): Weight<OrderId, Orders.Order> {
    (id: OrderId, order: Orders.Order) => PaidWorth(b, id, order, currency)
  }

  /** When orders are ordinary, the revenue in each currency is the unit prices times the quantities of all orders in
      that currency that a payment has succeeded for. */
  lemma {:induction false} RevenueIsWorthSold(requests: seq<Request>, currency: string)
    requires forall r :: r in requests ==> Ordinary(r)
    ensures var b := HandleAll(EMPTY, requests);
      Net(b.ledger, PlatformRevenue, currency) == Total(b.orders, WorthIn(b, currency))
  {
    BooksBalance(requests, currency);
    OrdersStayWorthTheirTotal(requests);
    var b := HandleAll(EMPTY, requests);
    TotalCongruence<OrderId, Orders.Order, Orders.Order>(b.orders, PaidIn(b, currency), b.orders, WorthIn(b, currency));
  }

  // ---- Fulfilment is triggered once ----

  /** How many requests of a run triggered the fulfilment of an order: those answered as the first delivery for a
      payment of it. */
  ghost function Triggers(requests: seq<Request>, order: OrderId): nat {
    if requests == [] then 0
    else
      var b := HandleAll(EMPTY, requests[..|requests| - 1]);
      Triggers(requests[..|requests| - 1], order) + if IsTrigger(b, Handle(b, requests[|requests| - 1]).1, order)
        then 1 else 0
  }

  lemma {:induction false} OrdersOfPaymentsStay(b: Books, request: Request, p: PaymentId)
    requires p in b.payments
    ensures p in Handle(b, request).0.payments && Handle(b, request).0.payments[p].order == b.payments[p].order
  {
  }

  predicate IsTrigger(b: Books, reply: Reply, order: OrderId) {
    && reply.Delivered? && !reply.alreadyProcessed
    && reply.payment in b.payments && b.payments[reply.payment].order == order
  }

  lemma {:induction false} PaidByTrigger(b: Books, request: Request, order: OrderId)
    requires Kept(b)
    ensures var (b', reply) := Handle(b, request);
      && (PaidFor(b', order) <==> PaidFor(b, order) || IsTrigger(b, reply, order))
      && (IsTrigger(b, reply, order) ==> !PaidFor(b, order))
  {
    assert Accounts(b) && Matched(b);
    hide Kept, Handle, Accounts, Matched;
    var (b', reply) := Handle(b, request);
    forall p ensures p in b.payments ==> p in b'.payments && b'.payments[p].order == b.payments[p].order {
      if p in b.payments {
        OrdersOfPaymentsStay(b, request, p);
      }
    }
    forall p ensures Succeeded(b'.payments, p) <==> Succeeded(b.payments, p) || reply == Delivered(p, false) {
      SucceedsByFirstDelivery(b, request, p);
    }
    if reply.Delivered? && !reply.alreadyProcessed {
      SucceedsByFirstDelivery(b, request, reply.payment);
      DeliveredIsKnown(b, request);
    }
    if PaidFor(b, order) {
      var p :| Succeeded(b.payments, p) && b.payments[p].order == order;
      assert Succeeded(b'.payments, p);
      if IsTrigger(b, reply, order) {
        OnePaymentPerOrder(b, p, reply.payment);
      }
    }
  }

  lemma {:induction false} DeliveredIsKnown(b: Books, request: Request)
    requires Handle(b, request).1.Delivered?
    ensures Handle(b, request).1.payment in b.payments
  {
  }

  /** Over any requests, an order's fulfilment is triggered exactly once if one of its payments has succeeded, and never
      otherwise. */
  lemma {:induction false} FulfilmentTriggeredOnce(requests: seq<Request>, order: OrderId)
    ensures Triggers(requests, order) == if PaidFor(HandleAll(EMPTY, requests), order) then 1 else 0
  {
    if requests != [] {
      var before := requests[..|requests| - 1];
      FulfilmentTriggeredOnce(before, order);
      RunsKeep(before);
      PaidByTrigger(HandleAll(EMPTY, before), requests[|requests| - 1], order);
    }
  }
}
