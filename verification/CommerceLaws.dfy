/** What each request does to the books, in the columns of their rows alone, and exactly when a payment succeeds over
    any requests. */
module CommerceLaws {
  import opened Options
  import opened Identifiers
  import opened Words
  import opened Ledger
  import opened Commerce
  import opened Bookkeeping
  import Orders

  // ---- Webhook deliveries ----

  /** The payment with a number. */
  ghost predicate Numbered(b: Books, p: PaymentId, number: string) {
    p in b.payments && b.payments[p].number == number
  }

  /** No other payment has the gateway's reference, if the delivery brings one. */
  ghost predicate ReferenceFree(b: Books, p: PaymentId, reference: string) {
    reference == "" || forall q :: q in b.payments && q != p ==> b.payments[q].reference != Some(reference)
  }

  /** A delivery that settles a payment: by the one gateway there is, signed, reporting success, and carrying the
      payment's number, amount and currency; the payment is pending, its order exists, its amount can be posted, and its
      reference is free. */
  ghost predicate Pays(b: Books, request: Request, p: PaymentId) {
    && request.Webhook? && request.gateway == "fake"
    && var notice := request.notice;
    && notice.signed && notice.succeeded && notice.number != "" && Numbered(b, p, notice.number)
    && var payment := b.payments[p];
    && payment.status == PaymentPending && notice.amount == payment.amount && notice.currency == payment.currency
    && payment.order in b.orders && payment.amount >= 0 && ReferenceFree(b, p, notice.reference)
  }

  /** The first of the checks that a delivery fails, in the order in which they are made. */
  ghost predicate FailsFirst(b: Books, gateway: string, notice: Notice, p: PaymentId, refusal: Refusal) {
    if gateway != "fake" then refusal == UnsupportedGateway
    else if !notice.signed then refusal == InvalidSignature
    else if notice.number == "" then refusal == MissingNumber
    else if !Numbered(b, p, notice.number) then
      refusal == PaymentNotFound && forall q :: q in b.payments ==> b.payments[q].number != notice.number
    else
      var payment := b.payments[p];
      if notice.amount != payment.amount then refusal == InvalidPaymentAmount
      else if notice.currency != payment.currency then refusal == InvalidCurrency
      else if !notice.succeeded then refusal == NotSuccessful
      else if payment.order !in b.orders then refusal == OrderNotFound
      else if payment.status == PaymentSucceeded then false
      else if !ReferenceFree(b, p, notice.reference) then refusal == DuplicateKey
      else payment.amount < 0 && refusal == CheckViolation
  }

  lemma {:induction false} OneNumber(b: Books, p: PaymentId, q: PaymentId, number: string)
    requires UniquePayments(b.payments) && Numbered(b, p, number) && HasNumber(b.payments, q, number)
    ensures p == q
  {
    assert Clash(b.payments[p], b.payments[q]);
  }

  lemma {:induction false} ReferenceFreeIs(b: Books, p: PaymentId, reference: string)
    ensures ReferenceFree(b, p, reference) <==>
      reference == "" || !exists q :: q != p && HasReference(b.payments, q, reference)
  {
    forall q | q in b.payments && b.payments[q].reference == Some(reference)
      ensures HasReference(b.payments, q, reference)
    {
    }
  }

  /** Exactly when a delivery that names a payment gets which answer: it settles the payment, or finds it settled, or is
      refused for the first check that it fails; unless it settles, nothing changes. */
  lemma {:induction false} DeliveryAnswersExactly(b: Books, gateway: string, notice: Notice, p: PaymentId)
    requires UniquePayments(b.payments)
    requires Numbered(b, p, notice.number) || forall q :: q in b.payments ==> b.payments[q].number != notice.number
    ensures var (b', reply) := Handle(b, Webhook(gateway, notice));
      && (reply == Delivered(p, false) <==> Pays(b, Webhook(gateway, notice), p))
      && (!Pays(b, Webhook(gateway, notice), p) ==> b' == b)
      && (reply.Refused? ==> FailsFirst(b, gateway, notice, p, reply.refusal))
      && (reply.Refused? || reply == Delivered(p, false)
        || (reply == Delivered(p, true) && Succeeded(b.payments, p) && notice.signed && notice.succeeded))
  {
    if Numbered(b, p, notice.number) {
      assert HasNumber(b.payments, p, notice.number);
      forall q | HasNumber(b.payments, q, notice.number) ensures q == p {
        OneNumber(b, p, q, notice.number);
      }
      ReferenceFreeIs(b, p, notice.reference);
    } else {
      assert forall q :: !HasNumber(b.payments, q, notice.number);
    }
  }

  /** What a settlement writes: the payment succeeds and keeps the gateway's reference, its order is paid, its invoice
      too, one posting debits the gateway and credits revenue with its amount, and one event announces it. */
  lemma {:induction false} DeliveryWritesExactly(b: Books, request: Request, p: PaymentId)
    requires UniquePayments(b.payments) && Pays(b, request, p)
    ensures var (b', payment) := (Handle(b, request).0, b.payments[p]);
      var reference := request.notice.reference;
      && b'.payments == b.payments[p := payment.(
        status := PaymentSucceeded, reference := if reference == "" then payment.reference else Some(reference))]
      && b'.orders == b.orders[payment.order := b.orders[payment.order].(status := Orders.Paid)]
      && b'.invoicePaid.Keys == b.invoicePaid.Keys
      && (forall o :: o in b.invoicePaid ==> b'.invoicePaid[o] == (b.invoicePaid[o] || o == payment.order))
      && b'.wallets == b.wallets
      && b'.ledger == b.ledger + [Posting(OrderPayment(p), [
        Entry(PaymentGateway, Debit, payment.amount, payment.currency),
        Entry(PlatformRevenue, Credit, payment.amount, payment.currency)])]
      && b'.outbox == b.outbox + [PaymentSucceededV1(p)]
  {
    var notice := request.notice;
    assert HasNumber(b.payments, p, notice.number);
    forall q | HasNumber(b.payments, q, notice.number) ensures q == p {
      OneNumber(b, p, q, notice.number);
    }
    ReferenceFreeIs(b, p, notice.reference);
  }

  /** The answers of the settlement transaction on its own, whoever calls it and whatever has been read before. */
  lemma {:induction false} SettlesExactly(
    b: Books, p: PaymentId, order: OrderId, amount: int, currency: string, reference: string)
    ensures var (b', reply) := Settled(b, p, order, amount, currency, reference);
      var found := p in b.payments;
      var pending := found && b.payments[p].status == PaymentPending;
      && (reply == Refused(PaymentNotFound) <==> !found)
      && (reply == Delivered(p, true) <==> found && b.payments[p].status == PaymentSucceeded)
      && (reply == Refused(DuplicateKey) <==> pending && !ReferenceFree(b, p, reference))
      && (reply == Refused(OrderNotFound) <==> pending && ReferenceFree(b, p, reference) && order !in b.orders)
      && (reply == Refused(CheckViolation) <==>
        pending && ReferenceFree(b, p, reference) && order in b.orders && amount < 0)
      && (reply == Delivered(p, false) <==>
        pending && ReferenceFree(b, p, reference) && order in b.orders && amount >= 0)
      && (reply != Delivered(p, false) ==> b' == b)
  {
    ReferenceFreeIs(b, p, reference);
  }

  lemma {:induction false} PaysItsOwn(b: Books, request: Request, p: PaymentId)
    requires Kept(b)
    ensures Handle(b, request).1 == Delivered(p, false) <==> Pays(b, request, p)
  {
    if request.Webhook? {
      var notice := request.notice;
      if q :| Numbered(b, q, notice.number) {
        DeliveryAnswersExactly(b, request.gateway, notice, q);
        if Pays(b, request, p) {
          assert HasNumber(b.payments, q, notice.number);
          OneNumber(b, p, q, notice.number);
        }
      } else {
        assert forall q :: q in b.payments ==> !Numbered(b, q, notice.number);
        DeliveryAnswersExactly(b, request.gateway, notice, p);
      }
    }
  }

  /** The i-th of some requests settles the payment as it then stands. */
  ghost predicate PaysAt(requests: seq<Request>, i: nat, p: PaymentId)
    requires i < |requests|
  {
    Pays(HandleAll(EMPTY, requests[..i]), requests[i], p)
  }

  lemma {:induction false} PaysAtStays(requests: seq<Request>, i: nat, p: PaymentId)
    requires i < |requests| - 1
    ensures PaysAt(requests[..|requests| - 1], i, p) == PaysAt(requests, i, p)
  {
    assert requests[..|requests| - 1][..i] == requests[..i];
  }

  /** Over any requests from empty books, a payment has succeeded exactly when one of them was a delivery that settled
      it as it then stood: by the one gateway there is, signed, reporting success, and with its number, amount and
      currency while it was pending. */
  lemma {:induction false} SucceedsExactlyWhenPaid(requests: seq<Request>, p: PaymentId)
    ensures Succeeded(HandleAll(EMPTY, requests).payments, p) <==>
      exists i: nat :: i < |requests| && PaysAt(requests, i, p)
  {
    if requests != [] {
      var before, last := requests[..|requests| - 1], requests[|requests| - 1];
      SucceedsExactlyWhenPaid(before, p);
      RunsKeep(before);
      hide Handle, Kept, Pays, Succeeded;
      SucceedsByFirstDelivery(HandleAll(EMPTY, before), last, p);
      PaysItsOwn(HandleAll(EMPTY, before), last, p);
      forall i: nat | i < |before| ensures PaysAt(before, i, p) == PaysAt(requests, i, p) {
        PaysAtStays(requests, i, p);
      }
      assert PaysAt(requests, |before|, p) == Pays(HandleAll(EMPTY, before), last, p);
    }
  }

  // ---- Orders and payments ----

  /** The request settles some payment of the order. */
  ghost predicate PaysOrder(b: Books, request: Request, order: OrderId) {
    exists p :: Pays(b, request, p) && b.payments[p].order == order
  }

  /** The request is a cancellation by the order's own user while it is pending. */
  predicate CancelsOwn(b: Books, request: Request, order: OrderId) {
    && request.Cancel? && request.order == order && order in b.orders
    && request.user == b.orders[order].user && b.orders[order].status == Orders.Pending
  }

  /** What one request does to an order that is there: it is paid once a payment of it is settled, cancelled when its
      user cancels it while it is pending, and otherwise stays in its status; its user, items, total and currency stay.
      */
  lemma {:induction false} OrderMovesExactly(b: Books, request: Request, order: OrderId)
    requires Kept(b) && order in b.orders
    ensures var b' := Handle(b, request).0;
      && order in b'.orders
      && b'.orders[order] == b.orders[order].(status :=
        if PaysOrder(b, request, order) then Orders.Paid
        else if CancelsOwn(b, request, order) then Orders.Cancelled
        else b.orders[order].status)
  {
    if request.Webhook? {
      if q :| Numbered(b, q, request.notice.number) {
        DeliveryAnswersExactly(b, request.gateway, request.notice, q);
        if Pays(b, request, q) {
          DeliveryWritesExactly(b, request, q);
        }
        forall p | Pays(b, request, p) ensures p == q {
          assert HasNumber(b.payments, q, request.notice.number);
          OneNumber(b, p, q, request.notice.number);
        }
      } else {
        assert forall q :: q in b.payments ==> !Numbered(b, q, request.notice.number);
        DeliveryAnswersExactly(b, request.gateway, request.notice, 0);
      }
    }
  }

  ghost predicate HasOrder(b: Books, p: PaymentId, order: OrderId) {
    p in b.payments && b.payments[p].order == order
  }

  /** A payment is made exactly when an order is pending at the one gateway there is and has none yet, under an id and a
      number that are free: pending, for the order's total in its currency. An order that has one is given that, unless
      it has succeeded. */
  lemma {:induction false} InitiatesExactly(
    b: Books, order: OrderId, gateway: string, id: PaymentId, number: string)
    requires Kept(b)
    ensures var (b', reply) := Handle(b, Initiate(order, gateway, id, number));
      var payable := gateway == "fake" && order in b.orders && b.orders[order].status == Orders.Pending;
      var none := forall p :: p in b.payments ==> b.payments[p].order != order;
      var free := id !in b.payments && forall p :: p in b.payments ==> b.payments[p].number != number;
      && (reply.Initiated? <==> payable && (none ==> free))
      && (payable && none && free ==>
        && reply == Initiated(id)
        && b' == b.(payments := b.payments[id := Payment(number, order, PaymentPending, b.orders[order].total,
          b.orders[order].currency, Key(order, "fake"), None)]))
      && (!(payable && none && free) ==> b' == b)
      && (reply.Initiated? && !none ==> HasOrder(b, reply.payment, order))
  {
    forall p | p in b.payments
      ensures HasKey(b.payments, p, Key(order, "fake")) <==> b.payments[p].order == order
      ensures b.payments[p].order == order && HasStatus(b, order, Orders.Pending) ==> !Succeeded(b.payments, p)
    {
      assert ForItsOrder(b, p);
    }
    forall p | p in b.payments ensures HasNumber(b.payments, p, number) <==> b.payments[p].number == number {
    }
  }

  /** The refusals of an initiation, and its answer for an order that has a payment already. */
  lemma {:induction false} InitiateAnswersExactly(
    b: Books, order: OrderId, gateway: string, id: PaymentId, number: string)
    requires UniquePayments(b.payments)
    ensures var reply := Handle(b, Initiate(order, gateway, id, number)).1;
      && (reply == Refused(UnsupportedGateway) <==> gateway != "fake")
      && (reply == Refused(OrderNotFound) <==> gateway == "fake" && order !in b.orders)
      && (reply == Refused(InvalidOrderStatus) <==>
        gateway == "fake" && order in b.orders && b.orders[order].status != Orders.Pending)
      && forall p :: p in b.payments && b.payments[p].key == Key(order, "fake") ==>
        gateway == "fake" && order in b.orders && b.orders[order].status == Orders.Pending ==>
          reply == if b.payments[p].status == PaymentSucceeded then Refused(PaymentAlreadyProcessed) else Initiated(p)
  {
    forall p, q | p in b.payments && q in b.payments && b.payments[p].key == b.payments[q].key ensures p == q {
      assert Clash(b.payments[p], b.payments[q]);
    }
    forall p | p in b.payments && b.payments[p].key == Key(order, "fake")
      ensures HasKey(b.payments, p, Key(order, "fake"))
    {
    }
  }

  /** An order is cancelled exactly when its own user asks while it is pending; only its status moves. */
  lemma {:induction false} CancelsExactly(b: Books, user: UserId, order: OrderId)
    ensures var (b', reply) := Handle(b, Cancel(user, order));
      var own := order in b.orders && b.orders[order].user == user;
      && (reply == Done <==> CancelsOwn(b, Cancel(user, order), order))
      && (reply == Refused(OrderNotFound) <==> !own)
      && (reply == Refused(InvalidOrderStatus) <==> own && b.orders[order].status != Orders.Pending)
      && b' == if reply == Done
        then b.(orders := b.orders[order := b.orders[order].(status := Orders.Cancelled)]) else b
  {
  }

  /** A deposit of an amount that is not negative adds it to one wallet, as far as an int64 goes, posts it once from the
      gateway to the wallet, and announces it with the new balance; no currency means US dollars. */
  lemma {:induction false} DepositWritesExactly(b: Books, purse: Purse, amount: int)
    ensures var (b', reply) := Handle(b, Deposit(purse, amount));
      var currency := if purse.currency == "" then "USD" else purse.currency;
      var wallet := Purse(purse.user, currency);
      var before := if wallet in b.wallets then b.wallets[wallet] else 0;
      && (amount >= 0 ==> reply == Done) && (amount < 0 ==> reply == Refused(CheckViolation) && b' == b)
      && (amount >= 0 ==>
        && wallet in b'.wallets && b'.wallets == b.wallets[wallet := b'.wallets[wallet]]
        && -0x8000_0000_0000_0000 <= b'.wallets[wallet] < 0x8000_0000_0000_0000
        && (b'.wallets[wallet] - before - amount) % 0x1_0000_0000_0000_0000 == 0
        && b'.ledger == b.ledger + [Posting(WalletDeposit(purse.user), [
          Entry(PaymentGateway, Debit, amount, currency), Entry(UserWallet(purse.user), Credit, amount, currency)])]
        && b'.outbox == b.outbox + [WalletDepositedV1(wallet, amount, b'.wallets[wallet])]
        && b'.orders == b.orders && b'.payments == b.payments && b'.invoicePaid == b.invoicePaid)
  {
  }

  /** Placing enters the order, as it was quoted, with an invoice that is not paid, and changes nothing else. */
  lemma {:induction false} PlacesExactly(
    b: Books, id: OrderId, catalog: Orders.Catalog, user: UserId, lines: seq<Orders.Line>)
    ensures var (b', reply) := Handle(b, Place(id, catalog, user, lines));
      var placed := Orders.Placed(catalog, user, lines);
      && (reply == Done <==> placed.Ok? && id !in b.orders)
      && (placed.Err? ==> reply == Refused(OrderRefused(placed.error)))
      && (placed.Ok? && id in b.orders ==> reply == Refused(DuplicateKey))
      && (reply == Done ==>
        b'.orders == b.orders[id := placed.value] && b'.invoicePaid == b.invoicePaid[id := false])
      && (reply != Done ==> b' == b)
      && b'.payments == b.payments && b'.wallets == b.wallets && b'.ledger == b.ledger && b'.outbox == b.outbox
  {
  }

  /** Opening a wallet enters an empty one where there is none, in US dollars when no currency is given, and changes
      nothing else. */
  lemma {:induction false} OpensExactly(b: Books, purse: Purse)
    ensures var (b', reply) := Handle(b, OpenWallet(purse));
      var wallet := Purse(purse.user, if purse.currency == "" then "USD" else purse.currency);
      && reply == Done
      && (wallet in b.wallets ==> b' == b)
      && (wallet !in b.wallets ==> b' == b.(wallets := b.wallets[wallet := 0]))
  {
  }
}
