/** Orders, payments, wallets and the ledger: what each request does to the books. */
module Commerce {
  import opened Options
  import opened Identifiers
  import opened Words
  import opened Ledger
  import Orders

  datatype PaymentStatus = PaymentPending | PaymentSucceeded

  /** The idempotency key of a payment, in which the order's id and the gateway can be read off. */
  datatype Key = Key(order: OrderId, gateway: string)

  datatype Payment = Payment(
    number: string,
    order: OrderId,
    status: PaymentStatus,
    amount: int,
    currency: string,
    key: Key,
    reference: Option<string>
  )

  datatype Purse = Purse(user: UserId, currency: string)

  datatype Event =
    | PaymentSucceededV1(payment: PaymentId)
    | WalletDepositedV1(purse: Purse, amount: int, balance: int)

  datatype Books = Books(
    orders: map<OrderId, Orders.Order>,
    invoicePaid: map<OrderId, bool>,
    payments: map<PaymentId, Payment>,
    wallets: map<Purse, int>,
    ledger: seq<Posting>,
    outbox: seq<Event>
  )

  const FAKE := "fake"

  /** A webhook delivery, once its body has been decoded. */
  datatype Notice = Notice(signed: bool, number: string, amount: int, currency: string, succeeded: bool,
    reference: string)

  datatype Request =
    | Place(id: OrderId, catalog: Orders.Catalog, user: UserId, lines: seq<Orders.Line>)
    | Cancel(user: UserId, order: OrderId)
    | Initiate(order: OrderId, gateway: string, id: PaymentId, number: string)
    | Webhook(gateway: string, notice: Notice)
    | OpenWallet(purse: Purse)
    | Deposit(purse: Purse, amount: int)

  datatype Refusal =
    | OrderRefused(error: Orders.OrderError)
    | DuplicateKey
    | OrderNotFound
    | InvalidOrderStatus
    | UnsupportedGateway
    | PaymentAlreadyProcessed
    | InvalidSignature
    | MissingNumber
    | PaymentNotFound
    | InvalidPaymentAmount
    | InvalidCurrency
    | NotSuccessful
    | CheckViolation

  datatype Reply =
    | Done
    | Initiated(payment: PaymentId)
    | Delivered(payment: PaymentId, alreadyProcessed: bool)
    | Refused(refusal: Refusal)

  // ---- Orders ----

  function PlacedIn(b: Books, id: OrderId, placed: Orders.Result<Orders.Order>): (Books, Reply) {
    match placed
    case Err(error) => (b, Refused(OrderRefused(error)))
    case Ok(order) =>
      if id in b.orders then (b, Refused(DuplicateKey))
      else (b.(orders := b.orders[id := order], invoicePaid := b.invoicePaid[id := false]), Done)
  }

  function Cancelled(b: Books, user: UserId, id: OrderId): (Books, Reply) {
    if id !in b.orders || b.orders[id].user != user then (b, Refused(OrderNotFound))
    else if b.orders[id].status != Orders.Pending then (b, Refused(InvalidOrderStatus))
    else (b.(orders := b.orders[id := b.orders[id].(status := Orders.Cancelled)]), Done)
  }

  // ---- Payments ----

  ghost predicate HasKey(payments: map<PaymentId, Payment>, id: PaymentId, key: Key) {
    id in payments && payments[id].key == key
  }

  ghost predicate HasNumber(payments: map<PaymentId, Payment>, id: PaymentId, number: string) {
    id in payments && payments[id].number == number
  }

  ghost predicate HasReference(payments: map<PaymentId, Payment>, id: PaymentId, reference: string) {
    id in payments && payments[id].reference == Some(reference)
  }

  predicate Clash(p: Payment, q: Payment) {
    p.key == q.key || p.number == q.number || (p.reference.Some? && p.reference == q.reference)
  }

  /** What the unique indexes on payments enforce. */
  ghost predicate UniquePayments(payments: map<PaymentId, Payment>) {
    forall p, q :: p in payments && q in payments && Clash(payments[p], payments[q]) ==> p == q
  }

  function NewPayment(order: Orders.Order, id: OrderId, gateway: string, number: string): Payment {
    Payment(number, id, PaymentPending, order.total, order.currency, Key(id, gateway), None)
  }

  ghost function InitiatedIn(b: Books, order: OrderId, gateway: string, id: PaymentId, number: string): (Books, Reply) {
    if gateway != FAKE then (b, Refused(UnsupportedGateway))
    else if order !in b.orders then (b, Refused(OrderNotFound))
    else if b.orders[order].status != Orders.Pending then (b, Refused(InvalidOrderStatus))
    else if exists p :: HasKey(b.payments, p, Key(order, gateway)) then
      var p :| HasKey(b.payments, p, Key(order, gateway));
      if b.payments[p].status == PaymentSucceeded then (b, Refused(PaymentAlreadyProcessed)) else (b, Initiated(p))
    else if id in b.payments || exists p :: HasNumber(b.payments, p, number) then (b, Refused(DuplicateKey))
    else (b.(payments := b.payments[id := NewPayment(b.orders[order], order, gateway, number)]), Initiated(id))
  }

  /** The reference that a payment keeps when the gateway's is empty. */
  function Referenced(p: Payment, reference: string): Payment {
    p.(status := PaymentSucceeded, reference := if reference != "" then Some(reference) else p.reference)
  }

  /** The settlement transaction. It locks the payment's row; any statement that fails undoes all of it. */
  ghost function Settled(
    b: Books, id: PaymentId, order: OrderId, amount: int, currency: string, reference: string): (Books, Reply) {
    if id !in b.payments then (b, Refused(PaymentNotFound))
    else if b.payments[id].status == PaymentSucceeded then (b, Delivered(id, true))
    else if reference != "" && exists q :: q != id && HasReference(b.payments, q, reference) then
      (b, Refused(DuplicateKey))
    else if order !in b.orders then (b, Refused(OrderNotFound))
    else if amount < 0 then (b, Refused(CheckViolation))
    else
      (Books(
         b.orders[order := b.orders[order].(status := Orders.Paid)],
         if order in b.invoicePaid then b.invoicePaid[order := true] else b.invoicePaid,
         b.payments[id := Referenced(b.payments[id], reference)],
         b.wallets,
         b.ledger + [Incoming(OrderPayment(id), PlatformRevenue, amount, currency)],
         b.outbox + [PaymentSucceededV1(id)]), Delivered(id, false))
  }

  ghost function WebhookIn(b: Books, gateway: string, notice: Notice): (Books, Reply) {
    if gateway != FAKE then (b, Refused(UnsupportedGateway))
    else if !notice.signed then (b, Refused(InvalidSignature))
    else if notice.number == "" then (b, Refused(MissingNumber))
    else if !exists p :: HasNumber(b.payments, p, notice.number) then (b, Refused(PaymentNotFound))
    else
      var p :| HasNumber(b.payments, p, notice.number);
      var payment := b.payments[p];
      if payment.amount != notice.amount then (b, Refused(InvalidPaymentAmount))
      else if payment.currency != notice.currency then (b, Refused(InvalidCurrency))
      else if !notice.succeeded then (b, Refused(NotSuccessful))
      else if payment.order !in b.orders then (b, Refused(OrderNotFound))
      else Settled(b, p, payment.order, payment.amount, payment.currency, notice.reference)
  }

  // ---- Wallets ----

  function Named(purse: Purse): Purse {
    if purse.currency == "" then purse.(currency := "USD") else purse
  }

  function Balance(b: Books, purse: Purse): int {
    if purse in b.wallets then b.wallets[purse] else 0
  }

  function OpenedIn(b: Books, purse: Purse): (Books, Reply) {
    if purse in b.wallets then (b, Done) else (b.(wallets := b.wallets[purse := 0]), Done)
  }

  /** The deposit transaction; it writes the balance it has computed, not an increment. */
  function DepositedIn(b: Books, purse: Purse, amount: int): (Books, Reply) {
    var p := Named(purse);
    if amount < 0 then (b, Refused(CheckViolation))
    else
      var balance := Wrap64(Balance(b, p) + amount);
      (b.(wallets := b.wallets[p := balance],
          ledger := b.ledger + [Incoming(WalletDeposit(p.user), UserWallet(p.user), amount, p.currency)],
          outbox := b.outbox + [WalletDepositedV1(p, amount, balance)]), Done)
  }

  // ---- Runs ----

  ghost function Handle(b: Books, request: Request): (Books, Reply) {
    match request
    case Place(id, catalog, user, lines) => PlacedIn(b, id, Orders.Placed(catalog, user, lines))
    case Cancel(user, order) => Cancelled(b, user, order)
    case Initiate(order, gateway, id, number) => InitiatedIn(b, order, gateway, id, number)
    case Webhook(gateway, notice) => WebhookIn(b, gateway, notice)
    case OpenWallet(purse) => OpenedIn(b, Named(purse))
    case Deposit(purse, amount) => DepositedIn(b, purse, amount)
  }

  const EMPTY := Books(map[], map[], map[], map[], [], [])

  ghost function HandleAll(b: Books, requests: seq<Request>): Books {
    if requests == [] then b
    else Handle(HandleAll(b, requests[..|requests| - 1]), requests[|requests| - 1]).0
  }

  // ---- The services ----

  class CommerceStore {
    var orders: map<OrderId, Orders.Order>
    var invoicePaid: map<OrderId, bool>
    var payments: map<PaymentId, Payment>
    var wallets: map<Purse, int>
    var ledger: seq<Posting>
    var outbox: seq<Event>

    ghost function Snapshot(): Books
      reads this
    {
      Books(orders, invoicePaid, payments, wallets, ledger, outbox)
    }

    constructor ()
      ensures Snapshot() == EMPTY
    {
      orders, invoicePaid, payments, wallets, ledger, outbox := map[], map[], map[], map[], [], [];
    }

    method PlaceOrder(
      id: OrderId, catalog: Orders.Catalog, user: UserId, lines: seq<Orders.Line>) returns (reply: Reply)
      modifies this
      ensures (Snapshot(), reply) == Handle(old(Snapshot()), Place(id, catalog, user, lines))
    {
      var placed := Orders.CreateOrder(catalog, user, lines);
      if placed.Err? {
        return Refused(OrderRefused(placed.error));
      }
      if id in orders {
        return Refused(DuplicateKey);
      }
      orders := orders[id := placed.value];
      invoicePaid := invoicePaid[id := false];
      return Done;
    }

    method CancelOrder(user: UserId, id: OrderId) returns (reply: Reply)
      modifies this
      ensures (Snapshot(), reply) == Handle(old(Snapshot()), Cancel(user, id))
    {
      if id !in orders || orders[id].user != user {
        return Refused(OrderNotFound);
      }
      if orders[id].status != Orders.Pending {
        return Refused(InvalidOrderStatus);
      }
      orders := orders[id := orders[id].(status := Orders.Cancelled)];
      return Done;
    }

    method GetPaymentByIdempotencyKey(key: Key) returns (found: Option<PaymentId>)
      ensures found.None? ==> !exists p :: HasKey(payments, p, key)
      ensures found.Some? ==> HasKey(payments, found.value, key)
    {
      var rest := payments.Keys;
      while rest != {}
        invariant rest <= payments.Keys
        invariant forall p :: HasKey(payments, p, key) ==> p in rest
      {
        var p :| p in rest;
        if payments[p].key == key {
          return Some(p);
        }
        rest := rest - {p};
      }
      return None;
    }

    method GetPaymentByPaymentNo(number: string) returns (found: Option<PaymentId>)
      ensures found.None? ==> !exists p :: HasNumber(payments, p, number)
      ensures found.Some? ==> HasNumber(payments, found.value, number)
    {
      var rest := payments.Keys;
      while rest != {}
        invariant rest <= payments.Keys
        invariant forall p :: HasNumber(payments, p, number) ==> p in rest
      {
        var p :| p in rest;
        if payments[p].number == number {
          return Some(p);
        }
        rest := rest - {p};
      }
      return None;
    }

    method InitiatePayment(order: OrderId, gateway: string, id: PaymentId, number: string) returns (reply: Reply)
      requires UniquePayments(payments)
      modifies this
      ensures (Snapshot(), reply) == Handle(old(Snapshot()), Initiate(order, gateway, id, number))
    {
      if gateway != FAKE {
        return Refused(UnsupportedGateway);
      }
      if order !in orders {
        return Refused(OrderNotFound);
      }
      if orders[order].status != Orders.Pending {
        return Refused(InvalidOrderStatus);
      }
      var existing := GetPaymentByIdempotencyKey(Key(order, gateway));
      if existing.Some? {
        if payments[existing.value].status == PaymentSucceeded {
          return Refused(PaymentAlreadyProcessed);
        }
        return Initiated(existing.value);
      }
      var clash := GetPaymentByPaymentNo(number);
      if id in payments || clash.Some? {
        return Refused(DuplicateKey);
      }
      payments := payments[id := Payment(
        number, order, PaymentPending, orders[order].total, orders[order].currency, Key(order, gateway), None)];
      return Initiated(id);
    }

    method ProcessWebhook(gateway: string, notice: Notice) returns (reply: Reply)
      requires UniquePayments(payments)
      modifies this
      ensures (Snapshot(), reply) == Handle(old(Snapshot()), Webhook(gateway, notice))
    {
      if gateway != FAKE {
        return Refused(UnsupportedGateway);
      }
      if !notice.signed {
        return Refused(InvalidSignature);
      }
      if notice.number == "" {
        return Refused(MissingNumber);
      }
      var found := GetPaymentByPaymentNo(notice.number);
      if found.None? {
        return Refused(PaymentNotFound);
      }
      var payment := payments[found.value];
      if payment.amount != notice.amount {
        return Refused(InvalidPaymentAmount);
      }
      if payment.currency != notice.currency {
        return Refused(InvalidCurrency);
      }
      if !notice.succeeded {
        return Refused(NotSuccessful);
      }
      if payment.order !in orders {
        return Refused(OrderNotFound);
      }
      reply := ProcessPaymentSuccessTx(found.value, payment.order, payment.amount, payment.currency, notice.reference);
    }

    method ReferenceTaken(id: PaymentId, reference: string) returns (taken: bool)
      ensures taken <==> exists q :: q != id && HasReference(payments, q, reference)
    {
      var rest := payments.Keys;
      while rest != {}
        invariant rest <= payments.Keys
        invariant forall q :: q != id && HasReference(payments, q, reference) ==> q in rest
      {
        var q :| q in rest;
        if q != id && payments[q].reference == Some(reference) {
          assert HasReference(payments, q, reference);
          return true;
        }
        rest := rest - {q};
      }
      return false;
    }

    method ProcessPaymentSuccessTx(id: PaymentId, order: OrderId, amount: int, currency: string, reference: string)
      returns (reply: Reply)
      modifies this
      ensures (Snapshot(), reply) == Settled(old(Snapshot()), id, order, amount, currency, reference)
    {
      if id !in payments {
        return Refused(PaymentNotFound);
      }
      if payments[id].status == PaymentSucceeded {
        return Delivered(id, true);
      }
      if reference != "" {
        var taken := ReferenceTaken(id, reference);
        if taken {
          return Refused(DuplicateKey);
        }
      }
      if order !in orders {
        return Refused(OrderNotFound);
      }
      if amount < 0 {
        return Refused(CheckViolation);
      }
      var payment := payments[id];
      payments := payments[id := payment.(
        status := PaymentSucceeded, reference := if reference != "" then Some(reference) else payment.reference)];
      orders := orders[order := orders[order].(status := Orders.Paid)];
      if order in invoicePaid {
        invoicePaid := invoicePaid[order := true];
      }
      ledger := ledger + [Posting(OrderPayment(id), [
        Entry(PaymentGateway, Debit, amount, currency), Entry(PlatformRevenue, Credit, amount, currency)])];
      outbox := outbox + [PaymentSucceededV1(id)];
      return Delivered(id, false);
    }

    /** Takes the currency as it is given. */
    method GetOrCreateWallet(purse: Purse) returns (reply: Reply)
      modifies this
      ensures (Snapshot(), reply) == OpenedIn(old(Snapshot()), purse)
    {
      if purse !in wallets {
        wallets := wallets[purse := 0];
      }
      return Done;
    }

    /** The wallet service's own call, for which no currency means US dollars. */
    method GetUserWallet(purse: Purse) returns (reply: Reply)
      modifies this
      ensures (Snapshot(), reply) == Handle(old(Snapshot()), OpenWallet(purse))
    {
      var p := purse;
      if p.currency == "" {
        p := p.(currency := "USD");
      }
      reply := GetOrCreateWallet(p);
    }

    method DepositWalletTx(purse: Purse, amount: int) returns (reply: Reply)
      modifies this
      ensures (Snapshot(), reply) == Handle(old(Snapshot()), Deposit(purse, amount))
    {
      var p := Named(purse);
      if amount < 0 {
        return Refused(CheckViolation);
      }
      if p !in wallets {
        wallets := wallets[p := 0];
      }
      ledger := ledger + [Posting(WalletDeposit(p.user), [
        Entry(PaymentGateway, Debit, amount, p.currency), Entry(UserWallet(p.user), Credit, amount, p.currency)])];
      var balance := Wrap64(wallets[p] + amount);
      wallets := wallets[p := balance];
      assert wallets == old(wallets)[p := balance];
      outbox := outbox + [WalletDepositedV1(p, amount, balance)];
      return Done;
    }
  }
}
