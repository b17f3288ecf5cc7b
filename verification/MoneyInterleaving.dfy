/** Deposits, settlements and cancellations taken statement by statement, interleaved under read-committed isolation
    with row locks and unique indexes: a deposit writes the balance that it has computed from what it has read. */
module MoneyInterleaving {
  import opened Options
  import opened Identifiers
  import opened Words
  import opened Totals
  import opened Ledger
  import opened Commerce
  import opened Bookkeeping
  import Orders

  type SessionId = nat

  datatype Task =
    | Depositing(purse: Purse, amount: int)
    | Settling(id: PaymentId, order: OrderId, amount: int, currency: string, reference: string)
    | Cancelling(order: OrderId)

  datatype Stage =
    | Begun
    | NoWallet
    | WalletLocked(seen: int)
    | WalletCreated
    | BalanceWritten(balance: int)
    | PaymentLocked
    | ReferenceWritten
    | OrderPaid
    | OrderRead
    | OrderCancelled

  datatype Session = Session(task: Task, stage: Stage) {
    /** The wallet whose row, or whose freshly inserted key, this transaction has locked. */
    predicate HoldsWallet(purse: Purse) {
      task.Depositing? && task.purse == purse && (stage.WalletLocked? || stage.WalletCreated? || stage.BalanceWritten?)
    }

    predicate HoldsPayment(id: PaymentId) {
      task.Settling? && task.id == id && (stage.PaymentLocked? || stage.ReferenceWritten? || stage.OrderPaid?)
    }

    predicate HoldsReference(reference: string) {
      task.Settling? && task.reference == reference != "" && (stage.ReferenceWritten? || stage.OrderPaid?)
    }

    predicate HoldsOrder(order: OrderId) {
      || (task.Settling? && task.order == order && stage.OrderPaid?)
      || (task.Cancelling? && task.order == order && stage.OrderCancelled?)
    }
  }

  /** `firsts` only observes: how often each payment's webhook has been answered as its first delivery. */
  datatype State = State(books: Books, sessions: map<SessionId, Session>, firsts: map<PaymentId, nat>) {
    ghost predicate WalletIsFree(purse: Purse) {
      forall t :: t in sessions ==> !sessions[t].HoldsWallet(purse)
    }

    ghost predicate PaymentIsFree(id: PaymentId) {
      forall t :: t in sessions ==> !sessions[t].HoldsPayment(id)
    }

    ghost predicate ReferenceIsFree(reference: string) {
      forall t :: t in sessions ==> !sessions[t].HoldsReference(reference)
    }

    ghost predicate OrderIsFree(order: OrderId) {
      forall t :: t in sessions ==> !sessions[t].HoldsOrder(order)
    }

    function Advance(t: SessionId, stage: Stage): State
      requires t in sessions
    {
      this.(sessions := sessions[t := sessions[t].(stage := stage)])
    }

    ghost predicate At(t: SessionId, stage: Stage) {
      t in sessions && sessions[t].stage == stage
    }
  }

  datatype Step =
    | Begin(t: SessionId, task: Task)
    | LockWallet(t: SessionId)
    | FindNoWallet(t: SessionId)
    | CreateWallet(t: SessionId)
    | WriteBalance(t: SessionId)
    | LockPayment(t: SessionId)
    | WriteReference(t: SessionId)
    | PayOrder(t: SessionId)
    | ReadOrder(t: SessionId)
    | CancelOrder(t: SessionId)
    | Commit(t: SessionId)
    | Rollback(t: SessionId)
    | Whole(request: Request)

  /** A settlement's parameters are the columns of its payment that no statement changes. */
  predicate ReadFrom(b: Books, task: Task) {
    task.Settling? ==>
      && task.id in b.payments
      && task.order == b.payments[task.id].order && task.amount == b.payments[task.id].amount
      && task.currency == b.payments[task.id].currency
  }

  ghost predicate ReferenceUntaken(b: Books, task: Task)
    requires task.Settling?
  {
    task.reference == "" || !exists q :: q != task.id && HasReference(b.payments, q, task.reference)
  }

  ghost predicate Enabled(s: State, step: Step) {
    match step
    case Begin(t, task) => t !in s.sessions && ReadFrom(s.books, task) && (task.Depositing? ==>
      task.purse == Named(task.purse))
    case LockWallet(t) =>
      && s.At(t, Begun) && s.sessions[t].task.Depositing?
      && s.sessions[t].task.purse in s.books.wallets && s.WalletIsFree(s.sessions[t].task.purse)
    case FindNoWallet(t) =>
      s.At(t, Begun) && s.sessions[t].task.Depositing? && s.sessions[t].task.purse !in s.books.wallets
    case CreateWallet(t) =>
      && s.At(t, NoWallet) && s.sessions[t].task.Depositing?
      && s.sessions[t].task.purse !in s.books.wallets && s.WalletIsFree(s.sessions[t].task.purse)
    case WriteBalance(t) =>
      && t in s.sessions && s.sessions[t].task.Depositing? && s.sessions[t].task.amount >= 0
      && (s.sessions[t].stage.WalletLocked? || s.sessions[t].stage.WalletCreated?)
    case LockPayment(t) =>
      && s.At(t, Begun) && s.sessions[t].task.Settling?
      && s.sessions[t].task.id in s.books.payments && s.PaymentIsFree(s.sessions[t].task.id)
    case WriteReference(t) =>
      && s.At(t, PaymentLocked) && s.sessions[t].task.Settling?
      && ReferenceUntaken(s.books, s.sessions[t].task) && s.ReferenceIsFree(s.sessions[t].task.reference)
    case PayOrder(t) =>
      && s.At(t, ReferenceWritten) && s.sessions[t].task.Settling? && s.sessions[t].task.amount >= 0
      && s.sessions[t].task.order in s.books.orders && s.OrderIsFree(s.sessions[t].task.order)
    case ReadOrder(t) =>
      && s.At(t, Begun) && s.sessions[t].task.Cancelling?
      && s.sessions[t].task.order in s.books.orders && s.books.orders[s.sessions[t].task.order].status == Orders.Pending
    case CancelOrder(t) =>
      s.At(t, OrderRead) && s.sessions[t].task.Cancelling? && s.OrderIsFree(s.sessions[t].task.order)
    case Commit(t) => t in s.sessions && Complete(s.sessions[t])
    case Rollback(t) => t in s.sessions
    case Whole(request) =>
      request.Place? || request.Initiate? || (request.OpenWallet? && s.WalletIsFree(Named(request.purse)))
  }

  predicate Complete(session: Session) {
    || (session.task.Depositing? && session.stage.BalanceWritten?)
    || (session.task.Settling? && session.stage.OrderPaid?)
    || (session.task.Cancelling? && session.stage.OrderCancelled?)
  }

  /** The committed books with a complete transaction's writes installed. */
  function Installed(b: Books, session: Session): Books
    requires Complete(session)
  {
    var task := session.task;
    match task
    case Depositing(purse, amount) =>
      b.(wallets := b.wallets[purse := session.stage.balance],
         ledger := b.ledger + [Incoming(WalletDeposit(purse.user), UserWallet(purse.user), amount, purse.currency)],
         outbox := b.outbox + [WalletDepositedV1(purse, amount, session.stage.balance)])
    case Settling(id, order, amount, currency, reference) =>
      b.(orders := if order in b.orders then b.orders[order := b.orders[order].(status := Orders.Paid)] else b.orders,
         invoicePaid := if order in b.invoicePaid then b.invoicePaid[order := true] else b.invoicePaid,
         payments := if id in b.payments then b.payments[id := Referenced(b.payments[id], reference)] else b.payments,
         ledger := b.ledger + [Incoming(OrderPayment(id), PlatformRevenue, amount, currency)],
         outbox := b.outbox + [PaymentSucceededV1(id)])
    case Cancelling(order) =>
      b.(orders := if order in b.orders then b.orders[order := b.orders[order].(status := Orders.Cancelled)]
        else b.orders)
  }

  function FirstsOf(firsts: map<PaymentId, nat>, id: PaymentId): nat {
    if id in firsts then firsts[id] else 0
  }

  ghost function After(s: State, step: Step): State
    requires Enabled(s, step)
  {
    match step
    case Begin(t, task) => s.(sessions := s.sessions[t := Session(task, Begun)])
    case LockWallet(t) => s.Advance(t, WalletLocked(s.books.wallets[s.sessions[t].task.purse]))
    case FindNoWallet(t) => s.Advance(t, NoWallet)
    case CreateWallet(t) => s.Advance(t, WalletCreated)
    case WriteBalance(t) =>
      var seen := if s.sessions[t].stage.WalletLocked? then s.sessions[t].stage.seen else 0;
      s.Advance(t, BalanceWritten(Wrap64(seen + s.sessions[t].task.amount)))
    case LockPayment(t) =>
      if s.books.payments[s.sessions[t].task.id].status == PaymentSucceeded then s.(sessions := s.sessions - {t})
      else s.Advance(t, PaymentLocked)
    case WriteReference(t) => s.Advance(t, ReferenceWritten)
    case PayOrder(t) => s.Advance(t, OrderPaid)
    case ReadOrder(t) => s.Advance(t, OrderRead)
    case CancelOrder(t) => s.Advance(t, OrderCancelled)
    case Commit(t) =>
      var task := s.sessions[t].task;
      State(Installed(s.books, s.sessions[t]), s.sessions - {t},
            if task.Settling? then s.firsts[task.id := FirstsOf(s.firsts, task.id) + 1] else s.firsts)
    case Rollback(t) => s.(sessions := s.sessions - {t})
    case Whole(request) => s.(books := Handle(s.books, request).0)
  }

  ghost function Run(s: State, steps: seq<Step>): Option<State> {
    if steps == [] then Some(s)
    else
      match Run(s, steps[..|steps| - 1])
      case None => None
      case Some(m) => if Enabled(m, steps[|steps| - 1]) then Some(After(m, steps[|steps| - 1])) else None
  }

  // ---- What the locks guarantee ----

  /** What a transaction has read under lock, or written, still fits the committed books. */
  ghost predicate Consistent(b: Books, session: Session) {
    var task := session.task;
    && ReadFrom(b, task)
    && (task.Depositing? ==> task.purse == Named(task.purse))
    && match session.stage
       case WalletLocked(seen) => task.Depositing? && task.purse in b.wallets && b.wallets[task.purse] == seen
       case WalletCreated => task.Depositing? && task.purse !in b.wallets
       case BalanceWritten(balance) =>
         task.Depositing? && task.amount >= 0 && balance == Wrap64(Balance(b, task.purse) + task.amount)
       case PaymentLocked => task.Settling? && b.payments[task.id].status == PaymentPending
       case ReferenceWritten => task.Settling? && b.payments[task.id].status == PaymentPending && ReferenceUntaken(b,
         task)
       case OrderPaid =>
         task.Settling? && b.payments[task.id].status == PaymentPending && ReferenceUntaken(b, task)
         && task.amount >= 0 && task.order in b.orders
       case OrderCancelled => task.Cancelling? && task.order in b.orders
       case OrderRead => task.Cancelling? && task.order in b.orders
       case _ => true
  }

  ghost predicate LocksExclude(s: State) {
    && (forall t, u, p | t in s.sessions && u in s.sessions ::
      s.sessions[t].HoldsWallet(p) && s.sessions[u].HoldsWallet(p) ==> t == u)
    && (forall t, u, p | t in s.sessions && u in s.sessions ::
      s.sessions[t].HoldsPayment(p) && s.sessions[u].HoldsPayment(p) ==> t == u)
    && (forall t, u, r | t in s.sessions && u in s.sessions ::
      s.sessions[t].HoldsReference(r) && s.sessions[u].HoldsReference(r) ==> t == u)
  }

  ghost predicate Sound(s: State) {
    LocksExclude(s) && forall t :: t in s.sessions ==> Consistent(s.books, s.sessions[t])
  }

  /** A deposit or a settlement that commits does to the committed books exactly what the whole transaction, run at that
      moment and alone, would do; in particular no deposit is lost to another one's absolute balance. */
  lemma {:induction false} CommitRefines(s: State, t: SessionId)
    requires Sound(s) && Enabled(s, Commit(t)) && !s.sessions[t].task.Cancelling?
    ensures var (b', task) := (After(s, Commit(t)).books, s.sessions[t].task);
      if task.Depositing? then (b', Done) == DepositedIn(s.books, task.purse, task.amount)
      else (b', Delivered(task.id, false)) == Settled(s.books, task.id, task.order, task.amount, task.currency,
        task.reference)
  {
    assert Consistent(s.books, s.sessions[t]);
  }

  lemma {:induction false} AdvanceSound(s: State, t: SessionId, stage: Stage)
    requires Sound(s) && t in s.sessions
    requires Consistent(s.books, s.sessions[t].(stage := stage))
    requires forall p :: s.sessions[t].(stage := stage).HoldsWallet(p) ==>
      s.sessions[t].HoldsWallet(p) || s.WalletIsFree(p)
    requires forall p :: s.sessions[t].(stage := stage).HoldsPayment(p) ==>
      s.sessions[t].HoldsPayment(p) || s.PaymentIsFree(p)
    requires forall r :: s.sessions[t].(stage := stage).HoldsReference(r) ==>
      s.sessions[t].HoldsReference(r) || s.ReferenceIsFree(r)
    ensures Sound(s.Advance(t, stage))
  {
  }

  lemma {:induction false} StaysUntaken(b: Books, b': Books, task: Task)
    requires task.Settling? && ReferenceUntaken(b, task)
    requires task.reference == "" || forall q :: q != task.id && HasReference(b'.payments, q, task.reference) ==>
      HasReference(b.payments, q, task.reference)
    ensures ReferenceUntaken(b', task)
  {
  }

  lemma {:induction false} CommitLeavesOthers(s: State, t: SessionId, u: SessionId)
    requires Sound(s) && Enabled(s, Commit(t))
    requires u in s.sessions && u != t
    ensures Consistent(Installed(s.books, s.sessions[t]), s.sessions[u])
  {
    var mine, session := s.sessions[t], s.sessions[u];
    assert Consistent(s.books, mine) && Consistent(s.books, session);
    if session.task.Depositing? {
      assert session.HoldsWallet(session.task.purse) ==> !mine.HoldsWallet(session.task.purse);
    } else if session.task.Settling? {
      assert session.HoldsPayment(session.task.id) ==> !mine.HoldsPayment(session.task.id);
      assert session.HoldsReference(session.task.reference) ==> !mine.HoldsReference(session.task.reference);
      if session.stage.ReferenceWritten? || session.stage.OrderPaid? {
        StaysUntaken(s.books, Installed(s.books, mine), session.task);
      }
    }
  }

  lemma {:induction false} WholeLeavesOthers(s: State, request: Request, u: SessionId)
    requires Sound(s) && Enabled(s, Whole(request)) && u in s.sessions
    ensures Consistent(Handle(s.books, request).0, s.sessions[u])
  {
    var session := s.sessions[u];
    assert Consistent(s.books, session);
    if request.OpenWallet? && session.task.Depositing? {
      assert session.HoldsWallet(session.task.purse) ==> session.task.purse != Named(request.purse);
    }
    if session.stage.ReferenceWritten? || session.stage.OrderPaid? {
      StaysUntaken(s.books, Handle(s.books, request).0, session.task);
    }
  }

  lemma {:induction false} AdvancingKeepsSound(s: State, step: Step)
    requires Sound(s) && Enabled(s, step)
    requires !(step.Begin? || step.Commit? || step.Rollback? || step.Whole?)
    ensures Sound(After(s, step))
  {
    assert Consistent(s.books, s.sessions[step.t]);
    if step.t in After(s, step).sessions {
      AdvanceSound(s, step.t, After(s, step).sessions[step.t].stage);
    }
  }

  lemma {:induction false} CommitKeepsSound(s: State, t: SessionId)
    requires Sound(s) && Enabled(s, Commit(t))
    ensures Sound(After(s, Commit(t)))
  {
    forall u | u in s.sessions && u != t ensures Consistent(After(s, Commit(t)).books, s.sessions[u]) {
      CommitLeavesOthers(s, t, u);
    }
  }

  lemma {:induction false} WholeKeepsSound(s: State, request: Request)
    requires Sound(s) && Enabled(s, Whole(request))
    ensures Sound(After(s, Whole(request)))
  {
    forall u | u in s.sessions ensures Consistent(After(s, Whole(request)).books, s.sessions[u]) {
      WholeLeavesOthers(s, request, u);
    }
  }

  lemma {:induction false} SessionsKeepSound(s: State, step: Step)
    requires Sound(s) && Enabled(s, step) && (step.Begin? || step.Rollback?)
    ensures Sound(After(s, step))
  {
  }

  lemma {:induction false} StepKeepsSound(s: State, step: Step)
    requires Sound(s) && Enabled(s, step)
    ensures Sound(After(s, step))
  {
    hide Sound;
    match step
    case Commit(t) => CommitKeepsSound(s, t);
    case Whole(request) => WholeKeepsSound(s, request);
    case Begin(_, _) => SessionsKeepSound(s, step);
    case Rollback(_) => SessionsKeepSound(s, step);
    case _ => AdvancingKeepsSound(s, step);
  }

  // ---- Every interleaving keeps the accounts ----

  /** Each first delivery that was answered is one settlement in the ledger. */
  ghost predicate FirstsCounted(s: State) {
    forall p :: FirstsOf(s.firsts, p) == Settlements(s.books.ledger, p)
  }

  lemma {:induction false} CommitKeepsAccounts(s: State, t: SessionId)
    requires Sound(s) && Accounts(s.books) && FirstsCounted(s) && Enabled(s, Commit(t))
    ensures Accounts(After(s, Commit(t)).books) && FirstsCounted(After(s, Commit(t)))
  {
    var s', task := After(s, Commit(t)), s.sessions[t].task;
    if task.Cancelling? {
      OrdersKeepAccounts(s.books, s'.books);
    } else {
      CommitRefines(s, t);
      assert Consistent(s.books, s.sessions[t]);
      if task.Depositing? {
        DepositKeepsAccounts(s.books, task.purse, task.amount);
      } else {
        SettledKeepsAccounts(s.books, task.id, task.reference);
      }
      forall p ensures FirstsOf(s'.firsts, p) == Settlements(s'.books.ledger, p) {
        Append(s.books.ledger, s'.books.ledger[|s.books.ledger|], PlatformRevenue, "", p);
        assert FirstsOf(s.firsts, p) == Settlements(s.books.ledger, p);
      }
    }
  }

  lemma {:induction false} WholeKeepsAccounts(b: Books, request: Request)
    requires Accounts(b) && (request.Place? || request.Initiate? || request.OpenWallet?)
    ensures Accounts(Handle(b, request).0) && Handle(b, request).0.ledger == b.ledger
  {
    if request.Initiate? {
      InitiatedKeepsAccounts(b, request.order, request.gateway, request.id, request.number);
    } else {
      OrdersKeepAccounts(b, Handle(b, request).0);
    }
  }

  lemma {:induction false} StepKeepsAccounts(s: State, step: Step)
    requires Sound(s) && Accounts(s.books) && FirstsCounted(s) && Enabled(s, step)
    ensures Accounts(After(s, step).books) && FirstsCounted(After(s, step))
  {
    match step
    case Commit(t) => CommitKeepsAccounts(s, t);
    case Whole(request) => WholeKeepsAccounts(s.books, request);
    case _ =>
  }

  const START := State(EMPTY, map[], map[])

  lemma {:induction false} RunKeepsAccounts(steps: seq<Step>)
    requires Run(START, steps).Some?
    ensures var s := Run(START, steps).value; Sound(s) && Accounts(s.books) && FirstsCounted(s)
  {
    if steps == [] {
      EmptyIsKept();
    } else {
      var before, step := steps[..|steps| - 1], steps[|steps| - 1];
      RunKeepsAccounts(before);
      StepKeepsSound(Run(START, before).value, step);
      StepKeepsAccounts(Run(START, before).value, step);
    }
  }

  /** In every interleaving, a payment has one posting, one event and one first delivery if it has succeeded, and none
      otherwise, however many deliveries race on it. */
  lemma {:induction false} SettledExactlyOnceInterleaved(steps: seq<Step>, p: PaymentId)
    requires Run(START, steps).Some?
    ensures var s := Run(START, steps).value;
      var times := if Succeeded(s.books.payments, p) then 1 else 0;
      && Settlements(s.books.ledger, p) == times && Announcements(s.books.outbox, p) == times
      && FirstsOf(s.firsts, p) == times
  {
    RunKeepsAccounts(steps);
    assert SettledOnce(Run(START, steps).value.books, p);
  }

  /** In every interleaving of deposits, the first ones that create the wallet included, no update is lost: the balance
      is what the wallet's ledger entries come to. */
  lemma {:induction false} NoDepositIsLost(steps: seq<Step>, purse: Purse)
    requires Run(START, steps).Some?
    ensures var b := Run(START, steps).value.books;
      var net := Net(b.ledger, UserWallet(purse.user), purse.currency);
      Balance(b, purse) == Wrap64(net) && (Balance(b, purse) == net <==> IsInt64(net))
  {
    RunKeepsAccounts(steps);
    var b := Run(START, steps).value.books;
    assert Projected(b, purse);
    Wrap64Range(Net(b.ledger, UserWallet(purse.user), purse.currency));
  }

  // ---- What becomes of payments' orders, cancellations included ----

  lemma {:induction false} CommitKeepsMatched(s: State, t: SessionId)
    requires Sound(s) && Matched(s.books) && Enabled(s, Commit(t))
    ensures Matched(After(s, Commit(t)).books)
  {
    assert Consistent(s.books, s.sessions[t]);
    forall p | p in s.books.payments ensures MatchesOrder(After(s, Commit(t)).books, p) {
      assert MatchesOrder(s.books, p);
    }
  }

  lemma {:induction false} WholeKeepsMatched(b: Books, request: Request)
    requires Matched(b) && (request.Place? || request.Initiate? || request.OpenWallet?)
    ensures Matched(Handle(b, request).0)
  {
    var b' := Handle(b, request).0;
    forall p | p in b'.payments ensures MatchesOrder(b', p) {
      assert p in b.payments ==> MatchesOrder(b, p);
    }
  }

  /** In every interleaving a payment is for its order's total and currency, and each order has at most one. */
  lemma {:induction false} RunKeepsMatched(steps: seq<Step>)
    requires Run(START, steps).Some?
    ensures Matched(Run(START, steps).value.books)
  {
    if steps != [] {
      var before, step := steps[..|steps| - 1], steps[|steps| - 1];
      RunKeepsMatched(before);
      RunKeepsAccounts(before);
      hide Matched, Accounts, Sound, FirstsCounted;
      var m := Run(START, before).value;
      match step
      case Commit(t) => CommitKeepsMatched(m, t);
      case Whole(request) => WholeKeepsMatched(m.books, request);
      case _ =>
    }
  }

  /** In every interleaving the books balance, and revenue is the sum of the totals of the orders that a payment has
      succeeded for, whatever has become of those orders. */
  lemma {:induction false} InterleavedBooksBalance(steps: seq<Step>, currency: string)
    requires Run(START, steps).Some?
    ensures var b := Run(START, steps).value.books;
      && Side(b.ledger, Debit, currency) == Side(b.ledger, Credit, currency)
      && -Net(b.ledger, PaymentGateway, currency)
        == Net(b.ledger, PlatformRevenue, currency) + WalletsNet(b.ledger, currency)
      && Net(b.ledger, PlatformRevenue, currency) == Total(b.orders, PaidIn(b, currency))
  {
    RunKeepsAccounts(steps);
    RunKeepsMatched(steps);
    var b := Run(START, steps).value.books;
    TrialBalance(b.ledger, currency);
    assert RevenueIs(b, currency);
    PaymentsWithinOrders(b, currency);
    OrdersWithinPayments(b, currency);
  }

  /** Only ordinary orders are placed. */
  ghost predicate OrdinaryStep(step: Step) {
    step.Whole? ==> Ordinary(step.request)
  }

  lemma {:induction false} StepKeepsWorth(s: State, step: Step)
    requires AllWorthTheirTotal(s.books) && Enabled(s, step) && OrdinaryStep(step)
    ensures AllWorthTheirTotal(After(s, step).books)
  {
    match step
    case Commit(t) => hide Orders.Worth, Orders.OneCurrency;
    case Whole(request) =>
      if request.Place? {
        PlacingKeepsWorth(s.books, request);
      } else {
        OthersKeepWorth(s.books, request);
      }
    case _ =>
  }

  lemma {:induction false} RunKeepsWorth(steps: seq<Step>)
    requires Run(START, steps).Some? && forall step :: step in steps ==> OrdinaryStep(step)
    ensures AllWorthTheirTotal(Run(START, steps).value.books)
  {
    if steps != [] {
      RunKeepsWorth(steps[..|steps| - 1]);
      hide AllWorthTheirTotal, Enabled, After;
      StepKeepsWorth(Run(START, steps[..|steps| - 1]).value, steps[|steps| - 1]);
    }
  }

  /** In every interleaving, when orders are ordinary, revenue is unit price times quantity over all orders that a
      payment has succeeded for. */
  lemma {:induction false} InterleavedRevenueIsWorthSold(steps: seq<Step>, currency: string)
    requires Run(START, steps).Some? && forall step :: step in steps ==> OrdinaryStep(step)
    ensures var b := Run(START, steps).value.books;
      Net(b.ledger, PlatformRevenue, currency) == Total(b.orders, WorthIn(b, currency))
  {
    InterleavedBooksBalance(steps, currency);
    RunKeepsWorth(steps);
    hide Run;
    var b := Run(START, steps).value.books;
    TotalCongruence<OrderId, Orders.Order, Orders.Order>(b.orders, PaidIn(b, currency), b.orders, WorthIn(b, currency));
  }

  // ---- Cancellations, the one transaction that trusts an unlocked read ----

  datatype StatusWrite = NoWrite | BySettlement | ByCancellation

  /** Which kind of transaction, of those that have committed in a run, was the last to write an order's status. */
  ghost function LastWrite(steps: seq<Step>, order: OrderId): StatusWrite
    requires Run(START, steps).Some?
  {
    if steps == [] then NoWrite
    else
      var (before, step) := (steps[..|steps| - 1], steps[|steps| - 1]);
      if step.Commit? && WritesOrder(Run(START, before).value.sessions[step.t].task, order) then
        if Run(START, before).value.sessions[step.t].task.Settling? then BySettlement else ByCancellation
      else LastWrite(before, order)
  }

  predicate WritesOrder(task: Task, order: OrderId) {
    (task.Settling? || task.Cancelling?) && task.order == order
  }

  function StatusAfter(write: StatusWrite): Orders.OrderStatus {
    match write
    case NoWrite => Orders.Pending
    case BySettlement => Orders.Paid
    case ByCancellation => Orders.Cancelled
  }

  ghost predicate Follows(b: Books, order: OrderId, write: StatusWrite) {
    && (order in b.orders ==> b.orders[order].status == StatusAfter(write))
    && (order !in b.orders ==> write == NoWrite)
    && (PaidFor(b, order) ==> order in b.orders && write != NoWrite)
  }

  lemma {:induction false} CommitFollows(s: State, t: SessionId, order: OrderId, write: StatusWrite)
    requires Sound(s) && Enabled(s, Commit(t)) && Follows(s.books, order, write)
    ensures var task := s.sessions[t].task;
      Follows(After(s, Commit(t)).books, order,
        if !WritesOrder(task, order) then write else if task.Settling? then BySettlement else ByCancellation)
  {
    var b, b', task := s.books, After(s, Commit(t)).books, s.sessions[t].task;
    assert Consistent(b, s.sessions[t]);
    if PaidFor(b', order) && !(task.Settling? && task.order == order) {
      var p :| Succeeded(b'.payments, p) && b'.payments[p].order == order;
      assert Succeeded(b.payments, p) && b.payments[p].order == order;
    }
  }

  lemma {:induction false} WholeFollows(b: Books, request: Request, order: OrderId, write: StatusWrite)
    requires Follows(b, order, write) && (request.Place? || request.Initiate? || request.OpenWallet?)
    ensures Follows(Handle(b, request).0, order, write)
  {
    var b' := Handle(b, request).0;
    if PaidFor(b', order) {
      var p :| Succeeded(b'.payments, p) && b'.payments[p].order == order;
      assert Succeeded(b.payments, p) && b.payments[p].order == order;
    }
  }

  lemma {:induction false} OrderFollowsLastWrite(steps: seq<Step>, order: OrderId)
    requires Run(START, steps).Some?
    ensures Follows(Run(START, steps).value.books, order, LastWrite(steps, order))
  {
    if steps != [] {
      var before, step := steps[..|steps| - 1], steps[|steps| - 1];
      OrderFollowsLastWrite(before, order);
      RunKeepsAccounts(before);
      hide Follows, Accounts, Sound, FirstsCounted, WritesOrder;
      var m := Run(START, before).value;
      match step
      case Commit(t) => CommitFollows(m, t, order, LastWrite(before, order));
      case Whole(request) => WholeFollows(m.books, request, order, LastWrite(before, order));
      case _ =>
    }
  }

  /** In every interleaving, an order that a payment has succeeded for is paid exactly when the last transaction to
      write its status was a settlement, and is cancelled otherwise. */
  lemma {:induction false} PaidExactlyWhenSettledLast(steps: seq<Step>, order: OrderId)
    requires Run(START, steps).Some? && PaidFor(Run(START, steps).value.books, order)
    ensures var b := Run(START, steps).value.books;
      && order in b.orders
      && (b.orders[order].status == Orders.Paid <==> LastWrite(steps, order) == BySettlement)
      && (b.orders[order].status == Orders.Cancelled <==> LastWrite(steps, order) == ByCancellation)
      && b.orders[order].status != Orders.Pending
  {
    OrderFollowsLastWrite(steps, order);
  }

  ghost predicate CancelsOrder(step: Step, order: OrderId) {
    step.Begin? && step.task == Cancelling(order)
  }

  ghost predicate NoCancellation(s: State, order: OrderId) {
    forall t :: t in s.sessions ==> s.sessions[t].task != Cancelling(order)
  }

  lemma {:induction false} StepCancelsNothing(s: State, step: Step, order: OrderId)
    requires NoCancellation(s, order) && Enabled(s, step) && !CancelsOrder(step, order)
    ensures NoCancellation(After(s, step), order)
    ensures step.Commit? ==> s.sessions[step.t].task != Cancelling(order)
  {
    hide Installed, Handle;
  }

  lemma {:induction false} NobodyCancels(steps: seq<Step>, order: OrderId)
    requires Run(START, steps).Some? && forall step :: step in steps ==> !CancelsOrder(step, order)
    ensures NoCancellation(Run(START, steps).value, order) && LastWrite(steps, order) != ByCancellation
  {
    if steps != [] {
      var before, step := steps[..|steps| - 1], steps[|steps| - 1];
      NobodyCancels(before, order);
      assert !CancelsOrder(step, order);
      StepCancelsNothing(Run(START, before).value, step, order);
      hide After, Enabled;
    }
  }

  /** As long as nobody begins to cancel it, an order that a payment has succeeded for is paid, whatever is done to
      others. */
  lemma {:induction false} PaidUnlessCancelled(steps: seq<Step>, order: OrderId)
    requires Run(START, steps).Some? && PaidFor(Run(START, steps).value.books, order)
    requires forall step :: step in steps ==> !CancelsOrder(step, order)
    ensures var b := Run(START, steps).value.books; order in b.orders && b.orders[order].status == Orders.Paid
  {
    NobodyCancels(steps, order);
    PaidExactlyWhenSettledLast(steps, order);
  }

  lemma {:induction false} RunExtends(s: State, steps: seq<Step>, step: Step, m: State)
    requires Run(s, steps) == Some(m) && Enabled(m, step)
    ensures Run(s, steps + [step]) == Some(After(m, step))
  {
  }

  /** A cancellation of an order has read it as pending and is still at work. */
  ghost predicate CancellationUnderWay(s: State, order: OrderId) {
    exists t :: IsUnderWay(s, t, order)
  }

  ghost predicate IsUnderWay(s: State, t: SessionId, order: OrderId) {
    && t in s.sessions && s.sessions[t].task == Cancelling(order)
    && (s.sessions[t].stage == OrderRead || s.sessions[t].stage == OrderCancelled)
  }

  ghost predicate EndsWith(s: State, more: seq<Step>, order: OrderId, status: Orders.OrderStatus) {
    Run(s, more).Some? && HasStatus(Run(s, more).value.books, order, status)
  }

  lemma {:induction false} StepStaysPaid(s: State, step: Step, order: OrderId)
    requires HasStatus(s.books, order, Orders.Paid) && !CancellationUnderWay(s, order) && Enabled(s, step)
    ensures HasStatus(After(s, step).books, order, Orders.Paid) && !CancellationUnderWay(After(s, step), order)
  {
    forall t ensures !IsUnderWay(After(s, step), t, order) {
      assert !IsUnderWay(s, t, order);
    }
    if step.Commit? {
      assert !IsUnderWay(s, step.t, order);
    }
  }

  lemma {:induction false} StaysPaid(s: State, more: seq<Step>, order: OrderId)
    requires HasStatus(s.books, order, Orders.Paid) && !CancellationUnderWay(s, order) && Run(s, more).Some?
    ensures HasStatus(Run(s, more).value.books, order, Orders.Paid) && !CancellationUnderWay(Run(s, more).value, order)
  {
    if more != [] {
      StaysPaid(s, more[..|more| - 1], order);
      StepStaysPaid(Run(s, more[..|more| - 1]).value, more[|more| - 1], order);
    }
  }

  /** Only another cancellation can hold the lock of an order that has been paid for. */
  lemma {:induction false} PaidOrderIsFree(s: State, order: OrderId)
    requires Sound(s) && Accounts(s.books) && Matched(s.books) && PaidFor(s.books, order)
    requires forall t :: IsUnderWay(s, t, order) ==> s.sessions[t].stage == OrderRead
    ensures s.OrderIsFree(order)
  {
    forall t | t in s.sessions ensures !s.sessions[t].HoldsOrder(order) {
      assert Consistent(s.books, s.sessions[t]);
      if s.sessions[t].task.Settling? && s.sessions[t].HoldsOrder(order) {
        OnePaymentPerOrder(s.books, s.sessions[t].task.id, PayerOf(s.books, order));
      } else {
        assert s.sessions[t].HoldsOrder(order) ==> IsUnderWay(s, t, order);
      }
    }
  }

  lemma {:induction false} UnderWayCanCancel(s: State, order: OrderId) returns (more: seq<Step>)
    requires Sound(s) && Accounts(s.books) && Matched(s.books) && PaidFor(s.books, order)
    requires CancellationUnderWay(s, order)
    ensures EndsWith(s, more, order, Orders.Cancelled)
  {
    if t :| IsUnderWay(s, t, order) && s.sessions[t].stage == OrderCancelled {
      assert Consistent(s.books, s.sessions[t]);
      more := [] + [Commit(t)];
      RunExtends(s, [], Commit(t), s);
    } else {
      var t :| IsUnderWay(s, t, order);
      assert Consistent(s.books, s.sessions[t]);
      PaidOrderIsFree(s, order);
      more := [] + [CancelOrder(t)] + [Commit(t)];
      RunExtends(s, [], CancelOrder(t), s);
      RunExtends(s, [] + [CancelOrder(t)], Commit(t), s.Advance(t, OrderCancelled));
    }
  }

  /** From a reachable state in which an order has been paid for and is paid, it can still end up cancelled exactly when
      a cancellation that has read it as pending is still at work; otherwise it stays paid for ever. */
  lemma {:induction false} CancellableExactlyWhenReadBefore(steps: seq<Step>, order: OrderId)
    requires Run(START, steps).Some?
    requires var b := Run(START, steps).value.books; PaidFor(b, order) && HasStatus(b, order, Orders.Paid)
    ensures var s := Run(START, steps).value;
      (exists more :: EndsWith(s, more, order, Orders.Cancelled)) <==> CancellationUnderWay(s, order)
  {
    RunKeepsAccounts(steps);
    RunKeepsMatched(steps);
    hide Accounts, Matched, Sound;
    var s := Run(START, steps).value;
    if CancellationUnderWay(s, order) {
      var more := UnderWayCanCancel(s, order);
    } else {
      forall more ensures !EndsWith(s, more, order, Orders.Cancelled) {
        if Run(s, more).Some? {
          StaysPaid(s, more, order);
        }
      }
    }
  }

  /** A user cancels an order, having read it as pending, while its payment is being settled. */
  function ReadThenSettle(task: Task): seq<Step>
    requires task.Settling?
  {
    [Begin(0, Cancelling(task.order)), ReadOrder(0)]
    + [Begin(1, task), LockPayment(1), WriteReference(1), PayOrder(1), Commit(1)]
  }

  lemma {:induction false} BothAtWork(b: Books, task: Task)
    requires task.Settling? && ReadFrom(b, task)
    requires task.order in b.orders && b.orders[task.order].status == Orders.Pending
    ensures Run(State(b, map[], map[]), ReadThenSettle(task)[..3])
      == Some(State(b, map[0 := Session(Cancelling(task.order), OrderRead), 1 := Session(task, Begun)], map[]))
  {
    var s, steps := State(b, map[], map[]), ReadThenSettle(task);
    RunExtends(s, [], steps[0], s);
    var m1 := After(s, steps[0]);
    assert m1.sessions == map[0 := Session(Cancelling(task.order), Begun)];
    RunExtends(s, [] + [steps[0]], steps[1], m1);
    var m2 := After(m1, steps[1]);
    assert m2.sessions == map[0 := Session(Cancelling(task.order), OrderRead)];
    RunExtends(s, [] + [steps[0]] + [steps[1]], steps[2], m2);
    assert [] + [steps[0]] + [steps[1]] + [steps[2]] == steps[..3];
    assert After(m2, steps[2]).sessions
      == map[0 := Session(Cancelling(task.order), OrderRead), 1 := Session(task, Begun)];
  }

  lemma {:induction false} ReferenceBehind(b: Books, task: Task)
    requires task.Settling? && ReadFrom(b, task) && ReferenceUntaken(b, task)
    requires task.order in b.orders && b.orders[task.order].status == Orders.Pending
    requires b.payments[task.id].status == PaymentPending
    ensures Run(State(b, map[], map[]), ReadThenSettle(task)[..5])
      == Some(State(b, map[0 := Session(Cancelling(task.order), OrderRead), 1 := Session(task, ReferenceWritten)],
        map[]))
  {
    var s, steps := State(b, map[], map[]), ReadThenSettle(task);
    BothAtWork(b, task);
    var m3 := Run(s, steps[..3]).value;
    RunExtends(s, steps[..3], steps[3], m3);
    var m4 := m3.Advance(1, PaymentLocked);
    RunExtends(s, steps[..3] + [steps[3]], steps[4], m4);
    assert steps[..3] + [steps[3]] + [steps[4]] == steps[..5];
    assert After(m4, steps[4]).sessions
      == map[0 := Session(Cancelling(task.order), OrderRead), 1 := Session(task, ReferenceWritten)];
  }

  lemma {:induction false} SettlementInstalls(b: Books, task: Task)
    requires task.Settling? && ReadFrom(b, task) && task.amount >= 0 && ReferenceUntaken(b, task)
    requires task.order in b.orders && b.payments[task.id].status == PaymentPending
    ensures Installed(b, Session(task, OrderPaid))
      == Settled(b, task.id, task.order, task.amount, task.currency, task.reference).0
  {
  }

  lemma {:induction false} SettledBehind(b: Books, task: Task)
    requires task.Settling? && ReadFrom(b, task) && task.amount >= 0 && ReferenceUntaken(b, task)
    requires task.order in b.orders && b.orders[task.order].status == Orders.Pending
    requires b.payments[task.id].status == PaymentPending
    ensures Run(State(b, map[], map[]), ReadThenSettle(task)) == Some(State(
      Settled(b, task.id, task.order, task.amount, task.currency, task.reference).0,
      map[0 := Session(Cancelling(task.order), OrderRead)], map[task.id := 1]))
  {
    hide Run, Settled, Installed;
    var s, steps := State(b, map[], map[]), ReadThenSettle(task);
    ReferenceBehind(b, task);
    SettlementInstalls(b, task);
    var m5 := Run(s, steps[..5]).value;
    RunExtends(s, steps[..5], steps[5], m5);
    var m6 := m5.Advance(1, OrderPaid);
    RunExtends(s, steps[..5] + [steps[5]], steps[6], m6);
    assert steps[..5] + [steps[5]] + [steps[6]] == steps;
    assert After(m6, steps[6]).sessions == map[0 := Session(Cancelling(task.order), OrderRead)];
  }

  /** The cancellation then overwrites the paid order: the payment has succeeded, and the order ends up cancelled. */
  lemma {:induction false} PaidOrderEndsCancelled(b: Books, task: Task)
    requires task.Settling? && ReadFrom(b, task) && task.amount >= 0 && ReferenceUntaken(b, task)
    requires task.order in b.orders && b.orders[task.order].status == Orders.Pending
    requires b.payments[task.id].status == PaymentPending
    ensures var end := Run(State(b, map[], map[]), ReadThenSettle(task) + [CancelOrder(0)] + [Commit(0)]);
      && end.Some? && Succeeded(end.value.books.payments, task.id)
      && task.order in end.value.books.orders && end.value.books.orders[task.order].status == Orders.Cancelled
  {
    var s, steps := State(b, map[], map[]), ReadThenSettle(task);
    SettledBehind(b, task);
    var m := Run(s, steps).value;
    RunExtends(s, steps, CancelOrder(0), m);
    RunExtends(s, steps + [CancelOrder(0)], Commit(0), m.Advance(0, OrderCancelled));
  }
}
