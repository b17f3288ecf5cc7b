/** The double-entry ledger: postings are only ever appended. */
module Ledger {
  import opened Identifiers

  datatype Account = PaymentGateway | PlatformRevenue | UserWallet(user: UserId)

  datatype Direction = Debit | Credit

  datatype Entry = Entry(account: Account, direction: Direction, amount: int, currency: string)

  datatype Reference = OrderPayment(payment: PaymentId) | WalletDeposit(user: UserId)

  datatype Posting = Posting(reference: Reference, entries: seq<Entry>)

  /** Credits minus debits of some entries, on one account and in one currency. */
  function NetOf(entries: seq<Entry>, account: Account, currency: string): int {
    if entries == [] then 0
    else
      var e := entries[|entries| - 1];
      NetOf(entries[..|entries| - 1], account, currency)
      + if e.account != account || e.currency != currency then 0 else if e.direction == Credit then e.amount
        else -e.amount
  }

  /** What some entries debit, or credit, in one currency on all accounts together. */
  function SideOf(entries: seq<Entry>, direction: Direction, currency: string): int {
    if entries == [] then 0
    else
      var e := entries[|entries| - 1];
      SideOf(entries[..|entries| - 1], direction, currency)
      + if e.direction == direction && e.currency == currency then e.amount else 0
  }

  function Net(ledger: seq<Posting>, account: Account, currency: string): int {
    if ledger == [] then 0
    else Net(ledger[..|ledger| - 1], account, currency) + NetOf(ledger[|ledger| - 1].entries, account, currency)
  }

  function Side(ledger: seq<Posting>, direction: Direction, currency: string): int {
    if ledger == [] then 0
    else Side(ledger[..|ledger| - 1], direction, currency) + SideOf(ledger[|ledger| - 1].entries, direction, currency)
  }

  /** Credits minus debits on all the users' wallets together. */
  function WalletsNet(ledger: seq<Posting>, currency: string): int {
    if ledger == [] then 0
    else
      var p := ledger[|ledger| - 1];
      WalletsNet(ledger[..|ledger| - 1], currency)
      + if p.reference.WalletDeposit? then NetOf(p.entries, UserWallet(p.reference.user), currency) else 0
  }

  /** How many postings settle a payment. */
  function Settlements(ledger: seq<Posting>, payment: PaymentId): nat {
    if ledger == [] then 0
    else
      Settlements(ledger[..|ledger| - 1], payment)
      + if ledger[|ledger| - 1].reference == OrderPayment(payment) then 1 else 0
  }

  /** A posting of money that came in through the gateway. */
  function Incoming(reference: Reference, account: Account, amount: int, currency: string): Posting {
    Posting(reference, [Entry(PaymentGateway, Debit, amount, currency), Entry(account, Credit, amount, currency)])
  }

  predicate IsIncoming(p: Posting) {
    && |p.entries| == 2 && p.entries[0].amount >= 0
    && p == Incoming(p.reference,
      (match p.reference case OrderPayment(_) => PlatformRevenue case WalletDeposit(user) => UserWallet(user)),
      p.entries[0].amount, p.entries[0].currency)
  }

  lemma {:induction false} IncomingNet(p: Posting, account: Account, currency: string)
    requires IsIncoming(p)
    ensures NetOf(p.entries, account, currency) ==
      if p.entries[0].currency != currency then 0
      else if account == PaymentGateway then -p.entries[0].amount
      else if account == p.entries[1].account then p.entries[0].amount else 0
    ensures SideOf(p.entries, Debit, currency) == SideOf(p.entries, Credit, currency)
      == if p.entries[0].currency == currency then p.entries[0].amount else 0
  {
    var first := p.entries[..1];
    assert first[..0] == [] && first == [p.entries[0]];
    assert NetOf(first, account, currency)
      == if account == PaymentGateway && p.entries[0].currency == currency then -p.entries[0].amount else 0;
    assert SideOf(first, Debit, currency) == if p.entries[0].currency == currency then p.entries[0].amount else 0;
    assert SideOf(first, Credit, currency) == 0;
  }

  /** In a ledger of incoming postings, in each currency: all debits equal all credits, and what the gateway was debited
      is what revenue and wallets were credited. */
  lemma {:induction false} TrialBalance(ledger: seq<Posting>, currency: string)
    requires forall i :: 0 <= i < |ledger| ==> IsIncoming(ledger[i])
    ensures Side(ledger, Debit, currency) == Side(ledger, Credit, currency) >= 0
    ensures -Net(ledger, PaymentGateway, currency)
      == Net(ledger, PlatformRevenue, currency) + WalletsNet(ledger, currency)
    ensures -Net(ledger, PaymentGateway, currency) == Side(ledger, Debit, currency)
  {
    if ledger != [] {
      var p := ledger[|ledger| - 1];
      TrialBalance(ledger[..|ledger| - 1], currency);
      IncomingNet(p, PaymentGateway, currency);
      IncomingNet(p, PlatformRevenue, currency);
      match p.reference
      case OrderPayment(_) =>
      case WalletDeposit(user) => IncomingNet(p, UserWallet(user), currency);
    }
  }

  /** What one more posting adds. */
  lemma {:induction false} Append(
    ledger: seq<Posting>, p: Posting, account: Account, currency: string, payment: PaymentId)
    ensures Net(ledger + [p], account, currency) == Net(ledger, account, currency) + NetOf(p.entries, account, currency)
    ensures Settlements(ledger + [p], payment)
      == Settlements(ledger, payment) + if p.reference == OrderPayment(payment) then 1 else 0
  {
  }
}
