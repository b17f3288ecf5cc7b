/** What an order is answered and what it stores, in the columns of the catalog and of the lines alone. */
module OrderLaws {
  import opened Identifiers
  import opened Words
  import opened Orders

  /** A line for a positive quantity of an active plan of an active product. */
  predicate Orderable(catalog: Catalog, line: Line) {
    && line.quantity > 0 && line.plan in catalog.plans && catalog.plans[line.plan].active
    && catalog.plans[line.plan].product in catalog.activeProducts
    && catalog.activeProducts[catalog.plans[line.plan].product]
  }

  /** Two lines that can be ordered, of which the earlier names a currency and the later another one, or none. */
  predicate Clashes(catalog: Catalog, earlier: Line, later: Line) {
    && Orderable(catalog, earlier) && Orderable(catalog, later)
    && catalog.plans[earlier.plan].currency != ""
    && catalog.plans[later.plan].currency != catalog.plans[earlier.plan].currency
  }

  /** All lines can be ordered together. */
  predicate Together(catalog: Catalog, lines: seq<Line>) {
    && (forall i :: 0 <= i < |lines| ==> Orderable(catalog, lines[i]))
    && (forall i, j :: 0 <= i < j < |lines| ==> !Clashes(catalog, lines[i], lines[j]))
  }

  /** The first check that a line fails. */
  predicate FailsFirst(catalog: Catalog, line: Line, error: OrderError) {
    if line.quantity <= 0 then error == InvalidQuantity
    else if line.plan !in catalog.plans then error == PlanNotFound
    else
      var plan := catalog.plans[line.plan];
      if !plan.active then error == PlanInactive
      else if plan.product !in catalog.activeProducts then error == ProductMissing
      else if !catalog.activeProducts[plan.product] then error == ProductInactive
      else error == InvalidCurrency
  }

  lemma {:induction false} AcceptsTogether(catalog: Catalog, lines: seq<Line>)
    ensures Orders.Accepts(catalog, lines) <==> Together(catalog, lines)
  {
    forall i | 0 <= i < |lines| ensures Fault(catalog, lines[i]).Ok? <==> Orderable(catalog, lines[i]) {
    }
    forall i, j | 0 <= i < j < |lines| && Orderable(catalog, lines[i]) && Orderable(catalog, lines[j])
      ensures Clashes(catalog, lines[i], lines[j]) <==>
        !(CurrencyOf(catalog, lines[i]) == "" || CurrencyOf(catalog, lines[j]) == CurrencyOf(catalog, lines[i]))
    {
    }
  }

  /** An order that is refused for one of its lines is refused for the first one that cannot be ordered together with
      those before it, and for the first check that this one fails. */
  lemma {:induction false} RefusedForTheFirst(catalog: Catalog, user: UserId, lines: seq<Line>) returns (i: nat)
    requires !Together(catalog, lines)
    ensures i < |lines| && Together(catalog, lines[..i]) && !Together(catalog, lines[..i + 1])
    ensures Placed(catalog, user, lines).Err? && FailsFirst(catalog, lines[i], Placed(catalog, user, lines).error)
  {
    i := QuoteStopsAtTheFirst(catalog, lines);
  }

  lemma {:induction false} QuoteStopsAtTheFirst(catalog: Catalog, lines: seq<Line>) returns (i: nat)
    requires !Together(catalog, lines)
    ensures i < |lines| && Together(catalog, lines[..i]) && !Together(catalog, lines[..i + 1])
    ensures Quoted(catalog, lines).Err? && FailsFirst(catalog, lines[i], Quoted(catalog, lines).error)
  {
    var init, last := lines[..|lines| - 1], lines[|lines| - 1];
    AcceptsTogether(catalog, lines);
    AcceptsTogether(catalog, init);
    QuotesExactlyTheAcceptable(catalog, lines);
    QuotesExactlyTheAcceptable(catalog, init);
    if Together(catalog, init) {
      i := |init|;
      assert lines[..i + 1] == lines;
    } else {
      i := QuoteStopsAtTheFirst(catalog, init);
      assert init[..i] == lines[..i] && init[..i + 1] == lines[..i + 1];
    }
  }

  /** An order is placed exactly when it has lines that can be ordered together in quantities that an int32 holds modulo
      2^32 as positive ones; without lines, or in other quantities, it is refused as such. */
  lemma {:induction false} AnswersExactly(catalog: Catalog, user: UserId, lines: seq<Line>)
    ensures var result := Placed(catalog, user, lines);
      var storable := forall i :: 0 <= i < |lines| ==> 0 < lines[i].quantity % 0x1_0000_0000 < 0x8000_0000;
      && (result.Ok? <==> lines != [] && Together(catalog, lines) && storable)
      && (lines == [] ==> result == Err(EmptyOrderItems))
      && (lines != [] && Together(catalog, lines) && !storable ==> result == Err(InsertFailed))
  {
    AcceptsTogether(catalog, lines);
    PlacesExactlyTheStorable(catalog, user, lines);
    QuotesExactlyTheAcceptable(catalog, lines);
  }

  function SumOfTotals(items: seq<Item>): int {
    if items == [] then 0 else SumOfTotals(items[..|items| - 1]) + items[|items| - 1].total
  }

  /** Two numbers that an int64 cannot tell apart. */
  predicate SameWord(x: int, y: int) {
    (x - y) % 0x1_0000_0000_0000_0000 == 0
  }

  lemma {:induction false} WrapsToTheSame(x: int)
    ensures SameWord(Wrap64(x), x) && -0x8000_0000_0000_0000 <= Wrap64(x) < 0x8000_0000_0000_0000
  {
  }

  /** The row of each item of a placed order: its line's plan at the catalog's price, that price times the ordered
      quantity as its total, and the order pending, for its user, in the currency of its items. */
  lemma {:induction false} StoresExactly(catalog: Catalog, user: UserId, lines: seq<Line>, i: nat)
    requires Placed(catalog, user, lines).Ok? && i < |lines|
    ensures var order := Placed(catalog, user, lines).value;
      && order.user == user && order.status == Pending && |order.items| == |lines|
      && lines[i].plan in catalog.plans
      && var (item, plan) := (order.items[i], catalog.plans[lines[i].plan]);
      && item.plan == lines[i].plan && item.unitPrice == plan.price && item.currency == plan.currency
      && item.quantity == lines[i].quantity % 0x1_0000_0000
      && SameWord(item.total, plan.price * lines[i].quantity)
      && -0x8000_0000_0000_0000 <= item.total < 0x8000_0000_0000_0000
      && (plan.currency == "" || order.currency == plan.currency)
      && (order.currency != "" ==> exists j :: 0 <= j < |lines| && order.items[j].currency == order.currency)
  {
    QuotesExactlyTheAcceptable(catalog, lines);
    StoresExactlyBelowInt32(catalog, user, lines);
    var quote := Quoted(catalog, lines).value;
    hide Quoted, Wrap32, Wrap64, Charged;
    assert ItemFor(catalog, lines[i], quote.items[i]);
    WrapsToTheSame(quote.items[i].unitPrice * quote.items[i].quantity);
    if quote.currency != "" {
      var j :| 0 <= j < |quote.items| && quote.items[j].currency == quote.currency;
      assert AllStored(quote.items)[j].currency == quote.currency;
    }
  }

  /** The prices of the lines, times their quantities, added up. */
  function Price(catalog: Catalog, lines: seq<Line>): int {
    if lines == [] then 0
    else
      var line := lines[|lines| - 1];
      Price(catalog, lines[..|lines| - 1])
      + if line.plan in catalog.plans then catalog.plans[line.plan].price * line.quantity else 0
  }

  lemma {:induction false} TotalsMatchLines(catalog: Catalog, lines: seq<Line>, items: seq<Item>)
    requires |items| == |lines|
    requires forall i :: 0 <= i < |lines| ==>
      && lines[i].plan in catalog.plans
      && SameWord(items[i].total, catalog.plans[lines[i].plan].price * lines[i].quantity)
    ensures SameWord(SumOfTotals(items), Price(catalog, lines)) && Price(catalog, lines) == Charged(catalog, lines)
  {
    if lines != [] {
      TotalsMatchLines(catalog, lines[..|lines| - 1], items[..|items| - 1]);
    }
  }

  lemma {:induction false} SameAsTheSame(x: int, y: int, z: int)
    requires SameWord(x, y) && SameWord(z, y)
    ensures SameWord(x, z)
  {
  }

  lemma {:induction false} ItemsMatchLines(catalog: Catalog, user: UserId, lines: seq<Line>, i: nat)
    requires Placed(catalog, user, lines).Ok? && i < |lines|
    ensures i < |Placed(catalog, user, lines).value.items| && lines[i].plan in catalog.plans
    ensures SameWord(Placed(catalog, user, lines).value.items[i].total,
      catalog.plans[lines[i].plan].price * lines[i].quantity)
  {
    hide Placed, SameWord;
    StoresExactly(catalog, user, lines, i);
  }

  /** What an order charges is, in int64 arithmetic, the sum of its items' totals, and the sum of prices times
      quantities; it is that sum itself exactly as long as that fits an int64. */
  lemma {:induction false} ChargesTheSum(catalog: Catalog, user: UserId, lines: seq<Line>)
    requires Placed(catalog, user, lines).Ok?
    ensures var order := Placed(catalog, user, lines).value;
      && SameWord(order.total, SumOfTotals(order.items)) && SameWord(order.total, Price(catalog, lines))
      && (order.total == Price(catalog, lines) <==>
        -0x8000_0000_0000_0000 <= Price(catalog, lines) < 0x8000_0000_0000_0000)
  {
    hide Placed, Charged, Price, SumOfTotals, Wrap64, SameWord;
    var order := Placed(catalog, user, lines).value;
    StoresExactlyBelowInt32(catalog, user, lines);
    forall i | 0 <= i < |lines|
      ensures lines[i].plan in catalog.plans
      ensures SameWord(order.items[i].total, catalog.plans[lines[i].plan].price * lines[i].quantity)
    {
      ItemsMatchLines(catalog, user, lines, i);
    }
    TotalsMatchLines(catalog, lines, order.items);
    WrapsToTheSame(Charged(catalog, lines));
    SameAsTheSame(order.total, Charged(catalog, lines), SumOfTotals(order.items));
    Wrap64Range(Charged(catalog, lines));
  }
}
