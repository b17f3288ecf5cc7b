/** Placing an order: its lines are checked against the catalog, priced and added up. */
module Orders {
  import opened Identifiers
  import opened Words

  type ProductId = nat

  datatype Plan = Plan(active: bool, product: ProductId, price: int, currency: string)

  datatype Catalog = Catalog(plans: map<PlanId, Plan>, activeProducts: map<ProductId, bool>)

  datatype Line = Line(plan: PlanId, quantity: int)

  datatype Item = Item(plan: PlanId, quantity: int, unitPrice: int, total: int, currency: string)

  datatype OrderStatus = Pending | Paid | Cancelled

  datatype Order = Order(user: UserId, status: OrderStatus, total: int, currency: string, items: seq<Item>)

  datatype OrderError =
    | EmptyOrderItems
    | InvalidQuantity
    | PlanNotFound
    | PlanInactive
    | ProductMissing
    | ProductInactive
    | InvalidCurrency
    | InsertFailed

  datatype Result<T> = Ok(value: T) | Err(error: OrderError)

  datatype Quote = Quote(items: seq<Item>, subtotal: int, currency: string)

  // ---- The running quote ----

  /** What is wrong with a line by itself, if anything, in the order in which it is found out. */
  function Fault(catalog: Catalog, line: Line): Result<Plan> {
    if line.quantity <= 0 then Err(InvalidQuantity)
    else if line.plan !in catalog.plans then Err(PlanNotFound)
    else
      var plan := catalog.plans[line.plan];
      if !plan.active then Err(PlanInactive)
      else if plan.product !in catalog.activeProducts then Err(ProductMissing)
      else if !catalog.activeProducts[plan.product] then Err(ProductInactive)
      else Ok(plan)
  }

  function Added(catalog: Catalog, quote: Quote, line: Line): Result<Quote> {
    match Fault(catalog, line)
    case Err(error) => Err(error)
    case Ok(plan) =>
      if quote.currency != "" && quote.currency != plan.currency then Err(InvalidCurrency)
      else
        var total := Wrap64(plan.price * line.quantity);
        Ok(Quote(
          quote.items + [Item(line.plan, line.quantity, plan.price, total, plan.currency)],
          Wrap64(quote.subtotal + total),
          if quote.currency == "" then plan.currency else quote.currency))
  }

  function Quoted(catalog: Catalog, lines: seq<Line>): Result<Quote> {
    if lines == [] then Ok(Quote([], 0, ""))
    else
      match Quoted(catalog, lines[..|lines| - 1])
      case Err(error) => Err(error)
      case Ok(quote) => Added(catalog, quote, lines[|lines| - 1])
  }

  // ---- The order as stored ----

  /** Quantities are stored as int32, and the table refuses any that is not positive. */
  function Stored(item: Item): Item {
    item.(quantity := Wrap32(item.quantity))
  }

  function AllStored(items: seq<Item>): seq<Item> {
    seq(|items|, i requires 0 <= i < |items| => Stored(items[i]))
  }

  function Placed(catalog: Catalog, user: UserId, lines: seq<Line>): Result<Order> {
    if lines == [] then Err(EmptyOrderItems)
    else
      match Quoted(catalog, lines)
      case Err(error) => Err(error)
      case Ok(quote) =>
        if exists i :: 0 <= i < |quote.items| && Stored(quote.items[i]).quantity <= 0 then Err(InsertFailed)
        else Ok(Order(user, Pending, quote.subtotal, quote.currency, AllStored(quote.items)))
  }

  // ---- What an order is worth ----

  /** Unit price times quantity over all items, without overflow. */
  function Worth(items: seq<Item>): int {
    if items == [] then 0 else Worth(items[..|items| - 1]) + items[|items| - 1].unitPrice * items[|items| - 1].quantity
  }

  /** What the lines of an order come to at the catalog's prices, without overflow. */
  function Charged(catalog: Catalog, lines: seq<Line>): int {
    if lines == [] then 0
    else
      var line := lines[|lines| - 1];
      Charged(catalog, lines[..|lines| - 1]) + if line.plan in catalog.plans
        then catalog.plans[line.plan].price * line.quantity else 0
  }

  function CurrencyOf(catalog: Catalog, line: Line): string {
    if line.plan in catalog.plans then catalog.plans[line.plan].currency else ""
  }

  /** Every line can be ordered, and no line is in another currency than one before it; lines without a currency may
      come first. */
  predicate Accepts(catalog: Catalog, lines: seq<Line>) {
    && (forall i :: 0 <= i < |lines| ==> Fault(catalog, lines[i]).Ok?)
    && (forall i, j :: 0 <= i < j < |lines| ==>
      CurrencyOf(catalog, lines[i]) == "" || CurrencyOf(catalog, lines[j]) == CurrencyOf(catalog, lines[i]))
  }

  ghost predicate ItemFor(catalog: Catalog, line: Line, item: Item) {
    && line.plan in catalog.plans
    && item.plan == line.plan && item.quantity == line.quantity > 0
    && item.unitPrice == catalog.plans[line.plan].price
    && item.total == Wrap64(item.unitPrice * item.quantity)
    && item.currency == CurrencyOf(catalog, line)
  }

  /** The order's currency is that of all its items that name one. */
  ghost predicate OneCurrency(items: seq<Item>, currency: string) {
    && (forall i :: 0 <= i < |items| ==> items[i].currency == "" || items[i].currency == currency)
    && (currency != "" ==> exists i :: 0 <= i < |items| && items[i].currency == currency)
  }

  /** One item for each line, at the catalog's price, in one currency; the subtotal is the true sum, wrapped once. */
  ghost predicate Faithful(catalog: Catalog, lines: seq<Line>, quote: Quote) {
    && |quote.items| == |lines|
    && (forall i :: 0 <= i < |lines| ==> ItemFor(catalog, lines[i], quote.items[i]))
    && OneCurrency(quote.items, quote.currency)
    && quote.subtotal == Wrap64(Charged(catalog, lines))
  }

  lemma {:induction false} WorthExtends(items: seq<Item>, item: Item)
    ensures Worth(items + [item]) == Worth(items) + item.unitPrice * item.quantity
  {
  }

  lemma {:induction false} AddedSubtotal(catalog: Catalog, lines: seq<Line>, quote: Quote, line: Line)
    requires quote.subtotal == Wrap64(Charged(catalog, lines)) && Added(catalog, quote, line).Ok?
    ensures Added(catalog, quote, line).value.subtotal == Wrap64(Charged(catalog, lines + [line]))
  {
    assert (lines + [line])[..|lines|] == lines;
    WrapSum(Charged(catalog, lines), Fault(catalog, line).value.price * line.quantity);
  }

  lemma {:induction false} AddedItem(catalog: Catalog, quote: Quote, line: Line)
    requires Added(catalog, quote, line).Ok? && OneCurrency(quote.items, quote.currency)
    ensures var after := Added(catalog, quote, line).value;
      && |after.items| == |quote.items| + 1 && after.items[..|quote.items|] == quote.items
      && ItemFor(catalog, line, after.items[|quote.items|])
      && OneCurrency(after.items, after.currency)
  {
    hide Wrap64;
    var after := Added(catalog, quote, line).value;
    if quote.currency != "" {
      var i :| 0 <= i < |quote.items| && quote.items[i].currency == quote.currency;
      assert after.items[i] == quote.items[i];
    } else if after.currency != "" {
      assert after.items[|quote.items|].currency == after.currency;
    }
  }

  lemma {:induction false} AddedFaithful(catalog: Catalog, lines: seq<Line>, quote: Quote, line: Line)
    requires Faithful(catalog, lines, quote) && Added(catalog, quote, line).Ok?
    ensures Faithful(catalog, lines + [line], Added(catalog, quote, line).value)
  {
    hide Added, Charged, Wrap64, ItemFor, OneCurrency;
    AddedSubtotal(catalog, lines, quote, line);
    AddedItem(catalog, quote, line);
    var after := Added(catalog, quote, line).value;
    forall i | 0 <= i < |lines| + 1 ensures ItemFor(catalog, (lines + [line])[i], after.items[i]) {
      if i < |lines| {
        assert after.items[i] == after.items[..|quote.items|][i] == quote.items[i];
        assert ItemFor(catalog, lines[i], quote.items[i]);
      }
    }
  }

  /** A line can be added exactly when it can be ordered and agrees with the lines before it. */
  lemma {:induction false} AddsExactlyTheAcceptable(catalog: Catalog, lines: seq<Line>, quote: Quote, line: Line)
    requires Accepts(catalog, lines) && Faithful(catalog, lines, quote)
    ensures Added(catalog, quote, line).Ok? <==> Accepts(catalog, lines + [line])
  {
    hide Wrap64, Charged;
    var all := lines + [line];
    assert all[|lines|] == line;
    assert forall i :: 0 <= i < |lines| ==> all[i] == lines[i] && ItemFor(catalog, lines[i], quote.items[i]);
    if Added(catalog, quote, line).Ok? {
      assert Accepts(catalog, all);
    } else if Fault(catalog, line).Ok? {
      var i :| 0 <= i < |quote.items| && quote.items[i].currency == quote.currency;
      assert CurrencyOf(catalog, all[i]) != "" && CurrencyOf(catalog, all[|lines|]) != CurrencyOf(catalog, all[i]);
    }
  }

  /** A quote succeeds exactly when every line can be ordered and all lines that name a currency after one that does
      name the same; it is then faithful. */
  lemma {:induction false} QuotesExactlyTheAcceptable(catalog: Catalog, lines: seq<Line>)
    ensures Quoted(catalog, lines).Ok? <==> Accepts(catalog, lines)
    ensures Quoted(catalog, lines).Ok? ==> Faithful(catalog, lines, Quoted(catalog, lines).value)
  {
    if lines != [] {
      var init, line := lines[..|lines| - 1], lines[|lines| - 1];
      QuotesExactlyTheAcceptable(catalog, init);
      assert lines == init + [line];
      if Quoted(catalog, init).Ok? {
        hide Added, Faithful, Accepts;
        AddsExactlyTheAcceptable(catalog, init, Quoted(catalog, init).value, line);
        if Added(catalog, Quoted(catalog, init).value, line).Ok? {
          AddedFaithful(catalog, init, Quoted(catalog, init).value, line);
        }
      } else {
        assert Accepts(catalog, lines) ==> Accepts(catalog, init);
      }
    }
  }

  /** What an int32 keeps of a positive quantity. */
  lemma {:induction false} StoredQuantity(quantity: int)
    requires quantity > 0
    ensures Wrap32(quantity) > 0 <==> 0 < quantity % 0x1_0000_0000 < 0x8000_0000
    ensures Wrap32(quantity) > 0 ==> Wrap32(quantity) == quantity % 0x1_0000_0000
    ensures Wrap32(quantity) == quantity <==> quantity < 0x8000_0000
  {
  }

  ghost predicate Storable(lines: seq<Line>) {
    forall i :: 0 <= i < |lines| ==> 0 < lines[i].quantity % 0x1_0000_0000 < 0x8000_0000
  }

  /** An order is placed exactly when it has lines, they are acceptable, and every quantity is positive modulo 2^32 as
      an int32; acceptable lines with a quantity that is not are refused at the insert. */
  lemma {:induction false} PlacesExactlyTheStorable(catalog: Catalog, user: UserId, lines: seq<Line>)
    ensures Placed(catalog, user, lines).Ok? <==> lines != [] && Accepts(catalog, lines) && Storable(lines)
    ensures Placed(catalog, user, lines) == Err(InsertFailed) <==>
      lines != [] && Accepts(catalog, lines) && !Storable(lines)
  {
    QuotesExactlyTheAcceptable(catalog, lines);
    NeverInsertFailed(catalog, lines);
    if Accepts(catalog, lines) {
      var quote := Quoted(catalog, lines).value;
      hide Quoted, Accepts, Wrap32, Wrap64, Charged;
      forall i | 0 <= i < |lines|
        ensures Stored(quote.items[i]).quantity > 0 <==> 0 < lines[i].quantity % 0x1_0000_0000 < 0x8000_0000
      {
        assert ItemFor(catalog, lines[i], quote.items[i]);
        StoredQuantity(lines[i].quantity);
      }
    }
  }

  lemma {:induction false} NeverInsertFailed(catalog: Catalog, lines: seq<Line>)
    ensures Quoted(catalog, lines) != Err(InsertFailed)
  {
    if lines != [] {
      NeverInsertFailed(catalog, lines[..|lines| - 1]);
    }
  }

  /** Every placed order is charged in full, wrapped to an int64; what it stores of a quantity is the quantity modulo
      2^32, which is the ordered quantity exactly when that is below 2^31. */
  lemma {:induction false} StoresExactlyBelowInt32(catalog: Catalog, user: UserId, lines: seq<Line>)
    requires Placed(catalog, user, lines).Ok?
    ensures var order := Placed(catalog, user, lines).value;
      && order.total == Wrap64(Charged(catalog, lines))
      && |order.items| == |lines|
      && forall i :: 0 <= i < |lines| ==>
        && order.items[i].quantity == lines[i].quantity % 0x1_0000_0000 > 0
        && (order.items[i].quantity == lines[i].quantity <==> lines[i].quantity < 0x8000_0000)
  {
    QuotesExactlyTheAcceptable(catalog, lines);
    PlacesExactlyTheStorable(catalog, user, lines);
    var quote := Quoted(catalog, lines).value;
    hide Quoted, Accepts, Wrap32, Wrap64, Charged;
    forall i | 0 <= i < |lines|
      ensures Stored(quote.items[i]).quantity == lines[i].quantity % 0x1_0000_0000 > 0
      ensures Stored(quote.items[i]).quantity == lines[i].quantity <==> lines[i].quantity < 0x8000_0000
    {
      assert ItemFor(catalog, lines[i], quote.items[i]);
      StoredQuantity(lines[i].quantity);
    }
  }

  lemma {:induction false} WorthIsCharged(catalog: Catalog, lines: seq<Line>, items: seq<Item>)
    requires |items| == |lines| && forall i :: 0 <= i < |lines| ==> ItemFor(catalog, lines[i], items[i])
    ensures Worth(items) == Charged(catalog, lines)
  {
    if lines != [] {
      WorthIsCharged(catalog, lines[..|lines| - 1], items[..|lines| - 1]);
    }
  }

  /** An order within int32 quantities charges exactly what its items are worth as long as that fits an int64, and
      something else as soon as it does not. */
  lemma {:induction false} ChargesWorth(catalog: Catalog, user: UserId, lines: seq<Line>)
    requires Placed(catalog, user, lines).Ok?
    requires forall i :: 0 <= i < |lines| ==> lines[i].quantity < 0x8000_0000
    ensures var order := Placed(catalog, user, lines).value;
      && |order.items| == |lines|
      && (forall i :: 0 <= i < |lines| ==> ItemFor(catalog, lines[i], order.items[i]))
      && OneCurrency(order.items, order.currency)
      && (order.total == Worth(order.items) <==> IsInt64(Worth(order.items)))
  {
    QuotesExactlyTheAcceptable(catalog, lines);
    var quote := Quoted(catalog, lines).value;
    SmallStaysStored(catalog, lines, quote);
    hide Quoted, Wrap64, Worth, Charged, Accepts, ItemFor, OneCurrency;
    WorthIsCharged(catalog, lines, quote.items);
    Wrap64Range(Worth(quote.items));
  }

  lemma {:induction false} SmallStaysStored(catalog: Catalog, lines: seq<Line>, quote: Quote)
    requires Faithful(catalog, lines, quote)
    requires forall i :: 0 <= i < |lines| ==> lines[i].quantity < 0x8000_0000
    ensures AllStored(quote.items) == quote.items
  {
    hide Wrap64, Charged;
    forall i | 0 <= i < |lines| ensures AllStored(quote.items)[i] == quote.items[i] {
      assert ItemFor(catalog, lines[i], quote.items[i]);
    }
  }

  // ---- The service ----

  method CreateOrder(catalog: Catalog, user: UserId, lines: seq<Line>) returns (result: Result<Order>)
    ensures result == Placed(catalog, user, lines)
  {
    if |lines| == 0 {
      return Err(EmptyOrderItems);
    }
    var subtotal, currency := 0, "";
    var items: seq<Item> := [];
    for i := 0 to |lines|
      invariant Quoted(catalog, lines[..i]) == Ok(Quote(items, subtotal, currency))
    {
      assert lines[..i + 1][..i] == lines[..i];
      var line := lines[i];
      var checked := Fault(catalog, line);
      if checked.Err? {
        QuoteStops(catalog, lines, i + 1);
        return Err(checked.error);
      }
      var plan := checked.value;
      if currency == "" {
        currency := plan.currency;
      } else if currency != plan.currency {
        QuoteStops(catalog, lines, i + 1);
        return Err(InvalidCurrency);
      }
      var total := Wrap64(plan.price * line.quantity);
      subtotal := Wrap64(subtotal + total);
      items := items + [Item(line.plan, line.quantity, plan.price, total, plan.currency)];
    }
    assert lines[..|lines|] == lines;
    result := CreateOrderWithItems(user, Quote(items, subtotal, currency));
  }

  lemma {:induction false} QuoteStops(catalog: Catalog, lines: seq<Line>, i: nat)
    requires i <= |lines| && Quoted(catalog, lines[..i]).Err?
    ensures Quoted(catalog, lines) == Quoted(catalog, lines[..i])
  {
    if i < |lines| {
      assert lines[..|lines| - 1][..i] == lines[..i];
      QuoteStops(catalog, lines[..|lines| - 1], i);
    } else {
      assert lines[..i] == lines;
    }
  }

  method CreateOrderWithItems(user: UserId, quote: Quote) returns (result: Result<Order>)
    ensures result == if exists i :: 0 <= i < |quote.items| && Stored(quote.items[i]).quantity <= 0
      then Err(InsertFailed)
      else Ok(Order(user, Pending, quote.subtotal, quote.currency, AllStored(quote.items)))
  {
    var rows: seq<Item> := [];
    for i := 0 to |quote.items|
      invariant rows == AllStored(quote.items)[..i]
      invariant forall j :: 0 <= j < i ==> Stored(quote.items[j]).quantity > 0
    {
      var row := Stored(quote.items[i]);
      if row.quantity <= 0 {
        return Err(InsertFailed);
      }
      rows := rows + [row];
    }
    assert rows == AllStored(quote.items);
    return Ok(Order(user, Pending, quote.subtotal, quote.currency, rows));
  }
}
