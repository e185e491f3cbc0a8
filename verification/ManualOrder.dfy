/** Orders and their money (apps/orders/services.py, apps/promocodes/services.py): lines prepared from
    a product list at checkout, and the recalculation of a manual order from its lines. Amounts are
    in hundredths of the currency unit. */
module ManualOrder {
  import opened Wrappers

  datatype Snapshot = Snapshot(title: string, category: string, slug: string, image: string)

  datatype Product = Product(id: nat, price: int, currency: int, categories: set<nat>, snapshot: Snapshot)

  /** A promo code with the products and categories it is restricted to. */
  datatype Promo = Promo(id: nat, code: string, percent: int, products: set<nat>, categories: set<nat>)

  datatype PromoDiscount = PromoDiscount(promo: Promo, eligibleAmount: int, discountAmount: int)

  datatype PromoResult = Discount(discount: PromoDiscount) | PromoError(message: string)

  datatype Item = Item(product: Option<Product>, quantity: nat, unitPrice: int, lineTotal: int, promoEligible: bool,
                       discount: int,
                       discountedLineTotal: Option<int>, snapshot: Option<Snapshot>)

  /** Round half away from zero to a hundredth. */
  function PercentDiscount(amount: int, percent: int): int {
    if amount * percent >= 0 then (amount * percent + 50) / 100 else -((-(amount * percent) + 50) / 100)
  }

  predicate Eligible(product: Product, discount: Option<PromoDiscount>) {
    discount.Some? &&
    var promo := discount.value.promo;
    || product.id in promo.products
    || (promo.products == {} && promo.categories == {})
    || exists c :: c in product.categories && c in promo.categories
  }

  /** A code without restrictions is for every product; one with restrictions is for its own products and
      those of its categories, and for no other. */
  lemma EligibleIff(product: Product, discount: PromoDiscount)
    ensures discount.promo.products == {} && discount.promo.categories == {} ==> Eligible(product, Some(discount))
    ensures discount.promo.products != {} || discount.promo.categories != {} ==>
      (Eligible(product, Some(discount)) <==>
        || product.id in discount.promo.products
        || exists c :: c in product.categories && c in discount.promo.categories)
    ensures !Eligible(product, None)
  {}

  function UnitDiscount(product: Product, discount: Option<PromoDiscount>): int {
    if Eligible(product, discount) then PercentDiscount(product.price, discount.value.promo.percent) else 0
  }

  // ---------- lines of a product list ----------

  function PreparedItem(product: Product, discount: Option<PromoDiscount>): Item {
    var unit := UnitDiscount(product, discount);
    Item(Some(product), 1, product.price, product.price, Eligible(product, discount), unit,
         if Eligible(product, discount) then Some(product.price - unit) else None, Some(product.snapshot))
  }

  method PrepareOrderItems(products: seq<Product>, discount: Option<PromoDiscount>) returns (items: seq<Item>)
    ensures |items| == |products| && forall i :: 0 <= i < |items| ==> items[i] == PreparedItem(products[i], discount)
    ensures forall i :: 0 <= i < |items| ==>
      && items[i].product == Some(products[i]) && items[i].quantity == 1 && items[i].unitPrice == products[i].price
      && items[i].lineTotal == products[i].price && items[i].snapshot == Some(products[i].snapshot)
      && items[i].promoEligible == Eligible(products[i], discount)
      && items[i].discount == (if !Eligible(products[i], discount) then 0
        else PercentDiscount(products[i].price, discount.value.promo.percent))
      && items[i].discountedLineTotal == (if !Eligible(products[i], discount) then None
        else Some(products[i].price - items[i].discount))
  {
    items := [];
    for n := 0 to |products|
      invariant |items| == n && forall i :: 0 <= i < n ==> items[i] == PreparedItem(products[i], discount)
    {
      var product := products[n];
      var itemDiscount := 0;
      var discountedLineTotal := None;
      var eligible := Eligible(product, discount);
      if discount.Some? && eligible {
        itemDiscount := PercentDiscount(product.price, discount.value.promo.percent);
        discountedLineTotal := Some(product.price - itemDiscount);
      }
      items := items + [Item(Some(product), 1, product.price, product.price, eligible, itemDiscount,
        discountedLineTotal, Some(product.snapshot))];
    }
  }

  // ---------- a manual order ----------

  datatype Status = Created | Other(name: string)

  datatype Header = Header(subtotal: int, discount: int, total: int, itemsCount: int, currency: int,
                           promo: Option<Promo>,
                           promoSnapshot: string, percentSnapshot: Option<int>, eligibleAmount: int)

  datatype Redemption = Redemption(promo: Promo, subtotal: int, eligibleAmount: int, discountAmount: int)

  datatype Order = Order(status: Status, header: Header, items: seq<Item>, redemptions: seq<Redemption>)

  datatype Outcome = Recalculated | Untouched | Cleared | ValidationError

  predicate HasProducts(items: seq<Item>) {
    forall i :: 0 <= i < |items| ==> items[i].product.Some?
  }

  predicate OneCurrency(items: seq<Item>)
    requires HasProducts(items)
  {
    forall i, j :: 0 <= i < |items| && 0 <= j < |items| ==>
      items[i].product.value.currency == items[j].product.value.currency
  }

  function Repeated(product: Product, n: nat): seq<Product> {
    seq(n, _ => product)
  }

  /** The order's products, each as often as its line says. */
  function Expanded(items: seq<Item>): seq<Product>
    requires HasProducts(items)
  {
    if items == [] then []
    else Expanded(items[..|items| - 1]) + Repeated(items[|items| - 1].product.value, items[|items| - 1].quantity)
  }

  function SavedItem(item: Item, discount: Option<PromoDiscount>): Item
    requires item.product.Some?
  {
    var product := item.product.value;
    var lineDiscount := UnitDiscount(product, discount) * item.quantity;
    item.(unitPrice := product.price, lineTotal := product.price * item.quantity,
      promoEligible := Eligible(product, discount),
          discount := lineDiscount,
          discountedLineTotal := if Eligible(product, discount) then Some(product.price * item.quantity - lineDiscount)
            else None,
          snapshot := Some(product.snapshot))
  }

  function Saved(items: seq<Item>, discount: Option<PromoDiscount>): seq<Item>
    requires HasProducts(items)
  {
    seq(|items|, i requires 0 <= i < |items| => SavedItem(items[i], discount))
  }

  // Sums over stored lines.
  function Subtotal(items: seq<Item>): int {
    if items == [] then 0 else Subtotal(items[..|items| - 1]) + items[|items| - 1].lineTotal
  }

  function DiscountSum(items: seq<Item>): int {
    if items == [] then 0 else DiscountSum(items[..|items| - 1]) + items[|items| - 1].discount
  }

  function Quantity(items: seq<Item>): nat {
    if items == [] then 0 else Quantity(items[..|items| - 1]) + items[|items| - 1].quantity
  }

  /** What the customer pays for a line. */
  function EffectiveLineTotal(item: Item): int {
    if item.discountedLineTotal.Some? then item.discountedLineTotal.value else item.lineTotal
  }

  function EffectiveTotal(items: seq<Item>): int {
    if items == [] then 0 else EffectiveTotal(items[..|items| - 1]) + EffectiveLineTotal(items[|items| - 1])
  }

  type Evaluation = (Promo, seq<Product>) -> PromoResult

  function ResolvedPromo(promo: Option<Promo>, products: seq<Product>, evaluate: Evaluation): Option<PromoResult> {
    if promo.None? then None else Some(evaluate(promo.value, products))
  }

  function AppliedHeader(items: seq<Item>, currency: int, discount: Option<PromoDiscount>): Header {
    Header(Subtotal(items), DiscountSum(items), Subtotal(items) - DiscountSum(items), Quantity(items), currency,
           if discount.Some? then Some(discount.value.promo) else None,
           if discount.Some? then discount.value.promo.code else "",
           if discount.Some? then Some(discount.value.promo.percent) else None,
           if discount.Some? then discount.value.eligibleAmount else 0)
  }

  function RedemptionsFor(header: Header, discount: Option<PromoDiscount>): seq<Redemption> {
    if discount.None? then []
    else [Redemption(discount.value.promo, header.subtotal, discount.value.eligibleAmount,
      discount.value.discountAmount)]
  }

  /** The whole recalculation as one transaction; a validation error rolls it back. */
  function RecalculateTx(o: Order, evaluate: Evaluation): (Order, Outcome) {
    if !o.status.Created? then (o, Untouched)
    else if o.items == []
      then (Order(o.status, Header(0, 0, 0, 0, o.header.currency, None, "", None, 0), [], []), Cleared)
    else if !HasProducts(o.items) || !OneCurrency(o.items) then (o, ValidationError)
    else
      var promo := ResolvedPromo(o.header.promo, Expanded(o.items), evaluate);
      if promo.Some? && promo.value.PromoError? then (o, ValidationError)
      else
        var discount := if promo.Some? then Some(promo.value.discount) else None;
        var items := Saved(o.items, discount);
        var header := AppliedHeader(items, o.items[0].product.value.currency, discount);
        (Order(o.status, header, items, RedemptionsFor(header, discount)), Recalculated)
  }

  // ---------- the code ----------

  method ExpandedProducts(items: seq<Item>) returns (expanded: seq<Product>)
    requires HasProducts(items)
    ensures expanded == Expanded(items)
  {
    expanded := [];
    for n := 0 to |items|
      invariant expanded == Expanded(items[..n])
    {
      assert items[..n + 1][..n] == items[..n];
      expanded := expanded + Repeated(items[n].product.value, items[n].quantity);
    }
    assert items[..|items|] == items;
  }

  class OrderRecord {
    var status: Status
    var header: Header
    var items: seq<Item>
    var redemptions: seq<Redemption>

    ghost function State(): Order
      reads this
    {
      Order(status, header, items, redemptions)
    }

    method SaveLineItem(n: nat, discount: Option<PromoDiscount>) returns (lineSubtotal: int, lineDiscount: int)
      requires n < |items| && items[n].product.Some?
      modifies this`items
      ensures items == old(items)[n := SavedItem(old(items)[n], discount)]
      ensures lineSubtotal == items[n].lineTotal && lineDiscount == items[n].discount
      ensures var product := old(items)[n].product.value; var quantity := old(items)[n].quantity;
        && items[n].product == Some(product) && items[n].quantity == quantity
        && items[n].unitPrice == product.price && items[n].snapshot == Some(product.snapshot)
        && lineSubtotal == product.price * quantity && items[n].promoEligible == Eligible(product, discount)
        && (!Eligible(product, discount) ==> lineDiscount == 0 && items[n].discountedLineTotal == None)
        && (Eligible(product, discount) ==>
          lineDiscount == PercentDiscount(product.price, discount.value.promo.percent) * quantity &&
          items[n].discountedLineTotal == Some(lineSubtotal - lineDiscount))
    {
      var item := items[n];
      var product := item.product.value;
      lineSubtotal := product.price * item.quantity;
      lineDiscount := 0;
      var discountedLineTotal := None;
      var eligible := Eligible(product, discount);
      if discount.Some? && eligible {
        var unitDiscount := PercentDiscount(product.price, discount.value.promo.percent);
        lineDiscount := unitDiscount * item.quantity;
        discountedLineTotal := Some(lineSubtotal - lineDiscount);
      }
      item := item.(snapshot := Some(product.snapshot));
      item := item.(unitPrice := product.price, lineTotal := lineSubtotal);
      item := item.(promoEligible := eligible, discount := lineDiscount, discountedLineTotal := discountedLineTotal);
      items := items[n := item];
    }

    method ClearTotals()
      modifies this`header, this`redemptions
      ensures header == Header(0, 0, 0, 0, old(header).currency, None, "", None, 0) && redemptions == []
    {
      redemptions := [];
      header := header.(subtotal := 0, discount := 0, total := 0, itemsCount := 0);
      header := header.(promo := None, promoSnapshot := "", percentSnapshot := None, eligibleAmount := 0);
    }

    method ApplyPromoToHeader(discount: Option<PromoDiscount>)
      modifies this`header
      ensures header == old(header).(
        promo := if discount.Some? then Some(discount.value.promo) else None,
        promoSnapshot := if discount.Some? then discount.value.promo.code else "",
        percentSnapshot := if discount.Some? then Some(discount.value.promo.percent) else None,
        eligibleAmount := if discount.Some? then discount.value.eligibleAmount else 0)
    {
      if discount.Some? {
        header := header.(promo := Some(discount.value.promo), promoSnapshot := discount.value.promo.code);
        header := header.(percentSnapshot := Some(discount.value.promo.percent),
          eligibleAmount := discount.value.eligibleAmount);
      } else {
        header := header.(promo := None, promoSnapshot := "", percentSnapshot := None, eligibleAmount := 0);
      }
    }

    /** The loop of the recalculation: save every line and add up. */
    method SaveLineItems(discount: Option<PromoDiscount>) returns (subtotal: int, discountSum: int, itemsCount: int)
      requires HasProducts(items)
      modifies this`items
      ensures items == Saved(old(items), discount)
      ensures subtotal == Subtotal(items) && discountSum == DiscountSum(items) && itemsCount == Quantity(items)
    {
      subtotal, discountSum, itemsCount := 0, 0, 0;
      ghost var lines := items;
      for n := 0 to |items|
        invariant |items| == |lines|
        invariant forall i :: 0 <= i < |lines| ==> items[i] == if i < n then SavedItem(lines[i], discount) else lines[i]
        invariant subtotal == Subtotal(items[..n]) && discountSum == DiscountSum(items[..n]) &&
          itemsCount == Quantity(items[..n])
      {
        ghost var done := items[..n];
        var lineSubtotal, lineDiscount := SaveLineItem(n, discount);
        assert items[..n] == done && items[..n + 1][..n] == done;
        subtotal := subtotal + lineSubtotal;
        discountSum := discountSum + lineDiscount;
        itemsCount := itemsCount + items[n].quantity;
      }
      assert items[..|items|] == items == Saved(lines, discount);
    }

    /** The header and the redemption after the loop. */
    method SaveTotals(subtotal: int, discountSum: int, itemsCount: int, currency: int, discount: Option<PromoDiscount>)
      requires subtotal == Subtotal(items) && discountSum == DiscountSum(items) && itemsCount == Quantity(items)
      modifies this`header, this`redemptions
      ensures header == AppliedHeader(items, currency, discount) && redemptions == RedemptionsFor(header, discount)
    {
      header := header.(subtotal := subtotal, discount := discountSum, total := subtotal - discountSum);
      header := header.(itemsCount := itemsCount, currency := currency);
      ApplyPromoToHeader(discount);
      redemptions := [];
      if discount.Some? {
        var promo := discount.value.promo;
        redemptions := [Redemption(promo, header.subtotal, discount.value.eligibleAmount,
          discount.value.discountAmount)];
      }
    }

    method Recalculate(evaluate: Evaluation) returns (outcome: Outcome)
      modifies this
      ensures (State(), outcome) == RecalculateTx(old(State()), evaluate)
    {
      if !status.Created? {
        return Untouched;
      }
      if items == [] {
        ClearTotals();
        return Cleared;
      }
      if !HasProducts(items) || !OneCurrency(items) {
        return ValidationError;
      }
      var expanded := ExpandedProducts(items);
      var discount := None;
      if header.promo.Some? {
        var result := evaluate(header.promo.value, expanded);
        if result.PromoError? {
          return ValidationError;
        }
        discount := Some(result.discount);
      }
      var currency := items[0].product.value.currency;
      var subtotal, discountSum, itemsCount := SaveLineItems(discount);
      SaveTotals(subtotal, discountSum, itemsCount, currency, discount);
      outcome := Recalculated;
    }
  }

  // ---------- expansion ----------

  /** The lines that checkout would prepare for a product list. */
  function Prepared(products: seq<Product>, discount: Option<PromoDiscount>): seq<Item> {
    seq(|products|, i requires 0 <= i < |products| => PreparedItem(products[i], discount))
  }

  lemma {:induction false} SumsConcat(a: seq<Item>, b: seq<Item>)
    ensures Subtotal(a + b) == Subtotal(a) + Subtotal(b)
    ensures DiscountSum(a + b) == DiscountSum(a) + DiscountSum(b)
    ensures EffectiveTotal(a + b) == EffectiveTotal(a) + EffectiveTotal(b)
    decreases |b|
  {
    if b == [] {
      assert a + b == a;
    } else {
      assert (a + b)[..|a + b| - 1] == a + b[..|b| - 1];
      SumsConcat(a, b[..|b| - 1]);
    }
  }

  lemma OneMore(x: int, n: nat)
    requires n > 0
    ensures x * n == x * (n - 1) + x
  {}

  lemma {:induction false} SumsOfCopies(line: Item, n: nat)
    ensures var lines := seq(n, _ => line);
      && Subtotal(lines) == line.lineTotal * n
      && DiscountSum(lines) == line.discount * n
      && EffectiveTotal(lines) == EffectiveLineTotal(line) * n
  {
    if n > 0 {
      SumsOfCopies(line, n - 1);
      assert seq(n, _ => line)[..n - 1] == seq(n - 1, _ => line);
      OneMore(line.lineTotal, n);
      OneMore(line.discount, n);
      OneMore(EffectiveLineTotal(line), n);
    }
  }

  /** A line of n units costs what n lines of one unit cost. */
  lemma LineEqualsUnits(item: Item, discount: Option<PromoDiscount>)
    requires item.product.Some?
    ensures var units := Prepared(Repeated(item.product.value, item.quantity), discount);
      var line := SavedItem(item, discount);
      && Subtotal(units) == line.lineTotal
      && DiscountSum(units) == line.discount
      && EffectiveTotal(units) == EffectiveLineTotal(line) == line.lineTotal - line.discount
  {
    var product := item.product.value;
    var unit := PreparedItem(product, discount);
    assert Prepared(Repeated(product, item.quantity), discount) == seq(item.quantity, _ => unit);
    SumsOfCopies(unit, item.quantity);
    Distribute(product.price, UnitDiscount(product, discount), item.quantity);
    assert EffectiveLineTotal(unit) == product.price - UnitDiscount(product, discount);
  }

  lemma PreparedConcat(a: seq<Product>, b: seq<Product>, discount: Option<PromoDiscount>)
    ensures Prepared(a + b, discount) == Prepared(a, discount) + Prepared(b, discount)
  {}

  lemma SavedSnoc(items: seq<Item>, discount: Option<PromoDiscount>)
    requires HasProducts(items) && items != []
    ensures var n := |items| - 1;
      HasProducts(items[..n]) && Saved(items, discount) == Saved(items[..n], discount) + [SavedItem(items[n], discount)]
  {}

  /** The sums over saved lines are those over the lines prepared for their products. */
  ghost predicate SameSums(saved: seq<Item>, prepared: seq<Item>) {
    && Subtotal(saved) == Subtotal(prepared)
    && DiscountSum(saved) == DiscountSum(prepared)
    && EffectiveTotal(saved) == EffectiveTotal(prepared) == Subtotal(saved) - DiscountSum(saved)
  }

  lemma OneMoreLine(saved: seq<Item>, prepared: seq<Item>, line: Item, units: seq<Item>)
    requires SameSums(saved, prepared) && SameSums([line], units)
    ensures SameSums(saved + [line], prepared + units)
  {
    SumsConcat(saved, [line]);
    SumsConcat(prepared, units);
  }

  lemma SumsOfOne(line: Item)
    ensures Subtotal([line]) == line.lineTotal && DiscountSum([line]) == line.discount
    ensures EffectiveTotal([line]) == EffectiveLineTotal(line) && Quantity([line]) == line.quantity
  {
    assert [line][..0] == [];
  }

  /** The recalculated lines amount to exactly what checkout would charge for the expanded list of
      single products: discounts are rounded per unit, before they are multiplied. */
  lemma {:induction false} ExpansionEquivalence(items: seq<Item>, discount: Option<PromoDiscount>)
    requires HasProducts(items)
    ensures SameSums(Saved(items, discount), Prepared(Expanded(items), discount))
    ensures Quantity(Saved(items, discount)) == |Expanded(items)|
  {
    if items != [] {
      var n := |items| - 1;
      var products := Repeated(items[n].product.value, items[n].quantity);
      var line := SavedItem(items[n], discount);
      SavedSnoc(items, discount);
      PreparedConcat(Expanded(items[..n]), products, discount);
      ExpansionEquivalence(items[..n], discount);
      LineEqualsUnits(items[n], discount);
      SumsOfOne(line);
      OneMoreLine(Saved(items[..n], discount), Prepared(Expanded(items[..n]), discount), line,
                  Prepared(products, discount));
      QuantitySnoc(Saved(items[..n], discount), line);
    }
  }

  lemma QuantitySnoc(items: seq<Item>, line: Item)
    ensures Quantity(items + [line]) == Quantity(items) + line.quantity
  {
    assert (items + [line])[..|items|] == items;
  }

  lemma Distribute(price: int, discount: int, n: int)
    ensures (price - discount) * n == price * n - discount * n
  {}

  // ---------- bounds ----------

  lemma PercentDiscountBounds(amount: int, percent: int)
    requires amount >= 0 && 0 <= percent <= 100
    ensures 0 <= PercentDiscount(amount, percent) <= amount
    ensures -50 < 100 * PercentDiscount(amount, percent) - amount * percent <= 50
  {
    assert 0 <= amount * percent <= amount * 100;
  }

  /** Prices are not negative and a promo code takes at most everything off. */
  ghost predicate SaneAmounts(items: seq<Item>, discount: Option<PromoDiscount>)
    requires HasProducts(items)
  {
    && (forall i :: 0 <= i < |items| ==> items[i].product.value.price >= 0)
    && (discount.Some? ==> 0 <= discount.value.promo.percent <= 100)
  }

  lemma {:induction false} TotalsInRange(items: seq<Item>, discount: Option<PromoDiscount>)
    requires HasProducts(items) && SaneAmounts(items, discount)
    ensures var saved := Saved(items, discount);
      0 <= DiscountSum(saved) <= Subtotal(saved)
  {
    if items != [] {
      var n := |items| - 1;
      TotalsInRange(items[..n], discount);
      assert Saved(items, discount)[..n] == Saved(items[..n], discount);
      var product := items[n].product.value;
      if Eligible(product, discount) { PercentDiscountBounds(product.price, discount.value.promo.percent); }
      MultiplyBounds(UnitDiscount(product, discount), product.price, items[n].quantity);
    }
  }

  lemma MultiplyBounds(a: int, b: int, n: nat)
    requires 0 <= a <= b
    ensures 0 <= a * n <= b * n
  {}

  /** After a successful recalculation the header agrees with the lines, the total is what the lines
      cost and, for sane amounts, lies between zero and the subtotal; there is one redemption exactly
      when a promo code applies. */
  lemma HeaderMatchesLines(o: Order, evaluate: Evaluation)
    requires RecalculateTx(o, evaluate).1.Recalculated?
    ensures var after := RecalculateTx(o, evaluate).0;
      && after.header.total == EffectiveTotal(after.items)
      && after.header.subtotal == Subtotal(after.items) && after.header.discount == DiscountSum(after.items)
      && after.header.itemsCount == |Expanded(o.items)|
      && |after.redemptions| == (if o.header.promo.Some? then 1 else 0)
      && (o.header.promo.Some? ==> after.header.promo == Some(after.redemptions[0].promo))
      && (o.header.promo.Some? ==> after.redemptions[0].subtotal == after.header.subtotal)
      && after.header.currency == after.items[0].product.value.currency && after.status == o.status
    ensures var after := RecalculateTx(o, evaluate).0;
      if o.header.promo.None?
      then after.header.promo == None && after.header.promoSnapshot == "" && after.header.percentSnapshot == None &&
        after.header.eligibleAmount == 0
      else
        var discount := evaluate(o.header.promo.value, Expanded(o.items)).discount;
        && after.header.promo == Some(discount.promo) && after.header.promoSnapshot == discount.promo.code
        && after.header.percentSnapshot == Some(discount.promo.percent)
        && after.header.eligibleAmount == discount.eligibleAmount == after.redemptions[0].eligibleAmount
        && after.redemptions[0].discountAmount == discount.discountAmount
    ensures var after := RecalculateTx(o, evaluate).0;
      (forall i :: 0 <= i < |o.items| ==> o.items[i].product.Some? && o.items[i].product.value.price >= 0) &&
      (after.header.promo.Some? ==> 0 <= after.header.promo.value.percent <= 100) ==>
        0 <= after.header.total <= after.header.subtotal
  {
    var promo := ResolvedPromo(o.header.promo, Expanded(o.items), evaluate);
    var discount := if promo.Some? then Some(promo.value.discount) else None;
    ExpansionEquivalence(o.items, discount);
    if SaneAmounts(o.items, discount) {
      TotalsInRange(o.items, discount);
    }
  }

  /** When a recalculation does what. */
  lemma OutcomeIff(o: Order, evaluate: Evaluation)
    ensures var outcome := RecalculateTx(o, evaluate).1;
      var valid := (forall i :: 0 <= i < |o.items| ==> o.items[i].product.Some?) &&
        forall i, j :: 0 <= i < |o.items| && 0 <= j < |o.items| ==>
          o.items[i].product.value.currency == o.items[j].product.value.currency;
      && (outcome.Untouched? <==> o.status != Created)
      && (outcome.Cleared? <==> o.status == Created && o.items == [])
      && (outcome.Recalculated? <==>
        o.status == Created && o.items != [] && valid &&
        (o.header.promo.Some? ==> evaluate(o.header.promo.value, Expanded(o.items)).Discount?))
      && (outcome.ValidationError? || outcome.Untouched? ==> RecalculateTx(o, evaluate).0 == o)
  {}

  // ---------- idempotence ----------

  /** A promo code is looked up by its own code, so evaluation returns the code it was asked about. */
  ghost predicate KeepsPromo(evaluate: Evaluation, promo: Promo, products: seq<Product>) {
    evaluate(promo, products).Discount? ==> evaluate(promo, products).discount.promo == promo
  }

  lemma {:induction false} SavedKeepsExpansion(items: seq<Item>, discount: Option<PromoDiscount>)
    requires HasProducts(items)
    ensures HasProducts(Saved(items, discount)) && Expanded(Saved(items, discount)) == Expanded(items)
  {
    if items != [] {
      SavedKeepsExpansion(items[..|items| - 1], discount);
      assert Saved(items, discount)[..|items| - 1] == Saved(items[..|items| - 1], discount);
    }
  }

  /** A second recalculation changes nothing: lines, header and redemption stay as the first left
      them. Orders that are not CREATED and orders that fail validation are not touched at all. */
  lemma RecalculationIsIdempotent(o: Order, evaluate: Evaluation)
    requires o.header.promo.Some? && o.items != [] && HasProducts(o.items) ==>
               KeepsPromo(evaluate, o.header.promo.value, Expanded(o.items))
    ensures var (once, outcome) := RecalculateTx(o, evaluate);
      && RecalculateTx(once, evaluate) == (once, outcome)
      && (outcome.Untouched? || outcome.ValidationError? ==> once == o)
      && (outcome.Untouched? <==> !o.status.Created?)
  {
    var (once, outcome) := RecalculateTx(o, evaluate);
    if outcome.Recalculated? {
      var promo := ResolvedPromo(o.header.promo, Expanded(o.items), evaluate);
      var discount := if promo.Some? then Some(promo.value.discount) else None;
      SavedKeepsExpansion(o.items, discount);
      assert once.header.promo == o.header.promo;
      assert OneCurrency(once.items);
      assert Saved(once.items, discount) == once.items;
    }
  }

  // ---------- rounding once or per line ----------

  function EligibleAmount(products: seq<Product>, discount: Option<PromoDiscount>): int {
    if products == [] then 0
    else
      EligibleAmount(products[..|products| - 1], discount) +
      if Eligible(products[|products| - 1], discount) then products[|products| - 1].price else 0
  }

  function EligibleCount(products: seq<Product>, discount: Option<PromoDiscount>): nat {
    if products == [] then 0
    else EligibleCount(products[..|products| - 1], discount) + if Eligible(products[|products| - 1], discount) then 1
      else 0
  }

  /** By how many ten-thousandths the rounded discounts of the eligible products exceed the exact ones. */
  function Residues(products: seq<Product>, discount: Option<PromoDiscount>): int {
    if products == [] then 0
    else
      var last := products[|products| - 1];
      Residues(products[..|products| - 1], discount) + if Eligible(last, discount)
        then Residue(last.price, discount.value.promo.percent) else 0
  }

  function Residue(price: int, percent: int): int {
    50 - (price * percent + 50) % 100
  }

  lemma RoundedByResidue(price: int, percent: int)
    requires price >= 0 && 0 <= percent <= 100
    ensures 100 * PercentDiscount(price, percent) == price * percent + Residue(price, percent)
    ensures -49 <= Residue(price, percent) <= 50
  {
    PercentDiscountBounds(price, percent);
  }

  ghost predicate SanePrices(products: seq<Product>, discount: Option<PromoDiscount>) {
    && discount.Some? && 0 <= discount.value.promo.percent <= 100
    && (forall i :: 0 <= i < |products| ==> products[i].price >= 0)
  }

  lemma {:induction false} LinesByResidues(products: seq<Product>, discount: Option<PromoDiscount>)
    requires SanePrices(products, discount)
    ensures 100 * DiscountSum(Prepared(products, discount)) ==
      EligibleAmount(products, discount) * discount.value.promo.percent + Residues(products, discount)
    ensures var n := EligibleCount(products, discount); -49 * n <= Residues(products, discount) <= 50 * n
    ensures EligibleAmount(products, discount) >= 0
  {
    if products != [] {
      var m := |products| - 1;
      LinesByResidues(products[..m], discount);
      assert Prepared(products, discount)[..m] == Prepared(products[..m], discount);
      if Eligible(products[m], discount) {
        var percent := discount.value.promo.percent;
        RoundedByResidue(products[m].price, percent);
        AddPercent(EligibleAmount(products[..m], discount), products[m].price, percent);
      }
    }
  }

  lemma AddPercent(a: int, b: int, percent: int)
    ensures (a + b) * percent == a * percent + b * percent
  {}

  /** The order header at checkout rounds the discount once, its lines round one by one. The two sums
      agree if and only if the residues of the lines together round to nothing; they differ by at most
      half a hundredth per eligible product, and never for a single one. */
  lemma RoundingGap(products: seq<Product>, discount: Option<PromoDiscount>)
    requires SanePrices(products, discount)
    ensures var lines := DiscountSum(Prepared(products, discount));
      var once := PercentDiscount(EligibleAmount(products, discount), discount.value.promo.percent);
      && (lines == once <==> -50 < Residues(products, discount) <= 50)
      && 2 * (lines - once) <= EligibleCount(products, discount)
      && 2 * (once - lines) <= EligibleCount(products, discount)
      && (EligibleCount(products, discount) <= 1 ==> lines == once)
  {
    LinesByResidues(products, discount);
    RoundedByResidue(EligibleAmount(products, discount), discount.value.promo.percent);
  }

  /** The gap is real: two products at 0.05 with ten percent off. */
  lemma RoundingGapExample()
    ensures exists products: seq<Product>, discount: Option<PromoDiscount> ::
      DiscountSum(Prepared(products, discount)) == 2 && discount.Some? &&
      PercentDiscount(EligibleAmount(products, discount), discount.value.promo.percent) == 1
  {
    var product := Product(1, 5, 933, {}, Snapshot("", "", "", ""));
    var discount := Some(PromoDiscount(Promo(1, "TEN", 10, {}, {}), 10, 1));
    var products := Repeated(product, 2);
    LineEqualsUnits(Item(Some(product), 2, 0, 0, false, 0, None, None), discount);
    assert products[..1] == Repeated(product, 1) && products[..1][..0] == [];
    assert Eligible(product, discount);
    assert EligibleAmount(products[..1], discount) == 5;
    assert EligibleAmount(products, discount) == 10;
    assert DiscountSum(Prepared(products, discount)) == 2;
  }

  // ---------- the discount of the redemption ----------

  function PriceSum(products: seq<Product>): int {
    if products == [] then 0 else PriceSum(products[..|products| - 1]) + products[|products| - 1].price
  }

  /** The amounts of a usable promo code over a product list. */
  function PromoAmounts(promo: Promo, minimum: Option<int>, products: seq<Product>): PromoResult {
    var eligible := EligibleAmount(products, Some(PromoDiscount(promo, 0, 0)));
    var discount := PercentDiscount(eligible, promo.percent);
    if eligible <= 0 then PromoError("not applicable")
    else if minimum.Some? && eligible < minimum.value then PromoError("below the minimum")
    else if PriceSum(products) - discount <= 0 then PromoError("not for free")
    else Discount(PromoDiscount(promo, eligible, discount))
  }

  /** Where the evaluation gives a discount, it gives those amounts. */
  ghost predicate FollowsAmounts(evaluate: Evaluation, promo: Promo, products: seq<Product>) {
    evaluate(promo, products).Discount? ==>
      exists minimum :: evaluate(promo, products) == PromoAmounts(promo, minimum, products)
  }

  /** Which products are eligible depends on the promo code only. */
  lemma {:induction false} EligibleByPromo(products: seq<Product>, a: PromoDiscount, b: PromoDiscount)
    requires a.promo == b.promo
    ensures EligibleAmount(products, Some(a)) == EligibleAmount(products, Some(b))
  {
    if products != [] {
      EligibleByPromo(products[..|products| - 1], a, b);
      assert Eligible(products[|products| - 1], Some(a)) == Eligible(products[|products| - 1], Some(b));
    }
  }

  /** After a recalculation the redemption still records the discount rounded once, the header the sum of
      the rounded lines: they agree under exactly the condition of RoundingGap, and never with a gap
      of more than half a hundredth per eligible unit. */
  lemma RedemptionGap(o: Order, evaluate: Evaluation)
    requires RecalculateTx(o, evaluate).1.Recalculated? && o.header.promo.Some?
    requires FollowsAmounts(evaluate, o.header.promo.value, Expanded(o.items))
    requires SanePrices(Expanded(o.items), Some(evaluate(o.header.promo.value, Expanded(o.items)).discount))
    ensures var after := RecalculateTx(o, evaluate).0; var products := Expanded(o.items);
      var discount := Some(evaluate(o.header.promo.value, products).discount);
      && |after.redemptions| == 1 && after.redemptions[0].eligibleAmount == EligibleAmount(products, discount)
      && (after.redemptions[0].discountAmount == after.header.discount <==> -50 < Residues(products, discount) <= 50)
      && 2 * (after.redemptions[0].discountAmount - after.header.discount) <= EligibleCount(products, discount)
      && 2 * (after.header.discount - after.redemptions[0].discountAmount) <= EligibleCount(products, discount)
  {
    var products := Expanded(o.items);
    var discount := evaluate(o.header.promo.value, products).discount;
    ExpansionEquivalence(o.items, Some(discount));
    EligibleByPromo(products, discount, PromoDiscount(o.header.promo.value, 0, 0));
    RoundingGap(products, Some(discount));
  }
}
