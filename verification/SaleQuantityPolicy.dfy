/** A product's quantity rules, in exact arithmetic, and their use for a cart that already holds the product. */
module SaleQuantityPolicy {
  import opened Sums

  datatype Stock = Stock(isDecimal: bool, minSaleQty: real, enableIncrements: bool, qtyIncrement: real,
      maxSaleQty: real)

  datatype Policy = Policy(minimum: real, maximum: Option<real>, increment: real, defaultQty: Option<real>,
      isDecimal: bool, resolved: bool)

  const FALLBACK := Policy(1.0, None, 1.0, Some(1.0), false, false)

  function MaxReal(x: real, y: real): real {
    if x >= y then x else y
  }

  predicate IsWhole(x: real) {
    x.Floor as real == x
  }

  function Ceil(x: real): int {
    if IsWhole(x) then x.Floor else x.Floor + 1
  }

  function Times(k: int, d: real): real {
    k as real * d
  }

  function Over(x: real, d: real): real
    requires d != 0.0
  {
    x / d
  }

  predicate IsMultiple(qty: real, increment: real) {
    increment <= 0.0 || IsWhole(Over(qty, increment))
  }

  // ---------------------------------------------------------------- the policy

  function EffectiveIncrement(stock: Stock): real {
    if stock.enableIncrements then MaxReal(0.0, stock.qtyIncrement) else 0.0
  }

  /** The least quantity before increments and rounding. */
  function Floor(stock: Stock): real {
    MaxReal(MaxReal(MaxReal(0.0, stock.minSaleQty), EffectiveIncrement(stock)), 1.0)
  }

  function Stepped(stock: Stock): real {
    var increment := EffectiveIncrement(stock);
    if increment > 0.0 then Times(Ceil(Over(Floor(stock), increment)), increment) else Floor(stock)
  }

  function PolicyOf(stock: Stock): Policy {
    var increment := EffectiveIncrement(stock);
    var minimum := if stock.isDecimal then Stepped(stock) else Ceil(Stepped(stock)) as real;
    var step := if increment <= 0.0 then 1.0 else if stock.isDecimal then increment else Ceil(increment) as real;
    var maximum := if stock.maxSaleQty > 0.0 then Some(stock.maxSaleQty) else None;
    Policy(minimum, maximum, step, if maximum.Some? && minimum > maximum.value then None
        else Some(minimum), stock.isDecimal, true)
  }

  predicate Valid(policy: Policy, qty: real) {
    && qty > 0.0
    && qty >= policy.minimum
    && (policy.maximum.Some? ==> qty <= policy.maximum.value)
    && (policy.isDecimal || IsWhole(qty))
    && (policy.increment <= 0.0 || IsMultiple(qty, policy.increment))
  }

  /** `stock` is None when the registry throws. */
  function Looked(stock: Option<Stock>): Policy {
    if stock.None? then FALLBACK else PolicyOf(stock.value)
  }

  class SaleQuantityPolicies {
    var policies: map<int, Policy>

    constructor ()
      ensures policies == map[]
    {
      policies := map[];
    }

    /** The first answer for a product is kept. */
    method GetPolicy(product: int, stock: Option<Stock>) returns (policy: Policy)
      modifies this
      ensures product < 1 ==> policy == FALLBACK && policies == old(policies)
      ensures product >= 1 ==> policy == (if product in old(policies) then old(policies)[product] else Looked(stock))
      ensures product >= 1 ==> policies == old(policies)[product := policy]
    {
      if product < 1 {
        return FALLBACK;
      }
      if product in policies {
        policy := policies[product];
        assert policies[product := policy] == policies;
        return;
      }
      if stock.None? {
        policies := policies[product := FALLBACK];
        return FALLBACK;
      }
      var item := stock.value;
      var increment := if item.enableIncrements then MaxReal(0.0, item.qtyIncrement) else 0.0;
      var minimum := MaxReal(MaxReal(MaxReal(0.0, item.minSaleQty), increment), 1.0);
      if increment > 0.0 {
        minimum := Times(Ceil(Over(minimum, increment)), increment);
      }
      if !item.isDecimal {
        minimum := Ceil(minimum) as real;
        increment := if increment > 0.0 then Ceil(increment) as real else 1.0;
      } else if increment <= 0.0 {
        increment := 1.0;
      }
      var maximum := if item.maxSaleQty > 0.0 then Some(item.maxSaleQty) else None;
      var defaultQty := if maximum.Some? && minimum > maximum.value then None else Some(minimum);
      policy := Policy(minimum, maximum, increment, defaultQty, item.isDecimal, true);
      policies := policies[product := policy];
    }

    method Validate(product: int, stock: Option<Stock>, qty: real) returns (valid: bool, policy: Policy)
      modifies this
      ensures policy == (if product < 1 then FALLBACK else if product in old(policies) then old(policies)[product]
          else Looked(stock))
      ensures policies == if product < 1 then old(policies) else old(policies)[product := policy]
      ensures valid == Valid(policy, qty)
    {
      policy := GetPolicy(product, stock);
      valid := qty > 0.0 && qty >= policy.minimum && (policy.maximum.Some? ==> qty <= policy.maximum.value)
        && (policy.isDecimal || IsWhole(qty)) && (policy.increment <= 0.0 || IsMultiple(qty, policy.increment));
    }
  }

  // ---------------------------------------------------------------- whole numbers and multiples

  lemma WholeNumber(x: real, n: int)
    requires x == n as real
    ensures IsWhole(x) && x.Floor == n && Ceil(x) == n
  {
  }

  lemma WholeSum(x: real, y: real)
    requires IsWhole(x) && IsWhole(y)
    ensures IsWhole(x + y)
  {
    WholeNumber(x + y, x.Floor + y.Floor);
  }

  lemma DivideSum(x: real, y: real, d: real)
    requires d > 0.0
    ensures Over(x, d) + Over(y, d) == Over(x + y, d)
  {
  }

  lemma MultipleDivides(k: int, d: real)
    requires d > 0.0
    ensures Over(Times(k, d), d) == k as real && IsMultiple(Times(k, d), d)
  {
    var q := k as real * d;
    var r := q / d;
    assert r * d == q;
    assert (r - k as real) * d == 0.0;
    WholeNumber(Over(Times(k, d), d), k);
  }

  lemma WholeProductOf(k: int, n: int)
    ensures Times(k, n as real) == (k * n) as real
  {
  }

  lemma WholeProduct(k: int, d: real)
    requires IsWhole(d)
    ensures IsWhole(Times(k, d))
  {
    WholeProductOf(k, d.Floor);
    WholeNumber(Times(k, d), k * d.Floor);
  }

  // ---------------------------------------------------------------- the default quantity

  /** What a product's own settings must satisfy for its default quantity to pass: an enabled increment of a
      non-decimal product whose rounded minimum is a multiple of the rounded increment; a decimal product without
      increments whose minimum is whole. */
  predicate DefaultFits(stock: Stock) {
    var increment := EffectiveIncrement(stock);
    if increment > 0.0 then
      stock.isDecimal || IsMultiple(Ceil(Stepped(stock)) as real, Ceil(increment) as real)
    else
      stock.isDecimal ==> IsWhole(Floor(stock))
  }

  lemma SteppedIsMultiple(stock: Stock)
    requires EffectiveIncrement(stock) > 0.0
    ensures IsMultiple(Stepped(stock), EffectiveIncrement(stock)) && Stepped(stock) >= Floor(stock)
  {
    var increment := EffectiveIncrement(stock);
    var steps := Ceil(Over(Floor(stock), increment));
    MultipleDivides(steps, increment);
    ScaleUp(Floor(stock), steps, increment);
  }

  lemma ScaleUp(x: real, k: int, d: real)
    requires d > 0.0 && Over(x, d) <= k as real
    ensures x <= Times(k, d)
  {
    var r := x / d;
    assert r * d == x;
    assert (k as real - r) * d >= 0.0;
  }

  lemma DividesByOne(x: real)
    ensures IsMultiple(x, 1.0) <==> IsWhole(x)
  {
    assert Over(x, 1.0) == x;
  }

  /** The default quantity offered for a product passes validation exactly when its settings fit. */
  lemma DefaultPasses(stock: Stock)
    requires PolicyOf(stock).defaultQty.Some?
    ensures Valid(PolicyOf(stock), PolicyOf(stock).defaultQty.value) <==> DefaultFits(stock)
  {
    var increment, policy := EffectiveIncrement(stock), PolicyOf(stock);
    DividesByOne(policy.minimum);
    if increment > 0.0 {
      SteppedIsMultiple(stock);
    }
  }

  /** An enabled whole increment always fits a non-decimal product. */
  lemma WholeIncrementFits(stock: Stock)
    requires EffectiveIncrement(stock) > 0.0 && IsWhole(EffectiveIncrement(stock))
    ensures DefaultFits(stock)
  {
    var increment := EffectiveIncrement(stock);
    SteppedIsMultiple(stock);
    WholeProduct(Ceil(Over(Floor(stock), increment)), increment);
    WholeNumber(Stepped(stock), Stepped(stock).Floor);
    WholeNumber(increment, increment.Floor);
  }

  /** A fractional increment may not: at least three, in steps of one and a half, a non-decimal product is offered
      three, which is no multiple of the rounded step of two. */
  lemma FractionalIncrementFails(maximum: real)
    requires maximum <= 0.0 || maximum >= 3.0
    ensures var stock := Stock(false, 3.0, true, 1.5, maximum);
            PolicyOf(stock).defaultQty == Some(3.0) && !Valid(PolicyOf(stock), 3.0)
  {
    var stock := Stock(false, 3.0, true, 1.5, maximum);
    assert Over(3.0, 1.5) == 2.0 && Over(3.0, 2.0) == 1.5;
    WholeNumber(2.0, 2);
    WholeNumber(3.0, 3);
    assert Times(2, 1.5) == 3.0 && !IsWhole(1.5) && Ceil(1.5) == 2;
  }

  /** What the shop's own settings ask of a quantity, before any rounding. */
  predicate Purchasable(stock: Stock, qty: real) {
    && qty >= Floor(stock) && (stock.isDecimal || IsWhole(qty)) && IsMultiple(qty, EffectiveIncrement(stock))
  }

  /** The policy's minimum is the least purchasable quantity, for decimal products and for whole increments. */
  lemma MinimumIsLeast(stock: Stock, qty: real)
    requires stock.isDecimal || IsWhole(EffectiveIncrement(stock))
    ensures Purchasable(stock, PolicyOf(stock).minimum)
    ensures Purchasable(stock, qty) ==> qty >= PolicyOf(stock).minimum
  {
    if EffectiveIncrement(stock) > 0.0 {
      MinimumIsStepped(stock);
      SteppedIsMultiple(stock);
      if Purchasable(stock, qty) {
        StepsReach(Floor(stock), qty, EffectiveIncrement(stock));
      }
    } else if Purchasable(stock, qty) && !stock.isDecimal {
      CeilIsLeast(Floor(stock), qty);
    }
  }

  lemma MinimumIsStepped(stock: Stock)
    requires EffectiveIncrement(stock) > 0.0 && (stock.isDecimal || IsWhole(EffectiveIncrement(stock)))
    ensures PolicyOf(stock).minimum == Stepped(stock) && (stock.isDecimal || IsWhole(Stepped(stock)))
  {
    if !stock.isDecimal {
      WholeProduct(Ceil(Over(Floor(stock), EffectiveIncrement(stock))), EffectiveIncrement(stock));
    }
  }

  lemma CeilIsLeast(low: real, qty: real)
    requires qty >= low && IsWhole(qty)
    ensures Ceil(low) as real <= qty
  {
    assert low.Floor <= qty.Floor;
  }

  lemma StepsReach(low: real, qty: real, d: real)
    requires d > 0.0 && qty >= low && IsWhole(Over(qty, d))
    ensures Times(Ceil(Over(low, d)), d) <= qty
  {
    var difference := (qty - low) / d;
    assert difference * d == qty - low;
    assert difference >= 0.0;
    DivideSum(low, qty - low, d);
    CeilIsLeast(Over(low, d), Over(qty, d));
    ScaleDown(Ceil(Over(low, d)), qty, d);
  }

  lemma ScaleDown(k: int, x: real, d: real)
    requires d > 0.0 && k as real <= Over(x, d)
    ensures Times(k, d) <= x
  {
    var r := x / d;
    assert r * d == x;
    assert (r - k as real) * d >= 0.0;
  }

  // ---------------------------------------------------------------- what a policy allows

  predicate InSteps(stock: Stock) {
    stock.enableIncrements && stock.qtyIncrement > 0.0
  }

  /** What the product's stock settings allow, written out: at least one and its minimum, at most a positive maximum,
      whole unless the product is decimal, and in its steps, or in ones without any. */
  predicate Allowed(stock: Stock, qty: real) {
    && qty >= 1.0 && qty >= stock.minSaleQty
    && (stock.maxSaleQty > 0.0 ==> qty <= stock.maxSaleQty)
    && (stock.isDecimal || IsWhole(qty))
    && if InSteps(stock) then qty >= stock.qtyIncrement && IsWhole(Over(qty, stock.qtyIncrement)) else IsWhole(qty)
  }

  /** For decimal products, and for others in whole steps or none, a quantity is valid exactly when the settings allow
      it. */
  lemma ValidIsAllowed(stock: Stock, qty: real)
    requires stock.isDecimal || !InSteps(stock) || IsWhole(stock.qtyIncrement)
    ensures Valid(PolicyOf(stock), qty) <==> Allowed(stock, qty)
  {
    DividesByOne(qty);
    MinimumIsLeast(stock, qty);
    if !InSteps(stock) {
      WholeNumber(Ceil(Floor(stock)) as real, Ceil(Floor(stock)));
    }
  }

  /** For the others both the step and the minimum are rounded up to whole numbers. */
  lemma RoundedUp(stock: Stock)
    requires !stock.isDecimal && InSteps(stock)
    ensures var policy := PolicyOf(stock);
            && IsWhole(policy.increment) && policy.increment - 1.0 < stock.qtyIncrement <= policy.increment
            && IsWhole(policy.minimum) && policy.minimum >= 1.0 && policy.minimum >= stock.minSaleQty
            && policy.minimum >= stock.qtyIncrement
            && exists k: int :: policy.minimum - 1.0 < Times(k, stock.qtyIncrement) <= policy.minimum
  {
    var steps := Ceil(Over(Floor(stock), stock.qtyIncrement));
    SteppedIsMultiple(stock);
    assert PolicyOf(stock).minimum - 1.0 < Times(steps, stock.qtyIncrement) <= PolicyOf(stock).minimum;
  }

  /** Without steps the minimum is the product's own or one, whichever is more, rounded up unless the product is
      decimal, and quantities go in ones; with steps a decimal product goes in its own. */
  lemma MinimumOfSettings(stock: Stock)
    ensures var policy, low := PolicyOf(stock), if stock.minSaleQty > 1.0 then stock.minSaleQty else 1.0;
            && (!InSteps(stock) ==> policy.increment == 1.0)
            && (!InSteps(stock) && stock.isDecimal ==> policy.minimum == low)
            && (!InSteps(stock) && !stock.isDecimal ==>
                  IsWhole(policy.minimum) && policy.minimum - 1.0 < low <= policy.minimum)
            && (InSteps(stock) && stock.isDecimal ==> policy.increment == stock.qtyIncrement)
  {
    WholeNumber(Ceil(Floor(stock)) as real, Ceil(Floor(stock)));
  }

  /** The default is the least valid quantity there can be, and there is none when even that exceeds the maximum. */
  lemma DefaultIsLeastValid(stock: Stock, qty: real)
    ensures var policy := PolicyOf(stock);
            && (Valid(policy, qty) ==> policy.defaultQty.Some? && policy.defaultQty.value <= qty)
            && (policy.defaultQty.Some? ==> policy.defaultQty.value == policy.minimum)
            && (policy.defaultQty.None? <==> stock.maxSaleQty > 0.0 && policy.minimum > stock.maxSaleQty)
            && policy.isDecimal == stock.isDecimal && policy.resolved
  {
  }

  /** A product whose stock is not found is sold in whole numbers from one on. */
  lemma UnknownStockSellsWhole(qty: real)
    ensures Valid(Looked(None), qty) <==> qty >= 1.0 && IsWhole(qty)
    ensures Looked(None).defaultQty == Some(1.0) && !Looked(None).resolved && !Looked(None).isDecimal
  {
    DividesByOne(qty);
  }

  // ---------------------------------------------------------------- combining cart lines

  function Sum(quantities: seq<real>): real {
    if quantities == [] then 0.0 else Sum(quantities[..|quantities| - 1]) + quantities[|quantities| - 1]
  }

  /** Two valid quantities combine to a valid one exactly when the maximum allows their sum. */
  lemma CombinedQuantity(policy: Policy, x: real, y: real)
    requires Valid(policy, x) && Valid(policy, y)
    ensures Valid(policy, x + y) <==> (policy.maximum.Some? ==> x + y <= policy.maximum.value)
  {
    if !policy.isDecimal {
      WholeSum(x, y);
    }
    if policy.increment > 0.0 {
      WholeSum(Over(x, policy.increment), Over(y, policy.increment));
      DivideSum(x, y, policy.increment);
    }
  }

  /** However many valid quantities a cart holds, together they can fail on the maximum alone. */
  lemma {:induction false} CombinedQuantities(policy: Policy, quantities: seq<real>)
    requires quantities != [] && forall i :: 0 <= i < |quantities| ==> Valid(policy, quantities[i])
    ensures Sum(quantities) > 0.0 && Valid(policy.(maximum := None), Sum(quantities))
    ensures Valid(policy, Sum(quantities)) <==> (policy.maximum.Some? ==> Sum(quantities) <= policy.maximum.value)
  {
    var open := policy.(maximum := None);
    var front, last := quantities[..|quantities| - 1], quantities[|quantities| - 1];
    if front != [] {
      CombinedQuantities(policy, front);
      CombinedQuantity(open, Sum(front), last);
    } else {
      assert Sum(front) == 0.0;
    }
  }

  /** One visible cart item: its own product, its parent's, and its quantity. */
  datatype CartLine = CartLine(product: int, parent: int, qty: real)

  predicate Concerns(line: CartLine, product: int) {
    line.product == product || line.parent == product
  }

  function Held(lines: seq<CartLine>, product: int): seq<real> {
    if lines == [] then [] else
      var line := lines[|lines| - 1];
      Held(lines[..|lines| - 1], product) + if Concerns(line, product) then [line.qty] else []
  }

  method GetExistingProductQty(lines: seq<CartLine>, product: int) returns (qty: real)
    ensures qty == Sum(Held(lines, product))
  {
    qty := 0.0;
    for k := 0 to |lines|
      invariant qty == Sum(Held(lines[..k], product))
    {
      assert lines[..k + 1][..k] == lines[..k];
      ghost var held := Held(lines[..k], product);
      if lines[k].product == product || lines[k].parent == product {
        assert (held + [lines[k].qty])[..|held|] == held;
        qty := qty + lines[k].qty;
      } else {
        assert held + [] == held;
      }
    }
    assert lines[..|lines|] == lines;
  }

  /** A cart line counts for its own product and for its parent, and once. */
  lemma LinesAddUp(lines: seq<CartLine>, line: CartLine, product: int)
    ensures Sum(Held([], product)) == 0.0
    ensures Sum(Held(lines + [line], product))
         == Sum(Held(lines, product)) + if product == line.product || product == line.parent then line.qty else 0.0
  {
    var held := Held(lines, product);
    assert (lines + [line])[..|lines|] == lines;
    assert (held + [line.qty])[..|held|] == held && held + [] == held;
  }

  /** The two checks before a product joins the cart: the quantity alone, then with what the cart holds of it. */
  predicate Admits(policy: Policy, existing: real, qty: real) {
    Valid(policy, qty) && (existing > 0.0 ==> Valid(policy, existing + qty))
  }

  method MayAdd(policy: Policy, lines: seq<CartLine>, product: int, qty: real) returns (allowed: bool)
    ensures allowed == Admits(policy, Sum(Held(lines, product)), qty)
  {
    if !Valid(policy, qty) {
      return false;
    }
    var existing := GetExistingProductQty(lines, product);
    if existing > 0.0 && !Valid(policy, existing + qty) {
      return false;
    }
    allowed := true;
  }

  /** A valid quantity joins a cart of valid lines exactly when the maximum allows the total. */
  lemma CartFailsOnTheMaximumAlone(policy: Policy, lines: seq<CartLine>, product: int, qty: real)
    requires Valid(policy, qty) && forall i :: 0 <= i < |Held(lines, product)| ==>
               Valid(policy, Held(lines, product)[i])
    ensures Admits(policy, Sum(Held(lines, product)), qty)
      <==> (policy.maximum.Some? ==> Sum(Held(lines, product)) + qty <= policy.maximum.value)
  {
    var held := Held(lines, product);
    if held != [] {
      CombinedQuantities(policy, held);
      CombinedQuantity(policy.(maximum := None), Sum(held), qty);
    }
  }

  /** The cart truncates the default it is given, so a default joins an empty cart exactly when its product's settings
      fit and it is whole. */
  lemma DefaultJoinsTheCart(stock: Stock)
    requires PolicyOf(stock).defaultQty.Some?
    ensures var policy := PolicyOf(stock);
            Admits(policy, 0.0, policy.defaultQty.value.Floor as real)
            <==> DefaultFits(stock) && IsWhole(policy.defaultQty.value)
  {
    DefaultPasses(stock);
  }
}
