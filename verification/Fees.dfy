// Marketplace fees, in integer cents, with percentages in hundredths of a percent: the two
// rounding expressions of the code, exactly, and how a percentage is resolved.
module Fees {
  import opened Prelude

  // ------------------------------------------------------------------------- rounding

  /** Math.round of num / den: the nearest integer, halves upwards (section 21.3.2.28 of ECMA-262). */
  function MathRound(num: int, den: int): int
    requires den > 0
  {
    (2 * num + den) / (2 * den)
  }

  /** The integer that toFixed chooses for num / den >= 0: the closest, the larger of two equally close. */
  function Closest(num: nat, den: int): int
    requires den > 0
  {
    var q, r := num / den, num % den;
    if den - r <= r then q + 1 else q
  }

  /** toFixed rounds the absolute value and restores the sign (section 21.1.3.3 of ECMA-262). */
  function ToFixed(num: int, den: int): int
    requires den > 0
  {
    if num < 0 then -Closest(-num, den) else Closest(num, den)
  }

  const WHOLE := 10000

  /** ((total * percentage) / 100).toFixed(2), in cents. */
  function TicketsFee(total: int, percentage: int): int {
    ToFixed(total * percentage, WHOLE)
  }

  /** Math.round(subtotal * percentage) / 100, in cents. */
  function OrdersFee(subtotal: int, percentage: int): int {
    MathRound(subtotal * percentage, WHOLE)
  }

  lemma RoundingsAgree(x: int)
    ensures ToFixed(x, WHOLE) == MathRound(x, WHOLE) <==> !(x < 0 && x % WHOLE == 5000)
    ensures ToFixed(x, WHOLE) == MathRound(x, WHOLE) || ToFixed(x, WHOLE) == MathRound(x, WHOLE) - 1
  {}

  /** The two services charge the same fee exactly when the fee is not a negative half cent; then
      tickets are one cent further from zero. */
  lemma FeesAgreeExactly(total: int, percentage: int)
    ensures TicketsFee(total, percentage) == OrdersFee(total, percentage)
       <==> !(total * percentage < 0 && (total * percentage) % WHOLE == 5000)
    ensures TicketsFee(total, percentage) != OrdersFee(total, percentage) ==>
      TicketsFee(total, percentage) == OrdersFee(total, percentage) - 1
  {
    RoundingsAgree(total * percentage);
  }

  /** One cent refunded at 50 percent: tickets round the half cent away from zero, orders towards it. */
  lemma HalfCentRefund()
    ensures TicketsFee(-1, 5000) == -1 && OrdersFee(-1, 5000) == 0
  {}

  lemma RoundNearest(x: int)
    ensures -5000 < WHOLE * MathRound(x, WHOLE) - x <= 5000
  {}

  lemma RoundMonotone(x: int, y: int)
    requires x <= y
    ensures MathRound(x, WHOLE) <= MathRound(y, WHOLE)
  {}

  lemma MulMonotone(a: int, b: int, c: int)
    requires a <= b && 0 <= c
    ensures a * c <= b * c
  {}

  predicate Percentage(p: int) {
    0 <= p <= WHOLE
  }

  /** The fee is the nearest cent to the exact percentage, lies between nothing and the total,
      and grows with both. */
  lemma FeeFacts(total: nat, percentage: int)
    requires Percentage(percentage)
    ensures var fee := TicketsFee(total, percentage);
      && fee == OrdersFee(total, percentage)
      && 0 <= fee <= total
      && -5000 < WHOLE * fee - total * percentage <= 5000
  {
    MulMonotone(0, percentage, total);
    MulMonotone(percentage, WHOLE, total);
    FeesAgreeExactly(total, percentage);
    RoundNearest(total * percentage);
  }

  lemma FeeMonotone(total: nat, percentage: int, total': nat, percentage': int)
    requires Percentage(percentage) && Percentage(percentage') && total <= total' && percentage <= percentage'
    ensures TicketsFee(total, percentage) <= TicketsFee(total', percentage')
  {
    MulMonotone(total, total', percentage);
    MulMonotone(percentage, percentage', total');
    FeeFacts(total, percentage);
    FeeFacts(total', percentage');
    RoundMonotone(total * percentage, total' * percentage');
  }

  function FeeOf(percentage: int): int -> int {
    (total: int) => TicketsFee(total, percentage)
  }

  function Identity(): int -> int {
    (total: int) => total
  }

  predicate Near(a: int, b: int, distance: int) {
    -distance <= a - b <= distance
  }

  /** Charging n sales one by one drifts from the exact fee of their sum by at most n half cents. */
  lemma {:induction false} SeparateFeesDrift(totals: seq<int>, percentage: int)
    requires Percentage(percentage) && forall k :: 0 <= k < |totals| ==> totals[k] >= 0
    ensures Near(WHOLE * Total(totals, FeeOf(percentage)), Total(totals, Identity()) * percentage, 5000 * |totals|)
  {
    if totals != [] {
      var n := |totals| - 1;
      SeparateFeesDrift(totals[..n], percentage);
      FeeFacts(totals[n], percentage);
      Distribute(Total(totals[..n], Identity()), totals[n], percentage);
    }
  }

  lemma Distribute(a: int, b: int, c: int)
    ensures (a + b) * c == a * c + b * c
  {}

  // -------------------------------------------------------------- resolving a percentage

  datatype MerchantConfig = MerchantConfig(
    tenantId: string, commerceId: Option<string>, fee: Option<int>, isActive: bool)

  /** What a percentage is resolved from: the custom rows, the owner of each commerce, the fee of
      the plan of each user with an active membership that sets one, and the platform's fee. */
  datatype Settings = Settings(
    configs: seq<MerchantConfig>, owners: map<string, string>, planFees: map<string, int>, platform: Option<int>)

  datatype Source = Custom | MembershipPlan | Global

  predicate OfCommerce(row: MerchantConfig, commerceId: string, activeOnly: bool) {
    row.commerceId == Some(commerceId) && (activeOnly ==> row.isActive)
  }

  predicate OfTenant(row: MerchantConfig, tenantId: string, activeOnly: bool) {
    row.tenantId == tenantId && (activeOnly ==> row.isActive)
  }

  /** The first row that satisfies a lookup. */
  function FindByCommerce(rows: seq<MerchantConfig>, commerceId: string, activeOnly: bool): (r: Option<nat>)
    ensures r.Some? ==> r.value < |rows| && OfCommerce(rows[r.value], commerceId, activeOnly)
    ensures r.Some? ==> forall j :: 0 <= j < r.value ==> !OfCommerce(rows[j], commerceId, activeOnly)
    ensures r.None? ==> forall j :: 0 <= j < |rows| ==> !OfCommerce(rows[j], commerceId, activeOnly)
  {
    if rows == [] then None
    else match FindByCommerce(rows[..|rows| - 1], commerceId, activeOnly)
      case Some(i) => Some(i)
      case None => if OfCommerce(rows[|rows| - 1], commerceId, activeOnly) then Some(|rows| - 1) else None
  }

  function FindByTenant(rows: seq<MerchantConfig>, tenantId: string, activeOnly: bool): (r: Option<nat>)
    ensures r.Some? ==> r.value < |rows| && OfTenant(rows[r.value], tenantId, activeOnly)
    ensures r.Some? ==> forall j :: 0 <= j < r.value ==> !OfTenant(rows[j], tenantId, activeOnly)
    ensures r.None? ==> forall j :: 0 <= j < |rows| ==> !OfTenant(rows[j], tenantId, activeOnly)
  {
    if rows == [] then None
    else match FindByTenant(rows[..|rows| - 1], tenantId, activeOnly)
      case Some(i) => Some(i)
      case None => if OfTenant(rows[|rows| - 1], tenantId, activeOnly) then Some(|rows| - 1) else None
  }

  /** An empty commerce id counts as none. */
  predicate Given(commerceId: Option<string>) {
    commerceId.Some? && commerceId.value != ""
  }

  function CustomFee(rows: seq<MerchantConfig>, tenantId: string, commerceId: Option<string>): Option<int> {
    var byCommerce := if Given(commerceId) then FindByCommerce(rows, commerceId.value, true) else None;
    if byCommerce.Some? && rows[byCommerce.value].fee.Some? then rows[byCommerce.value].fee
    else
      var byTenant := FindByTenant(rows, tenantId, true);
      if byTenant.Some? then rows[byTenant.value].fee else None
  }

  /** The fee of the plan of the commerce's owner, or of the tenant when the commerce is unknown. */
  function PlanFee(s: Settings, tenantId: string, commerceId: Option<string>): Option<int> {
    var userId := if Given(commerceId) && commerceId.value in s.owners then s.owners[commerceId.value] else tenantId;
    if userId in s.planFees then Some(s.planFees[userId]) else None
  }

  /** Custom fee, then plan, then platform, then nothing. */
  function ResolveFee(s: Settings, tenantId: string, commerceId: Option<string>): (int, Source) {
    var custom := CustomFee(s.configs, tenantId, commerceId);
    var plan := PlanFee(s, tenantId, commerceId);
    if custom.Some? then (custom.value, Custom)
    else if plan.Some? then (plan.value, MembershipPlan)
    else if s.platform.Some? then (s.platform.value, Global)
    else (0, Global)
  }

  /** The row setCustomFee edits, whether active or not. */
  function RowToEdit(rows: seq<MerchantConfig>, tenantId: string, commerceId: Option<string>): (r: Option<nat>)
    ensures r.Some? ==> r.value < |rows|
  {
    var byCommerce := if Given(commerceId) then FindByCommerce(rows, commerceId.value, false) else None;
    if byCommerce.Some? then byCommerce else FindByTenant(rows, tenantId, false)
  }

  datatype FeeError = TenantRequired | OutOfRange

  function SetCustomFee(rows: seq<MerchantConfig>, tenantId: string, fee: int, commerceId: Option<string>)
    : Result<seq<MerchantConfig>, FeeError>
  {
    if tenantId == "" then Err(TenantRequired)
    else if fee < 0 || fee > WHOLE then Err(OutOfRange)
    else match RowToEdit(rows, tenantId, commerceId)
      case Some(i) =>
        Ok(rows[i := rows[i].(fee := Some(fee), isActive := true,
                              commerceId := if Given(commerceId) then commerceId else rows[i].commerceId)])
      case None =>
        Ok(rows + [MerchantConfig(tenantId, if Given(commerceId) then commerceId else None, Some(fee), true)])
  }

  /** One row per tenant, which the table enforces, and per commerce, which it does not. */
  predicate Distinct(rows: seq<MerchantConfig>) {
    forall i, j :: 0 <= i < j < |rows| ==>
      rows[i].tenantId != rows[j].tenantId
      && (Given(rows[i].commerceId) ==> rows[i].commerceId != rows[j].commerceId)
  }

  /** Setting fees keeps the commerces distinct although nothing else does. */
  lemma SetKeepsDistinct(rows: seq<MerchantConfig>, tenantId: string, fee: int, commerceId: Option<string>)
    requires Distinct(rows) && SetCustomFee(rows, tenantId, fee, commerceId).Ok?
    ensures Distinct(SetCustomFee(rows, tenantId, fee, commerceId).value)
  {
    var rows' := SetCustomFee(rows, tenantId, fee, commerceId).value;
    var at := match RowToEdit(rows, tenantId, commerceId) case Some(i) => i case None => |rows|;
    forall i, j | 0 <= i < j < |rows'|
      ensures rows'[i].tenantId != rows'[j].tenantId
              && (Given(rows'[i].commerceId) ==> rows'[i].commerceId != rows'[j].commerceId)
    {
      var k := if i == at then j else i;
      assert k < |rows| && rows'[k] == rows[k];
      if Given(commerceId) && FindByCommerce(rows, commerceId.value, false).None? {
        assert !OfCommerce(rows[k], commerceId.value, false);
      }
      if RowToEdit(rows, tenantId, commerceId).None? { assert !OfTenant(rows[k], tenantId, false); }
    }
  }

  /** Among distinct rows a lookup can find one row only, in whatever order they are stored. */
  lemma OnlyMatch(rows: seq<MerchantConfig>, k: nat, id: string, activeOnly: bool)
    requires Distinct(rows) && k < |rows|
    ensures OfCommerce(rows[k], id, activeOnly) && id != "" ==> FindByCommerce(rows, id, activeOnly) == Some(k)
    ensures OfTenant(rows[k], id, activeOnly) ==> FindByTenant(rows, id, activeOnly) == Some(k)
  {}

  /** The row setCustomFee wrote is the first active one of its commerce, or of its tenant. */
  lemma EditedRowIsFound(rows: seq<MerchantConfig>, tenantId: string, fee: int, commerceId: Option<string>)
    requires SetCustomFee(rows, tenantId, fee, commerceId).Ok?
    ensures var rows' := SetCustomFee(rows, tenantId, fee, commerceId).value;
      var found := if Given(commerceId) then FindByCommerce(rows', commerceId.value, true)
                   else FindByTenant(rows', tenantId, true);
      found.Some? && rows'[found.value].fee == Some(fee)
  {
    var rows' := SetCustomFee(rows, tenantId, fee, commerceId).value;
    var i := match RowToEdit(rows, tenantId, commerceId) case Some(i) => i case None => |rows|;
    assert rows'[i].fee == Some(fee) && rows'[i].isActive;
    assert forall j :: 0 <= j < i ==> rows'[j] == rows[j];
    if Given(commerceId) {
      assert OfCommerce(rows'[i], commerceId.value, true);
      assert forall j :: 0 <= j < i ==> !OfCommerce(rows[j], commerceId.value, false);
    } else {
      assert OfTenant(rows'[i], tenantId, true);
      assert forall j :: 0 <= j < i ==> !OfTenant(rows[j], tenantId, false);
    }
  }

  /** A fee once set is the one resolved, whatever plan and platform say. */
  lemma SetThenResolve(s: Settings, tenantId: string, fee: int, commerceId: Option<string>)
    requires SetCustomFee(s.configs, tenantId, fee, commerceId).Ok?
    ensures ResolveFee(s.(configs := SetCustomFee(s.configs, tenantId, fee, commerceId).value), tenantId, commerceId)
         == (fee, Custom)
  {
    EditedRowIsFound(s.configs, tenantId, fee, commerceId);
  }

  /** And whichever row a lookup returns: with distinct rows every row that matches the lookup of
      the fee carries the fee that was set. */
  lemma SetThenAnyRow(rows: seq<MerchantConfig>, tenantId: string, fee: int, commerceId: Option<string>, k: nat)
    requires Distinct(rows) && SetCustomFee(rows, tenantId, fee, commerceId).Ok?
    requires k < |SetCustomFee(rows, tenantId, fee, commerceId).value|
    ensures var row := SetCustomFee(rows, tenantId, fee, commerceId).value[k];
      (if Given(commerceId) then OfCommerce(row, commerceId.value, true) else OfTenant(row, tenantId, true))
      ==> row.fee == Some(fee)
  {
    SetKeepsDistinct(rows, tenantId, fee, commerceId);
    EditedRowIsFound(rows, tenantId, fee, commerceId);
    var rows' := SetCustomFee(rows, tenantId, fee, commerceId).value;
    OnlyMatch(rows', k, if Given(commerceId) then commerceId.value else tenantId, true);
  }

  /** An active row of the tenant, or of the commerce when one is given. */
  predicate Matches(row: MerchantConfig, tenantId: string, commerceId: Option<string>) {
    row.isActive
    && (row.tenantId == tenantId || (commerceId.Some? && commerceId.value != "" && row.commerceId == commerceId))
  }

  /** The active row of the commerce, when it sets a fee, decides. */
  lemma CommerceRowDecides(s: Settings, tenantId: string, commerceId: Option<string>, k: nat)
    requires Distinct(s.configs) && k < |s.configs| && s.configs[k].isActive && s.configs[k].fee.Some?
    requires commerceId.Some? && commerceId.value != "" && s.configs[k].commerceId == commerceId
    ensures ResolveFee(s, tenantId, commerceId) == (s.configs[k].fee.value, Custom)
  {
    OnlyMatch(s.configs, k, commerceId.value, true);
  }

  /** Otherwise the active row of the tenant does. */
  lemma TenantRowDecides(s: Settings, tenantId: string, commerceId: Option<string>, k: nat)
    requires Distinct(s.configs) && k < |s.configs| && s.configs[k].isActive && s.configs[k].fee.Some?
    requires s.configs[k].tenantId == tenantId
    requires commerceId.Some? && commerceId.value != "" ==>
      forall i :: 0 <= i < |s.configs| && s.configs[i].isActive && s.configs[i].commerceId == commerceId ==>
        s.configs[i].fee.None?
    ensures ResolveFee(s, tenantId, commerceId) == (s.configs[k].fee.value, Custom)
  {
    OnlyMatch(s.configs, k, tenantId, true);
  }

  /** Without a custom fee the plan of the user decides, the owner of the commerce when that is
      known and the tenant when it is not; without a plan fee the platform does; and without that
      nothing is charged. */
  lemma LowerLevelsDecide(s: Settings, tenantId: string, commerceId: Option<string>)
    requires forall i :: 0 <= i < |s.configs| && Matches(s.configs[i], tenantId, commerceId) ==> s.configs[i].fee.None?
    ensures var known := commerceId.Some? && commerceId.value != "" && commerceId.value in s.owners;
      var user := if known then s.owners[commerceId.value] else tenantId;
      && (user in s.planFees ==> ResolveFee(s, tenantId, commerceId) == (s.planFees[user], MembershipPlan))
      && (user !in s.planFees && s.platform.Some? ==>
            ResolveFee(s, tenantId, commerceId) == (s.platform.value, Global))
      && (user !in s.planFees && s.platform.None? ==> ResolveFee(s, tenantId, commerceId) == (0, Global))
  {}

  /** Setting a fee is refused without tenant and outside 0 to 100 percent; otherwise it changes one
      row, that of the commerce if there is one, else that of the tenant, or appends one. */
  lemma SettingExactly(rows: seq<MerchantConfig>, tenantId: string, fee: int, commerceId: Option<string>)
    requires Distinct(rows)
    ensures var r := SetCustomFee(rows, tenantId, fee, commerceId);
      var given := commerceId.Some? && commerceId.value != "";
      && (r.Ok? <==> tenantId != "" && 0 <= fee <= 10000)
      && (r.Err? ==> r.error == if tenantId == "" then TenantRequired else OutOfRange)
      && (r.Ok? ==>
            && (forall k :: 0 <= k < |rows| ==>
                  var edited := (given && rows[k].commerceId == commerceId)
                    || (rows[k].tenantId == tenantId
                        && !(given && exists i :: 0 <= i < |rows| && rows[i].commerceId == commerceId));
                  var linked := if given then commerceId else rows[k].commerceId;
                  var row := MerchantConfig(rows[k].tenantId, linked, Some(fee), true);
                  k < |r.value| && r.value[k] == if edited then row else rows[k])
            && (if (forall k :: 0 <= k < |rows| ==>
                      rows[k].tenantId != tenantId && !(given && rows[k].commerceId == commerceId))
                then |r.value| == |rows| + 1
                  && r.value[|rows|] == MerchantConfig(tenantId, if given then commerceId else None, Some(fee), true)
                else |r.value| == |rows|))
  {
    var given := commerceId.Some? && commerceId.value != "";
    forall k | 0 <= k < |rows|
      ensures given && rows[k].commerceId == commerceId ==> FindByCommerce(rows, commerceId.value, false) == Some(k)
      ensures rows[k].tenantId == tenantId ==> FindByTenant(rows, tenantId, false) == Some(k)
    {
      if given { OnlyMatch(rows, k, commerceId.value, false); }
      OnlyMatch(rows, k, tenantId, false);
    }
    if given {
      assert forall k :: 0 <= k < |rows| ==>
        (OfCommerce(rows[k], commerceId.value, false) <==> rows[k].commerceId == commerceId);
    }
    assert forall k :: 0 <= k < |rows| ==> (OfTenant(rows[k], tenantId, false) <==> rows[k].tenantId == tenantId);
  }

  /** Each level hides those below it: a custom fee the plan and the platform, a plan the
      platform; with none of them nothing is charged. */
  lemma UpperLevelsWin(s: Settings, s': Settings, tenantId: string, commerceId: Option<string>)
    requires s'.configs == s.configs
    ensures CustomFee(s.configs, tenantId, commerceId).Some? ==>
      ResolveFee(s, tenantId, commerceId) == ResolveFee(s', tenantId, commerceId)
    ensures var plan := PlanFee(s, tenantId, commerceId);
      plan.Some? && plan == PlanFee(s', tenantId, commerceId) ==>
      ResolveFee(s, tenantId, commerceId) == ResolveFee(s', tenantId, commerceId)
    ensures (forall i :: 0 <= i < |s.configs| ==> !s.configs[i].isActive) && s.planFees == map[] && s.platform.None? ==>
      ResolveFee(s, tenantId, commerceId) == (0, Global)
  {}

  // -------------------------------------------------------------------------- services

  /** calculateFee: the fee and what is left, both rounded to cents. */
  method CalculateFee(s: Settings, totalAmount: int, tenantId: string, commerceId: Option<string>)
    returns (feeAmount: int, netAmount: int, feePercentage: int, feeSource: Source)
    ensures (feePercentage, feeSource) == ResolveFee(s, tenantId, commerceId)
    ensures feeAmount + netAmount == totalAmount
    ensures feeAmount == TicketsFee(totalAmount, feePercentage)
    ensures totalAmount >= 0 && Percentage(feePercentage) ==>
      0 <= feeAmount <= totalAmount && 0 <= netAmount <= totalAmount
      && -5000 < WHOLE * feeAmount - totalAmount * feePercentage <= 5000
  {
    var resolution := ResolveFee(s, tenantId, commerceId);
    feePercentage, feeSource := resolution.0, resolution.1;
    feeAmount := ToFixed(totalAmount * feePercentage, WHOLE);
    netAmount := ToFixed(totalAmount - feeAmount, 1);
    if totalAmount >= 0 && Percentage(feePercentage) {
      FeeFacts(totalAmount, feePercentage);
    }
  }

  datatype Product = Product(price: int, discountPrice: Option<int>)

  datatype Item = Item(sourceId: string, quantity: int, price: int)

  datatype Amounts = Amounts(subtotal: int, feePercentage: int, feeAmount: int, total: int, items: seq<Item>)

  function RealPrice(p: Product): int {
    match p.discountPrice
    case Some(d) => d
    case None => p.price
  }

  function PriceOf(catalog: map<string, Product>, id: string): int {
    if id in catalog then RealPrice(catalog[id]) else 0
  }

  function LineOf(catalog: map<string, Product>): Item -> int {
    (item: Item) => PriceOf(catalog, item.sourceId) * item.quantity
  }

  function Repriced(catalog: map<string, Product>, items: seq<Item>): seq<Item> {
    seq(|items|, i requires 0 <= i < |items| => items[i].(price := PriceOf(catalog, items[i].sourceId)))
  }

  /** The amounts of an order, from the catalogue's prices. */
  method CalculateSecureOrderAmounts(
    s: Settings, items: seq<Item>, catalog: map<string, Product>, ownerId: string, commerceId: Option<string>
  ) returns (r: Result<Amounts, string>)
    ensures r.Ok? <==> forall i :: 0 <= i < |items| ==> items[i].sourceId in catalog
    ensures r.Err? ==> r.error !in catalog && exists i :: 0 <= i < |items| && items[i].sourceId == r.error
    ensures r.Ok? ==>
      && r.value.subtotal == Total(items, LineOf(catalog))
      && r.value.feePercentage == ResolveFee(s, ownerId, commerceId).0
      && r.value.feeAmount == OrdersFee(r.value.subtotal, r.value.feePercentage)
      && r.value.total == r.value.subtotal + r.value.feeAmount
      && r.value.items == Repriced(catalog, items)
  {
    var subtotal := 0;
    var itemsWithFixedPrices: seq<Item> := [];
    var k := 0;
    while k < |items|
      invariant 0 <= k <= |items|
      invariant forall i :: 0 <= i < k ==> items[i].sourceId in catalog
      invariant subtotal == Total(items[..k], LineOf(catalog))
      invariant itemsWithFixedPrices == Repriced(catalog, items)[..k]
    {
      var item := items[k];
      if item.sourceId !in catalog {
        return Err(item.sourceId);
      }
      var price := RealPrice(catalog[item.sourceId]);
      subtotal := subtotal + price * item.quantity;
      itemsWithFixedPrices := itemsWithFixedPrices + [item.(price := price)];
      k := k + 1;
      assert items[..k][..k - 1] == items[..k - 1];
    }
    assert items[..k] == items;
    var feePercentage := ResolveFee(s, ownerId, commerceId).0;
    var fee := MathRound(subtotal * feePercentage, WHOLE);
    return Ok(Amounts(subtotal, feePercentage, fee, subtotal + fee, itemsWithFixedPrices));
  }

  /** A line costs the discount price if there is one, else the price, times the quantity; and the
      item shows that price, its other fields being the client's. */
  lemma LinesExactly(items: seq<Item>, catalog: map<string, Product>, i: nat)
    requires i < |items| && items[i].sourceId in catalog
    ensures var product := catalog[items[i].sourceId];
      var price := if product.discountPrice.Some? then product.discountPrice.value else product.price;
      && LineOf(catalog)(items[i]) == price * items[i].quantity
      && |Repriced(catalog, items)| == |items|
      && Repriced(catalog, items)[i] == Item(items[i].sourceId, items[i].quantity, price)
  {}

  /** The client's own prices change nothing: orders of the same products and quantities cost
      the same. */
  lemma ClientPricesIgnored(items: seq<Item>, others: seq<Item>, catalog: map<string, Product>)
    requires |items| == |others|
    requires forall i :: 0 <= i < |items| ==>
      items[i].sourceId == others[i].sourceId && items[i].quantity == others[i].quantity
    ensures Total(items, LineOf(catalog)) == Total(others, LineOf(catalog))
    ensures Repriced(catalog, items) == Repriced(catalog, others)
  {
    TotalSame(items, others, LineOf(catalog), LineOf(catalog));
  }
}
