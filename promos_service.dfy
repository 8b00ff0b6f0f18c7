/** PromosService.cs: the promo collection, the eligibility rule and the discount
    rule. The collection is a class over the stored sequence; the two rules are
    pure. The clock reading of `IsPromoValid` is the parameter `now`. */
module PromosService {
  import opened Seqs
  import opened Models

  const PERCENTAGE: string := "Percentage"

  // ---------------------------------------------------------------------------
  // Eligibility
  // ---------------------------------------------------------------------------

  /** The four conditions a promo must meet, each on its own. */
  predicate WithinDates(promo: Promo, now: int)
  {
    promo.startDate <= now <= promo.endDate
  }

  predicate UnderUsageLimit(promo: Promo)
  {
    promo.usageLimit.None? || promo.usedCount < promo.usageLimit.value
  }

  predicate MeetsMinimum(promo: Promo, orderTotal: real)
  {
    orderTotal >= promo.minPurchase
  }

  /** `IsPromoValid`: the early-return chain of activity, date window, usage cap
      and minimum purchase. It holds exactly when all four conditions hold. */
  function IsPromoValid(promo: Promo, orderTotal: real, now: int): (r: bool)
    ensures r <==> promo.isActive && WithinDates(promo, now) && UnderUsageLimit(promo) && MeetsMinimum(promo, orderTotal)
    ensures !promo.isActive ==> !r
  {
    if !promo.isActive then false
    else if now < promo.startDate || now > promo.endDate then false
    else if promo.usageLimit.Some? && promo.usedCount >= promo.usageLimit.value then false
    else if orderTotal < promo.minPurchase then false
    else true
  }

  /** The date window includes both of its ends. */
  lemma DateWindowInclusive(promo: Promo, orderTotal: real)
    requires promo.isActive && UnderUsageLimit(promo) && MeetsMinimum(promo, orderTotal)
    requires promo.startDate <= promo.endDate
    ensures IsPromoValid(promo, orderTotal, promo.startDate)
    ensures IsPromoValid(promo, orderTotal, promo.endDate)
    ensures !IsPromoValid(promo, orderTotal, promo.startDate - 1)
    ensures !IsPromoValid(promo, orderTotal, promo.endDate + 1)
  {
  }

  /** With a limit set the cap is strict: one use short passes, reaching it fails. */
  lemma UsageLimitStrict(promo: Promo, orderTotal: real, now: int, limit: int)
    requires promo.isActive && WithinDates(promo, now) && MeetsMinimum(promo, orderTotal)
    requires promo.usageLimit == Some(limit)
    ensures IsPromoValid(promo.(usedCount := limit - 1), orderTotal, now)
    ensures !IsPromoValid(promo.(usedCount := limit), orderTotal, now)
  {
  }

  /** Without a limit the used count plays no part. */
  lemma NoLimitIgnoresCount(promo: Promo, orderTotal: real, now: int, count: int)
    requires promo.usageLimit.None?
    ensures IsPromoValid(promo.(usedCount := count), orderTotal, now) == IsPromoValid(promo, orderTotal, now)
  {
  }

  /** The minimum purchase is inclusive: paying exactly the minimum passes. */
  lemma MinimumInclusive(promo: Promo, now: int)
    requires promo.isActive && WithinDates(promo, now) && UnderUsageLimit(promo)
    ensures IsPromoValid(promo, promo.minPurchase, now)
  {
  }

  // ---------------------------------------------------------------------------
  // Discount
  // ---------------------------------------------------------------------------

  function Min(a: real, b: real): real
  {
    if a <= b then a else b
  }

  /** The uncapped percentage discount, `orderTotal * (DiscountValue / 100)`. */
  function PercentageOf(orderTotal: real, value: real): real
  {
    orderTotal * (value / 100.0)
  }

  /** `CalculateDiscount`. A "Percentage" promo takes its share of the total,
      lowered to the cap when one is set; every other type is fixed and gives at
      most the order total. */
  function CalculateDiscount(promo: Promo, orderTotal: real): (r: real)
    ensures promo.discountType == PERCENTAGE ==>
      var raw := PercentageOf(orderTotal, promo.discountValue);
      r <= raw && (r == raw || Some(r) == promo.maxDiscount) &&
      (promo.maxDiscount.Some? ==> r == Min(raw, promo.maxDiscount.value)) &&
      (promo.maxDiscount.None? ==> r == raw)
    ensures promo.discountType != PERCENTAGE ==>
      r <= orderTotal && r <= promo.discountValue && (r == orderTotal || r == promo.discountValue)
  {
    if promo.discountType == PERCENTAGE then
      var discount := orderTotal * (promo.discountValue / 100.0);
      if promo.maxDiscount.Some? && discount > promo.maxDiscount.value then promo.maxDiscount.value
      else discount
    else
      Min(promo.discountValue, orderTotal)
  }

  /** 20 percent capped at 50000 on a total of 500000 gives the cap. */
  lemma PercentageCapExample(promo: Promo)
    requires promo.discountType == PERCENTAGE && promo.discountValue == 20.0
    requires promo.maxDiscount == Some(50000.0)
    ensures CalculateDiscount(promo, 500000.0) == 50000.0
  {
  }

  /** A fixed 100000 on a total of 80000 gives 80000. */
  lemma FixedCapExample(promo: Promo)
    requires promo.discountType == "Fixed" && promo.discountValue == 100000.0
    ensures CalculateDiscount(promo, 80000.0) == 80000.0
  {
  }

  /** Nothing caps a percentage above 100 without a `MaxDiscount`: the discount
      exceeds a positive total. */
  lemma PercentageCanExceedTotal(promo: Promo, orderTotal: real)
    requires promo.discountType == PERCENTAGE && promo.discountValue > 100.0
    requires promo.maxDiscount.None? && orderTotal > 0.0
    ensures CalculateDiscount(promo, orderTotal) > orderTotal
  {
    assert PercentageOf(orderTotal, promo.discountValue) > orderTotal * 1.0;
  }

  /** A percentage of at most 100 with no cap, or a non-negative cap, on a
      non-negative total is a discount between 0 and the total. */
  lemma PercentageWithinTotal(promo: Promo, orderTotal: real)
    requires promo.discountType == PERCENTAGE && 0.0 <= promo.discountValue <= 100.0
    requires promo.maxDiscount.None? || promo.maxDiscount.value >= 0.0
    requires orderTotal >= 0.0
    ensures 0.0 <= CalculateDiscount(promo, orderTotal) <= orderTotal
  {
    var f := promo.discountValue / 100.0;
    MulNonNegative(orderTotal, f);
    MulNonNegative(orderTotal, 1.0 - f);
  }

  lemma MulNonNegative(a: real, b: real)
    requires a >= 0.0 && b >= 0.0
    ensures a * b >= 0.0
  {
  }

  // ---------------------------------------------------------------------------
  // The collection
  // ---------------------------------------------------------------------------

  /** `IncrementUsageAsync` on values: the first promo with that id has its used
      count raised by one, with no limit check; every other promo, and every
      other field, is unchanged. */
  function IncrementUsedCount(promos: seq<Promo>, id: string): (r: seq<Promo>)
    ensures |r| == |promos|
    ensures FirstIndex(promos, PromoId, Some(id)).None? ==> r == promos
    ensures FirstIndex(promos, PromoId, Some(id)).Some? ==>
      var i := FirstIndex(promos, PromoId, Some(id)).value;
      r[i] == promos[i].(usedCount := promos[i].usedCount + 1) &&
      forall j :: 0 <= j < |promos| && j != i ==> r[j] == promos[j]
  {
    match FirstIndex(promos, PromoId, Some(id))
    case None => promos
    case Some(i) => promos[i := promos[i].(usedCount := promos[i].usedCount + 1)]
  }

  /** The total of the used counts grows by exactly one when the id is stored. */
  function TotalUses(promos: seq<Promo>): int
  {
    if |promos| == 0 then 0 else TotalUses(promos[..|promos| - 1]) + promos[|promos| - 1].usedCount
  }

  lemma {:induction false} TotalUsesUpdate(promos: seq<Promo>, i: nat, p: Promo)
    requires i < |promos|
    ensures TotalUses(promos[i := p]) == TotalUses(promos) - promos[i].usedCount + p.usedCount
  {
    var n := |promos| - 1;
    if i < n {
      assert promos[i := p][..n] == promos[..n][i := p];
      TotalUsesUpdate(promos[..n], i, p);
    } else {
      assert promos[i := p][..n] == promos[..n];
    }
  }

  lemma {:induction false} IncrementAddsOneUse(promos: seq<Promo>, id: string)
    requires exists j :: 0 <= j < |promos| && promos[j].id == Some(id)
    ensures TotalUses(IncrementUsedCount(promos, id)) == TotalUses(promos) + 1
  {
    var j :| 0 <= j < |promos| && promos[j].id == Some(id);
    assert PromoId(promos[j]) == Some(id);
    var k := FirstIndex(promos, PromoId, Some(id));
    assert k.Some?;
    var i := k.value;
    var p := promos[i].(usedCount := promos[i].usedCount + 1);
    assert IncrementUsedCount(promos, id) == promos[i := p];
    TotalUsesUpdate(promos, i, p);
  }

  /** The `Promos` collection, in insertion order. */
  class PromosCollection {
    var promos: seq<Promo>

    constructor (initial: seq<Promo>)
      ensures promos == initial
    {
      promos := initial;
    }

    /** `GetAsync(id)`: the first promo with that id. */
    function GetById(id: string): (r: Option<Promo>)
      reads this
      ensures r.Some? <==> exists j :: 0 <= j < |promos| && promos[j].id == Some(id)
      ensures r.Some? ==> r.value in promos && r.value.id == Some(id)
    {
      Find(promos, PromoId, Some(id))
    }

    /** `GetByCodeAsync(code)`: the first promo whose code is exactly `code`; no case folding. */
    function GetByCode(code: string): (r: Option<Promo>)
      reads this
      ensures r.Some? <==> exists j :: 0 <= j < |promos| && promos[j].code == code
      ensures r.Some? ==> r.value in promos && r.value.code == code
    {
      Find(promos, PromoCode, code)
    }

    /** `CreateAsync`: insert one promo, with the driver's id when it has none. */
    method Create(newPromo: Promo, freshId: string) returns (stored: Promo)
      modifies this
      ensures stored == newPromo.(id := InsertedId(newPromo.id, freshId))
      ensures promos == old(promos) + [stored]
    {
      stored := newPromo.(id := InsertedId(newPromo.id, freshId));
      promos := promos + [stored];
    }

    /** `UpdateAsync`: replace the first promo with that id. */
    method Update(id: string, updatedPromo: Promo)
      modifies this
      ensures promos == ReplaceFirst(old(promos), PromoId, Some(id), updatedPromo)
    {
      promos := ReplaceFirst(promos, PromoId, Some(id), updatedPromo);
    }

    /** `RemoveAsync`: delete the first promo with that id. */
    method Remove(id: string)
      modifies this
      ensures promos == RemoveFirst(old(promos), PromoId, Some(id))
    {
      promos := RemoveFirst(promos, PromoId, Some(id));
    }

    /** `IncrementUsageAsync`. */
    method IncrementUsage(id: string)
      modifies this
      ensures promos == IncrementUsedCount(old(promos), id)
      ensures (exists j :: 0 <= j < |old(promos)| && old(promos)[j].id == Some(id)) ==>
        TotalUses(promos) == TotalUses(old(promos)) + 1
    {
      if exists j :: 0 <= j < |promos| && promos[j].id == Some(id) {
        IncrementAddsOneUse(promos, id);
      }
      promos := IncrementUsedCount(promos, id);
    }
  }

  /** Looking a code up is case-sensitive: a stored upper-case code is not found in lower case. */
  lemma CodeLookupCaseSensitive(promos: seq<Promo>)
    requires forall j :: 0 <= j < |promos| ==> promos[j].code == "HEMAT10"
    ensures Find(promos, PromoCode, "hemat10").None?
  {
    assert "HEMAT10"[0] != "hemat10"[0];
  }
}
