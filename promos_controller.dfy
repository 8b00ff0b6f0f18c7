/** PromosController.cs: create with a duplicate-code guard, update and delete
    with a not-found guard, and the validate endpoint's three-way decision. */
module PromosController {
  import opened Seqs
  import opened Models
  import opened Http
  import opened PromosService

  const DUPLICATE_CODE: string := "Kode promo sudah digunakan"
  const CODE_NOT_FOUND: string := "Kode promo tidak ditemukan"
  const PROMO_INVALID: string := "Promo tidak valid atau sudah expired"

  /** `ValidatePromoRequest`. */
  datatype ValidatePromoRequest = ValidatePromoRequest(code: string, orderTotal: real)

  /** The body of a successful validation. */
  datatype Validation = Validation(promoId: Option<string>, code: string, name: string, discount: real, finalTotal: real)

  /** `Post`: a code already in the collection is refused and nothing is stored;
      otherwise exactly the new promo is appended. */
  method Post(store: PromosCollection, newPromo: Promo, freshId: string) returns (r: Response<Promo>)
    modifies store
    ensures old(store.GetByCode(newPromo.code)).Some? ==>
      r == BadRequest(Some(DUPLICATE_CODE)) && store.promos == old(store.promos)
    ensures old(store.GetByCode(newPromo.code)).None? ==>
      r.Created? && r.body == newPromo.(id := InsertedId(newPromo.id, freshId)) &&
      store.promos == old(store.promos) + [r.body]
  {
    var existing := store.GetByCode(newPromo.code);
    if existing.Some? {
      return BadRequest(Some(DUPLICATE_CODE));
    }
    var stored := store.Create(newPromo, freshId);
    r := Created(stored);
  }

  /** `Update`: an unknown id is NotFound and changes nothing; otherwise the
      body, with its id forced to the stored promo's id, replaces that promo. */
  method Update(store: PromosCollection, id: string, updatedPromo: Promo) returns (r: Response<()>)
    modifies store
    ensures old(store.GetById(id)).None? ==> r == NotFound(None) && store.promos == old(store.promos)
    ensures old(store.GetById(id)).Some? ==>
      r == NoContent &&
      store.promos == ReplaceFirst(old(store.promos), PromoId, Some(id), updatedPromo.(id := Some(id)))
  {
    var promo := store.GetById(id);
    if promo.None? {
      return NotFound(None);
    }
    var body := updatedPromo.(id := promo.value.id);
    store.Update(id, body);
    r := NoContent;
  }

  /** `Delete`: an unknown id is NotFound and changes nothing; otherwise the
      promo with that id is removed. */
  method Delete(store: PromosCollection, id: string) returns (r: Response<()>)
    modifies store
    ensures old(store.GetById(id)).None? ==> r == NotFound(None) && store.promos == old(store.promos)
    ensures old(store.GetById(id)).Some? ==>
      r == NoContent && store.promos == RemoveFirst(old(store.promos), PromoId, Some(id)) &&
      |store.promos| == |old(store.promos)| - 1
  {
    var promo := store.GetById(id);
    if promo.None? {
      return NotFound(None);
    }
    store.Remove(id);
    r := NoContent;
  }

  /** `ValidatePromo` on a snapshot of the collection: an unknown code is
      NotFound, a known but ineligible promo is BadRequest, and an eligible one
      is Ok with the service's discount and the total minus that discount.
      It reads the collection and changes nothing, the used count included. */
  function ValidatePromo(promos: seq<Promo>, request: ValidatePromoRequest, now: int): (r: Response<Validation>)
    ensures r.NotFound? || r.BadRequest? || r.Ok?
    ensures r.NotFound? <==> forall j :: 0 <= j < |promos| ==> promos[j].code != request.code
    ensures r.NotFound? ==> r.message == Some(CODE_NOT_FOUND)
    ensures r.BadRequest? <==>
      (exists j :: 0 <= j < |promos| && promos[j].code == request.code) &&
      !IsPromoValid(Find(promos, PromoCode, request.code).value, request.orderTotal, now)
    ensures r.BadRequest? ==> r.message == Some(PROMO_INVALID)
    ensures r.Ok? ==>
      var promo := Find(promos, PromoCode, request.code).value;
      promo in promos && promo.code == request.code &&
      IsPromoValid(promo, request.orderTotal, now) &&
      r.body == Validation(promo.id, promo.code, promo.name,
                           CalculateDiscount(promo, request.orderTotal),
                           request.orderTotal - CalculateDiscount(promo, request.orderTotal))
  {
    match Find(promos, PromoCode, request.code)
    case None => NotFound(Some(CODE_NOT_FOUND))
    case Some(promo) =>
      if !IsPromoValid(promo, request.orderTotal, now) then BadRequest(Some(PROMO_INVALID))
      else
        var discount := CalculateDiscount(promo, request.orderTotal);
        Ok(Validation(promo.id, promo.code, promo.name, discount, request.orderTotal - discount))
  }

  /** The final total is not floored: a valid percentage promo above 100 with no
      cap yields a negative final total. */
  lemma FinalTotalCanBeNegative(promos: seq<Promo>, request: ValidatePromoRequest, now: int)
    requires |promos| > 0 && promos[0].code == request.code
    requires IsPromoValid(promos[0], request.orderTotal, now)
    requires promos[0].discountType == PERCENTAGE && promos[0].discountValue > 100.0
    requires promos[0].maxDiscount.None? && request.orderTotal > 0.0
    ensures ValidatePromo(promos, request, now).Ok?
    ensures ValidatePromo(promos, request, now).body.finalTotal < 0.0
  {
    assert PromoCode(promos[0]) == request.code;
    PercentageCanExceedTotal(promos[0], request.orderTotal);
  }

  /** A fixed-amount promo never takes the final total below zero. */
  lemma FixedFinalTotalNonNegative(promos: seq<Promo>, request: ValidatePromoRequest, now: int)
    requires ValidatePromo(promos, request, now).Ok?
    requires Find(promos, PromoCode, request.code).value.discountType != PERCENTAGE
    ensures ValidatePromo(promos, request, now).body.finalTotal >= 0.0
  {
  }
}
