/** SKUs of catalog_services.py: products and variants live in two tables, and only the checks made
    in code keep a SKU from appearing in both. The session does not flush on queries, so a product's
    new SKU stays pending until the first explicit flush and the checks still see the old one. */
module CatalogSkus {
  import opened Wrappers
  import ProductCodes

  type Id = nat

  datatype Error = ProductMissing | SkuTaken | DuplicateInPayload | NotArchived | Protected | OtherFieldRefused

  datatype Product = Product(company: string, sku: Option<string>, archived: bool)

  datatype Variant = Variant(company: string, product: Id, sku: Option<string>)

  /** The flushed rows, and the next fresh row id. */
  datatype Catalog = Catalog(products: map<Id, Product>, variants: map<Id, Variant>, nextId: Id)

  datatype VariantPayload = VariantPayload(id: Option<Id>, sku: Option<string>)

  /** ensure_unique_sku finds another row of the company with this SKU. */
  predicate Taken(cat: Catalog, company: string, sku: Option<string>, exceptProduct: Option<Id>, exceptVariant: Option<Id>) {
    && Given(sku)
    && (|| (exists p :: p in cat.products && Some(p) != exceptProduct
                        && cat.products[p].company == company && cat.products[p].sku == sku)
        || (exists v :: v in cat.variants && Some(v) != exceptVariant
                        && cat.variants[v].company == company && cat.variants[v].sku == sku))
  }

  function VariantsOf(cat: Catalog, product: Id): set<Id> {
    set v | v in cat.variants && cat.variants[v].product == product
  }

  /** db.flush() while `sku` is the product's value in memory. */
  function FlushProduct(cat: Catalog, product: Id, sku: Option<string>): Catalog
    requires product in cat.products
  {
    cat.(products := cat.products[product := cat.products[product].(sku := sku)])
  }

  // ----- replace_product_variants -----

  /** Progress of the loop over the payload: `ids[i]` is the row that payload entry i was written to. */
  datatype Walk = Walk(cat: Catalog, seen: set<string>, ids: seq<Id>)

  function Target(existing: set<Id>, p: VariantPayload): Option<Id> {
    if p.id.Some? && p.id.value in existing then p.id else None
  }

  function WriteVariant(w: Walk, company: string, product: Id, sku: Option<string>, existing: set<Id>, p: VariantPayload)
    : Result<Walk, Error>
    requires product in w.cat.products && existing <= w.cat.variants.Keys
  {
    var target := Target(existing, p);
    if Given(p.sku) && p.sku.value in w.seen then Failure(DuplicateInPayload)
    else if Taken(w.cat, company, p.sku, None, target) then Failure(SkuTaken)
    else
      var seen := if Given(p.sku) then w.seen + {p.sku.value} else w.seen;
      if target.Some? then
        var row := w.cat.variants[target.value].(sku := p.sku);
        Success(Walk(FlushProduct(w.cat.(variants := w.cat.variants[target.value := row]), product, sku),
                     seen, w.ids + [target.value]))
      else
        Success(Walk(FlushProduct(w.cat.(variants := w.cat.variants[w.cat.nextId := Variant(company, product, p.sku)],
                                         nextId := w.cat.nextId + 1), product, sku),
                     seen, w.ids + [w.cat.nextId]))
  }

  function WriteVariants(cat: Catalog, company: string, product: Id, sku: Option<string>, existing: set<Id>, payload: seq<VariantPayload>)
    : (r: Result<Walk, Error>)
    requires product in cat.products && existing <= cat.variants.Keys
    ensures r.Success? ==> product in r.value.cat.products && existing <= r.value.cat.variants.Keys
    ensures r.Success? ==> |r.value.ids| == |payload|
  {
    if payload == [] then
      Success(Walk(cat, if Given(sku) then {sku.value} else {}, []))
    else
      var n := |payload| - 1;
      var w :- WriteVariants(cat, company, product, sku, existing, payload[..n]);
      WriteVariant(w, company, product, sku, existing, payload[n])
  }

  /** `cat` has the flushed rows, `sku` is the product's SKU in memory. Rows of the product that no
      payload entry was written to are dropped at the end. */
  function ReplaceVariants(cat: Catalog, company: string, product: Id, sku: Option<string>, payload: seq<VariantPayload>)
    : (r: Result<Walk, Error>)
    requires product in cat.products
    ensures r.Success? ==> product in r.value.cat.products
  {
    var existing := VariantsOf(cat, product);
    var w :- WriteVariants(cat, company, product, sku, existing, payload);
    Success(w.(cat := w.cat.(variants := w.cat.variants - (existing - set i | i in w.ids))))
  }

  // ----- requests -----

  datatype Update = Update(sku: Option<Option<string>>, archived: Option<bool>, variants: Option<seq<VariantPayload>>,
                           flushesEarly: bool, accepted: bool)

  /** update_product. `flushesEarly`: a tag was created on the way, which flushes the product before
      its variants are handled. `accepted`: every field that does not concern SKUs is accepted. */
  function UpdateProduct(cat: Catalog, company: string, product: Id, u: Update): Result<Catalog, Error> {
    if product !in cat.products || cat.products[product].company != company then Failure(ProductMissing)
    else if u.sku.Some? && Taken(cat, company, u.sku.value, Some(product), None) then Failure(SkuTaken)
    else
      var sku := if u.sku.Some? then u.sku.value else cat.products[product].sku;
      var early := if u.flushesEarly then FlushProduct(cat, product, sku) else cat;
      var written :- if u.variants.Some? then ReplaceVariants(early, company, product, sku, u.variants.value)
                     else Success(Walk(early, {}, []));
      if !u.accepted then Failure(OtherFieldRefused)
      else
        var flushed := FlushProduct(written.cat, product, sku);
        Success(if u.archived.Some? then
                  flushed.(products := flushed.products[product := flushed.products[product].(archived := u.archived.value)])
                else flushed)
  }

  /** validate_variant_skus: the payload against itself, the product and the tables. */
  predicate PayloadAccepted(cat: Catalog, company: string, sku: Option<string>, payload: seq<VariantPayload>) {
    && (forall i :: 0 <= i < |payload| && Given(payload[i].sku) ==>
          payload[i].sku != sku && !Taken(cat, company, payload[i].sku, None, None))
    && forall i, j :: 0 <= i < j < |payload| && Given(payload[i].sku) ==> payload[i].sku != payload[j].sku
  }

  /** create_product. `listing` is the query result from which a missing SKU is suggested. */
  function CreateProduct(cat: Catalog, company: string, sku: Option<string>, listing: seq<string>,
                         variants: seq<VariantPayload>, archived: bool, accepted: bool): Result<Catalog, Error> {
    var chosen := if Given(sku) then sku else Some(ProductCodes.SuggestSku(listing));
    if Taken(cat, company, chosen, None, None) then Failure(SkuTaken)
    else if !PayloadAccepted(cat, company, chosen, variants) then Failure(DuplicateInPayload)
    else if !accepted then Failure(OtherFieldRefused)
    else
      var id := cat.nextId;
      var inserted := cat.(products := cat.products[id := Product(company, chosen, archived)], nextId := id + 1);
      var w :- ReplaceVariants(inserted, company, id, chosen, variants);
      Success(w.cat)
  }

  function ArchiveProduct(cat: Catalog, company: string, product: Id): Result<Catalog, Error> {
    if product !in cat.products || cat.products[product].company != company then Failure(ProductMissing)
    else Success(cat.(products := cat.products[product := cat.products[product].(archived := true)]))
  }

  /** permanently_delete_product. `isReferenced`: stock, orders or other history still points at it. */
  function DeleteProduct(cat: Catalog, company: string, product: Id, isReferenced: bool): Result<Catalog, Error> {
    if product !in cat.products || cat.products[product].company != company then Failure(ProductMissing)
    else if !cat.products[product].archived then Failure(NotArchived)
    else if isReferenced then Failure(Protected)
    else Success(cat.(products := cat.products - {product}, variants := cat.variants - VariantsOf(cat, product)))
  }

  // ----- the tables -----

  class CatalogTables {
    var products: map<Id, Product>
    var variants: map<Id, Variant>
    var nextId: Id

    function Contents(): Catalog
      reads this
    {
      Catalog(products, variants, nextId)
    }

    /** Checks one entry, writes it to its row or to a new one, and flushes. */
    method WriteRow(company: string, product: Id, sku: Option<string>, existing: set<Id>, p: VariantPayload,
                    seen: set<string>, ids: seq<Id>)
      returns (outcome: Result<(), Error>, seenAfter: set<string>, idsAfter: seq<Id>)
      requires product in products && existing <= variants.Keys
      modifies this
      ensures match WriteVariant(Walk(old(Contents()), seen, ids), company, product, sku, existing, p)
              case Success(w) => outcome == Success(()) && Walk(Contents(), seenAfter, idsAfter) == w
              case Failure(e) => outcome == Failure(e)
    {
      seenAfter, idsAfter := seen, ids;
      if Given(p.sku) {
        if p.sku.value in seen {
          return Failure(DuplicateInPayload), seen, ids;
        }
      }
      var target := Target(existing, p);
      if Taken(Contents(), company, p.sku, None, target) {
        return Failure(SkuTaken), seen, ids;
      }
      if Given(p.sku) {
        seenAfter := seen + {p.sku.value};
      }
      if target.Some? {
        variants := variants[target.value := variants[target.value].(sku := p.sku)];
        idsAfter := ids + [target.value];
      } else {
        variants := variants[nextId := Variant(company, product, p.sku)];
        idsAfter := ids + [nextId];
        nextId := nextId + 1;
      }
      products := products[product := products[product].(sku := sku)];
      outcome := Success(());
    }

    /** Checks and writes the payload entry by entry, then drops the rows that were not kept. A
        refusal leaves the entries before it written. */
    method ReplaceProductVariants(company: string, product: Id, sku: Option<string>, payload: seq<VariantPayload>)
      returns (outcome: Result<(), Error>)
      requires product in products
      modifies this
      ensures match ReplaceVariants(old(Contents()), company, product, sku, payload)
              case Success(w) => outcome == Success(()) && Contents() == w.cat
              case Failure(e) => outcome == Failure(e)
    {
      var existing := VariantsOf(Contents(), product);
      var seen := if Given(sku) then {sku.value} else {};
      var ids: seq<Id> := [];
      outcome := Success(());
      for i := 0 to |payload|
        invariant product in products && existing <= variants.Keys
        invariant WriteVariants(old(Contents()), company, product, sku, existing, payload[..i]) == Success(Walk(Contents(), seen, ids))
      {
        assert payload[..i + 1][..i] == payload[..i];
        outcome, seen, ids := WriteRow(company, product, sku, existing, payload[i], seen, ids);
        if outcome.Failure? {
          WriteFailureSticks(old(Contents()), company, product, sku, existing, payload, i + 1);
          return;
        }
      }
      assert payload[..|payload|] == payload;
      variants := variants - (existing - set i | i in ids);
      outcome := Success(());
    }

    /** The update request; a refusal rolls both tables back. */
    method Update(company: string, product: Id, u: Update) returns (outcome: Result<(), Error>)
      modifies this
      ensures match UpdateProduct(old(Contents()), company, product, u)
              case Success(after) => outcome == Success(()) && Contents() == after
              case Failure(e) => outcome == Failure(e) && Contents() == old(Contents())
    {
      if product !in products || products[product].company != company {
        return Failure(ProductMissing);
      }
      if u.sku.Some? && Taken(Contents(), company, u.sku.value, Some(product), None) {
        return Failure(SkuTaken);
      }
      var saved := Contents();
      var sku := if u.sku.Some? then u.sku.value else products[product].sku;
      if u.flushesEarly {
        products := products[product := products[product].(sku := sku)];
      }
      outcome := Success(());
      if u.variants.Some? {
        outcome := ReplaceProductVariants(company, product, sku, u.variants.value);
      }
      if outcome.Success? && !u.accepted {
        outcome := Failure(OtherFieldRefused);
      }
      if outcome.Failure? {
        products, variants, nextId := saved.products, saved.variants, saved.nextId;
        return;
      }
      products := products[product := products[product].(sku := sku)];
      if u.archived.Some? {
        products := products[product := products[product].(archived := u.archived.value)];
      }
    }

    /** Checks a creation payload against itself, the product's SKU and both tables. */
    method ValidateVariantSkus(company: string, sku: Option<string>, payload: seq<VariantPayload>) returns (accepted: bool)
      ensures accepted == PayloadAccepted(Contents(), company, sku, payload)
    {
      var seen := if Given(sku) then {sku.value} else {};
      for i := 0 to |payload|
        invariant PayloadAccepted(Contents(), company, sku, payload[..i])
        invariant forall s :: s in seen <==> s != "" && (sku == Some(s) || exists j :: 0 <= j < i && payload[j].sku == Some(s))
      {
        var p := payload[i];
        PayloadAcceptedStep(Contents(), company, sku, payload[..i], p);
        assert payload[..i + 1] == payload[..i] + [p];
        if Given(p.sku) {
          if p.sku.value in seen || Taken(Contents(), company, p.sku, None, None) {
            PayloadRefused(Contents(), company, sku, payload, i + 1);
            return false;
          }
          seen := seen + {p.sku.value};
        }
      }
      assert payload[..|payload|] == payload;
      accepted := true;
    }

    /** The creation request; a refusal rolls both tables back. */
    method Create(company: string, sku: Option<string>, listing: seq<string>, payload: seq<VariantPayload>,
                  archived: bool, otherFieldsAccepted: bool) returns (outcome: Result<(), Error>)
      modifies this
      ensures match CreateProduct(old(Contents()), company, sku, listing, payload, archived, otherFieldsAccepted)
              case Success(after) => outcome == Success(()) && Contents() == after
              case Failure(e) => outcome == Failure(e) && Contents() == old(Contents())
    {
      var chosen := sku;
      if !Given(sku) {
        chosen := Some(ProductCodes.SuggestSku(listing));
      }
      if Taken(Contents(), company, chosen, None, None) {
        return Failure(SkuTaken);
      }
      var payloadAccepted := ValidateVariantSkus(company, chosen, payload);
      if !payloadAccepted {
        return Failure(DuplicateInPayload);
      }
      if !otherFieldsAccepted {
        return Failure(OtherFieldRefused);
      }
      var saved, id := Contents(), nextId;
      products := products[id := Product(company, chosen, archived)];
      nextId := id + 1;
      outcome := ReplaceProductVariants(company, id, chosen, payload);
      if outcome.Failure? {
        products, variants, nextId := saved.products, saved.variants, saved.nextId;
      }
    }

    method PermanentlyDelete(company: string, product: Id, isReferenced: bool) returns (outcome: Result<(), Error>)
      modifies this
      ensures match DeleteProduct(old(Contents()), company, product, isReferenced)
              case Success(after) => outcome == Success(()) && Contents() == after
              case Failure(e) => outcome == Failure(e) && Contents() == old(Contents())
    {
      if product !in products || products[product].company != company {
        return Failure(ProductMissing);
      }
      if !products[product].archived {
        return Failure(NotArchived);
      }
      if isReferenced {
        return Failure(Protected);
      }
      variants := variants - VariantsOf(Contents(), product);
      products := products - {product};
      outcome := Success(());
    }
  }

  lemma {:induction false} PayloadRefused(cat: Catalog, company: string, sku: Option<string>, payload: seq<VariantPayload>, n: nat)
    requires n <= |payload| && !PayloadAccepted(cat, company, sku, payload[..n])
    ensures !PayloadAccepted(cat, company, sku, payload)
  {
    assert forall i :: 0 <= i < n ==> payload[..n][i] == payload[i];
  }

  ghost predicate NewInPayload(cat: Catalog, company: string, sku: Option<string>, payload: seq<VariantPayload>, p: VariantPayload) {
    && p.sku != sku && !Taken(cat, company, p.sku, None, None)
    && forall i :: 0 <= i < |payload| ==> payload[i].sku != p.sku
  }

  /** The walk of validate_variant_skus agrees with PayloadAccepted on the longer payload. */
  lemma PayloadAcceptedStep(cat: Catalog, company: string, sku: Option<string>, payload: seq<VariantPayload>, p: VariantPayload)
    ensures PayloadAccepted(cat, company, sku, payload + [p])
       <==> PayloadAccepted(cat, company, sku, payload)
            && (Given(p.sku) ==> NewInPayload(cat, company, sku, payload, p))
  {
    var more := payload + [p];
    assert more[|payload|] == p;
    assert forall i :: 0 <= i < |payload| ==> more[i] == payload[i];
  }

  lemma {:induction false} WriteFailureSticks(cat: Catalog, company: string, product: Id, sku: Option<string>,
                                              existing: set<Id>, payload: seq<VariantPayload>, n: nat)
    requires product in cat.products && existing <= cat.variants.Keys && n <= |payload|
    requires WriteVariants(cat, company, product, sku, existing, payload[..n]).Failure?
    ensures WriteVariants(cat, company, product, sku, existing, payload) == WriteVariants(cat, company, product, sku, existing, payload[..n])
  {
    if n < |payload| {
      assert payload[..|payload| - 1][..n] == payload[..n];
      WriteFailureSticks(cat, company, product, sku, existing, payload[..|payload| - 1], n);
    } else {
      assert payload[..n] == payload;
    }
  }
}
