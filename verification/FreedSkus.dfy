/** When the SKU that an update takes off a product can go to one of its variants in the same
    request. The session does not flush on queries, so the product's old SKU is in the table until
    the first flush. */
module FreedSkus {
  import opened Wrappers
  import opened CatalogSkus
  import opened CatalogSkuProofs
  import opened CatalogOutcomes

  /** The update takes a non-empty SKU off the product and rewrites its variants. */
  ghost predicate Frees(cat: Catalog, company: string, product: Id, u: Update, freed: string) {
    && freed != "" && product in cat.products
    && cat.products[product].company == company && cat.products[product].sku == Some(freed)
    && u.sku.Some? && u.sku.value != Some(freed) && u.variants.Some?
  }

  /** Entry n of the payload, and no other, asks for the freed SKU. */
  ghost predicate OnlyAsksAt(payload: seq<VariantPayload>, n: nat, freed: string) {
    n < |payload| && forall i :: 0 <= i < |payload| ==> (payload[i].sku == Some(freed) <==> i == n)
  }

  function Blanked(payload: seq<VariantPayload>, n: nat): seq<VariantPayload>
    requires n < |payload|
  {
    payload[n := payload[n].(sku := None)]
  }

  /** Asking for the freed SKU at entry n makes no difference to any other entry. */
  lemma OtherEntriesUnaffected(cat: Catalog, company: string, product: Id, sku: Option<string>, existing: set<Id>,
                               payload: seq<VariantPayload>, n: nat, freed: string, i: nat)
    requires OnlyAsksAt(payload, n, freed) && i < |payload| && i != n
    ensures EntryFree(cat, company, product, sku, existing, Blanked(payload, n), i)
       <==> EntryFree(cat, company, product, sku, existing, payload, i)
  {
    var blank := Blanked(payload, n);
    assert blank[i] == payload[i];
    assert forall j :: 0 <= j < |payload| ==> Target(existing, blank[j]) == Target(existing, payload[j]);
    assert forall j :: 0 <= j < |payload| && j != n ==> blank[j].sku == payload[j].sku;
    if Given(payload[i].sku) {
      assert blank[n].sku != payload[i].sku && payload[n].sku != payload[i].sku;
    }
  }

  /** Entry n is free exactly when the product's row no longer has the SKU. */
  lemma FreedEntryIff(cat: Catalog, early: Catalog, company: string, product: Id, u: Update, n: nat, freed: string)
    requires Inv(cat) && Frees(cat, company, product, u, freed) && OnlyAsksAt(u.variants.value, n, freed)
    requires early == AsFlushed(cat, product, u)
    ensures EntryFree(early, company, product, u.sku.value, VariantsOf(cat, product), u.variants.value, n)
       <==> u.flushesEarly || n > 0
  {
    assert forall p :: p in early.products && p != product ==> early.products[p] == cat.products[p];
    assert early.products[product].sku == if u.flushesEarly then u.sku.value else Some(freed);
  }

  lemma RefusedAsTaken(cat: Catalog, company: string, product: Id, u: Update, freed: string)
    requires Inv(cat) && Frees(cat, company, product, u, freed) && OnlyAsksAt(u.variants.value, 0, freed)
    requires !u.flushesEarly && !Taken(cat, company, u.sku.value, Some(product), None)
    ensures UpdateProduct(cat, company, product, u) == Failure(SkuTaken)
  {
    var payload, sku, existing := u.variants.value, u.sku.value, VariantsOf(cat, product);
    var first := payload[..1];
    assert first[..0] == [] && first[0] == payload[0];
    assert Taken(cat, company, Some(freed), None, Target(existing, payload[0]));
    assert WriteVariants(cat, company, product, sku, existing, first) == Failure(SkuTaken);
    WriteFailureSticks(cat, company, product, sku, existing, payload, 1);
  }

  /** For every catalog and every update that takes a SKU off a product: where the request would go
      through without it, giving that SKU to entry n of the variants is accepted if and only if the
      product was flushed before its variants or the entry is not the first. Otherwise the request
      is refused as if the SKU were still taken. */
  lemma FreedSkuMovesIffFlushed(cat: Catalog, company: string, product: Id, u: Update, n: nat, freed: string)
    requires Inv(cat) && Frees(cat, company, product, u, freed) && OnlyAsksAt(u.variants.value, n, freed)
    requires UpdateProduct(cat, company, product, u.(variants := Some(Blanked(u.variants.value, n)))).Success?
    ensures UpdateProduct(cat, company, product, u).Success? <==> u.flushesEarly || n > 0
    ensures UpdateProduct(cat, company, product, u).Failure? ==> UpdateProduct(cat, company, product, u) == Failure(SkuTaken)
  {
    var payload, early := u.variants.value, AsFlushed(cat, product, u);
    var blanked := u.(variants := Some(Blanked(payload, n)));
    assert AsFlushed(cat, product, blanked) == early;
    UpdateIff(cat, company, product, blanked);
    UpdateIff(cat, company, product, u);
    FreedEntryIff(cat, early, company, product, u, n, freed);
    forall i | 0 <= i < |payload| && i != n {
      OtherEntriesUnaffected(early, company, product, u.sku.value, VariantsOf(cat, product), payload, n, freed, i);
    }
    if !u.flushesEarly && n == 0 {
      RefusedAsTaken(cat, company, product, u, freed);
    }
  }

  // ----- an instance -----

  lemma TwoPlainVariants(cat: Catalog, company: string, product: Id, sku: Option<string>, other: VariantPayload)
    requires product in cat.products && other == VariantPayload(None, None)
    ensures WriteVariants(cat, company, product, sku, {}, [other, other]).Success?
  {
    assert [other, other][..1] == [other] && [other][..0] == [];
    var start := Walk(cat, if Given(sku) then {sku.value} else {}, []);
    assert WriteVariants(cat, company, product, sku, {}, []) == Success(start);
    assert WriteVariants(cat, company, product, sku, {}, [other]).Success?;
  }

  /** One product, renamed, and two new variants of which one takes over its SKU: refused when that
      one comes first, accepted when it comes second. */
  lemma OldSkuRefusedOnlyAtFirst(freed: string, taken: string)
    requires freed != "" && taken != freed
    ensures var cat := Catalog(map[0 := Product("c", Some(freed), false)], map[], 1);
      var moved, other := VariantPayload(None, Some(freed)), VariantPayload(None, None);
      var change := (vs: seq<VariantPayload>) => Update(Some(Some(taken)), None, Some(vs), false, true);
      && UpdateProduct(cat, "c", 0, change([moved, other])) == Failure(SkuTaken)
      && UpdateProduct(cat, "c", 0, change([other, moved])).Success?
  {
    var cat := Catalog(map[0 := Product("c", Some(freed), false)], map[], 1);
    var moved, other := VariantPayload(None, Some(freed)), VariantPayload(None, None);
    var change := (vs: seq<VariantPayload>) => Update(Some(Some(taken)), None, Some(vs), false, true);
    assert VariantsOf(cat, 0) == {};
    TwoPlainVariants(cat, "c", 0, Some(taken), other);
    assert UpdateProduct(cat, "c", 0, change([other, other])).Success?;
    assert Blanked([moved, other], 0) == [other, other] == Blanked([other, moved], 1);
    FreedSkuMovesIffFlushed(cat, "c", 0, change([moved, other]), 0, freed);
    FreedSkuMovesIffFlushed(cat, "c", 0, change([other, moved]), 1, freed);
  }
}
