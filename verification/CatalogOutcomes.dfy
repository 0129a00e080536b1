/** What catalog requests answer and leave: exactly which variant payloads are accepted, and what
    every accepted request has stored in both tables. */
module CatalogOutcomes {
  import opened Wrappers
  import opened CatalogSkus
  import opened CatalogSkuProofs
  import ProductCodes

  // ----- which variant payloads are accepted -----

  /** Entry i can have the SKU it asks for: it is neither the product's nor an earlier entry's, and on
      no row, but for the product's own row once an earlier entry flushed it, the row that the entry
      itself rewrites, and rows that earlier entries have rewritten. */
  ghost predicate EntryFree(cat: Catalog, company: string, product: Id, sku: Option<string>, existing: set<Id>,
                            payload: seq<VariantPayload>, i: nat)
    requires i < |payload|
  {
    var wanted := payload[i].sku;
    Given(wanted) ==>
      && wanted != sku
      && (forall j :: 0 <= j < i ==> payload[j].sku != wanted)
      && (forall p :: p in cat.products && cat.products[p].company == company && cat.products[p].sku == wanted ==>
            p == product && i > 0)
      && (forall v :: v in cat.variants && cat.variants[v].company == company && cat.variants[v].sku == wanted ==>
            exists j :: 0 <= j <= i && Target(existing, payload[j]) == Some(v))
  }

  /** The loop has seen the product's SKU and those of the entries so far. */
  ghost predicate SeenSoFar(seen: set<string>, sku: Option<string>, payload: seq<VariantPayload>) {
    forall s :: s in seen <==> s != "" && (sku == Some(s) || exists j :: 0 <= j < |payload| && payload[j].sku == Some(s))
  }

  /** Every written row carries the SKU of one of the entries so far, all others what they had. */
  ghost predicate RowsSoFar(cat: Catalog, w: Walk, company: string, payload: seq<VariantPayload>) {
    && (forall v :: v in w.ids ==>
          v in w.cat.variants && w.cat.variants[v].company == company
          && exists j :: 0 <= j < |payload| && payload[j].sku == w.cat.variants[v].sku)
    && (forall v :: v in w.cat.variants && v !in w.ids ==> v in cat.variants && w.cat.variants[v] == cat.variants[v])
    && (forall v :: v in cat.variants ==> v in w.cat.variants)
  }

  /** The rows written so far are the entries' targets and new rows. */
  ghost predicate TargetsSoFar(cat: Catalog, w: Walk, existing: set<Id>, payload: seq<VariantPayload>) {
    && w.cat.nextId >= cat.nextId
    && forall v :: v in cat.variants ==> (v in w.ids <==> exists j :: 0 <= j < |payload| && Target(existing, payload[j]) == Some(v))
  }

  /** Other products are as they were; the product's row is flushed by the first entry. */
  ghost predicate ProductsSoFar(cat: Catalog, w: Walk, product: Id, sku: Option<string>, payload: seq<VariantPayload>)
    requires product in cat.products
  {
    w.cat.products == if payload == [] then cat.products else FlushProduct(cat, product, sku).products
  }

  ghost predicate SoFar(cat: Catalog, w: Walk, company: string, product: Id, sku: Option<string>, existing: set<Id>, payload: seq<VariantPayload>) {
    && product in cat.products && ProductsSoFar(cat, w, product, sku, payload) && existing <= w.cat.variants.Keys
    && SeenSoFar(w.seen, sku, payload) && RowsSoFar(cat, w, company, payload) && TargetsSoFar(cat, w, existing, payload)
  }

  /** The tables a request may find: ids are older than the next one, `existing` are the product's
      own rows. */
  ghost predicate Ready(cat: Catalog, company: string, product: Id, existing: set<Id>) {
    && Owned(cat) && product in cat.products && cat.products[product].company == company
    && existing == VariantsOf(cat, product)
  }

  lemma SeenOneMore(seen: set<string>, sku: Option<string>, payload: seq<VariantPayload>, p: VariantPayload)
    requires SeenSoFar(seen, sku, payload)
    ensures SeenSoFar(if Given(p.sku) then seen + {p.sku.value} else seen, sku, payload + [p])
  {
    var all := payload + [p];
    assert all[|payload|] == p && forall j :: 0 <= j < |payload| ==> all[j] == payload[j];
    if Given(p.sku) {
      assert all[|payload|].sku == Some(p.sku.value);
    }
  }

  lemma RowsOneMore(cat: Catalog, w: Walk, company: string, product: Id, sku: Option<string>, existing: set<Id>,
                    payload: seq<VariantPayload>, p: VariantPayload)
    requires Ready(cat, company, product, existing) && SoFar(cat, w, company, product, sku, existing, payload)
    requires product in w.cat.products && WriteVariant(w, company, product, sku, existing, p).Success?
    ensures RowsSoFar(cat, WriteVariant(w, company, product, sku, existing, p).value, company, payload + [p])
  {
    var more, all := WriteVariant(w, company, product, sku, existing, p).value, payload + [p];
    var row := more.ids[|w.ids|];
    assert more.ids == w.ids + [row];
    assert all[|payload|] == p && forall j :: 0 <= j < |payload| ==> all[j] == payload[j];
    forall v | v in more.ids
      ensures v in more.cat.variants && more.cat.variants[v].company == company
      ensures exists j :: 0 <= j < |all| && all[j].sku == more.cat.variants[v].sku
    {
      if v == row {
        assert all[|payload|].sku == more.cat.variants[v].sku;
        assert Target(existing, p).Some? ==> v in cat.variants && cat.variants[v].company == company;
      } else {
        assert v in w.ids && more.cat.variants[v] == w.cat.variants[v];
        var j :| 0 <= j < |payload| && payload[j].sku == w.cat.variants[v].sku;
        assert all[j].sku == more.cat.variants[v].sku;
      }
    }
  }

  lemma TargetsOneMore(cat: Catalog, w: Walk, company: string, product: Id, sku: Option<string>, existing: set<Id>,
                       payload: seq<VariantPayload>, p: VariantPayload)
    requires Ready(cat, company, product, existing) && SoFar(cat, w, company, product, sku, existing, payload)
    requires product in w.cat.products && WriteVariant(w, company, product, sku, existing, p).Success?
    ensures TargetsSoFar(cat, WriteVariant(w, company, product, sku, existing, p).value, existing, payload + [p])
  {
    var more, all := WriteVariant(w, company, product, sku, existing, p).value, payload + [p];
    var row := more.ids[|w.ids|];
    assert more.ids == w.ids + [row];
    assert all[|payload|] == p && forall j :: 0 <= j < |payload| ==> all[j] == payload[j];
    forall v | v in cat.variants
      ensures v in more.ids <==> exists j :: 0 <= j < |all| && Target(existing, all[j]) == Some(v)
    {
      assert v in more.ids <==> v in w.ids || v == row;
      assert v == row <==> Target(existing, p) == Some(v);
      if j :| 0 <= j < |payload| && Target(existing, payload[j]) == Some(v) {
        assert Target(existing, all[j]) == Some(v);
      }
      if v == row {
        assert Target(existing, all[|payload|]) == Some(v);
      }
    }
  }

  lemma SoFarOneMore(cat: Catalog, w: Walk, company: string, product: Id, sku: Option<string>, existing: set<Id>,
                     payload: seq<VariantPayload>, p: VariantPayload)
    requires Ready(cat, company, product, existing) && SoFar(cat, w, company, product, sku, existing, payload)
    requires product in w.cat.products && WriteVariant(w, company, product, sku, existing, p).Success?
    ensures SoFar(cat, WriteVariant(w, company, product, sku, existing, p).value, company, product, sku, existing, payload + [p])
  {
    SeenOneMore(w.seen, sku, payload, p);
    RowsOneMore(cat, w, company, product, sku, existing, payload, p);
    TargetsOneMore(cat, w, company, product, sku, existing, payload, p);
  }

  lemma {:induction false} WalkSoFar(cat: Catalog, company: string, product: Id, sku: Option<string>, existing: set<Id>, payload: seq<VariantPayload>)
    requires Ready(cat, company, product, existing)
    requires WriteVariants(cat, company, product, sku, existing, payload).Success?
    ensures SoFar(cat, WriteVariants(cat, company, product, sku, existing, payload).value, company, product, sku, existing, payload)
  {
    if payload != [] {
      var n := |payload| - 1;
      assert payload == payload[..n] + [payload[n]];
      WalkSoFar(cat, company, product, sku, existing, payload[..n]);
      SoFarOneMore(cat, WriteVariants(cat, company, product, sku, existing, payload[..n]).value,
                   company, product, sku, existing, payload[..n], payload[n]);
    }
  }

  /** After n entries the rows that still stand in the way of the wanted SKU. */
  ghost predicate RowInTheWay(cat: Catalog, company: string, existing: set<Id>, payload: seq<VariantPayload>, n: nat, v: Id)
    requires n < |payload|
  {
    && v in cat.variants && cat.variants[v].company == company && cat.variants[v].sku == payload[n].sku
    && forall j :: 0 <= j <= n ==> Target(existing, payload[j]) != Some(v)
  }

  lemma TakenByVariant(cat: Catalog, w: Walk, company: string, product: Id, sku: Option<string>, existing: set<Id>,
                       payload: seq<VariantPayload>, n: nat)
    requires Ready(cat, company, product, existing) && n < |payload|
    requires SoFar(cat, w, company, product, sku, existing, payload[..n])
    requires Given(payload[n].sku) && forall j :: 0 <= j < n ==> payload[j].sku != payload[n].sku
    ensures (exists v :: v in w.cat.variants && Some(v) != Target(existing, payload[n])
                         && w.cat.variants[v].company == company && w.cat.variants[v].sku == payload[n].sku)
       <==> exists v :: RowInTheWay(cat, company, existing, payload, n, v)
  {
    var target := Target(existing, payload[n]);
    forall v | v in cat.variants
      ensures v in w.ids <==> exists j :: 0 <= j < n && Target(existing, payload[j]) == Some(v)
    {
      if j :| 0 <= j < n && Target(existing, payload[j]) == Some(v) {
        assert Target(existing, payload[..n][j]) == Some(v);
      }
    }
    if v :| v in w.cat.variants && Some(v) != target && w.cat.variants[v].company == company && w.cat.variants[v].sku == payload[n].sku {
      assert v !in w.ids;
      assert RowInTheWay(cat, company, existing, payload, n, v);
    }
    if v :| RowInTheWay(cat, company, existing, payload, n, v) {
      assert v !in w.ids && Some(v) != target && v in w.cat.variants && w.cat.variants[v] == cat.variants[v];
    }
  }

  lemma TakenByProduct(cat: Catalog, w: Walk, company: string, product: Id, sku: Option<string>, existing: set<Id>,
                       payload: seq<VariantPayload>, n: nat)
    requires Ready(cat, company, product, existing) && n < |payload|
    requires SoFar(cat, w, company, product, sku, existing, payload[..n])
    requires Given(payload[n].sku) && payload[n].sku != sku
    ensures (exists p :: p in w.cat.products && w.cat.products[p].company == company && w.cat.products[p].sku == payload[n].sku)
       <==> exists p :: p in cat.products && cat.products[p].company == company && cat.products[p].sku == payload[n].sku
                        && (p != product || n == 0)
  {
    if p :| p in w.cat.products && w.cat.products[p].company == company && w.cat.products[p].sku == payload[n].sku {
      assert p in cat.products;
    }
    if p :| p in cat.products && cat.products[p].company == company && cat.products[p].sku == payload[n].sku && (p != product || n == 0) {
      assert p in w.cat.products;
    }
  }

  /** The next entry is accepted exactly when it is free. */
  lemma NextEntryIff(cat: Catalog, w: Walk, company: string, product: Id, sku: Option<string>, existing: set<Id>,
                     payload: seq<VariantPayload>, n: nat)
    requires Ready(cat, company, product, existing) && n < |payload|
    requires SoFar(cat, w, company, product, sku, existing, payload[..n]) && product in w.cat.products
    ensures WriteVariant(w, company, product, sku, existing, payload[n]).Success?
       <==> EntryFree(cat, company, product, sku, existing, payload, n)
  {
    var wanted := payload[n].sku;
    if Given(wanted) {
      SeenIff(w.seen, sku, payload, n);
      if wanted.value !in w.seen {
        TakenByVariant(cat, w, company, product, sku, existing, payload, n);
        TakenByProduct(cat, w, company, product, sku, existing, payload, n);
        InTheWayIff(cat, company, existing, payload, n);
      }
    }
  }

  lemma SeenIff(seen: set<string>, sku: Option<string>, payload: seq<VariantPayload>, n: nat)
    requires n < |payload| && SeenSoFar(seen, sku, payload[..n]) && Given(payload[n].sku)
    ensures payload[n].sku.value in seen <==> payload[n].sku == sku || exists j :: 0 <= j < n && payload[j].sku == payload[n].sku
  {
    if j :| 0 <= j < n && payload[j].sku == payload[n].sku {
      assert payload[..n][j].sku == Some(payload[n].sku.value);
    }
  }

  lemma InTheWayIff(cat: Catalog, company: string, existing: set<Id>, payload: seq<VariantPayload>, n: nat)
    requires n < |payload|
    ensures (forall v :: !RowInTheWay(cat, company, existing, payload, n, v))
       <==> forall v :: v in cat.variants && cat.variants[v].company == company && cat.variants[v].sku == payload[n].sku ==>
              exists j :: 0 <= j <= n && Target(existing, payload[j]) == Some(v)
  {
    if forall v :: !RowInTheWay(cat, company, existing, payload, n, v) {
      forall v | v in cat.variants && cat.variants[v].company == company && cat.variants[v].sku == payload[n].sku
        ensures exists j :: 0 <= j <= n && Target(existing, payload[j]) == Some(v)
      {
        assert !RowInTheWay(cat, company, existing, payload, n, v);
      }
    }
  }

  ghost predicate AllFree(cat: Catalog, company: string, product: Id, sku: Option<string>, existing: set<Id>, payload: seq<VariantPayload>) {
    forall i :: 0 <= i < |payload| ==> EntryFree(cat, company, product, sku, existing, payload, i)
  }

  lemma FreePrefix(cat: Catalog, company: string, product: Id, sku: Option<string>, existing: set<Id>, payload: seq<VariantPayload>, n: nat, i: nat)
    requires i < n <= |payload|
    ensures EntryFree(cat, company, product, sku, existing, payload[..n], i) <==> EntryFree(cat, company, product, sku, existing, payload, i)
  {
    assert forall j :: 0 <= j <= i ==> payload[..n][j] == payload[j];
  }

  lemma AllFreeSnoc(cat: Catalog, company: string, product: Id, sku: Option<string>, existing: set<Id>, payload: seq<VariantPayload>)
    requires payload != []
    ensures AllFree(cat, company, product, sku, existing, payload)
       <==> AllFree(cat, company, product, sku, existing, payload[..|payload| - 1])
            && EntryFree(cat, company, product, sku, existing, payload, |payload| - 1)
  {
    var n := |payload| - 1;
    forall i | 0 <= i < n {
      FreePrefix(cat, company, product, sku, existing, payload, n, i);
    }
  }

  /** A variant payload is accepted if and only if every entry is free. */
  lemma {:induction false} WriteVariantsIff(cat: Catalog, company: string, product: Id, sku: Option<string>, existing: set<Id>, payload: seq<VariantPayload>)
    requires Ready(cat, company, product, existing)
    ensures WriteVariants(cat, company, product, sku, existing, payload).Success?
       <==> AllFree(cat, company, product, sku, existing, payload)
  {
    if payload != [] {
      var n := |payload| - 1;
      WriteVariantsIff(cat, company, product, sku, existing, payload[..n]);
      AllFreeSnoc(cat, company, product, sku, existing, payload);
      if WriteVariants(cat, company, product, sku, existing, payload[..n]).Success? {
        WalkSoFar(cat, company, product, sku, existing, payload[..n]);
        NextEntryIff(cat, WriteVariants(cat, company, product, sku, existing, payload[..n]).value,
                     company, product, sku, existing, payload, n);
      }
    }
  }

  // ----- updates -----

  function NewSku(cat: Catalog, product: Id, u: Update): Option<string>
    requires product in cat.products
  {
    if u.sku.Some? then u.sku.value else cat.products[product].sku
  }

  /** The tables as the variant loop finds them: the product's row has its new SKU only where a tag
      was created on the way. */
  function AsFlushed(cat: Catalog, product: Id, u: Update): Catalog
    requires product in cat.products
  {
    if u.flushesEarly then FlushProduct(cat, product, NewSku(cat, product, u)) else cat
  }

  /** An update goes through if and only if the product is the company's, a new SKU is on no other
      row, every entry of a variant payload is free, and all other fields are accepted. */
  lemma UpdateIff(cat: Catalog, company: string, product: Id, u: Update)
    requires Owned(cat)
    ensures UpdateProduct(cat, company, product, u).Success?
       <==> && product in cat.products && cat.products[product].company == company && u.accepted
            && (u.sku.Some? && Given(u.sku.value) ==>
                  && (forall p :: p in cat.products && p != product && cat.products[p].company == company ==>
                        cat.products[p].sku != u.sku.value)
                  && forall v :: v in cat.variants && cat.variants[v].company == company ==> cat.variants[v].sku != u.sku.value)
            && (u.variants.Some? ==>
                  AllFree(AsFlushed(cat, product, u), company, product, NewSku(cat, product, u), VariantsOf(cat, product), u.variants.value))
  {
    if product in cat.products && cat.products[product].company == company && u.variants.Some? {
      var early := AsFlushed(cat, product, u);
      assert VariantsOf(early, product) == VariantsOf(cat, product);
      WriteVariantsIff(early, company, product, NewSku(cat, product, u), VariantsOf(early, product), u.variants.value);
    }
  }

  /** What an accepted update has stored: the SKU and the archived flag it carries, each exactly when it
      carries one, on the product's row and no other; without a variant payload no variant changes,
      with one no other product's variant does. */
  lemma UpdateStores(cat: Catalog, company: string, product: Id, u: Update)
    requires Owned(cat) && UpdateProduct(cat, company, product, u).Success?
    ensures var after := UpdateProduct(cat, company, product, u).value;
      && after.products.Keys == cat.products.Keys
      && after.products[product] == Product(company, if u.sku.Some? then u.sku.value else cat.products[product].sku,
                                            if u.archived.Some? then u.archived.value else cat.products[product].archived)
      && (forall p :: p in cat.products && p != product ==> after.products[p] == cat.products[p])
      && (u.variants.None? ==> after.variants == cat.variants)
      && (forall v :: v in cat.variants && cat.variants[v].product != product ==>
            v in after.variants && after.variants[v] == cat.variants[v])
  {
    if u.variants.Some? {
      var early, existing := AsFlushed(cat, product, u), VariantsOf(cat, product);
      assert VariantsOf(early, product) == existing;
      WalkSoFar(early, company, product, NewSku(cat, product, u), existing, u.variants.value);
      OthersUntouched(early, company, product, NewSku(cat, product, u), existing, u.variants.value);
    }
  }

  lemma OthersUntouched(cat: Catalog, company: string, product: Id, sku: Option<string>, existing: set<Id>, payload: seq<VariantPayload>)
    requires Ready(cat, company, product, existing)
    requires WriteVariants(cat, company, product, sku, existing, payload).Success?
    ensures var w := WriteVariants(cat, company, product, sku, existing, payload).value;
      forall v :: v in cat.variants && v !in existing ==> v in w.cat.variants && w.cat.variants[v] == cat.variants[v]
  {
    WalkSoFar(cat, company, product, sku, existing, payload);
  }

  /** The variants an update leaves are the rows its payload was written to, each with the SKU of the
      last entry for it. */
  lemma UpdateStoresVariants(cat: Catalog, company: string, product: Id, u: Update)
    requires Inv(cat) && UpdateProduct(cat, company, product, u).Success? && u.variants.Some?
    ensures var after := UpdateProduct(cat, company, product, u).value;
      exists ids: seq<Id> :: StoresPayload(cat, after, product, u.variants.value, ids)
  {
    var sku := NewSku(cat, product, u);
    var early := AsFlushed(cat, product, u);
    OwnSkuIsClaimed(cat, company, product);
    FlushKeeps(cat, company, product, sku);
    ReplacementLeavesThePayload(early, company, product, sku, u.variants.value);
    var w := ReplaceVariants(early, company, product, sku, u.variants.value).value;
    var after := UpdateProduct(cat, company, product, u).value;
    assert after.variants == w.cat.variants;
    assert VariantsOf(after, product) == VariantsOf(w.cat, product);
    assert StoresPayload(cat, after, product, u.variants.value, w.ids);
  }

  ghost predicate StoresPayload(cat: Catalog, after: Catalog, product: Id, payload: seq<VariantPayload>, ids: seq<Id>) {
    && |ids| == |payload|
    && VariantsOf(after, product) == (set i | i in ids)
    && forall i :: 0 <= i < |ids| ==>
         ids[i] in after.variants && (ids[i] in ids[i + 1..] || after.variants[ids[i]].sku == payload[i].sku)
  }

  // ----- creations -----

  lemma NewProductIsFree(cat: Catalog, company: string, sku: Option<string>, archived: bool, payload: seq<VariantPayload>)
    requires Owned(cat) && !Taken(cat, company, sku, None, None)
    ensures var inserted := cat.(products := cat.products[cat.nextId := Product(company, sku, archived)], nextId := cat.nextId + 1);
      && Ready(inserted, company, cat.nextId, {})
      && (PayloadAccepted(cat, company, sku, payload) ==> AllFree(inserted, company, cat.nextId, sku, {}, payload))
  {
    var inserted := cat.(products := cat.products[cat.nextId := Product(company, sku, archived)], nextId := cat.nextId + 1);
    assert VariantsOf(inserted, cat.nextId) == {};
    if PayloadAccepted(cat, company, sku, payload) {
      forall i | 0 <= i < |payload| ensures EntryFree(inserted, company, cat.nextId, sku, {}, payload, i) {
        if Given(payload[i].sku) {
          assert !Taken(cat, company, payload[i].sku, None, None);
          forall j | 0 <= j < i ensures payload[j].sku != payload[i].sku {
            assert Given(payload[j].sku) ==> payload[j].sku != payload[i].sku;
          }
        }
      }
    }
  }

  /** A creation goes through if and only if its SKU, given or suggested, is free, its variant payload
      passes the check made before anything is written, and all other fields are accepted: a payload
      that passed is never refused half-way. */
  lemma CreateIff(cat: Catalog, company: string, sku: Option<string>, listing: seq<string>,
                  payload: seq<VariantPayload>, archived: bool, accepted: bool)
    requires Owned(cat)
    ensures var chosen := if Given(sku) then sku else Some(ProductCodes.SuggestSku(listing));
      CreateProduct(cat, company, sku, listing, payload, archived, accepted).Success?
      <==> !Taken(cat, company, chosen, None, None) && PayloadAccepted(cat, company, chosen, payload) && accepted
  {
    var chosen := if Given(sku) then sku else Some(ProductCodes.SuggestSku(listing));
    if !Taken(cat, company, chosen, None, None) {
      var inserted := cat.(products := cat.products[cat.nextId := Product(company, chosen, archived)], nextId := cat.nextId + 1);
      NewProductIsFree(cat, company, chosen, archived, payload);
      WriteVariantsIff(inserted, company, cat.nextId, chosen, VariantsOf(inserted, cat.nextId), payload);
    }
  }

  /** What an accepted creation has stored: one new product row with the SKU, and nothing else changed
      but new variants of it. */
  lemma CreateStores(cat: Catalog, company: string, sku: Option<string>, listing: seq<string>,
                     payload: seq<VariantPayload>, archived: bool, accepted: bool)
    requires Owned(cat) && CreateProduct(cat, company, sku, listing, payload, archived, accepted).Success?
    ensures var after := CreateProduct(cat, company, sku, listing, payload, archived, accepted).value;
      && cat.nextId !in cat.products
      && after.products == cat.products[cat.nextId :=
           Product(company, if Given(sku) then sku else Some(ProductCodes.SuggestSku(listing)), archived)]
      && (forall v :: v in cat.variants ==> v in after.variants && after.variants[v] == cat.variants[v])
      && (forall v :: v in after.variants && v !in cat.variants ==>
            after.variants[v].product == cat.nextId && after.variants[v].company == company)
  {
    var chosen := if Given(sku) then sku else Some(ProductCodes.SuggestSku(listing));
    var inserted := cat.(products := cat.products[cat.nextId := Product(company, chosen, archived)], nextId := cat.nextId + 1);
    CreateEffect(cat, company, sku, listing, payload, archived, accepted);
    NewProductIsFree(cat, company, chosen, archived, payload);
    assert VariantsOf(inserted, cat.nextId) == {};
    WalkSoFar(inserted, company, cat.nextId, chosen, {}, payload);
    NewRowsBelong(inserted, company, cat.nextId, chosen, {}, payload);
  }

  lemma {:induction false} NewRowsBelong(cat: Catalog, company: string, product: Id, sku: Option<string>, existing: set<Id>, payload: seq<VariantPayload>)
    requires Ready(cat, company, product, existing)
    requires WriteVariants(cat, company, product, sku, existing, payload).Success?
    ensures var w := WriteVariants(cat, company, product, sku, existing, payload).value;
      forall v :: v in w.cat.variants && v !in cat.variants ==> w.cat.variants[v].product == product && w.cat.variants[v].company == company
  {
    if payload != [] {
      NewRowsBelong(cat, company, product, sku, existing, payload[..|payload| - 1]);
    }
  }

  // ----- archive and delete -----

  /** Archiving flags the product and changes nothing else; deleting takes an archived product that
      nothing refers to out of both tables, with its variants and nothing else. */
  lemma ArchiveAndDeleteOutcome(cat: Catalog, company: string, product: Id, isReferenced: bool)
    ensures var owned := product in cat.products && cat.products[product].company == company;
      var kept, gone := ArchiveProduct(cat, company, product), DeleteProduct(cat, company, product, isReferenced);
      && (kept.Success? <==> owned)
      && (kept.Success? ==>
            kept.value == cat.(products := cat.products[product := Product(company, cat.products[product].sku, true)]))
      && (gone.Success? <==> owned && cat.products[product].archived && !isReferenced)
      && (gone == Failure(NotArchived) <==> owned && !cat.products[product].archived)
      && (gone.Success? ==>
            && gone.value.nextId == cat.nextId
            && (forall p :: p in gone.value.products <==> p in cat.products && p != product)
            && (forall p :: p in gone.value.products ==> gone.value.products[p] == cat.products[p])
            && (forall v :: v in gone.value.variants <==> v in cat.variants && cat.variants[v].product != product)
            && (forall v :: v in gone.value.variants ==> gone.value.variants[v] == cat.variants[v]))
  {
  }

  /** A step of a run is its request where that succeeds, and nothing where it fails. */
  lemma StepIsItsRequest(cat: Catalog, op: Op)
    ensures op.Create? ==> Outcome(cat, op) == CreateProduct(cat, op.company, op.sku, op.listing, op.variants, op.archived, op.accepted)
    ensures op.Modify? ==> Outcome(cat, op) == UpdateProduct(cat, op.company, op.product, op.update)
    ensures op.Archive? ==> Outcome(cat, op) == ArchiveProduct(cat, op.company, op.product)
    ensures op.Delete? ==> Outcome(cat, op) == DeleteProduct(cat, op.company, op.product, op.isReferenced)
    ensures Outcome(cat, op).Success? ==> Step(cat, op) == Outcome(cat, op).value
    ensures Outcome(cat, op).Failure? ==> Step(cat, op) == cat
  {
  }
}
