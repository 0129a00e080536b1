/** SKU uniqueness across the product and variant tables, over every run of catalog requests. */
module CatalogSkuProofs {
  import opened Wrappers
  import opened CatalogSkus
  import ProductCodes

  predicate Clash(company: string, sku: Option<string>, otherCompany: string, otherSku: Option<string>) {
    company == otherCompany && Given(sku) && sku == otherSku
  }

  /** No non-empty SKU appears on two rows of a company, product or variant. */
  ghost predicate UniqueSkus(cat: Catalog) {
    && (forall p, q :: p in cat.products && q in cat.products && p != q ==>
          !Clash(cat.products[p].company, cat.products[p].sku, cat.products[q].company, cat.products[q].sku))
    && (forall v, w :: v in cat.variants && w in cat.variants && v != w ==>
          !Clash(cat.variants[v].company, cat.variants[v].sku, cat.variants[w].company, cat.variants[w].sku))
    && (forall p, v :: p in cat.products && v in cat.variants ==>
          !Clash(cat.products[p].company, cat.products[p].sku, cat.variants[v].company, cat.variants[v].sku))
  }

  /** Variants belong to products of their own company; ids are older than the next one. */
  ghost predicate Owned(cat: Catalog) {
    && (forall p :: p in cat.products ==> p < cat.nextId)
    && (forall v :: v in cat.variants ==> v < cat.nextId && cat.variants[v].product in cat.products)
    && (forall v :: v in cat.variants ==> cat.products[cat.variants[v].product].company == cat.variants[v].company)
  }

  ghost predicate Inv(cat: Catalog) {
    UniqueSkus(cat) && Owned(cat)
  }

  /** The product's SKU in memory, flushed or not, is on no other row. */
  ghost predicate Claims(cat: Catalog, company: string, product: Id, sku: Option<string>) {
    product in cat.products && cat.products[product].company == company && !Taken(cat, company, sku, Some(product), None)
  }

  // ----- the loop over the payload -----

  lemma FlushKeeps(cat: Catalog, company: string, product: Id, sku: Option<string>)
    requires Inv(cat) && Claims(cat, company, product, sku)
    ensures Inv(FlushProduct(cat, product, sku)) && Claims(FlushProduct(cat, product, sku), company, product, sku)
  {
  }

  lemma SetVariantKeeps(cat: Catalog, company: string, product: Id, sku: Option<string>, row: Id, rowSku: Option<string>)
    requires Inv(cat) && Claims(cat, company, product, sku)
    requires row < cat.nextId && (row in cat.variants ==> cat.variants[row].product == product)
    requires !Taken(cat, company, rowSku, None, Some(row))
    requires Given(rowSku) ==> rowSku != sku
    ensures var after := cat.(variants := cat.variants[row := Variant(company, product, rowSku)]);
      Inv(after) && Claims(after, company, product, sku)
  {
  }

  /** What holds before and after every entry of the payload. */
  ghost predicate WalkInv(w: Walk, company: string, product: Id, sku: Option<string>, existing: set<Id>) {
    && Inv(w.cat) && Claims(w.cat, company, product, sku)
    && (Given(sku) ==> sku.value in w.seen)
    && existing <= w.cat.variants.Keys
    && forall v :: v in existing ==> w.cat.variants[v].product == product
  }

  /** One entry written and flushed, on an existing row or on a new one. */
  lemma WriteRowKeeps(cat: Catalog, company: string, product: Id, sku: Option<string>, row: Id, rowSku: Option<string>)
    requires Inv(cat) && Claims(cat, company, product, sku)
    requires row < cat.nextId && (row in cat.variants ==> cat.variants[row].product == product)
    requires !Taken(cat, company, rowSku, None, Some(row))
    requires Given(rowSku) ==> rowSku != sku
    ensures var after := FlushProduct(cat.(variants := cat.variants[row := Variant(company, product, rowSku)]), product, sku);
      Inv(after) && Claims(after, company, product, sku)
  {
    SetVariantKeeps(cat, company, product, sku, row, rowSku);
    FlushKeeps(cat.(variants := cat.variants[row := Variant(company, product, rowSku)]), company, product, sku);
  }

  /** Rewriting one variant keeps every SKU unique, even while the product's own SKU is pending. */
  lemma WriteVariantKeeps(w: Walk, company: string, product: Id, sku: Option<string>, existing: set<Id>, p: VariantPayload)
    requires WalkInv(w, company, product, sku, existing)
    requires WriteVariant(w, company, product, sku, existing, p).Success?
    ensures WalkInv(WriteVariant(w, company, product, sku, existing, p).value, company, product, sku, existing)
  {
    if Target(existing, p).Some? {
      RewriteKeeps(w, company, product, sku, existing, p);
    } else {
      AddKeeps(w, company, product, sku, existing, p);
    }
  }

  lemma RewriteKeeps(w: Walk, company: string, product: Id, sku: Option<string>, existing: set<Id>, p: VariantPayload)
    requires WalkInv(w, company, product, sku, existing) && Target(existing, p).Some?
    requires WriteVariant(w, company, product, sku, existing, p).Success?
    ensures WalkInv(WriteVariant(w, company, product, sku, existing, p).value, company, product, sku, existing)
  {
    var row := Target(existing, p).value;
    assert w.cat.variants[row].(sku := p.sku) == Variant(company, product, p.sku) by {
      assert w.cat.variants[row].product == product;
    }
    WriteRowKeeps(w.cat, company, product, sku, row, p.sku);
  }

  lemma AddKeeps(w: Walk, company: string, product: Id, sku: Option<string>, existing: set<Id>, p: VariantPayload)
    requires WalkInv(w, company, product, sku, existing) && Target(existing, p).None?
    requires WriteVariant(w, company, product, sku, existing, p).Success?
    ensures WalkInv(WriteVariant(w, company, product, sku, existing, p).value, company, product, sku, existing)
  {
    var cat := w.cat;
    AddRowKeeps(cat, company, product, sku, p.sku);
    assert forall v :: v in existing ==> v != cat.nextId;
  }

  lemma AddRowKeeps(cat: Catalog, company: string, product: Id, sku: Option<string>, rowSku: Option<string>)
    requires Inv(cat) && Claims(cat, company, product, sku)
    requires !Taken(cat, company, rowSku, None, None) && (Given(rowSku) ==> rowSku != sku)
    ensures var added := cat.(variants := cat.variants[cat.nextId := Variant(company, product, rowSku)], nextId := cat.nextId + 1);
      Inv(FlushProduct(added, product, sku)) && Claims(FlushProduct(added, product, sku), company, product, sku)
  {
    var room := cat.(nextId := cat.nextId + 1);
    RoomKeeps(cat, company, product, sku, rowSku);
    WriteRowKeeps(room, company, product, sku, cat.nextId, rowSku);
  }

  lemma RoomKeeps(cat: Catalog, company: string, product: Id, sku: Option<string>, rowSku: Option<string>)
    requires Inv(cat) && Claims(cat, company, product, sku) && !Taken(cat, company, rowSku, None, None)
    ensures var room := cat.(nextId := cat.nextId + 1);
      Inv(room) && Claims(room, company, product, sku) && !Taken(room, company, rowSku, None, Some(cat.nextId))
      && cat.nextId !in room.variants
  {
  }

  lemma {:induction false} WriteVariantsKeeps(cat: Catalog, company: string, product: Id, sku: Option<string>,
                                              existing: set<Id>, payload: seq<VariantPayload>)
    requires Inv(cat) && Claims(cat, company, product, sku)
    requires existing == VariantsOf(cat, product)
    requires WriteVariants(cat, company, product, sku, existing, payload).Success?
    ensures WalkInv(WriteVariants(cat, company, product, sku, existing, payload).value, company, product, sku, existing)
  {
    if payload != [] {
      var n := |payload| - 1;
      WriteVariantsKeeps(cat, company, product, sku, existing, payload[..n]);
      WriteVariantKeeps(WriteVariants(cat, company, product, sku, existing, payload[..n]).value,
                        company, product, sku, existing, payload[n]);
    }
  }

  lemma DroppingVariantsKeeps(cat: Catalog, dropped: set<Id>)
    requires Inv(cat)
    ensures Inv(cat.(variants := cat.variants - dropped))
  {
  }

  lemma ReplaceVariantsKeeps(cat: Catalog, company: string, product: Id, sku: Option<string>, payload: seq<VariantPayload>)
    requires Inv(cat) && Claims(cat, company, product, sku)
    requires ReplaceVariants(cat, company, product, sku, payload).Success?
    ensures Inv(ReplaceVariants(cat, company, product, sku, payload).value.cat)
    ensures Claims(ReplaceVariants(cat, company, product, sku, payload).value.cat, company, product, sku)
  {
    var existing := VariantsOf(cat, product);
    WriteVariantsKeeps(cat, company, product, sku, existing, payload);
    var w := WriteVariants(cat, company, product, sku, existing, payload).value;
    DroppingVariantsKeeps(w.cat, existing - set i | i in w.ids);
  }

  // ----- requests -----

  lemma UpdateKeeps(cat: Catalog, company: string, product: Id, u: Update)
    requires Inv(cat) && UpdateProduct(cat, company, product, u).Success?
    ensures Inv(UpdateProduct(cat, company, product, u).value)
  {
    var sku := if u.sku.Some? then u.sku.value else cat.products[product].sku;
    OwnSkuIsClaimed(cat, company, product);
    FlushKeeps(cat, company, product, sku);
    var early := if u.flushesEarly then FlushProduct(cat, product, sku) else cat;
    var written := early;
    if u.variants.Some? {
      ReplaceVariantsKeeps(early, company, product, sku, u.variants.value);
      written := ReplaceVariants(early, company, product, sku, u.variants.value).value.cat;
    }
    FlushKeeps(written, company, product, sku);
    if u.archived.Some? {
      ArchivedFlagKeeps(FlushProduct(written, product, sku), product, u.archived.value);
    }
  }

  lemma OwnSkuIsClaimed(cat: Catalog, company: string, product: Id)
    requires Inv(cat) && product in cat.products && cat.products[product].company == company
    ensures Claims(cat, company, product, cat.products[product].sku)
  {
  }

  lemma ArchivedFlagKeeps(cat: Catalog, product: Id, archived: bool)
    requires Inv(cat) && product in cat.products
    ensures Inv(cat.(products := cat.products[product := cat.products[product].(archived := archived)]))
  {
  }

  lemma InsertKeeps(cat: Catalog, company: string, sku: Option<string>, archived: bool)
    requires Inv(cat) && !Taken(cat, company, sku, None, None)
    ensures var inserted := cat.(products := cat.products[cat.nextId := Product(company, sku, archived)], nextId := cat.nextId + 1);
      Inv(inserted) && Claims(inserted, company, cat.nextId, sku)
  {
  }

  lemma CreateKeeps(cat: Catalog, company: string, sku: Option<string>, listing: seq<string>,
                    variants: seq<VariantPayload>, archived: bool, accepted: bool)
    requires Inv(cat) && CreateProduct(cat, company, sku, listing, variants, archived, accepted).Success?
    ensures Inv(CreateProduct(cat, company, sku, listing, variants, archived, accepted).value)
  {
    var chosen := if Given(sku) then sku else Some(ProductCodes.SuggestSku(listing));
    var inserted := cat.(products := cat.products[cat.nextId := Product(company, chosen, archived)], nextId := cat.nextId + 1);
    CreateEffect(cat, company, sku, listing, variants, archived, accepted);
    InsertKeeps(cat, company, chosen, archived);
    ReplaceVariantsKeeps(inserted, company, cat.nextId, chosen, variants);
  }

  lemma CreateEffect(cat: Catalog, company: string, sku: Option<string>, listing: seq<string>,
                     variants: seq<VariantPayload>, archived: bool, accepted: bool)
    requires CreateProduct(cat, company, sku, listing, variants, archived, accepted).Success?
    ensures var chosen := if Given(sku) then sku else Some(ProductCodes.SuggestSku(listing));
      var inserted := cat.(products := cat.products[cat.nextId := Product(company, chosen, archived)], nextId := cat.nextId + 1);
      && !Taken(cat, company, chosen, None, None)
      && ReplaceVariants(inserted, company, cat.nextId, chosen, variants).Success?
      && CreateProduct(cat, company, sku, listing, variants, archived, accepted).value
         == ReplaceVariants(inserted, company, cat.nextId, chosen, variants).value.cat
  {
  }

  lemma DeleteKeeps(cat: Catalog, company: string, product: Id, isReferenced: bool)
    requires Inv(cat) && DeleteProduct(cat, company, product, isReferenced).Success?
    ensures Inv(DeleteProduct(cat, company, product, isReferenced).value)
  {
  }

  // ----- runs -----

  datatype Op =
    | Create(company: string, sku: Option<string>, listing: seq<string>, variants: seq<VariantPayload>, archived: bool, accepted: bool)
    | Modify(company: string, product: Id, update: Update)
    | Archive(company: string, product: Id)
    | Delete(company: string, product: Id, isReferenced: bool)

  function Outcome(cat: Catalog, op: Op): Result<Catalog, Error> {
    match op
    case Create(c, sku, listing, vs, archived, accepted) => CreateProduct(cat, c, sku, listing, vs, archived, accepted)
    case Modify(c, p, u) => UpdateProduct(cat, c, p, u)
    case Archive(c, p) => ArchiveProduct(cat, c, p)
    case Delete(c, p, isReferenced) => DeleteProduct(cat, c, p, isReferenced)
  }

  /** One request; a refusal rolls back. */
  function Step(cat: Catalog, op: Op): Catalog {
    var r := Outcome(cat, op);
    if r.Success? then r.value else cat
  }

  function Run(cat: Catalog, ops: seq<Op>): Catalog {
    if ops == [] then cat else Step(Run(cat, ops[..|ops| - 1]), ops[|ops| - 1])
  }

  lemma StepKeeps(cat: Catalog, op: Op)
    requires Inv(cat)
    ensures Inv(Step(cat, op))
  {
    if Outcome(cat, op).Success? {
      match op
      case Create(c, sku, listing, vs, archived, accepted) => CreateKeeps(cat, c, sku, listing, vs, archived, accepted);
      case Modify(c, p, u) => UpdateKeeps(cat, c, p, u);
      case Archive(c, p) =>
      case Delete(c, p, isReferenced) => DeleteKeeps(cat, c, p, isReferenced);
    }
  }

  /** In every reachable catalog no non-empty SKU is on two rows of a company, across both tables. */
  lemma {:induction false} SkusStayUnique(ops: seq<Op>)
    ensures Inv(Run(Catalog(map[], map[], 0), ops))
  {
    if ops != [] {
      SkusStayUnique(ops[..|ops| - 1]);
      StepKeeps(Run(Catalog(map[], map[], 0), ops[..|ops| - 1]), ops[|ops| - 1]);
    }
  }

  // ----- what a replacement leaves -----

  /** Where the payload was written: existing rows that it names, otherwise new rows. */
  ghost predicate WroteRows(cat: Catalog, w: Walk, product: Id, existing: set<Id>, payload: seq<VariantPayload>) {
    && |w.ids| == |payload|
    && cat.nextId <= w.cat.nextId
    && (forall v :: v in w.cat.variants <==> v in cat.variants || v in w.ids)
    && (forall v :: v in w.cat.variants && v !in w.ids ==> w.cat.variants[v] == cat.variants[v])
    && (forall v :: v in w.ids ==> v in w.cat.variants && w.cat.variants[v].product == product && v < w.cat.nextId)
    && (forall i :: 0 <= i < |payload| ==>
          if payload[i].id.Some? && payload[i].id.value in existing then w.ids[i] == payload[i].id.value else w.ids[i] >= cat.nextId)
  }

  /** What was written: each row carries the SKU of the last entry written to it. */
  ghost predicate WroteSkus(w: Walk, payload: seq<VariantPayload>) {
    && |w.ids| == |payload|
    && (forall v :: v in w.ids ==> v in w.cat.variants)
    && forall i :: 0 <= i < |payload| ==>
         w.ids[i] in w.ids[i + 1..] || w.cat.variants[w.ids[i]].sku == payload[i].sku
  }

  lemma WroteOneMoreRow(cat: Catalog, w: Walk, company: string, product: Id, sku: Option<string>, existing: set<Id>,
                        payload: seq<VariantPayload>, p: VariantPayload)
    requires existing == VariantsOf(cat, product)
    requires WroteRows(cat, w, product, existing, payload) && product in w.cat.products && existing <= w.cat.variants.Keys
    requires forall v :: v in existing ==> v < cat.nextId && w.cat.variants[v].product == product
    requires WriteVariant(w, company, product, sku, existing, p).Success?
    ensures WroteRows(cat, WriteVariant(w, company, product, sku, existing, p).value, product, existing, payload + [p])
  {
    var more := WriteVariant(w, company, product, sku, existing, p).value;
    assert more.ids == w.ids + [more.ids[|payload|]];
  }

  lemma WroteOneMoreSku(w: Walk, company: string, product: Id, sku: Option<string>, existing: set<Id>,
                        payload: seq<VariantPayload>, p: VariantPayload)
    requires WroteSkus(w, payload) && product in w.cat.products && existing <= w.cat.variants.Keys
    requires WriteVariant(w, company, product, sku, existing, p).Success?
    ensures WroteSkus(WriteVariant(w, company, product, sku, existing, p).value, payload + [p])
  {
    var more, n := WriteVariant(w, company, product, sku, existing, p).value, |payload|;
    var row := more.ids[n];
    assert more.ids == w.ids + [row];
    assert row in more.cat.variants && more.cat.variants[row].sku == p.sku;
    assert forall v :: v in w.ids && v != row ==> v in more.cat.variants && more.cat.variants[v] == w.cat.variants[v];
    SkusOneMore(w, more, payload, p, row);
  }

  lemma SkusOneMore(w: Walk, more: Walk, payload: seq<VariantPayload>, p: VariantPayload, row: Id)
    requires WroteSkus(w, payload) && more.ids == w.ids + [row]
    requires row in more.cat.variants && more.cat.variants[row].sku == p.sku
    requires forall v :: v in w.ids && v != row ==> v in more.cat.variants && more.cat.variants[v] == w.cat.variants[v]
    ensures WroteSkus(more, payload + [p])
  {
    forall i | 0 <= i < |payload|
      ensures more.ids[i] in more.ids[i + 1..] || more.cat.variants[more.ids[i]].sku == payload[i].sku
    {
      assert more.ids[i + 1..] == w.ids[i + 1..] + [row];
      assert w.ids[i] in w.ids;
      assert row in more.ids[i + 1..];
    }
  }

  lemma {:induction false} WriteVariantsWrote(cat: Catalog, company: string, product: Id, sku: Option<string>,
                                              existing: set<Id>, payload: seq<VariantPayload>)
    requires Inv(cat) && Claims(cat, company, product, sku) && existing == VariantsOf(cat, product)
    requires WriteVariants(cat, company, product, sku, existing, payload).Success?
    ensures WroteRows(cat, WriteVariants(cat, company, product, sku, existing, payload).value, product, existing, payload)
    ensures WroteSkus(WriteVariants(cat, company, product, sku, existing, payload).value, payload)
  {
    if payload != [] {
      var n := |payload| - 1;
      var w := WriteVariants(cat, company, product, sku, existing, payload[..n]).value;
      WriteVariantsWrote(cat, company, product, sku, existing, payload[..n]);
      WriteVariantsKeeps(cat, company, product, sku, existing, payload[..n]);
      WroteOneMoreRow(cat, w, company, product, sku, existing, payload[..n], payload[n]);
      WroteOneMoreSku(w, company, product, sku, existing, payload[..n], payload[n]);
      assert payload == payload[..n] + [payload[n]];
    }
  }

  /** After a replacement the product's variants are exactly the rows the payload was written to,
      each with the SKU of the last entry for it; variants of other products are untouched. */
  lemma ReplacementLeavesThePayload(cat: Catalog, company: string, product: Id, sku: Option<string>, payload: seq<VariantPayload>)
    requires Inv(cat) && Claims(cat, company, product, sku)
    requires ReplaceVariants(cat, company, product, sku, payload).Success?
    ensures var w := ReplaceVariants(cat, company, product, sku, payload).value;
      && VariantsOf(w.cat, product) == (set i | i in w.ids)
      && WroteSkus(w, payload)
      && (forall v :: v in cat.variants && cat.variants[v].product != product ==>
            v in w.cat.variants && w.cat.variants[v] == cat.variants[v])
  {
    var existing := VariantsOf(cat, product);
    WriteVariantsWrote(cat, company, product, sku, existing, payload);
    DropUnkept(cat, WriteVariants(cat, company, product, sku, existing, payload).value, product, existing, payload);
  }

  lemma DropUnkept(cat: Catalog, w: Walk, product: Id, existing: set<Id>, payload: seq<VariantPayload>)
    requires existing == VariantsOf(cat, product) && (forall v :: v in cat.variants ==> v < cat.nextId)
    requires WroteRows(cat, w, product, existing, payload) && WroteSkus(w, payload)
    ensures var kept := set i | i in w.ids;
      var after := w.(cat := w.cat.(variants := w.cat.variants - (existing - kept)));
      && VariantsOf(after.cat, product) == kept
      && WroteSkus(after, payload)
      && (forall v :: v in cat.variants && cat.variants[v].product != product ==>
            v in after.cat.variants && after.cat.variants[v] == cat.variants[v])
  {
    var kept := set i | i in w.ids;
    OthersNotWritten(cat, w, product, existing, payload);
    KeptRemain(w, product, existing, payload, kept);
    forall v | v in w.cat.variants && w.cat.variants[v].product == product && v !in w.ids ensures v in existing {
      assert w.cat.variants[v] == cat.variants[v];
    }
    assert VariantsOf(w.cat.(variants := w.cat.variants - (existing - kept)), product) == kept;
  }

  lemma OthersNotWritten(cat: Catalog, w: Walk, product: Id, existing: set<Id>, payload: seq<VariantPayload>)
    requires existing == VariantsOf(cat, product) && (forall v :: v in cat.variants ==> v < cat.nextId)
    requires WroteRows(cat, w, product, existing, payload)
    ensures forall v :: v in cat.variants && cat.variants[v].product != product ==> v !in w.ids
  {
    assert forall i :: 0 <= i < |w.ids| ==> w.ids[i] in existing || w.ids[i] >= cat.nextId;
  }

  lemma KeptRemain(w: Walk, product: Id, existing: set<Id>, payload: seq<VariantPayload>, kept: set<Id>)
    requires WroteSkus(w, payload) && kept == set i | i in w.ids
    ensures var after := w.(cat := w.cat.(variants := w.cat.variants - (existing - kept)));
      WroteSkus(after, payload) && forall v :: v in kept ==> v in after.cat.variants && after.cat.variants[v] == w.cat.variants[v]
  {
    var after := w.(cat := w.cat.(variants := w.cat.variants - (existing - kept)));
    forall v | v in w.ids ensures v in after.cat.variants && after.cat.variants[v] == w.cat.variants[v] {
      assert v in kept;
    }
    forall i | 0 <= i < |payload| ensures after.ids[i] in after.ids[i + 1..] || after.cat.variants[after.ids[i]].sku == payload[i].sku {
      assert w.ids[i] in w.ids;
    }
  }

  // ----- suggestions -----

  ghost predicate Lists(cat: Catalog, company: string, listing: seq<string>) {
    && (forall p :: p in cat.products && cat.products[p].company == company && Given(cat.products[p].sku) ==> cat.products[p].sku.value in listing)
    && (forall v :: v in cat.variants && cat.variants[v].company == company && Given(cat.variants[v].sku) ==> cat.variants[v].sku.value in listing)
  }

  /** A suggested SKU is never refused as taken: it is on no product or variant of the company. */
  lemma SuggestionIsFree(cat: Catalog, company: string, listing: seq<string>)
    requires Lists(cat, company, listing)
    ensures !Taken(cat, company, Some(ProductCodes.SuggestSku(listing)), None, None)
  {
    ProductCodes.SuggestedSkuIsNew(listing);
  }
}
