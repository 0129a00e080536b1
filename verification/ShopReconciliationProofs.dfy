/** What the stock reconciliation does to every bucket of every company, and that running it a
    second time does nothing. The proofs follow one product and variant of one company through
    both loops: at most one balance row concerns it, and all other rows leave it alone. */
module ShopReconciliationProofs {
  import opened Wrappers
  import opened Sums
  import opened ShopReconciliation

  /** The schema: warehouse ids are unique and older than the next id, a company has at most one
      WOO warehouse, and that one is not a vendor's shop. */
  ghost predicate WellFormed(db: Db) {
    && (forall w :: w in db.warehouses ==> w.id < db.nextId && (w.isWoo ==> !w.isVendorShop))
    && (forall v, w :: v in db.warehouses && w in db.warehouses && v.id == w.id ==> v == w)
    && (forall v, w :: v in db.warehouses && w in db.warehouses && v.isWoo && w.isWoo && v.company == w.company ==> v == w)
    && (forall m :: m in db.movements ==> m.warehouse < db.nextId)
  }

  ghost predicate IsWoo(db: Db, company: Id, id: Id) {
    exists w :: w in db.warehouses && w.id == id && w.company == company && w.isWoo
  }

  /** An earlier run already moved this balance. */
  ghost predicate Transferred(db: Db, company: Id, woo: Id, product: Id, variant: Option<Id>)
    requires Known(db, company, product) && SoleVendor(db, company, product).Some?
  {
    var shop := FindShop(db.warehouses, company, SoleVendor(db, company, product).value);
    shop.Some? && HasTransfer(db.movements, company, shop.value, Baseline(woo, product, variant))
  }

  ghost predicate Movable(db: Db, company: Id, woo: Id, product: Id, variant: Option<Id>) {
    && Known(db, company, product)
    && SoleVendor(db, company, product).Some?
    && !Transferred(db, company, woo, product, variant)
  }

  /** A positive WOO balance with one candidate vendor and no earlier transfer. */
  ghost predicate Eligible(db: Db, company: Id, woo: Id, product: Id, variant: Option<Id>) {
    && IsWoo(db, company, woo)
    && Stock(db.movements, Bucket(company, woo, product, variant)) > 0
    && Movable(db, company, woo, product, variant)
  }

  /** Nothing about this product and variant of this company changed. */
  ghost predicate Same(db: Db, after: Db, company: Id, product: Id, variant: Option<Id>) {
    && (forall w :: Stock(after.movements, Bucket(company, w, product, variant)) == Stock(db.movements, Bucket(company, w, product, variant)))
    && SameOwner(db, after, company, product)
    && (forall w :: Movable(after, company, w, product, variant) == Movable(db, company, w, product, variant))
    && (Known(db, company, product) && variant.None? ==> after.products[product] == db.products[product])
  }

  ghost predicate SameOwner(db: Db, after: Db, company: Id, product: Id) {
    && Known(after, company, product) == Known(db, company, product)
    && (Known(db, company, product) ==> SoleVendor(after, company, product) == SoleVendor(db, company, product))
    && (forall vendor :: FindShop(db.warehouses, company, vendor).Some? ==>
          FindShop(after.warehouses, company, vendor) == FindShop(db.warehouses, company, vendor))
    && (forall w :: IsWoo(after, company, w) == IsWoo(db, company, w))
  }

  /** The balance of this WOO warehouse is recorded as moved to the sole vendor's shop. */
  ghost predicate Marked(db: Db, company: Id, woo: Id, product: Id, variant: Option<Id>) {
    && Known(db, company, product) && SoleVendor(db, company, product).Some?
    && Transferred(db, company, woo, product, variant)
  }

  /** The balance went from the WOO warehouse to the owner's shop, and only there. */
  ghost predicate Shifted(db: Db, after: Db, company: Id, woo: Id, product: Id, variant: Option<Id>)
    requires Eligible(db, company, woo, product, variant)
  {
    var shop := FindShop(after.warehouses, company, SoleVendor(db, company, product).value);
    var quantity := Stock(db.movements, Bucket(company, woo, product, variant));
    && shop.Some? && shop.value != woo
    && SameOwner(db, after, company, product)
    && Marked(after, company, woo, product, variant)
    && (forall w :: Stock(after.movements, Bucket(company, w, product, variant))
         == Stock(db.movements, Bucket(company, w, product, variant))
            + (if w == shop.value then quantity else 0) - (if w == woo then quantity else 0))
    && (variant.None? ==>
          var p := after.products[product];
          var onShelf := Stock(after.movements, Bucket(company, shop.value, product, None));
          p == db.products[product].(manageStock := true, stockQuantity := Some(onShelf), inStock := onShelf > 0))
  }

  ghost predicate Moved(db: Db, after: Db, company: Id, woo: Id, product: Id, variant: Option<Id>) {
    if Eligible(db, company, woo, product, variant) then Shifted(db, after, company, woo, product, variant)
    else Same(db, after, company, product, variant)
  }

  // ----- one row -----

  lemma {:induction false} FindShopAppend(ws: seq<Warehouse>, w: Warehouse, company: Id, vendor: Id)
    ensures FindShop(ws + [w], company, vendor)
         == if FindShop(ws, company, vendor).Some? then FindShop(ws, company, vendor)
            else if w.company == company && w.vendor == Some(vendor) && w.isVendorShop then Some(w.id) else None
  {
    if ws == [] {
      assert [] + [w] == [w] && [w][1..] == [];
    } else {
      assert (ws + [w])[1..] == ws[1..] + [w];
      FindShopAppend(ws[1..], w, company, vendor);
    }
  }

  lemma WithShopKeepsSchema(db: Db, company: Id, vendor: Id)
    requires WellFormed(db)
    ensures var (ready, shop) := WithShop(db, company, vendor);
      && WellFormed(ready) && shop < ready.nextId
      && (FindShop(db.warehouses, company, vendor).None? ==> forall m :: m in db.movements ==> m.warehouse != shop)
      && (forall c, w :: IsWoo(ready, c, w) == IsWoo(db, c, w))
      && !IsWoo(ready, company, shop)
  {
    var (ready, shop) := WithShop(db, company, vendor);
    if FindShop(db.warehouses, company, vendor).None? {
      SameWoos(db, ready, Warehouse(db.nextId, company, false, true, Some(vendor)));
    }
  }

  lemma WithShopFinds(db: Db, company: Id, vendor: Id)
    ensures var (ready, shop) := WithShop(db, company, vendor);
      && FindShop(ready.warehouses, company, vendor) == Some(shop)
      && (forall c, v :: FindShop(db.warehouses, c, v).Some? ==> FindShop(ready.warehouses, c, v) == FindShop(db.warehouses, c, v))
      && (forall c, v :: FindShop(db.warehouses, c, v).None? && FindShop(ready.warehouses, c, v).Some? ==>
            FindShop(ready.warehouses, c, v) == Some(shop) && FindShop(db.warehouses, company, vendor).None?)
  {
    if FindShop(db.warehouses, company, vendor).None? {
      forall c, v {
        FindShopAppend(db.warehouses, Warehouse(db.nextId, company, false, true, Some(vendor)), c, v);
      }
    }
  }

  lemma SameWoos(db: Db, ready: Db, w: Warehouse)
    requires ready.warehouses == db.warehouses + [w] && !w.isWoo
    ensures forall c, x :: IsWoo(ready, c, x) == IsWoo(db, c, x)
  {
    forall c, x ensures IsWoo(ready, c, x) == IsWoo(db, c, x) {
      if IsWoo(db, c, x) {
        var y :| y in db.warehouses && y.id == x && y.company == c && y.isWoo;
        assert y in ready.warehouses;
      }
    }
  }

  ghost predicate Effective(db: Db, r: Row) {
    r.quantity > 0 && Movable(db, r.company, r.woo, r.product, r.variant)
  }

  function Ready(db: Db, r: Row): (Db, Id)
    requires Known(db, r.company, r.product) && SoleVendor(db, r.company, r.product).Some?
  {
    WithShop(db, r.company, SoleVendor(db, r.company, r.product).value)
  }

  /** A row that is not positive, not owned by one vendor, or already moved changes nothing. */
  lemma TransferIdle(db: Db, r: Row)
    requires !Effective(db, r)
    ensures Transfer(db, r) == db
  {
  }

  ghost predicate SameProductKeys(db: Db, after: Db) {
    && after.vendorProducts == db.vendorProducts
    && after.products.Keys == db.products.Keys
    && forall p :: p in db.products ==>
         after.products[p].company == db.products[p].company && after.products[p].vendor == db.products[p].vendor
  }

  /** Any other row has its balance moved to the shop of the sole vendor. */
  lemma TransferEffect(db: Db, r: Row)
    requires WellFormed(db) && Effective(db, r)
    ensures var after := Transfer(db, r);
      var (ready, shop) := Ready(db, r);
      && after.movements == db.movements + Pair(r, shop)
      && after.warehouses == ready.warehouses && after.nextId == ready.nextId
      && SameProductKeys(db, after)
      && (forall p :: p in db.products && (p != r.product || r.variant.Some?) ==> after.products[p] == db.products[p])
  {
    var (ready, shop) := Ready(db, r);
    WithShopKeepsSchema(db, r.company, SoleVendor(db, r.company, r.product).value);
    WithShopFinds(db, r.company, SoleVendor(db, r.company, r.product).value);
    assert !HasTransfer(ready.movements, r.company, shop, RefOf(r));
  }

  lemma TransferKeepsWellFormed(db: Db, r: Row)
    requires WellFormed(db) && IsWoo(db, r.company, r.woo)
    ensures WellFormed(Transfer(db, r))
    ensures Effective(db, r) ==> Ready(db, r).1 != r.woo
  {
    if Effective(db, r) {
      TransferEffect(db, r);
      WithShopKeepsSchema(db, r.company, SoleVendor(db, r.company, r.product).value);
      WithShopFinds(db, r.company, SoleVendor(db, r.company, r.product).value);
      var after := Transfer(db, r);
      var (ready, shop) := Ready(db, r);
      assert IsWoo(ready, r.company, r.woo);
      forall m | m in after.movements ensures m.warehouse < after.nextId {
        assert m in db.movements || m in Pair(r, shop);
      }
    } else {
      TransferIdle(db, r);
    }
  }

  lemma PairStock(movements: seq<Movement>, r: Row, shop: Id, b: Bucket)
    ensures Stock(movements + Pair(r, shop), b) == Stock(movements, b)
      + (if b == Bucket(r.company, shop, r.product, r.variant) then r.quantity else 0)
      - (if b == Bucket(r.company, r.woo, r.product, r.variant) then r.quantity else 0)
  {
    var pair := Pair(r, shop);
    assert movements + pair == (movements + [pair[0]]) + [pair[1]];
    SumAtSnoc(movements, pair[0], BucketOf, DeltaOf, b);
    SumAtSnoc(movements + [pair[0]], pair[1], BucketOf, DeltaOf, b);
  }

  lemma TransferKeepsOwner(db: Db, r: Row, company: Id, product: Id)
    requires WellFormed(db)
    ensures SameOwner(db, Transfer(db, r), company, product)
  {
    if Effective(db, r) {
      TransferEffect(db, r);
      WithShopKeepsSchema(db, r.company, SoleVendor(db, r.company, r.product).value);
      WithShopFinds(db, r.company, SoleVendor(db, r.company, r.product).value);
      var (ready, _) := Ready(db, r);
      assert forall w :: IsWoo(Transfer(db, r), company, w) == IsWoo(ready, company, w);
    } else {
      TransferIdle(db, r);
    }
  }

  /** Rows about something else leave the transfer marks of this product and variant as they are;
      a shop opened for them is new and holds none. */
  lemma TransferMarksElsewhere(db: Db, r: Row, company: Id, woo: Id, product: Id, variant: Option<Id>)
    requires WellFormed(db) && Effective(db, r)
    requires (r.company, r.product, r.variant) != (company, product, variant)
    ensures Movable(Transfer(db, r), company, woo, product, variant) == Movable(db, company, woo, product, variant)
  {
    TransferEffect(db, r);
    TransferKeepsOwner(db, r, company, product);
    WithShopKeepsSchema(db, r.company, SoleVendor(db, r.company, r.product).value);
    WithShopFinds(db, r.company, SoleVendor(db, r.company, r.product).value);
    var after := Transfer(db, r);
    var (ready, shop) := Ready(db, r);
    if Known(db, company, product) && SoleVendor(db, company, product).Some? {
      var at := FindShop(after.warehouses, company, SoleVendor(db, company, product).value);
      if at.Some? {
        SameMarks(db.movements, r, shop, company, at.value, Baseline(woo, product, variant));
      }
    }
  }

  lemma SameMarks(movements: seq<Movement>, r: Row, shop: Id, company: Id, at: Id, ref: Ref)
    requires r.company != company || RefOf(r) != ref
    ensures HasTransfer(movements + Pair(r, shop), company, at, ref) == HasTransfer(movements, company, at, ref)
  {
    assert forall m :: m in movements + Pair(r, shop) <==> m in movements || m in Pair(r, shop);
  }

  lemma TransferElsewhere(db: Db, r: Row, company: Id, product: Id, variant: Option<Id>)
    requires WellFormed(db)
    requires (r.company, r.product, r.variant) != (company, product, variant)
    ensures Same(db, Transfer(db, r), company, product, variant)
  {
    if Effective(db, r) {
      TransferEffect(db, r);
      TransferKeepsOwner(db, r, company, product);
      var after := Transfer(db, r);
      var (ready, shop) := Ready(db, r);
      forall w ensures Stock(after.movements, Bucket(company, w, product, variant)) == Stock(db.movements, Bucket(company, w, product, variant)) {
        PairStock(db.movements, r, shop, Bucket(company, w, product, variant));
      }
      forall w ensures Movable(after, company, w, product, variant) == Movable(db, company, w, product, variant) {
        TransferMarksElsewhere(db, r, company, w, product, variant);
      }
    } else {
      TransferIdle(db, r);
    }
  }

  /** A moved balance leaves two movements, out of the WOO warehouse and into the sole vendor's shop,
      each with the reference of the transfer; so it is marked as transferred. */
  lemma TransferMarks(db: Db, r: Row)
    requires WellFormed(db) && Effective(db, r)
    ensures Marked(Transfer(db, r), r.company, r.woo, r.product, r.variant)
    ensures var after, ref := Transfer(db, r), Some(Baseline(r.woo, r.product, r.variant));
      var shop := FindShop(after.warehouses, r.company, SoleVendor(db, r.company, r.product).value);
      && shop.Some?
      && after.movements == db.movements
           + [Movement(r.company, r.woo, r.product, r.variant, 0 - r.quantity, ref),
              Movement(r.company, shop.value, r.product, r.variant, r.quantity, ref)]
  {
    var (ready, shop) := Ready(db, r);
    var after := Transfer(db, r);
    TransferEffect(db, r);
    TransferKeepsOwner(db, r, r.company, r.product);
    WithShopFinds(db, r.company, SoleVendor(db, r.company, r.product).value);
    assert Pair(r, shop)[1] in after.movements;
  }

  lemma TransferHere(db: Db, r: Row)
    requires WellFormed(db) && IsWoo(db, r.company, r.woo)
    requires r.quantity == Stock(db.movements, Bucket(r.company, r.woo, r.product, r.variant))
    ensures Moved(db, Transfer(db, r), r.company, r.woo, r.product, r.variant)
  {
    if Effective(db, r) {
      TransferEffect(db, r);
      TransferKeepsWellFormed(db, r);
      TransferKeepsOwner(db, r, r.company, r.product);
      TransferMarks(db, r);
      WithShopKeepsSchema(db, r.company, SoleVendor(db, r.company, r.product).value);
      WithShopFinds(db, r.company, SoleVendor(db, r.company, r.product).value);
      var (ready, shop) := Ready(db, r);
      forall w {
        PairStock(db.movements, r, shop, Bucket(r.company, w, r.product, r.variant));
      }
    } else {
      TransferIdle(db, r);
    }
  }

  // ----- composing -----

  lemma SameThenMoved(a: Db, b: Db, c: Db, company: Id, woo: Id, product: Id, variant: Option<Id>)
    requires Same(a, b, company, product, variant) && Moved(b, c, company, woo, product, variant)
    ensures Moved(a, c, company, woo, product, variant)
  {
  }

  lemma MovedThenSame(a: Db, b: Db, c: Db, company: Id, woo: Id, product: Id, variant: Option<Id>)
    requires Moved(a, b, company, woo, product, variant) && Same(b, c, company, product, variant)
    ensures Moved(a, c, company, woo, product, variant)
  {
    if Eligible(a, company, woo, product, variant) {
      assert Movable(c, company, woo, product, variant) == Movable(b, company, woo, product, variant);
    }
  }

  lemma SameThenSame(a: Db, b: Db, c: Db, company: Id, product: Id, variant: Option<Id>)
    requires Same(a, b, company, product, variant) && Same(b, c, company, product, variant)
    ensures Same(a, c, company, product, variant)
  {
  }

  // ----- the rows of one WOO warehouse -----

  /** The rows of one warehouse's balance query, as far as they matter here. */
  ghost predicate RowsOf(db: Db, company: Id, woo: Id, rows: seq<Row>) {
    && (forall i :: 0 <= i < |rows| ==>
          && rows[i].company == company && rows[i].woo == woo
          && rows[i].quantity == Stock(db.movements, Bucket(company, woo, rows[i].product, rows[i].variant)))
    && forall i, j :: 0 <= i < j < |rows| ==> (rows[i].product, rows[i].variant) != (rows[j].product, rows[j].variant)
  }

  ghost predicate Concerns(rows: seq<Row>, product: Id, variant: Option<Id>) {
    exists i :: 0 <= i < |rows| && rows[i].product == product && rows[i].variant == variant
  }

  /** Followed through the rows: the product and variant of one row is moved by that row, every
      other one stays the same. */
  lemma {:induction false} RowsMove(db: Db, company: Id, woo: Id, rows: seq<Row>, c: Id, product: Id, variant: Option<Id>)
    requires WellFormed(db) && IsWoo(db, company, woo) && RowsOf(db, company, woo, rows)
    ensures WellFormed(TransferAll(db, rows))
    ensures c == company && Concerns(rows, product, variant) ==> Moved(db, TransferAll(db, rows), c, woo, product, variant)
    ensures !(c == company && Concerns(rows, product, variant)) ==> Same(db, TransferAll(db, rows), c, product, variant)
    decreases |rows|
  {
    if rows != [] {
      var n := |rows| - 1;
      var init, last := rows[..n], rows[n];
      var before := TransferAll(db, init);
      RowsMove(db, company, woo, init, c, product, variant);
      RowsMove(db, company, woo, init, company, last.product, last.variant);
      assert !Concerns(init, last.product, last.variant);
      TransferKeepsWellFormed(before, last);
      ConcernsLast(rows, product, variant);
      if (c, product, variant) == (company, last.product, last.variant) {
        TransferHere(before, last);
        SameThenMoved(db, before, Transfer(before, last), c, woo, product, variant);
      } else {
        TransferElsewhere(before, last, c, product, variant);
        if c == company && Concerns(init, product, variant) {
          MovedThenSame(db, before, Transfer(before, last), c, woo, product, variant);
        } else {
          SameThenSame(db, before, Transfer(before, last), c, product, variant);
        }
      }
    }
  }

  lemma ConcernsLast(rows: seq<Row>, product: Id, variant: Option<Id>)
    requires rows != []
    ensures var n := |rows| - 1;
      Concerns(rows, product, variant) <==>
        Concerns(rows[..n], product, variant) || (rows[n].product == product && rows[n].variant == variant)
  {
    if Concerns(rows[..|rows| - 1], product, variant) {
      var i :| 0 <= i < |rows| - 1 && rows[i].product == product && rows[i].variant == variant;
    }
  }

  lemma BalancesAreRows(db: Db, company: Id, woo: Id)
    ensures RowsOf(db, company, woo, Balances(db.movements, company, woo))
    ensures forall product, variant :: !Concerns(Balances(db.movements, company, woo), product, variant) ==>
      Stock(db.movements, Bucket(company, woo, product, variant)) == 0
  {
    var keys, rows := Keys(db.movements, company, woo), Balances(db.movements, company, woo);
    KeysCover(db.movements, company, woo);
    forall product, variant | !Concerns(rows, product, variant)
      ensures Stock(db.movements, Bucket(company, woo, product, variant)) == 0
    {
      assert forall i :: 0 <= i < |keys| ==> rows[i].product == keys[i].0 && rows[i].variant == keys[i].1;
      SumAtAbsent(db.movements, BucketOf, DeltaOf, Bucket(company, woo, product, variant));
    }
  }

  lemma WooMoves(db: Db, w: Warehouse, c: Id, product: Id, variant: Option<Id>)
    requires WellFormed(db) && IsWoo(db, w.company, w.id)
    ensures var after := TransferAll(db, Balances(db.movements, w.company, w.id));
      && WellFormed(after)
      && if c == w.company then Moved(db, after, c, w.id, product, variant) else Same(db, after, c, product, variant)
  {
    BalancesAreRows(db, w.company, w.id);
    RowsMove(db, w.company, w.id, Balances(db.movements, w.company, w.id), c, product, variant);
  }

  // ----- the whole run -----

  lemma {:induction false} WooRowsAreWoos(ws: seq<Warehouse>)
    ensures forall w :: w in WooRows(ws) <==> w in ws && w.isWoo
  {
    if ws != [] {
      assert ws == ws[..|ws| - 1] + [ws[|ws| - 1]];
      WooRowsAreWoos(ws[..|ws| - 1]);
    }
  }

  ghost predicate OneWooEach(db: Db, ws: seq<Warehouse>) {
    && (forall i :: 0 <= i < |ws| ==> IsWoo(db, ws[i].company, ws[i].id))
    && forall i, j :: 0 <= i < j < |ws| ==> ws[i].company != ws[j].company
  }

  lemma {:induction false} WooRowsOneEach(db: Db, ws: seq<Warehouse>)
    requires WellFormed(db) && ws <= db.warehouses
    requires forall i, j :: 0 <= i < j < |db.warehouses| ==> db.warehouses[i] != db.warehouses[j]
    ensures OneWooEach(db, WooRows(ws))
  {
    if ws != [] {
      var n := |ws| - 1;
      WooRowsOneEach(db, ws[..n]);
      WooRowsAreWoos(ws[..n]);
      assert ws[n] == db.warehouses[n];
      assert forall w :: w in ws[..n] ==> w in db.warehouses && w != ws[n];
    }
  }

  lemma {:induction false} WoosKeepSchema(db: Db, ws: seq<Warehouse>)
    requires WellFormed(db) && OneWooEach(db, ws)
    ensures WellFormed(ReconcileAll(db, ws))
    ensures forall company, id :: IsWoo(ReconcileAll(db, ws), company, id) == IsWoo(db, company, id)
  {
    if ws != [] {
      var n := |ws| - 1;
      var before := ReconcileAll(db, ws[..n]);
      WoosKeepSchema(db, ws[..n]);
      forall company, id ensures IsWoo(ReconcileAll(db, ws), company, id) == IsWoo(before, company, id) {
        WooMoves(before, ws[n], company, 0, None);
      }
      WooMoves(before, ws[n], 0, 0, None);
    }
  }

  lemma {:induction false} WoosElsewhere(db: Db, ws: seq<Warehouse>, c: Id, product: Id, variant: Option<Id>)
    requires WellFormed(db) && OneWooEach(db, ws)
    requires forall i :: 0 <= i < |ws| ==> ws[i].company != c
    ensures Same(db, ReconcileAll(db, ws), c, product, variant)
  {
    if ws != [] {
      var n := |ws| - 1;
      var before := ReconcileAll(db, ws[..n]);
      WoosElsewhere(db, ws[..n], c, product, variant);
      WoosKeepSchema(db, ws[..n]);
      WooMoves(before, ws[n], c, product, variant);
      SameThenSame(db, before, ReconcileAll(db, ws), c, product, variant);
    }
  }

  lemma {:induction false} WoosHere(db: Db, ws: seq<Warehouse>, k: nat, product: Id, variant: Option<Id>)
    requires WellFormed(db) && OneWooEach(db, ws) && k < |ws|
    ensures Moved(db, ReconcileAll(db, ws), ws[k].company, ws[k].id, product, variant)
  {
    var n := |ws| - 1;
    var before, c := ReconcileAll(db, ws[..n]), ws[k].company;
    WoosKeepSchema(db, ws[..n]);
    WooMoves(before, ws[n], c, product, variant);
    if k == n {
      WoosElsewhere(db, ws[..n], c, product, variant);
      SameThenMoved(db, before, ReconcileAll(db, ws), c, ws[k].id, product, variant);
    } else {
      WoosHere(db, ws[..n], k, product, variant);
      MovedThenSame(db, before, ReconcileAll(db, ws), c, ws[k].id, product, variant);
    }
  }

  /** The state the migration may run on: the schema's constraints, rows being distinct. */
  ghost predicate Schema(db: Db) {
    && WellFormed(db)
    && forall i, j :: 0 <= i < j < |db.warehouses| ==> db.warehouses[i] != db.warehouses[j]
  }

  /** Exactly the positive WOO balances with one candidate vendor and no earlier transfer move to
      that vendor's shop, and the catalog quantity of a moved base product becomes the shop's stock;
      every other product and variant keeps every balance. */
  lemma ReconcileMoves(db: Db, company: Id, woo: Id, product: Id, variant: Option<Id>)
    requires Schema(db) && IsWoo(db, company, woo)
    ensures Moved(db, Reconcile(db), company, woo, product, variant)
  {
    var ws := WooRows(db.warehouses);
    WooRowsOneEach(db, db.warehouses);
    WooRowsAreWoos(db.warehouses);
    var w :| w in db.warehouses && w.id == woo && w.company == company && w.isWoo;
    assert w in ws;
    var k :| 0 <= k < |ws| && ws[k] == w;
    WoosHere(db, ws, k, product, variant);
  }

  /** A company without a WOO warehouse is left alone. */
  lemma ReconcileLeavesOthers(db: Db, company: Id, product: Id, variant: Option<Id>)
    requires Schema(db) && forall w :: !IsWoo(db, company, w)
    ensures Same(db, Reconcile(db), company, product, variant)
  {
    var ws := WooRows(db.warehouses);
    WooRowsOneEach(db, db.warehouses);
    forall i | 0 <= i < |ws| ensures ws[i].company != company {
      assert IsWoo(db, ws[i].company, ws[i].id);
    }
    WoosElsewhere(db, ws, company, product, variant);
  }

  /** Eligible balances end empty, and no bucket that was not negative becomes negative. */
  lemma ReconcileEmptiesAndKeepsNonNegative(db: Db, b: Bucket)
    requires Schema(db)
    ensures Eligible(db, b.company, b.warehouse, b.product, b.variant) ==> Stock(Reconcile(db).movements, b) == 0
    ensures Stock(db.movements, b) >= 0 ==> Stock(Reconcile(db).movements, b) >= 0
  {
    assert b == Bucket(b.company, b.warehouse, b.product, b.variant);
    if woo :| IsWoo(db, b.company, woo) {
      ReconcileMoves(db, b.company, woo, b.product, b.variant);
      OnlyWoo(db, b.company, woo);
    } else {
      ReconcileLeavesOthers(db, b.company, b.product, b.variant);
    }
  }

  lemma OnlyWoo(db: Db, company: Id, woo: Id)
    requires WellFormed(db) && IsWoo(db, company, woo)
    ensures forall w :: IsWoo(db, company, w) ==> w == woo
  {
  }

  // ----- conservation -----

  lemma TransferKeepsTotal(db: Db, r: Row, company: Id, product: Id, variant: Option<Id>)
    ensures TotalStock(Transfer(db, r).movements, company, product, variant) == TotalStock(db.movements, company, product, variant)
  {
    if r.quantity > 0 && Known(db, r.company, r.product) && SoleVendor(db, r.company, r.product).Some? {
      var (ready, shop) := Ready(db, r);
      var pair, k := Pair(r, shop), (company, product, variant);
      assert db.movements + pair == (db.movements + [pair[0]]) + [pair[1]];
      SumAtSnoc(db.movements, pair[0], ItemOf, DeltaOf, k);
      SumAtSnoc(db.movements + [pair[0]], pair[1], ItemOf, DeltaOf, k);
    }
  }

  lemma {:induction false} RowsKeepTotal(db: Db, rows: seq<Row>, company: Id, product: Id, variant: Option<Id>)
    ensures TotalStock(TransferAll(db, rows).movements, company, product, variant) == TotalStock(db.movements, company, product, variant)
  {
    if rows != [] {
      RowsKeepTotal(db, rows[..|rows| - 1], company, product, variant);
      TransferKeepsTotal(TransferAll(db, rows[..|rows| - 1]), rows[|rows| - 1], company, product, variant);
    }
  }

  /** Each company keeps its total stock of every product and variant. No schema is needed. */
  lemma {:induction false} WoosKeepTotal(db: Db, ws: seq<Warehouse>, company: Id, product: Id, variant: Option<Id>)
    ensures TotalStock(ReconcileAll(db, ws).movements, company, product, variant) == TotalStock(db.movements, company, product, variant)
  {
    if ws != [] {
      var before, w := ReconcileAll(db, ws[..|ws| - 1]), ws[|ws| - 1];
      WoosKeepTotal(db, ws[..|ws| - 1], company, product, variant);
      RowsKeepTotal(before, Balances(before.movements, w.company, w.id), company, product, variant);
    }
  }

  lemma ReconcileKeepsTotal(db: Db, company: Id, product: Id, variant: Option<Id>)
    ensures TotalStock(Reconcile(db).movements, company, product, variant) == TotalStock(db.movements, company, product, variant)
  {
    WoosKeepTotal(db, WooRows(db.warehouses), company, product, variant);
  }

  // ----- the second run -----

  lemma NothingLeft(db: Db)
    requires Schema(db)
    ensures forall c, w, p, v :: !Eligible(Reconcile(db), c, w, p, v)
  {
    var after := Reconcile(db);
    forall c, w, p, v ensures !Eligible(after, c, w, p, v) {
      if woo :| IsWoo(db, c, woo) {
        ReconcileMoves(db, c, woo, p, v);
        OnlyWoo(db, c, woo);
        assert IsWoo(after, c, w) == IsWoo(db, c, w);
      } else {
        ReconcileLeavesOthers(db, c, p, v);
      }
    }
  }

  lemma {:induction false} IdleRows(db: Db, company: Id, woo: Id, rows: seq<Row>)
    requires IsWoo(db, company, woo) && RowsOf(db, company, woo, rows)
    requires forall p, v :: !Eligible(db, company, woo, p, v)
    ensures TransferAll(db, rows) == db
  {
    if rows != [] {
      var last := rows[|rows| - 1];
      IdleRows(db, company, woo, rows[..|rows| - 1]);
      assert !Eligible(db, company, woo, last.product, last.variant);
      TransferIdle(db, last);
    }
  }

  lemma {:induction false} IdleWoos(db: Db, ws: seq<Warehouse>)
    requires forall i :: 0 <= i < |ws| ==> IsWoo(db, ws[i].company, ws[i].id)
    requires forall c, w, p, v :: !Eligible(db, c, w, p, v)
    ensures ReconcileAll(db, ws) == db
  {
    if ws != [] {
      var w := ws[|ws| - 1];
      IdleWoos(db, ws[..|ws| - 1]);
      BalancesAreRows(db, w.company, w.id);
      IdleRows(db, w.company, w.id, Balances(db.movements, w.company, w.id));
    }
  }

  /** Running the reconciliation again changes nothing at all. */
  lemma ReconcileIsIdempotent(db: Db)
    requires Schema(db)
    ensures Reconcile(Reconcile(db)) == Reconcile(db)
  {
    var after := Reconcile(db);
    NothingLeft(db);
    WooRowsAreWoos(after.warehouses);
    IdleWoos(after, WooRows(after.warehouses));
  }

  // ----- every balance moves once -----

  /** Every balance that the reconciliation moves is marked as transferred. */
  lemma MovedIsMarked(db: Db, company: Id, woo: Id, product: Id, variant: Option<Id>)
    requires Schema(db) && Eligible(db, company, woo, product, variant)
    ensures Marked(Reconcile(db), company, woo, product, variant)
  {
    ReconcileMoves(db, company, woo, product, variant);
  }

  lemma MarksStay(db: Db, later: Db, company: Id, woo: Id, product: Id, variant: Option<Id>)
    requires Marked(db, company, woo, product, variant)
    requires db.movements <= later.movements && SameOwner(db, later, company, product)
    ensures Marked(later, company, woo, product, variant)
  {
    var shop := FindShop(db.warehouses, company, SoleVendor(db, company, product).value).value;
    var m :| m in db.movements && m.company == company && m.warehouse == shop && m.transfer == Some(Baseline(woo, product, variant));
    assert m in later.movements;
  }

  /** A moved balance never moves again: whatever movements are added afterwards, new WOO stock of
      the same product and variant included, a later run leaves it where it is, as long as the
      product keeps its owner. */
  lemma MovedOnce(db: Db, later: Db, company: Id, woo: Id, product: Id, variant: Option<Id>)
    requires Schema(db) && Eligible(db, company, woo, product, variant)
    requires Schema(later) && Reconcile(db).movements <= later.movements
    requires SameOwner(Reconcile(db), later, company, product)
    ensures Same(later, Reconcile(later), company, product, variant)
  {
    var after := Reconcile(db);
    MovedIsMarked(db, company, woo, product, variant);
    MarksStay(after, later, company, woo, product, variant);
    ReconcileMoves(db, company, woo, product, variant);
    assert IsWoo(later, company, woo);
    ReconcileMoves(later, company, woo, product, variant);
  }
}
