/** The data reconciliation of migration 202609180029: the positive balances left in a company's
    WOO warehouse move to the shop warehouse of the one vendor that owns the product. */
module ShopReconciliation {
  import opened Wrappers
  import opened Sums

  type Id = nat

  /** The reference id that marks a baseline transfer, kept as the triple it is printed from. */
  datatype Ref = Baseline(woo: Id, product: Id, variant: Option<Id>)

  datatype Movement = Movement(company: Id, warehouse: Id, product: Id, variant: Option<Id>,
                               delta: int, transfer: Option<Ref>)

  datatype Bucket = Bucket(company: Id, warehouse: Id, product: Id, variant: Option<Id>)

  datatype Warehouse = Warehouse(id: Id, company: Id, isWoo: bool, isVendorShop: bool, vendor: Option<Id>)

  datatype Product = Product(company: Id, vendor: Option<Id>, manageStock: bool,
                             stockQuantity: Option<int>, inStock: bool)

  /** `vendorProducts` has at most one row per company and product; `nextId` is the next fresh id. */
  datatype Db = Db(movements: seq<Movement>, warehouses: seq<Warehouse>, products: map<Id, Product>,
                   vendorProducts: map<(Id, Id), Id>, nextId: Id)

  function BucketOf(m: Movement): Bucket { Bucket(m.company, m.warehouse, m.product, m.variant) }

  function DeltaOf(m: Movement): int { m.delta }

  function ItemOf(m: Movement): (Id, Id, Option<Id>) { (m.company, m.product, m.variant) }

  function Stock(movements: seq<Movement>, b: Bucket): int {
    SumAt(movements, BucketOf, DeltaOf, b)
  }

  /** A company's stock of one product and variant over all its warehouses. */
  function TotalStock(movements: seq<Movement>, company: Id, product: Id, variant: Option<Id>): int {
    SumAt(movements, ItemOf, DeltaOf, (company, product, variant))
  }

  // ----- one balance row -----

  /** A row of the grouped balance query of one WOO warehouse. */
  datatype Row = Row(company: Id, woo: Id, product: Id, variant: Option<Id>, quantity: int)

  function Known(db: Db, company: Id, product: Id): bool {
    product in db.products && db.products[product].company == company
  }

  /** The vendors that may own the product. */
  function Candidates(db: Db, company: Id, product: Id): set<Id>
    requires Known(db, company, product)
  {
    (if db.products[product].vendor.Some? then {db.products[product].vendor.value} else {})
    + if (company, product) in db.vendorProducts then {db.vendorProducts[(company, product)]} else {}
  }

  function SoleVendor(db: Db, company: Id, product: Id): (r: Option<Id>)
    requires Known(db, company, product)
    ensures r.Some? <==> |Candidates(db, company, product)| == 1
    ensures r.Some? ==> Candidates(db, company, product) == {r.value}
  {
    var own := db.products[product].vendor;
    if (company, product) !in db.vendorProducts then
      own
    else
      var listed := db.vendorProducts[(company, product)];
      if own.None? || own.value == listed then Some(listed)
      else
        assert |{own.value} + {listed}| == 2;
        None
  }

  function FindShop(warehouses: seq<Warehouse>, company: Id, vendor: Id): (r: Option<Id>)
    ensures r.Some? ==> exists w :: w in warehouses && w.id == r.value && w.isVendorShop
  {
    if warehouses == [] then None
    else if warehouses[0].company == company && warehouses[0].vendor == Some(vendor) && warehouses[0].isVendorShop
    then Some(warehouses[0].id)
    else FindShop(warehouses[1..], company, vendor)
  }

  predicate HasTransfer(movements: seq<Movement>, company: Id, shop: Id, ref: Ref) {
    exists m :: m in movements && m.company == company && m.warehouse == shop && m.transfer == Some(ref)
  }

  function RefOf(r: Row): Ref {
    Baseline(r.woo, r.product, r.variant)
  }

  function WithShop(db: Db, company: Id, vendor: Id): (Db, Id) {
    var found := FindShop(db.warehouses, company, vendor);
    if found.Some? then (db, found.value)
    else (db.(warehouses := db.warehouses + [Warehouse(db.nextId, company, false, true, Some(vendor))],
              nextId := db.nextId + 1), db.nextId)
  }

  function Pair(r: Row, shop: Id): seq<Movement> {
    [Movement(r.company, r.woo, r.product, r.variant, -r.quantity, Some(RefOf(r))),
     Movement(r.company, shop, r.product, r.variant, r.quantity, Some(RefOf(r)))]
  }

  /** The loop body for one balance row. */
  function Transfer(db: Db, r: Row): Db {
    if r.quantity <= 0 || !Known(db, r.company, r.product) || SoleVendor(db, r.company, r.product).None? then db
    else
      var vendor := SoleVendor(db, r.company, r.product).value;
      var (ready, shop) := WithShop(db, r.company, vendor);
      if HasTransfer(ready.movements, r.company, shop, RefOf(r)) then ready
      else
        var movements := ready.movements + Pair(r, shop);
        var quantity := Stock(movements, Bucket(r.company, shop, r.product, None));
        var products := if r.variant.Some? then ready.products
                        else ready.products[r.product :=
                          ready.products[r.product].(manageStock := true, stockQuantity := Some(quantity), inStock := quantity > 0)];
        ready.(movements := movements, products := products)
  }

  // ----- the two loops -----

  /** The grouped keys of the warehouse's movements, each once. */
  function Keys(movements: seq<Movement>, company: Id, woo: Id): seq<(Id, Option<Id>)> {
    if movements == [] then []
    else
      var n := |movements| - 1;
      var keys, m := Keys(movements[..n], company, woo), movements[n];
      if m.company == company && m.warehouse == woo && (m.product, m.variant) !in keys
      then keys + [(m.product, m.variant)] else keys
  }

  function RowAt(movements: seq<Movement>, company: Id, woo: Id, key: (Id, Option<Id>)): Row {
    Row(company, woo, key.0, key.1, Stock(movements, Bucket(company, woo, key.0, key.1)))
  }

  function RowsFor(movements: seq<Movement>, company: Id, woo: Id, keys: seq<(Id, Option<Id>)>): (rows: seq<Row>)
    ensures |rows| == |keys|
    ensures forall i :: 0 <= i < |keys| ==> rows[i] == RowAt(movements, company, woo, keys[i])
  {
    if keys == [] then []
    else RowsFor(movements, company, woo, keys[..|keys| - 1]) + [RowAt(movements, company, woo, keys[|keys| - 1])]
  }

  /** The balance query: one row per product and variant moved in the warehouse. */
  function Balances(movements: seq<Movement>, company: Id, woo: Id): seq<Row> {
    RowsFor(movements, company, woo, Keys(movements, company, woo))
  }

  function TransferAll(db: Db, rows: seq<Row>): Db {
    if rows == [] then db else Transfer(TransferAll(db, rows[..|rows| - 1]), rows[|rows| - 1])
  }

  function WooRows(warehouses: seq<Warehouse>): seq<Warehouse> {
    if warehouses == [] then []
    else WooRows(warehouses[..|warehouses| - 1])
         + if warehouses[|warehouses| - 1].isWoo then [warehouses[|warehouses| - 1]] else []
  }

  function ReconcileAll(db: Db, woos: seq<Warehouse>): Db {
    if woos == [] then db
    else
      var before, w := ReconcileAll(db, woos[..|woos| - 1]), woos[|woos| - 1];
      TransferAll(before, Balances(before.movements, w.company, w.id))
  }

  function Reconcile(db: Db): Db {
    ReconcileAll(db, WooRows(db.warehouses))
  }

  // ----- the tables -----

  class Tables {
    var movements: seq<Movement>
    var warehouses: seq<Warehouse>
    var products: map<Id, Product>
    var vendorProducts: map<(Id, Id), Id>
    var nextId: Id

    function Contents(): Db
      reads this
    {
      Db(movements, warehouses, products, vendorProducts, nextId)
    }

    /** Groups the movements of one warehouse in a single pass. */
    method QueryBalances(company: Id, woo: Id) returns (rows: seq<Row>)
      ensures rows == Balances(movements, company, woo)
    {
      var keys: seq<(Id, Option<Id>)>, sums: map<(Id, Option<Id>), int> := [], map[];
      for i := 0 to |movements|
        invariant keys == Keys(movements[..i], company, woo)
        invariant forall k :: k in sums <==> k in keys
        invariant forall k :: k in sums ==> sums[k] == Stock(movements[..i], Bucket(company, woo, k.0, k.1))
      {
        var m := movements[i];
        assert movements[..i + 1] == movements[..i] + [m];
        GroupingStep(movements[..i], m, company, woo);
        if m.company == company && m.warehouse == woo {
          var k := (m.product, m.variant);
          if k !in sums {
            keys := keys + [k];
            sums := sums[k := 0];
          }
          sums := sums[k := sums[k] + m.delta];
        }
      }
      assert movements[..|movements|] == movements;
      rows := RowsOfSums(company, woo, keys, sums);
    }

    /** Lists the groups in order. */
    method RowsOfSums(company: Id, woo: Id, keys: seq<(Id, Option<Id>)>, sums: map<(Id, Option<Id>), int>) returns (rows: seq<Row>)
      requires forall k :: k in keys ==> k in sums && sums[k] == Stock(movements, Bucket(company, woo, k.0, k.1))
      ensures rows == RowsFor(movements, company, woo, keys)
    {
      rows := [];
      for i := 0 to |keys|
        invariant rows == RowsFor(movements, company, woo, keys[..i])
      {
        assert keys[..i + 1][..i] == keys[..i];
        rows := rows + [Row(company, woo, keys[i].0, keys[i].1, sums[keys[i]])];
      }
      assert keys[..|keys|] == keys;
    }

    method TransferRow(r: Row)
      modifies this
      ensures Contents() == Transfer(old(Contents()), r)
    {
      if r.quantity <= 0 || !Known(Contents(), r.company, r.product) {
        return;
      }
      var vendor := SoleVendor(Contents(), r.company, r.product);
      if vendor.None? {
        return;
      }
      var found := FindShop(warehouses, r.company, vendor.value);
      var shop: Id;
      if found.Some? {
        shop := found.value;
      } else {
        shop := nextId;
        warehouses := warehouses + [Warehouse(shop, r.company, false, true, vendor)];
        nextId := nextId + 1;
      }
      if HasTransfer(movements, r.company, shop, RefOf(r)) {
        return;
      }
      movements := movements + Pair(r, shop);
      if r.variant.None? {
        var quantity := StockTotal(Bucket(r.company, shop, r.product, None));
        products := products[r.product :=
          products[r.product].(manageStock := true, stockQuantity := Some(quantity), inStock := quantity > 0)];
      }
    }

    /** _stock_total. */
    method StockTotal(b: Bucket) returns (quantity: int)
      ensures quantity == Stock(movements, b)
    {
      quantity := 0;
      for i := 0 to |movements|
        invariant quantity == Stock(movements[..i], b)
      {
        assert movements[..i + 1] == movements[..i] + [movements[i]];
        SumAtSnoc(movements[..i], movements[i], BucketOf, DeltaOf, b);
        if BucketOf(movements[i]) == b {
          quantity := quantity + movements[i].delta;
        }
      }
      assert movements[..|movements|] == movements;
    }

    method Upgrade()
      modifies this
      ensures Contents() == Reconcile(old(Contents()))
    {
      var woos := WooRows(warehouses);
      for i := 0 to |woos|
        invariant Contents() == ReconcileAll(old(Contents()), woos[..i])
      {
        assert woos[..i + 1][..i] == woos[..i];
        var rows := QueryBalances(woos[i].company, woos[i].id);
        label Snapshot:
        for j := 0 to |rows|
          invariant Contents() == TransferAll(old@Snapshot(Contents()), rows[..j])
        {
          assert rows[..j + 1][..j] == rows[..j];
          TransferRow(rows[j]);
        }
        assert rows[..|rows|] == rows;
      }
      assert woos[..|woos|] == woos;
    }
  }

  lemma GroupingStep(movements: seq<Movement>, m: Movement, company: Id, woo: Id)
    ensures var keys, k := Keys(movements, company, woo), (m.product, m.variant);
      Keys(movements + [m], company, woo)
      == if m.company == company && m.warehouse == woo && k !in keys then keys + [k] else keys
    ensures forall b :: Stock(movements + [m], b) == Stock(movements, b) + if BucketOf(m) == b then m.delta else 0
    ensures forall b: Bucket :: b.company == company && b.warehouse == woo && (b.product, b.variant) !in Keys(movements, company, woo)
              ==> Stock(movements, b) == 0
  {
    assert (movements + [m])[..|movements|] == movements;
    forall b {
      SumAtSnoc(movements, m, BucketOf, DeltaOf, b);
    }
    forall b: Bucket | b.company == company && b.warehouse == woo && (b.product, b.variant) !in Keys(movements, company, woo)
      ensures Stock(movements, b) == 0
    {
      KeysCover(movements, company, woo);
      SumAtAbsent(movements, BucketOf, DeltaOf, b);
    }
  }

  lemma {:induction false} KeysCover(movements: seq<Movement>, company: Id, woo: Id)
    ensures forall m :: m in movements && m.company == company && m.warehouse == woo
              ==> (m.product, m.variant) in Keys(movements, company, woo)
    ensures Distinct(Keys(movements, company, woo))
  {
    if movements != [] {
      var n := |movements| - 1;
      assert movements == movements[..n] + [movements[n]];
      KeysCover(movements[..n], company, woo);
    }
  }
}
