/** The stock ledger of inventory_services.py: movements are only ever appended, and every
    balance is derived by summing them. */
module Inventory {
  import opened Wrappers
  import opened Sums

  datatype Error =
    | WarehouseMissing
    | WarehouseInactive
    | ProductMissing
    | ProductArchived
    | VariantMissing
    | VariantInactive
    | BadMovement
    | StockWouldBeNegative

  /** Quantities are at least 1 by the request schema. */
  type Positive = q: int | q >= 1 witness 1

  datatype Kind = Opening | StockIn | StockOut | Damaged | Adjustment

  datatype Movement = Movement(company: string, warehouse: string, product: string, variant: Option<string>,
                               delta: int, reference: string)

  /** The key under which stock is kept. */
  datatype Bucket = Bucket(company: string, warehouse: string, product: string, variant: Option<string>)

  datatype Warehouse = Warehouse(id: string, company: string, isActive: bool, vendorShopOf: Option<string>)

  datatype Product = Product(company: string, archived: bool)

  datatype Variant = Variant(company: string, product: string, isActive: bool)

  datatype Store = Store(movements: seq<Movement>, warehouses: seq<Warehouse>,
                         products: map<string, Product>, variants: map<string, Variant>)

  datatype Request = Request(kind: Kind, warehouse: string, product: string, variant: Option<string>,
                             quantity: Option<Positive>, quantityDelta: Option<int>, reference: string)

  function BucketOf(m: Movement): Bucket { Bucket(m.company, m.warehouse, m.product, m.variant) }

  function DeltaOf(m: Movement): int { m.delta }

  /** Stock on hand: the filtered sum of the movements. */
  function Stock(movements: seq<Movement>, b: Bucket): int {
    SumAt(movements, BucketOf, DeltaOf, b)
  }

  /** The signed quantity of a request. */
  function MovementDelta(r: Request): (d: Result<int, Error>)
    ensures d.Success? && r.kind in {Opening, StockIn} ==> d.value > 0
    ensures d.Success? && r.kind in {StockOut, Damaged} ==> d.value < 0
    ensures d.Success? ==> d.value != 0
    ensures d.Success? <==> if r.kind.Adjustment? then r.quantity.None? && r.quantityDelta.Some? && r.quantityDelta.value != 0
                            else r.quantity.Some? && r.quantityDelta.None?
  {
    if r.kind.Adjustment? then
      if r.quantityDelta.None? || r.quantityDelta.value == 0 then Failure(BadMovement)
      else if r.quantity.Some? then Failure(BadMovement)
      else Success(r.quantityDelta.value)
    else if r.quantity.None? then Failure(BadMovement)
    else if r.quantityDelta.Some? then Failure(BadMovement)
    else if r.kind.Opening? || r.kind.StockIn? then Success(r.quantity.value)
    else var q: int := r.quantity.value; Success(-q)
  }

  function FindWarehouse(warehouses: seq<Warehouse>, company: string, id: string): Option<Warehouse> {
    if warehouses == [] then None
    else if warehouses[0].company == company && warehouses[0].id == id then Some(warehouses[0])
    else FindWarehouse(warehouses[1..], company, id)
  }

  /** The checks a movement passes before its quantity is looked at. */
  function Movable(st: Store, company: string, warehouse: string, product: string, variant: Option<string>): Result<(), Error> {
    var w := FindWarehouse(st.warehouses, company, warehouse);
    if w.None? then Failure(WarehouseMissing)
    else if !w.value.isActive then Failure(WarehouseInactive)
    else if product !in st.products || st.products[product].company != company then Failure(ProductMissing)
    else if st.products[product].archived then Failure(ProductArchived)
    else if variant.None? then Success(())
    else if variant.value !in st.variants || st.variants[variant.value].company != company
            || st.variants[variant.value].product != product then Failure(VariantMissing)
    else if !st.variants[variant.value].isActive then Failure(VariantInactive)
    else Success(())
  }

  function MovementOf(company: string, r: Request, delta: int): Movement {
    Movement(company, r.warehouse, r.product, r.variant, delta, r.reference)
  }

  /** record_stock_movement. */
  function Record(st: Store, company: string, r: Request): Result<Store, Error> {
    var _ :- Movable(st, company, r.warehouse, r.product, r.variant);
    var delta :- MovementDelta(r);
    var m := MovementOf(company, r, delta);
    if Stock(st.movements, BucketOf(m)) + delta < 0 then Failure(StockWouldBeNegative)
    else Success(st.(movements := st.movements + [m]))
  }

  // ----- filters of the grouped query -----

  datatype Filter = Filter(warehouse: Option<string>, product: Option<string>, variant: Option<string>)

  predicate Selects(f: Filter, company: string, b: Bucket) {
    && b.company == company
    && (Given(f.warehouse) ==> b.warehouse == f.warehouse.value)
    && (Given(f.product) ==> b.product == f.product.value)
    && (Given(f.variant) ==> b.variant == f.variant)
  }

  /** A bucket is selected if and only if it is the company's and agrees with every filter value that
      is present and not empty. */
  lemma FilterMeaning(company: string, b: Bucket, warehouse: string, product: string, variant: string)
    ensures Selects(Filter(None, None, None), company, b) <==> b.company == company
    ensures warehouse != "" && product != "" && variant != "" ==>
      (Selects(Filter(Some(warehouse), Some(product), Some(variant)), company, b) <==> b == Bucket(company, warehouse, product, Some(variant)))
    ensures warehouse != "" ==>
      (Selects(Filter(Some(warehouse), None, None), company, b) <==> b.company == company && b.warehouse == warehouse)
    ensures product != "" ==>
      (Selects(Filter(None, Some(product), None), company, b) <==> b.company == company && b.product == product)
    ensures variant != "" ==>
      (Selects(Filter(None, None, Some(variant)), company, b) <==> b.company == company && b.variant == Some(variant))
    ensures Selects(Filter(Some(""), Some(""), Some("")), company, b) <==> b.company == company
  {
  }

  // ----- the tables -----

  class StockLedger {
    var movements: seq<Movement>
    var warehouses: seq<Warehouse>
    var products: map<string, Product>
    var variants: map<string, Variant>

    function Contents(): Store
      reads this
    {
      Store(movements, warehouses, products, variants)
    }

    /** current_stock: filters and sums in one pass. */
    method CurrentStock(b: Bucket) returns (quantity: int)
      ensures quantity == Stock(movements, b)
    {
      quantity := 0;
      for i := 0 to |movements|
        invariant quantity == Stock(movements[..i], b)
      {
        assert movements[..i + 1] == movements[..i] + [movements[i]];
        SumAtSnoc(movements[..i], movements[i], BucketOf, DeltaOf, b);
        if BucketOf(movements[i]) == b {
          quantity := quantity + movements[i].delta;
        }
      }
      assert movements[..|movements|] == movements;
    }

    /** stock_levels: groups all selected movements in one pass. A bucket is listed exactly when it
        is selected and has a movement, and its level is what CurrentStock would answer; of a
        selected bucket that is not listed CurrentStock would answer zero. */
    method StockLevels(company: string, f: Filter) returns (levels: map<Bucket, int>)
      ensures forall b :: b in levels <==> Selects(f, company, b) && exists m :: m in movements && BucketOf(m) == b
      ensures forall b :: b in levels ==> levels[b] == Stock(movements, b)
      ensures forall b :: Selects(f, company, b) && b !in levels ==> Stock(movements, b) == 0
    {
      levels := map[];
      for i := 0 to |movements|
        invariant forall b :: b in levels <==> Selects(f, company, b) && exists m :: m in movements[..i] && BucketOf(m) == b
        invariant forall b :: b in levels ==> levels[b] == Stock(movements[..i], b)
      {
        var m := movements[i];
        var k := BucketOf(m);
        assert movements[..i + 1] == movements[..i] + [m];
        forall b {
          SumAtSnoc(movements[..i], m, BucketOf, DeltaOf, b);
        }
        if Selects(f, company, k) {
          if k !in levels {
            SumAtAbsent(movements[..i], BucketOf, DeltaOf, k);
          }
          levels := levels[k := (if k in levels then levels[k] else 0) + m.delta];
        }
      }
      assert movements[..|movements|] == movements;
      forall b | Selects(f, company, b) && b !in levels ensures Stock(movements, b) == 0 {
        SumAtAbsent(movements, BucketOf, DeltaOf, b);
      }
    }

    method RecordStockMovement(company: string, r: Request) returns (outcome: Result<(), Error>)
      modifies this`movements
      ensures match Record(old(Contents()), company, r)
              case Success(after) => Contents() == after && outcome == Success(())
              case Failure(e) => Contents() == old(Contents()) && outcome == Failure(e)
    {
      var movable := Movable(Contents(), company, r.warehouse, r.product, r.variant);
      if movable.Failure? {
        return Failure(movable.error);
      }
      var delta := MovementDelta(r);
      if delta.Failure? {
        return Failure(delta.error);
      }
      var before := CurrentStock(Bucket(company, r.warehouse, r.product, r.variant));
      if before + delta.value < 0 {
        return Failure(StockWouldBeNegative);
      }
      movements := movements + [MovementOf(company, r, delta.value)];
      return Success(());
    }
  }

  // ----- every reachable ledger -----

  /** No bucket was ever negative: every prefix of the ledger sums to at least zero in it. */
  ghost predicate NeverNegative(movements: seq<Movement>) {
    forall n, b :: 0 <= n <= |movements| ==> Stock(movements[..n], b) >= 0
  }

  /** A recorded movement is the one requested, and its bucket can bear it. */
  lemma RecordAppends(st: Store, company: string, r: Request)
    requires Record(st, company, r).Success?
    ensures Movable(st, company, r.warehouse, r.product, r.variant).Success? && MovementDelta(r).Success?
    ensures var m := MovementOf(company, r, MovementDelta(r).value);
      && Record(st, company, r).value == st.(movements := st.movements + [m])
      && Stock(st.movements, BucketOf(m)) + m.delta >= 0
      && forall b :: Stock(st.movements + [m], b) == Stock(st.movements, b) + if b == BucketOf(m) then m.delta else 0
  {
    var m := MovementOf(company, r, MovementDelta(r).value);
    forall b {
      SumAtSnoc(st.movements, m, BucketOf, DeltaOf, b);
    }
  }

  /** The request asks for a change of `d`: its quantity in, its quantity out, or its own delta. */
  ghost predicate AsksFor(r: Request, d: int) {
    match r.kind
    case Opening => r.quantity.Some? && r.quantityDelta.None? && r.quantity.value == d
    case StockIn => r.quantity.Some? && r.quantityDelta.None? && r.quantity.value == d
    case StockOut => r.quantity.Some? && r.quantityDelta.None? && r.quantity.value + d == 0
    case Damaged => r.quantity.Some? && r.quantityDelta.None? && r.quantity.value + d == 0
    case Adjustment => r.quantity.None? && r.quantityDelta == Some(d) && d != 0
  }

  lemma AskedIsMoved(r: Request, d: int)
    ensures AsksFor(r, d) <==> MovementDelta(r) == Success(d)
  {
  }

  /** A movement is recorded if and only if its place accepts movements, the request is well-formed
      and the bucket can bear the change; then that bucket changes by exactly what was asked, and
      nothing but the one movement is added. */
  lemma RecordIffAffordable(st: Store, company: string, r: Request, d: int)
    requires AsksFor(r, d)
    ensures var b := Bucket(company, r.warehouse, r.product, r.variant);
      var accepts := Movable(st, company, r.warehouse, r.product, r.variant).Success?;
      && (Record(st, company, r).Success? <==> accepts && Stock(st.movements, b) + d >= 0)
      && (Record(st, company, r) == Failure(StockWouldBeNegative) <==> accepts && Stock(st.movements, b) + d < 0)
      && (Record(st, company, r).Success? ==>
            && Stock(Record(st, company, r).value.movements, b) == Stock(st.movements, b) + d
            && Record(st, company, r).value
               == st.(movements := st.movements + [Movement(company, r.warehouse, r.product, r.variant, d, r.reference)]))
  {
    AskedIsMoved(r, d);
    if Record(st, company, r).Success? {
      RecordAppends(st, company, r);
    }
  }

  /** A request that asks for no change, or mixes quantity and delta, is refused. */
  lemma MalformedIsRefused(st: Store, company: string, r: Request)
    requires forall d :: !AsksFor(r, d)
    ensures Record(st, company, r).Failure?
    ensures Movable(st, company, r.warehouse, r.product, r.variant).Success? ==> Record(st, company, r) == Failure(BadMovement)
  {
    if MovementDelta(r).Success? {
      AskedIsMoved(r, MovementDelta(r).value);
    }
  }

  lemma {:induction false} FindWarehouseFinds(warehouses: seq<Warehouse>, company: string, id: string)
    ensures FindWarehouse(warehouses, company, id).Some?
       <==> exists w :: w in warehouses && w.company == company && w.id == id
    ensures FindWarehouse(warehouses, company, id).Some? ==>
      var w := FindWarehouse(warehouses, company, id).value; w in warehouses && w.company == company && w.id == id
  {
    if warehouses != [] {
      FindWarehouseFinds(warehouses[1..], company, id);
      assert forall w :: w in warehouses <==> w == warehouses[0] || w in warehouses[1..];
    }
  }

  /** A place accepts movements if and only if its warehouse is active, its product is not archived,
      and its variant, if any, is an active one of that product, all of the company. */
  lemma MovableIff(st: Store, company: string, warehouse: string, product: string, variant: Option<string>)
    requires forall v, w :: v in st.warehouses && w in st.warehouses && v.id == w.id ==> v == w
    ensures Movable(st, company, warehouse, product, variant).Success?
       <==> && (exists w :: w in st.warehouses && w.company == company && w.id == warehouse && w.isActive)
            && product in st.products && st.products[product] == Product(company, false)
            && (variant.Some? ==> variant.value in st.variants && st.variants[variant.value] == Variant(company, product, true))
  {
    FindWarehouseFinds(st.warehouses, company, warehouse);
  }

  lemma RecordKeepsNonNegative(st: Store, company: string, r: Request)
    requires NeverNegative(st.movements)
    requires Record(st, company, r).Success?
    ensures NeverNegative(Record(st, company, r).value.movements)
  {
    RecordAppends(st, company, r);
    var m := MovementOf(company, r, MovementDelta(r).value);
    var after := st.movements + [m];
    forall n, b | 0 <= n <= |after| ensures Stock(after[..n], b) >= 0 {
      if n <= |st.movements| {
        assert after[..n] == st.movements[..n];
      } else {
        assert after[..n] == after;
        assert st.movements[..|st.movements|] == st.movements;
      }
    }
  }
}
