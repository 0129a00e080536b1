/** The point-of-sale path of commerce_services.py: one order, its stock deducted line by line,
    safe to retry under an idempotency key. */
module PosSale {
  import opened Wrappers
  import opened Sums
  import opened Inventory

  datatype SaleError =
    | WrongShopWarehouse
    | WarehouseRequired
    | NoSuchWarehouse
    | InactiveWarehouse
    | OutsideVendorScope
    | OrderRefused
    | StockRefused(error: Error)
    | PaymentRefused

  datatype SaleLine = SaleLine(product: string, variant: Option<string>, quantity: Positive)

  datatype Order = Order(company: string, isPos: bool, key: Option<string>, lines: seq<SaleLine>)

  datatype VendorProduct = VendorProduct(company: string, vendor: string, product: string)

  datatype Shop = Shop(stock: Store, orders: seq<Order>, vendorProducts: set<VendorProduct>)

  /** `orderAccepted` and `paymentsAccepted` are the verdicts of create_order and of the loop over
      record_payment; `newWarehouse` is the fresh id a vendor's first shop warehouse would get. */
  datatype SaleRequest = SaleRequest(company: string, vendor: Option<string>, warehouse: Option<string>,
                                     lines: seq<SaleLine>, key: Option<string>,
                                     orderAccepted: bool, paymentsAccepted: bool, newWarehouse: string)

  predicate Matches(o: Order, company: string, key: Option<string>) {
    o.company == company && o.isPos && o.key == key
  }

  /** The earlier POS order of the company with this key. */
  function FindOrder(orders: seq<Order>, company: string, key: Option<string>): (r: Option<nat>)
    ensures r.Some? ==> r.value < |orders| && Matches(orders[r.value], company, key)
    ensures r.Some? ==> forall j :: 0 <= j < r.value ==> !Matches(orders[j], company, key)
    ensures r.None? ==> forall o :: o in orders ==> !Matches(o, company, key)
  {
    if orders == [] then None
    else
      var n := |orders| - 1;
      var earlier := FindOrder(orders[..n], company, key);
      assert orders == orders[..n] + [orders[n]];
      if earlier.Some? then earlier
      else if Matches(orders[n], company, key) then Some(n) else None
  }

  function ShopWarehouse(warehouses: seq<Warehouse>, company: string, vendor: string): Option<Warehouse> {
    if warehouses == [] then None
    else if warehouses[0].company == company && warehouses[0].vendorShopOf == Some(vendor) then Some(warehouses[0])
    else ShopWarehouse(warehouses[1..], company, vendor)
  }

  /** The warehouse the sale draws on, and the store with that warehouse provisioned. */
  function SaleWarehouse(st: Store, r: SaleRequest): Result<(Store, Warehouse), SaleError> {
    match r.vendor
    case Some(vendor) =>
      var found := ShopWarehouse(st.warehouses, r.company, vendor);
      var w := if found.Some? then found.value else Warehouse(r.newWarehouse, r.company, true, Some(vendor));
      if r.warehouse.Some? && r.warehouse.value != w.id then Failure(WrongShopWarehouse)
      else Success((if found.Some? then st else st.(warehouses := st.warehouses + [w]), w))
    case None =>
      if r.warehouse.None? then Failure(WarehouseRequired)
      else
        var found := FindWarehouse(st.warehouses, r.company, r.warehouse.value);
        if found.None? then Failure(NoSuchWarehouse) else Success((st, found.value))
  }

  predicate InScope(shop: Shop, r: SaleRequest) {
    r.vendor.Some? ==>
      forall i :: 0 <= i < |r.lines| ==> VendorProduct(r.company, r.vendor.value, r.lines[i].product) in shop.vendorProducts
  }

  function LineRequest(warehouse: string, l: SaleLine): Request {
    Request(StockOut, warehouse, l.product, l.variant, Some(l.quantity), None, "pos_sale")
  }

  /** The deduction loop: every line is checked against the stock its predecessors left. */
  function Deduct(st: Store, company: string, warehouse: string, lines: seq<SaleLine>): Result<Store, Error> {
    if lines == [] then Success(st)
    else
      var n := |lines| - 1;
      var before :- Deduct(st, company, warehouse, lines[..n]);
      Record(before, company, LineRequest(warehouse, lines[n]))
  }

  /** create_pos_sale: the shop after the sale and the index of its order. */
  function Sell(shop: Shop, r: SaleRequest): Result<(Shop, nat), SaleError> {
    if Given(r.key) && FindOrder(shop.orders, r.company, r.key).Some? then
      Success((shop, FindOrder(shop.orders, r.company, r.key).value))
    else
      var (st, w) :- SaleWarehouse(shop.stock, r);
      if !w.isActive then Failure(InactiveWarehouse)
      else if !InScope(shop, r) then Failure(OutsideVendorScope)
      else if !r.orderAccepted then Failure(OrderRefused)
      else
        var deducted := Deduct(st, r.company, w.id, r.lines);
        if deducted.Failure? then Failure(StockRefused(deducted.error))
        else if !r.paymentsAccepted then Failure(PaymentRefused)
        else
          var order := Order(r.company, true, if Given(r.key) then r.key else None, r.lines);
          Success((Shop(deducted.value, shop.orders + [order], shop.vendorProducts), |shop.orders|))
  }

  // ----- the tables -----

  class Till {
    const ledger: StockLedger
    var orders: seq<Order>
    var vendorProducts: set<VendorProduct>

    constructor (ledger: StockLedger)
      ensures this.ledger == ledger && orders == [] && vendorProducts == {}
    {
      this.ledger := ledger;
      orders, vendorProducts := [], {};
    }

    function Contents(): Shop
      reads this, ledger
    {
      Shop(ledger.Contents(), orders, vendorProducts)
    }

    /** Deducts the lines one by one; a line that fails leaves its predecessors deducted. */
    method DeductLines(company: string, warehouse: string, lines: seq<SaleLine>) returns (outcome: Result<(), Error>)
      modifies ledger`movements
      ensures match Deduct(old(ledger.Contents()), company, warehouse, lines)
              case Success(after) => outcome == Success(()) && ledger.Contents() == after
              case Failure(e) => outcome == Failure(e)
    {
      for i := 0 to |lines|
        invariant Deduct(old(ledger.Contents()), company, warehouse, lines[..i]) == Success(ledger.Contents())
      {
        assert lines[..i + 1][..i] == lines[..i];
        outcome := ledger.RecordStockMovement(company, LineRequest(warehouse, lines[i]));
        if outcome.Failure? {
          DeductFailureSticks(old(ledger.Contents()), company, warehouse, lines, i + 1);
          return;
        }
      }
      assert lines[..|lines|] == lines;
      outcome := Success(());
    }

    /** The request as a whole: any failure rolls every table back. */
    method CreatePosSale(r: SaleRequest) returns (outcome: Result<nat, SaleError>)
      modifies this, ledger
      ensures match Sell(old(Contents()), r)
              case Success((after, order)) => Contents() == after && outcome == Success(order)
              case Failure(e) => Contents() == old(Contents()) && outcome == Failure(e)
    {
      if Given(r.key) {
        var existing := FindOrder(orders, r.company, r.key);
        if existing.Some? {
          return Success(existing.value);
        }
      }
      var resolved := SaleWarehouse(ledger.Contents(), r);
      if resolved.Failure? {
        return Failure(resolved.error);
      }
      var (provisioned, warehouse) := resolved.value;
      if !warehouse.isActive {
        return Failure(InactiveWarehouse);
      }
      if !InScope(Contents(), r) {
        return Failure(OutsideVendorScope);
      }
      if !r.orderAccepted {
        return Failure(OrderRefused);
      }
      outcome := DeductAndPay(provisioned, warehouse, r);
      if outcome.Success? {
        orders := orders + [Order(r.company, true, if Given(r.key) then r.key else None, r.lines)];
      }
    }

    /** The stock and payment part of a sale, undone as a whole when any of it fails. */
    method DeductAndPay(provisioned: Store, warehouse: Warehouse, r: SaleRequest) returns (outcome: Result<nat, SaleError>)
      requires provisioned == ledger.Contents().(warehouses := provisioned.warehouses)
      modifies ledger
      ensures var deducted := Deduct(provisioned, r.company, warehouse.id, r.lines);
        if deducted.Failure? then outcome == Failure(StockRefused(deducted.error)) && ledger.Contents() == old(ledger.Contents())
        else if !r.paymentsAccepted then outcome == Failure(PaymentRefused) && ledger.Contents() == old(ledger.Contents())
        else outcome == Success(|orders|) && ledger.Contents() == deducted.value
    {
      var savedMovements, savedWarehouses := ledger.movements, ledger.warehouses;
      ledger.warehouses := provisioned.warehouses;
      var deducted := DeductLines(r.company, warehouse.id, r.lines);
      if deducted.Failure? || !r.paymentsAccepted {
        ledger.movements, ledger.warehouses := savedMovements, savedWarehouses;
        return Failure(if deducted.Failure? then StockRefused(deducted.error) else PaymentRefused);
      }
      outcome := Success(|orders|);
    }
  }

  lemma {:induction false} DeductFailureSticks(st: Store, company: string, warehouse: string, lines: seq<SaleLine>, n: nat)
    requires n <= |lines|
    requires Deduct(st, company, warehouse, lines[..n]).Failure?
    ensures Deduct(st, company, warehouse, lines) == Deduct(st, company, warehouse, lines[..n])
  {
    if n < |lines| {
      assert lines[..|lines| - 1][..n] == lines[..n];
      DeductFailureSticks(st, company, warehouse, lines[..|lines| - 1], n);
    } else {
      assert lines[..n] == lines;
    }
  }

  // ----- when the deduction goes through -----

  function LineProduct(l: SaleLine): (string, Option<string>) { (l.product, l.variant) }

  function LineQuantity(l: SaleLine): int { l.quantity }

  /** What all lines together ask of one product and variant. */
  function Demand(lines: seq<SaleLine>, product: string, variant: Option<string>): int {
    SumAt(lines, LineProduct, LineQuantity, (product, variant))
  }

  ghost predicate AllMovable(st: Store, company: string, warehouse: string, lines: seq<SaleLine>) {
    forall l :: l in lines ==> Movable(st, company, warehouse, l.product, l.variant).Success?
  }

  /** Every bucket the sale touches holds at least what all lines together take from it. */
  ghost predicate DemandsFit(st: Store, company: string, warehouse: string, lines: seq<SaleLine>) {
    forall l :: l in lines ==>
      Demand(lines, l.product, l.variant) <= Stock(st.movements, Bucket(company, warehouse, l.product, l.variant))
  }

  /** `after` is `st` with exactly the lines' total taken out of each bucket of the warehouse. */
  ghost predicate Deducted(st: Store, after: Store, company: string, warehouse: string, lines: seq<SaleLine>) {
    && after == st.(movements := after.movements)
    && st.movements <= after.movements
    && forall b :: Stock(after.movements, b) == Stock(st.movements, b)
         - if b.company == company && b.warehouse == warehouse then Demand(lines, b.product, b.variant) else 0
  }

  lemma DemandSnoc(lines: seq<SaleLine>, l: SaleLine, product: string, variant: Option<string>)
    ensures Demand(lines + [l], product, variant)
         == Demand(lines, product, variant) + if (l.product, l.variant) == (product, variant) then l.quantity else 0
    ensures Demand(lines + [l], product, variant) >= Demand(lines, product, variant) >= 0
  {
    SumAtSnoc(lines, l, LineProduct, LineQuantity, (product, variant));
    SumAtNonNegative(lines, LineProduct, LineQuantity, (product, variant));
  }

  lemma {:induction false} DeductTakesDemand(st: Store, company: string, warehouse: string, lines: seq<SaleLine>)
    requires Deduct(st, company, warehouse, lines).Success?
    ensures Deducted(st, Deduct(st, company, warehouse, lines).value, company, warehouse, lines)
  {
    if lines != [] {
      var n := |lines| - 1;
      var init, l := lines[..n], lines[n];
      assert lines == init + [l];
      DeductTakesDemand(st, company, warehouse, init);
      DeductedOneMore(st, Deduct(st, company, warehouse, init).value, company, warehouse, init, l);
    }
  }

  lemma DeductedOneMore(st: Store, before: Store, company: string, warehouse: string, lines: seq<SaleLine>, l: SaleLine)
    requires Deducted(st, before, company, warehouse, lines)
    requires Record(before, company, LineRequest(warehouse, l)).Success?
    ensures Deducted(st, Record(before, company, LineRequest(warehouse, l)).value, company, warehouse, lines + [l])
  {
    var r := LineRequest(warehouse, l);
    RecordAppends(before, company, r);
    assert MovementDelta(r).value == 0 - l.quantity;
    forall b: Bucket {
      DemandSnoc(lines, l, b.product, b.variant);
    }
  }

  /** The next line goes through exactly when its whole demand so far fits. */
  lemma LastLineFits(st: Store, company: string, warehouse: string, lines: seq<SaleLine>, l: SaleLine)
    requires Movable(st, company, warehouse, l.product, l.variant).Success?
    requires Deduct(st, company, warehouse, lines).Success?
    ensures Record(Deduct(st, company, warehouse, lines).value, company, LineRequest(warehouse, l)).Success?
       <==> Demand(lines + [l], l.product, l.variant)
            <= Stock(st.movements, Bucket(company, warehouse, l.product, l.variant))
  {
    DeductTakesDemand(st, company, warehouse, lines);
    DemandSnoc(lines, l, l.product, l.variant);
    var before := Deduct(st, company, warehouse, lines).value;
    var r := LineRequest(warehouse, l);
    assert MovementDelta(r) == Success(0 - l.quantity);
    assert BucketOf(MovementOf(company, r, 0 - l.quantity)) == Bucket(company, warehouse, l.product, l.variant);
  }

  lemma FitSplits(st: Store, company: string, warehouse: string, lines: seq<SaleLine>, l: SaleLine)
    ensures DemandsFit(st, company, warehouse, lines + [l])
       <==> DemandsFit(st, company, warehouse, lines)
            && Demand(lines + [l], l.product, l.variant) <= Stock(st.movements, Bucket(company, warehouse, l.product, l.variant))
  {
    assert l in lines + [l];
    if DemandsFit(st, company, warehouse, lines + [l]) {
      forall k | k in lines
        ensures Demand(lines, k.product, k.variant) <= Stock(st.movements, Bucket(company, warehouse, k.product, k.variant))
      {
        DemandSnoc(lines, l, k.product, k.variant);
        assert k in lines + [l];
      }
    }
    DemandOfOtherLines(lines, l);
  }

  /** One more line leaves the demand of every other product and variant as it was. */
  lemma DemandOfOtherLines(lines: seq<SaleLine>, l: SaleLine)
    ensures forall k :: k in lines && (k.product, k.variant) != (l.product, l.variant) ==>
      Demand(lines + [l], k.product, k.variant) == Demand(lines, k.product, k.variant)
  {
    forall k | k in lines && (k.product, k.variant) != (l.product, l.variant)
      ensures Demand(lines + [l], k.product, k.variant) == Demand(lines, k.product, k.variant)
    {
      DemandSnoc(lines, l, k.product, k.variant);
    }
  }

  lemma MovableIgnoresMovements(st: Store, after: Store, company: string, warehouse: string, l: SaleLine)
    requires after == st.(movements := after.movements)
    requires Record(after, company, LineRequest(warehouse, l)).Success?
    ensures Movable(st, company, warehouse, l.product, l.variant).Success?
  {
  }

  lemma AllMovableSnoc(st: Store, company: string, warehouse: string, lines: seq<SaleLine>, l: SaleLine)
    requires AllMovable(st, company, warehouse, lines) && Movable(st, company, warehouse, l.product, l.variant).Success?
    ensures AllMovable(st, company, warehouse, lines + [l])
  {
  }

  /** A line whose warehouse, product or variant does not accept movements stops the deduction. */
  lemma {:induction false} DeductNeedsMovable(st: Store, company: string, warehouse: string, lines: seq<SaleLine>)
    requires Deduct(st, company, warehouse, lines).Success?
    ensures AllMovable(st, company, warehouse, lines)
  {
    if lines != [] {
      var n := |lines| - 1;
      var init, l := lines[..n], lines[n];
      assert lines == init + [l];
      DeductNeedsMovable(st, company, warehouse, init);
      DeductTakesDemand(st, company, warehouse, init);
      MovableIgnoresMovements(st, Deduct(st, company, warehouse, init).value, company, warehouse, l);
      AllMovableSnoc(st, company, warehouse, init, l);
    }
  }

  /** The line-by-line deduction gets through all its lines exactly when every line accepts movements
      and, for every bucket, the total over all lines is at most the stock. */
  lemma {:induction false} DeductIffDemandsFit(st: Store, company: string, warehouse: string, lines: seq<SaleLine>)
    ensures Deduct(st, company, warehouse, lines).Success?
       <==> AllMovable(st, company, warehouse, lines) && DemandsFit(st, company, warehouse, lines)
  {
    if Deduct(st, company, warehouse, lines).Success? {
      DeductNeedsMovable(st, company, warehouse, lines);
    }
    if lines != [] && AllMovable(st, company, warehouse, lines) {
      var n := |lines| - 1;
      var init, l := lines[..n], lines[n];
      assert lines == init + [l];
      DeductIffDemandsFit(st, company, warehouse, init);
      FitSplits(st, company, warehouse, init, l);
      if Deduct(st, company, warehouse, init).Success? {
        LastLineFits(st, company, warehouse, init, l);
      }
    }
  }

  function Without(b: seq<SaleLine>, i: nat): seq<SaleLine>
    requires i < |b|
  {
    b[..i] + b[i + 1..]
  }

  lemma DemandWithout(b: seq<SaleLine>, i: nat, product: string, variant: Option<string>)
    requires i < |b|
    ensures Demand(b, product, variant)
         == Demand(Without(b, i), product, variant) + if (b[i].product, b[i].variant) == (product, variant) then b[i].quantity else 0
    ensures multiset(b) == multiset(Without(b, i)) + multiset{b[i]}
  {
    var k := (product, variant);
    assert b == (b[..i] + [b[i]]) + b[i + 1..];
    SumAtConcat(b[..i] + [b[i]], b[i + 1..], LineProduct, LineQuantity, k);
    SumAtSnoc(b[..i], b[i], LineProduct, LineQuantity, k);
    SumAtConcat(b[..i], b[i + 1..], LineProduct, LineQuantity, k);
  }

  lemma {:induction false} DemandPermutes(a: seq<SaleLine>, b: seq<SaleLine>, product: string, variant: Option<string>)
    requires multiset(a) == multiset(b)
    ensures Demand(a, product, variant) == Demand(b, product, variant)
  {
    if a == [] {
      assert |multiset(b)| == |b| == 0;
    } else {
      assert a[0] in multiset(b);
      var i :| 0 <= i < |b| && b[i] == a[0];
      DemandWithout(a, 0, product, variant);
      DemandWithout(b, i, product, variant);
      assert multiset(Without(a, 0)) == multiset(a) - multiset{a[0]};
      assert multiset(Without(b, i)) == multiset(b) - multiset{a[0]};
      DemandPermutes(Without(a, 0), Without(b, i), product, variant);
    }
  }

  /** The order in which the lines are rung up does not matter. */
  lemma OrderOfLinesDoesNotMatter(st: Store, company: string, warehouse: string, a: seq<SaleLine>, b: seq<SaleLine>)
    requires multiset(a) == multiset(b)
    ensures Deduct(st, company, warehouse, a).Success? == Deduct(st, company, warehouse, b).Success?
    ensures Deduct(st, company, warehouse, a).Success? ==>
      forall k :: Stock(Deduct(st, company, warehouse, a).value.movements, k)
               == Stock(Deduct(st, company, warehouse, b).value.movements, k)
  {
    forall l ensures l in a <==> l in b {
      assert l in multiset(a) <==> l in multiset(b);
    }
    forall product, variant {
      DemandPermutes(a, b, product, variant);
    }
    DeductIffDemandsFit(st, company, warehouse, a);
    DeductIffDemandsFit(st, company, warehouse, b);
    if Deduct(st, company, warehouse, a).Success? {
      DeductTakesDemand(st, company, warehouse, a);
      DeductTakesDemand(st, company, warehouse, b);
    }
  }

  // ----- whole sales -----

  lemma {:induction false} ShopWarehouseFinds(warehouses: seq<Warehouse>, company: string, vendor: string)
    ensures ShopWarehouse(warehouses, company, vendor).Some?
       <==> exists w :: w in warehouses && w.company == company && w.vendorShopOf == Some(vendor)
    ensures ShopWarehouse(warehouses, company, vendor).Some? ==>
      var w := ShopWarehouse(warehouses, company, vendor).value;
      w in warehouses && w.company == company && w.vendorShopOf == Some(vendor)
  {
    if warehouses != [] {
      ShopWarehouseFinds(warehouses[1..], company, vendor);
      assert forall w :: w in warehouses <==> w == warehouses[0] || w in warehouses[1..];
    }
  }

  /** Without a vendor a sale draws on the warehouse it names, which has to exist. */
  lemma AdminSaleWarehouse(st: Store, r: SaleRequest)
    requires r.vendor.None?
    ensures SaleWarehouse(st, r).Success?
       <==> r.warehouse.Some? && exists w :: w in st.warehouses && w.company == r.company && w.id == r.warehouse.value
    ensures SaleWarehouse(st, r).Success? ==>
      var (ready, w) := SaleWarehouse(st, r).value;
      ready == st && w in st.warehouses && w.company == r.company && w.id == r.warehouse.value
  {
    if r.warehouse.Some? {
      FindWarehouseFinds(st.warehouses, r.company, r.warehouse.value);
    }
  }

  /** A vendor's sale draws on the vendor's own shop, opened for it if there is none, and may name no
      other warehouse. */
  lemma VendorSaleWarehouse(st: Store, r: SaleRequest)
    requires r.vendor.Some?
    ensures SaleWarehouse(st, r).Success? ==>
      var (ready, w) := SaleWarehouse(st, r).value;
      && w in ready.warehouses && w.company == r.company && w.vendorShopOf == r.vendor
      && (r.warehouse.Some? ==> r.warehouse.value == w.id)
      && (ready == st || (ready == st.(warehouses := st.warehouses + [Warehouse(r.newWarehouse, r.company, true, r.vendor)])
                          && w.id == r.newWarehouse
                          && forall v :: v in st.warehouses ==> v.company != r.company || v.vendorShopOf != r.vendor))
    ensures SaleWarehouse(st, r).Failure? ==>
      && r.warehouse.Some? && SaleWarehouse(st, r.(warehouse := None)).Success?
      && SaleWarehouse(st, r.(warehouse := None)).value.1.id != r.warehouse.value
    ensures r.warehouse.None? ==> SaleWarehouse(st, r).Success?
  {
    ShopWarehouseFinds(st.warehouses, r.company, r.vendor.value);
  }

  /** A new sale succeeds if and only if its warehouse is found and active, a vendor sells only its own
      products, order and payments are accepted, every line accepts movements and the demands fit.
      Then it takes exactly its lines out of that warehouse and adds exactly its order. */
  lemma SaleIffDemandsFit(shop: Shop, r: SaleRequest)
    requires Given(r.key) ==> FindOrder(shop.orders, r.company, r.key).None?
    ensures Sell(shop, r).Success?
       <==> && SaleWarehouse(shop.stock, r).Success?
            && var (st, w) := SaleWarehouse(shop.stock, r).value;
               && w.isActive && r.orderAccepted && r.paymentsAccepted
               && (r.vendor.Some? ==>
                     forall l :: l in r.lines ==> VendorProduct(r.company, r.vendor.value, l.product) in shop.vendorProducts)
               && AllMovable(st, r.company, w.id, r.lines) && DemandsFit(st, r.company, w.id, r.lines)
    ensures Sell(shop, r).Success? ==>
      var (st, w) := SaleWarehouse(shop.stock, r).value;
      && Sell(shop, r).value.1 == |shop.orders|
      && Sell(shop, r).value.0.orders == shop.orders + [Order(r.company, true, if Given(r.key) then r.key else None, r.lines)]
      && Sell(shop, r).value.0.vendorProducts == shop.vendorProducts
      && Deducted(st, Sell(shop, r).value.0.stock, r.company, w.id, r.lines)
  {
    if SaleWarehouse(shop.stock, r).Success? {
      var (st, w) := SaleWarehouse(shop.stock, r).value;
      DeductIffDemandsFit(st, r.company, w.id, r.lines);
      ScopeByLine(shop, r);
      if Sell(shop, r).Success? {
        DeductTakesDemand(st, r.company, w.id, r.lines);
      }
    }
  }

  lemma ScopeByLine(shop: Shop, r: SaleRequest)
    ensures InScope(shop, r)
       <==> (r.vendor.Some? ==>
               forall l :: l in r.lines ==> VendorProduct(r.company, r.vendor.value, l.product) in shop.vendorProducts)
  {
    if r.vendor.Some? && InScope(shop, r) {
      forall l | l in r.lines ensures VendorProduct(r.company, r.vendor.value, l.product) in shop.vendorProducts {
        var i :| 0 <= i < |r.lines| && r.lines[i] == l;
      }
    }
  }

  // ----- runs -----

  datatype Op =
    | Sale(request: SaleRequest)
    | Move(company: string, movement: Request)
    | Edit(warehouses: seq<Warehouse>, products: map<string, Product>, variants: map<string, Variant>,
           vendorProducts: set<VendorProduct>)
    | OtherOrder(order: Order)

  /** One request. Catalog and warehouse edits are arbitrary; orders from other channels carry no
      POS source. */
  function Step(shop: Shop, op: Op): Shop {
    match op
    case Sale(r) => if Sell(shop, r).Success? then Sell(shop, r).value.0 else shop
    case Move(company, m) =>
      var after := Record(shop.stock, company, m);
      if after.Success? then shop.(stock := after.value) else shop
    case Edit(ws, ps, vs, vps) =>
      shop.(stock := shop.stock.(warehouses := ws, products := ps, variants := vs), vendorProducts := vps)
    case OtherOrder(o) => shop.(orders := shop.orders + [o.(isPos := false)])
  }

  function Run(shop: Shop, ops: seq<Op>): Shop {
    if ops == [] then shop else Step(Run(shop, ops[..|ops| - 1]), ops[|ops| - 1])
  }

  /** A step is its request where that succeeds, and nothing where it fails; edits and other channels'
      orders go in as they are. */
  lemma StepIsItsRequest(shop: Shop, op: Op)
    ensures op.Sale? ==> Step(shop, op) == if Sell(shop, op.request).Success? then Sell(shop, op.request).value.0 else shop
    ensures op.Move? ==>
      var moved := Record(shop.stock, op.company, op.movement);
      Step(shop, op) == Shop(if moved.Success? then moved.value else shop.stock, shop.orders, shop.vendorProducts)
    ensures op.Edit? ==>
      Step(shop, op) == Shop(Store(shop.stock.movements, op.warehouses, op.products, op.variants), shop.orders, op.vendorProducts)
    ensures op.OtherOrder? ==>
      Step(shop, op) == Shop(shop.stock, shop.orders + [Order(op.order.company, false, op.order.key, op.order.lines)], shop.vendorProducts)
  {
  }

  const EMPTY_SHOP := Shop(Store([], [], map[], map[]), [], {})

  ghost predicate KeysUnique(orders: seq<Order>) {
    forall i, j :: 0 <= i < j < |orders| && orders[i].isPos && Given(orders[i].key) ==>
      !Matches(orders[j], orders[i].company, orders[i].key)
  }

  lemma {:induction false} DeductKeepsNonNegative(st: Store, company: string, warehouse: string, lines: seq<SaleLine>)
    requires NeverNegative(st.movements)
    requires Deduct(st, company, warehouse, lines).Success?
    ensures NeverNegative(Deduct(st, company, warehouse, lines).value.movements)
  {
    if lines != [] {
      var n := |lines| - 1;
      DeductKeepsNonNegative(st, company, warehouse, lines[..n]);
      RecordKeepsNonNegative(Deduct(st, company, warehouse, lines[..n]).value, company, LineRequest(warehouse, lines[n]));
    }
  }

  lemma SellKeeps(shop: Shop, r: SaleRequest)
    requires Sell(shop, r).Success?
    requires NeverNegative(shop.stock.movements) && KeysUnique(shop.orders)
    ensures NeverNegative(Sell(shop, r).value.0.stock.movements) && KeysUnique(Sell(shop, r).value.0.orders)
    ensures shop.orders <= Sell(shop, r).value.0.orders
  {
    if !(Given(r.key) && FindOrder(shop.orders, r.company, r.key).Some?) {
      var (st, w) := SaleWarehouse(shop.stock, r).value;
      DeductKeepsNonNegative(st, r.company, w.id, r.lines);
      var after := Sell(shop, r).value.0.orders;
      forall i, j | 0 <= i < j < |after| && after[i].isPos && Given(after[i].key)
        ensures !Matches(after[j], after[i].company, after[i].key)
      {
        if j == |shop.orders| && Given(r.key) {
          assert shop.orders[i] in shop.orders;
        }
      }
    }
  }

  lemma StepKeeps(shop: Shop, op: Op)
    requires NeverNegative(shop.stock.movements) && KeysUnique(shop.orders)
    ensures NeverNegative(Step(shop, op).stock.movements) && KeysUnique(Step(shop, op).orders)
    ensures shop.orders <= Step(shop, op).orders
  {
    match op
    case Sale(r) =>
      if Sell(shop, r).Success? {
        SellKeeps(shop, r);
      }
    case Move(company, m) =>
      if Record(shop.stock, company, m).Success? {
        RecordKeepsNonNegative(shop.stock, company, m);
        RecordAppends(shop.stock, company, m);
      }
    case Edit(_, _, _, _) =>
    case OtherOrder(_) =>
  }

  lemma {:induction false} RunKeeps(shop: Shop, ops: seq<Op>)
    requires NeverNegative(shop.stock.movements) && KeysUnique(shop.orders)
    ensures NeverNegative(Run(shop, ops).stock.movements) && KeysUnique(Run(shop, ops).orders)
    ensures shop.orders <= Run(shop, ops).orders
  {
    if ops != [] {
      RunKeeps(shop, ops[..|ops| - 1]);
      StepKeeps(Run(shop, ops[..|ops| - 1]), ops[|ops| - 1]);
    }
  }

  /** In every reachable shop no bucket was ever negative, and no two POS orders of a company share
      a non-empty idempotency key. */
  lemma ReachableShop(ops: seq<Op>)
    ensures NeverNegative(Run(EMPTY_SHOP, ops).stock.movements) && KeysUnique(Run(EMPTY_SHOP, ops).orders)
  {
    assert NeverNegative(EMPTY_SHOP.stock.movements);
    RunKeeps(EMPTY_SHOP, ops);
  }

  /** Retry safety: once a sale with a non-empty key has gone through, repeating the key after any
      run returns the same order and deducts nothing more, whatever the repeated request carries. */
  lemma RetryDeductsNothing(shop: Shop, r: SaleRequest, between: seq<Op>, again: SaleRequest)
    requires NeverNegative(shop.stock.movements) && KeysUnique(shop.orders)
    requires Given(r.key) && Sell(shop, r).Success?
    requires again.company == r.company && again.key == r.key
    ensures var (after, order) := Sell(shop, r).value;
      Sell(Run(after, between), again) == Success((Run(after, between), order))
  {
    var (after, order) := Sell(shop, r).value;
    SellKeeps(shop, r);
    RunKeeps(after, between);
    var later := Run(after, between);
    assert Matches(later.orders[order], r.company, r.key);
    var found := FindOrder(later.orders, r.company, r.key);
    assert found.Some? by {
      assert later.orders[order] in later.orders;
    }
    assert later.orders[found.value].isPos && Given(later.orders[found.value].key);
  }
}
