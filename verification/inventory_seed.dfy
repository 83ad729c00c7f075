/** `seed_inventory_data`: fills an inventory store that has no products with
    the demonstration catalogue, the initial stock, one received purchase
    order and one shipped sales order, inside one transaction. */
module InventorySeed {
  import opened Common
  import opened Inventory

  /** One entry of the product catalogue; prices are in cents. */
  datatype ProductSeed = ProductSeed(sku: string, name: string, category: string, supplier: string, priceCents: int)

  /** One order line: SKU, quantity and unit price or cost in cents. */
  datatype OrderLine = OrderLine(sku: string, quantity: nat, priceCents: int)

  datatype OrderKind = Purchase | Sale

  /** The data the seeding writes: the reference rows, the product catalogue,
      the warehouse that receives all stock, the supplier of the purchase
      order, the customer of the sales order, and both orders' lines. */
  datatype Catalogue = Catalogue(
    categories: seq<(string, Option<string>)>,
    suppliers: seq<(string, Option<string>)>,
    warehouses: seq<(string, Option<string>)>,
    products: seq<ProductSeed>,
    central: string,
    purchaseSupplier: string,
    customer: string,
    purchaseLines: seq<OrderLine>,
    salesLines: seq<OrderLine>)

  const Categories: seq<(string, Option<string>)> := [
    ("Electronics", Some("Electronic devices and accessories")),
    ("Office Supplies", Some("Daily office consumables")),
    ("Furniture", Some("Office and warehouse furniture")),
    ("Grocery", Some("Food and beverages")),
    ("Apparel", Some("Clothing and uniforms"))]

  const Suppliers: seq<(string, Option<string>)> := [
    ("ACME Corp", Some("sales@acme.example")),
    ("Globex", Some("hello@globex.example")),
    ("Initech", Some("contact@initech.example"))]

  const Warehouses: seq<(string, Option<string>)> := [
    ("Central Warehouse", Some("HQ")),
    ("East Warehouse", Some("East City")),
    ("West Warehouse", Some("West City"))]

  const ProductsData: seq<ProductSeed> := [
    ProductSeed("ELEC-001", "USB-C Cable", "Electronics", "ACME Corp", 999),
    ProductSeed("ELEC-002", "Wireless Mouse", "Electronics", "Globex", 1999),
    ProductSeed("ELEC-003", "27in Monitor", "Electronics", "Initech", 19999),
    ProductSeed("OFF-001", "A4 Paper Ream", "Office Supplies", "ACME Corp", 450),
    ProductSeed("OFF-002", "Ballpoint Pens (10)", "Office Supplies", "Globex", 320),
    ProductSeed("FURN-001", "Office Chair", "Furniture", "Initech", 12999),
    ProductSeed("FURN-002", "Standing Desk", "Furniture", "Globex", 28900),
    ProductSeed("GROC-001", "Bottled Water (24)", "Grocery", "ACME Corp", 699),
    ProductSeed("GROC-002", "Coffee Beans 1kg", "Grocery", "Globex", 1275),
    ProductSeed("APP-001", "High-Vis Jacket", "Apparel", "Initech", 2490),
    ProductSeed("APP-002", "Work Gloves", "Apparel", "ACME Corp", 780),
    ProductSeed("APP-003", "Steel-Toe Boots", "Apparel", "Globex", 5900)]

  const PurchaseLines: seq<OrderLine> := [
    OrderLine("ELEC-001", 40, 750),
    OrderLine("OFF-001", 100, 320),
    OrderLine("APP-002", 60, 500)]

  const SalesLines: seq<OrderLine> := [
    OrderLine("ELEC-002", 5, 2499),
    OrderLine("FURN-001", 2, 15999),
    OrderLine("GROC-001", 10, 850)]

  /** The catalogue `seed_inventory_data` writes. */
  const Demo := Catalogue(Categories, Suppliers, Warehouses, ProductsData, "Central Warehouse", "ACME Corp",
                          "Demo Customer", PurchaseLines, SalesLines)

  const InitialQuantity := 50
  const ReorderLevel := 10
  const KeyError := "KeyError"
  const NoResultFound := "NoResultFound"
  const MultipleResultsFound := "MultipleResultsFound"

  // ---------------------------------------------------------------- reference rows

  /** Every name in the dictionary points at a row of that name. */
  predicate IdsPointAtNames(byName: map<string, nat>, t: seq<Row>) {
    forall k :: k in byName ==> 1 <= byName[k] <= |t| && t[byName[k] - 1].name == k
  }

  /** The get-or-create loop over one reference table, recording each id in a
      dictionary by name. */
  function EnsureRows(t: seq<Row>, items: seq<(string, Option<string>)>, byName: map<string, nat>): (r: (map<string, nat>, seq<Row>))
    ensures byName.Keys <= r.0.Keys
    ensures forall i :: 0 <= i < |items| ==> items[i].0 in r.0
    ensures |t| <= |r.1| && r.1[..|t|] == t
    decreases |items|
  {
    if |items| == 0 then (byName, t)
    else
      var step := GetOrCreate(t, items[0].0, items[0].1);
      var r := EnsureRows(step.1, items[1..], byName[items[0].0 := step.0]);
      assert forall i :: 1 <= i < |items| ==> items[i] == items[1..][i - 1];
      assert r.1[..|t|] == r.1[..|step.1|][..|t|];
      r
  }

  /** The recorded ids point at rows of the right name, and no name is
      created twice. */
  lemma {:induction false} EnsureRowsConsistent(t: seq<Row>, items: seq<(string, Option<string>)>, byName: map<string, nat>)
    requires IdsPointAtNames(byName, t) && UniqueNames(t)
    ensures IdsPointAtNames(EnsureRows(t, items, byName).0, EnsureRows(t, items, byName).1)
    ensures UniqueNames(EnsureRows(t, items, byName).1)
    decreases |items|
  {
    if |items| > 0 {
      var step := GetOrCreate(t, items[0].0, items[0].1);
      GetOrCreateKeepsNamesUnique(t, items[0].0, items[0].1);
      var byName' := byName[items[0].0 := step.0];
      forall k | k in byName' ensures 1 <= byName'[k] <= |step.1| && step.1[byName'[k] - 1].name == k {
        if k != items[0].0 {
          assert step.1[..|t|] == t;
          assert step.1[byName[k] - 1] == t[byName[k] - 1];
        }
      }
      EnsureRowsConsistent(step.1, items[1..], byName');
    }
  }

  // ---------------------------------------------------------------- products

  /** The catalogue loop: each entry's category and supplier are looked up by
      name (a missing one raises `KeyError`) and the product is appended. */
  function CreateProducts(ps: seq<Product>, data: seq<ProductSeed>, cats: map<string, nat>, sups: map<string, nat>): (r: Result<seq<Product>>)
    ensures r.Ok? <==> forall i :: 0 <= i < |data| ==> data[i].category in cats && data[i].supplier in sups
    ensures r.Ok? ==> |r.value| == |ps| + |data| && r.value[..|ps|] == ps
    ensures r.Ok? ==> forall i :: 0 <= i < |data| ==> r.value[|ps| + i].sku == data[i].sku
    decreases |data|
  {
    if |data| == 0 then Ok(ps)
    else
      var p := data[0];
      if p.category !in cats || p.supplier !in sups then Err(KeyError)
      else
        var r := CreateProducts(ps + [Product(p.sku, p.name, cats[p.category], sups[p.supplier], p.priceCents, ReorderLevel)], data[1..], cats, sups);
        assert forall i :: 1 <= i < |data| ==> data[i] == data[1..][i - 1];
        assert r.Ok? ==> r.value[..|ps|] == r.value[..|ps| + 1][..|ps|];
        r
  }

  /** The number of products carrying a SKU. */
  function CountSku(ps: seq<Product>, sku: string): nat {
    if |ps| == 0 then 0 else (if ps[0].sku == sku then 1 else 0) + CountSku(ps[1..], sku)
  }

  /** The position of the first product carrying a SKU. */
  function FindSku(ps: seq<Product>, sku: string): (r: Option<nat>)
    ensures r.Some? ==> r.value < |ps| && ps[r.value].sku == sku
    ensures r.Some? ==> forall j :: 0 <= j < r.value ==> ps[j].sku != sku
    ensures r.None? ==> forall j :: 0 <= j < |ps| ==> ps[j].sku != sku
  {
    if |ps| == 0 then None
    else if ps[0].sku == sku then Some(0)
    else match FindSku(ps[1..], sku)
      case None => None
      case Some(i) => Some(i + 1)
  }

  /** `select(Product).where(Product.sku == sku).one()`: the id of the only
      product with that SKU; none or several raise. */
  function FindOne(ps: seq<Product>, sku: string): (r: Result<nat>)
    ensures r.Ok? ==> 1 <= r.value <= |ps| && ps[r.value - 1].sku == sku
    ensures r.Ok? <==> CountSku(ps, sku) == 1
  {
    var n := CountSku(ps, sku);
    if n == 0 then Err(NoResultFound)
    else if n > 1 then Err(MultipleResultsFound)
    else
      CountPositiveFinds(ps, sku);
      Ok(FindSku(ps, sku).value + 1)
  }

  lemma {:induction false} CountPositiveFinds(ps: seq<Product>, sku: string)
    requires CountSku(ps, sku) > 0
    ensures FindSku(ps, sku).Some?
  {
    if ps[0].sku != sku {
      CountPositiveFinds(ps[1..], sku);
    }
  }

  predicate UniqueSkus(ps: seq<Product>) {
    forall i, j :: 0 <= i < j < |ps| ==> ps[i].sku != ps[j].sku
  }

  /** With unique SKUs, `.one()` finds the product at its position. */
  lemma {:induction false} FindOneUnique(ps: seq<Product>, k: nat)
    requires UniqueSkus(ps) && k < |ps|
    ensures FindOne(ps, ps[k].sku) == Ok(k + 1)
    decreases |ps|
  {
    CountUnique(ps, k);
    var f := FindSku(ps, ps[k].sku);
    assert f.Some? && f.value <= k;
  }

  lemma {:induction false} CountUnique(ps: seq<Product>, k: nat)
    requires UniqueSkus(ps) && k < |ps|
    ensures CountSku(ps, ps[k].sku) == 1
    decreases |ps|
  {
    var tail := ps[1..];
    assert forall j :: 0 <= j < |tail| ==> tail[j] == ps[j + 1];
    if k == 0 {
      CountAbsent(tail, ps[0].sku);
    } else {
      CountUnique(tail, k - 1);
    }
  }

  lemma {:induction false} CountAbsent(ps: seq<Product>, sku: string)
    requires forall j :: 0 <= j < |ps| ==> ps[j].sku != sku
    ensures CountSku(ps, sku) == 0
    decreases |ps|
  {
    if |ps| > 0 {
      CountAbsent(ps[1..], sku);
    }
  }

  // ---------------------------------------------------------------- stock

  /** The initial-stock loop: every product from position `i` on gets
      `InitialQuantity` in the given warehouse. */
  function StockFrom(db: Db, i: nat, warehouseId: nat): (r: Db)
    requires i <= |db.products|
    ensures r.products == db.products
    ensures r.warehouses == db.warehouses
    ensures |r.movements| == |db.movements| + |db.products| - i
    decreases |db.products| - i
  {
    if i == |db.products| then db
    else StockFrom(AdjustStock(db, i + 1, warehouseId, InitialQuantity, "Initial stock", Some("INITIAL"), None), i + 1, warehouseId)
  }

  /** Each product from position `i` on gains `InitialQuantity` in the
      warehouse; every other pair keeps its quantity. */
  lemma {:induction false} StockFromLevels(db: Db, i: nat, warehouseId: nat)
    requires i <= |db.products|
    ensures var r := StockFrom(db, i, warehouseId);
            forall key: (nat, nat) :: Quantity(r, key) == Quantity(db, key)
                            + (if key.1 == warehouseId && i < key.0 <= |db.products| then InitialQuantity else 0)
    decreases |db.products| - i
  {
    if i < |db.products| {
      var db' := AdjustStock(db, i + 1, warehouseId, InitialQuantity, "Initial stock", Some("INITIAL"), None);
      StockFromLevels(db', i + 1, warehouseId);
    }
  }

  lemma {:induction false} StockFromKeepsBalanced(db: Db, i: nat, warehouseId: nat)
    requires i <= |db.products| && Balanced(db)
    ensures Balanced(StockFrom(db, i, warehouseId))
    decreases |db.products| - i
  {
    if i < |db.products| {
      AdjustStockKeepsBalanced(db, i + 1, warehouseId, InitialQuantity, "Initial stock", Some("INITIAL"), None);
      StockFromLevels(db, i, warehouseId);
      StockFromKeepsBalanced(AdjustStock(db, i + 1, warehouseId, InitialQuantity, "Initial stock", Some("INITIAL"), None), i + 1, warehouseId);
    }
  }

  // ---------------------------------------------------------------- orders

  function Reason(kind: OrderKind): string {
    match kind
    case Purchase => "PO received"
    case Sale => "SO shipped"
  }

  function RefType(kind: OrderKind): string {
    match kind
    case Purchase => "PURCHASE"
    case Sale => "SALE"
  }

  /** The signed stock change of one line: a purchase adds, a sale removes. */
  function Signed(kind: OrderKind, quantity: nat): int {
    match kind
    case Purchase => quantity as int
    case Sale => -(quantity as int)
  }

  /** The order-line loop: each line's product is fetched with `.one()`, the
      line is recorded, and the stock moves by the signed quantity. */
  function Fulfil(db: Db, lines: seq<OrderLine>, warehouseId: nat, kind: OrderKind, orderId: nat): (r: Result<Db>)
    ensures r.Ok? ==> r.value.products == db.products && r.value.warehouses == db.warehouses
    ensures r.Ok? ==> |r.value.movements| == |db.movements| + |lines|
    ensures r.Ok? <==> forall i :: 0 <= i < |lines| ==> CountSku(db.products, lines[i].sku) == 1
    decreases |lines|
  {
    if |lines| == 0 then Ok(db)
    else
      var line := lines[0];
      assert forall i :: 1 <= i < |lines| ==> lines[i] == lines[1..][i - 1];
      match FindOne(db.products, line.sku)
      case Err(e) => Err(e)
      case Ok(productId) =>
        var item := OrderItem(orderId, productId, line.quantity, line.priceCents);
        var db1 := match kind
          case Purchase => db.(purchaseItems := db.purchaseItems + [item])
          case Sale => db.(salesItems := db.salesItems + [item]);
        var db2 := AdjustStock(db1, productId, warehouseId, Signed(kind, line.quantity), Reason(kind), Some(RefType(kind)), Some(orderId));
        Fulfil(db2, lines[1..], warehouseId, kind, orderId)
  }

  lemma {:induction false} FulfilKeepsBalanced(db: Db, lines: seq<OrderLine>, warehouseId: nat, kind: OrderKind, orderId: nat)
    requires Balanced(db) && Fulfil(db, lines, warehouseId, kind, orderId).Ok?
    ensures Balanced(Fulfil(db, lines, warehouseId, kind, orderId).value)
    decreases |lines|
  {
    if |lines| > 0 {
      var line := lines[0];
      var productId := FindOne(db.products, line.sku).value;
      var item := OrderItem(orderId, productId, line.quantity, line.priceCents);
      var db1 := match kind
        case Purchase => db.(purchaseItems := db.purchaseItems + [item])
        case Sale => db.(salesItems := db.salesItems + [item]);
      assert Balanced(db1) by {
        forall key ensures Quantity(db1, key) == Ledger(db1.movements, key) {
          assert Quantity(db1, key) == Quantity(db, key);
        }
      }
      AdjustStockKeepsBalanced(db1, productId, warehouseId, Signed(kind, line.quantity), Reason(kind), Some(RefType(kind)), Some(orderId));
      FulfilKeepsBalanced(AdjustStock(db1, productId, warehouseId, Signed(kind, line.quantity), Reason(kind), Some(RefType(kind)), Some(orderId)),
                          lines[1..], warehouseId, kind, orderId);
    }
  }

  /** The quantity change the order lines make to one (product, warehouse)
      pair: the signed quantities of the lines whose SKU `.one()` resolves to
      that product. */
  function LineTotal(ps: seq<Product>, lines: seq<OrderLine>, warehouseId: nat, kind: OrderKind, key: (nat, nat)): int
    decreases |lines|
  {
    if |lines| == 0 then 0
    else
      (match FindOne(ps, lines[0].sku)
       case Ok(productId) => if (productId, warehouseId) == key then Signed(kind, lines[0].quantity) else 0
       case Err(_) => 0)
      + LineTotal(ps, lines[1..], warehouseId, kind, key)
  }

  /** Fulfilling the lines moves each pair's quantity by exactly its lines'
      signed total. */
  lemma {:induction false} FulfilQuantities(db: Db, lines: seq<OrderLine>, warehouseId: nat, kind: OrderKind, orderId: nat, key: (nat, nat))
    requires Fulfil(db, lines, warehouseId, kind, orderId).Ok?
    ensures Quantity(Fulfil(db, lines, warehouseId, kind, orderId).value, key)
            == Quantity(db, key) + LineTotal(db.products, lines, warehouseId, kind, key)
    decreases |lines|
  {
    if |lines| > 0 {
      var line := lines[0];
      var productId := FindOne(db.products, line.sku).value;
      var item := OrderItem(orderId, productId, line.quantity, line.priceCents);
      var db1 := match kind
        case Purchase => db.(purchaseItems := db.purchaseItems + [item])
        case Sale => db.(salesItems := db.salesItems + [item]);
      var db2 := AdjustStock(db1, productId, warehouseId, Signed(kind, line.quantity), Reason(kind), Some(RefType(kind)), Some(orderId));
      assert Quantity(db1, key) == Quantity(db, key);
      FulfilQuantities(db2, lines[1..], warehouseId, kind, orderId, key);
    }
  }

  // ---------------------------------------------------------------- seeding

  /** The reference tables after the get-or-create loops, with the three
      name-to-id dictionaries. */
  datatype References = References(db: Db, categoryIds: map<string, nat>, supplierIds: map<string, nat>, warehouseIds: map<string, nat>)

  function EnsureReferences(db: Db, cat: Catalogue): (r: References)
    ensures r.db.products == db.products && r.db.levels == db.levels && r.db.movements == db.movements
    ensures forall i :: 0 <= i < |cat.categories| ==> cat.categories[i].0 in r.categoryIds
    ensures forall i :: 0 <= i < |cat.suppliers| ==> cat.suppliers[i].0 in r.supplierIds
    ensures forall i :: 0 <= i < |cat.warehouses| ==> cat.warehouses[i].0 in r.warehouseIds
  {
    var cats := EnsureRows(db.categories, cat.categories, map[]);
    var sups := EnsureRows(db.suppliers, cat.suppliers, map[]);
    var whs := EnsureRows(db.warehouses, cat.warehouses, map[]);
    References(db.(categories := cats.1, suppliers := sups.1, warehouses := whs.1), cats.0, sups.0, whs.0)
  }

  /** The purchase order, received, and the sales order, shipped. */
  function SeedOrders(db: Db, cat: Catalogue, central: nat, supplierId: nat): (r: Result<Db>)
    ensures r.Ok? ==> r.value.products == db.products && r.value.warehouses == db.warehouses
    ensures r.Ok? ==> |r.value.movements| == |db.movements| + |cat.purchaseLines| + |cat.salesLines|
  {
    var db1 := db.(purchaseOrders := db.purchaseOrders + [PurchaseOrder(supplierId, "RECEIVED")]);
    match Fulfil(db1, cat.purchaseLines, central, Purchase, |db1.purchaseOrders|)
    case Err(e) => Err(e)
    case Ok(db2) =>
      var db3 := db2.(salesOrders := db2.salesOrders + [SalesOrder(cat.customer, "SHIPPED")]);
      Fulfil(db3, cat.salesLines, central, Sale, |db3.salesOrders|)
  }

  /** The body of the transaction; `Err` is the exception that aborts it. */
  function SeedAll(db: Db, cat: Catalogue): (r: Result<Db>)
    ensures r.Ok? ==> |r.value.products| == |db.products| + |cat.products|
    ensures r.Ok? ==> |r.value.movements| == |db.movements| + |cat.products| + |cat.purchaseLines| + |cat.salesLines|
  {
    var refs := EnsureReferences(db, cat);
    match CreateProducts(db.products, cat.products, refs.categoryIds, refs.supplierIds)
    case Err(e) => Err(e)
    case Ok(ps) =>
      if cat.central !in refs.warehouseIds then Err(KeyError)
      else
        var central := refs.warehouseIds[cat.central];
        var stocked := StockFrom(refs.db.(products := ps), |db.products|, central);
        if cat.purchaseSupplier !in refs.supplierIds then Err(KeyError)
        else SeedOrders(stocked, cat, central, refs.supplierIds[cat.purchaseSupplier])
  }

  /** `seed_inventory_data` (with `Demo` as the catalogue): a no-op when any
      product exists; otherwise the whole transaction commits, or on an
      exception everything is rolled back and the exception is raised again. */
  function SeedInventory(db: Db, cat: Catalogue): (r: (Db, Option<string>))
    ensures |db.products| > 0 ==> r == (db, None)
    ensures r.1.Some? ==> r.0 == db
    ensures |db.products| == 0 && r.1.None? ==> SeedAll(db, cat).Ok? && r.0 == SeedAll(db, cat).value
  {
    if |db.products| > 0 then (db, None)
    else match SeedAll(db, cat)
      case Ok(db') => (db', None)
      case Err(e) => (db, Some(e))
  }

  /** Seeding is safe to repeat: once it has committed a non-empty catalogue,
      a second call finds products and changes nothing. */
  lemma SeedIdempotent(db: Db, cat: Catalogue)
    requires SeedInventory(db, cat).1.None? && |cat.products| > 0
    ensures var once := SeedInventory(db, cat).0;
            SeedInventory(once, cat) == (once, None)
  {
  }

  /** Seeding keeps every pair's quantity equal to the sum of its logged
      deltas. */
  lemma SeedKeepsBalanced(db: Db, cat: Catalogue)
    requires Balanced(db)
    ensures Balanced(SeedInventory(db, cat).0)
  {
    if |db.products| == 0 && SeedAll(db, cat).Ok? {
      var refs := EnsureReferences(db, cat);
      var ps := CreateProducts(db.products, cat.products, refs.categoryIds, refs.supplierIds).value;
      var central := refs.warehouseIds[cat.central];
      var db1 := refs.db.(products := ps);
      assert Balanced(db1) by {
        forall key ensures Quantity(db1, key) == Ledger(db1.movements, key) {
          assert Quantity(db1, key) == Quantity(db, key);
        }
      }
      StockFromKeepsBalanced(db1, |db.products|, central);
      SeedOrdersKeepsBalanced(StockFrom(db1, |db.products|, central), cat, central, refs.supplierIds[cat.purchaseSupplier]);
    }
  }

  lemma SeedOrdersKeepsBalanced(db: Db, cat: Catalogue, central: nat, supplierId: nat)
    requires Balanced(db) && SeedOrders(db, cat, central, supplierId).Ok?
    ensures Balanced(SeedOrders(db, cat, central, supplierId).value)
  {
    var db1 := db.(purchaseOrders := db.purchaseOrders + [PurchaseOrder(supplierId, "RECEIVED")]);
    assert Balanced(db1) by {
      forall key ensures Quantity(db1, key) == Ledger(db1.movements, key) {
        assert Quantity(db1, key) == Quantity(db, key);
      }
    }
    FulfilKeepsBalanced(db1, cat.purchaseLines, central, Purchase, |db1.purchaseOrders|);
    var db2 := Fulfil(db1, cat.purchaseLines, central, Purchase, |db1.purchaseOrders|).value;
    var db3 := db2.(salesOrders := db2.salesOrders + [SalesOrder(cat.customer, "SHIPPED")]);
    assert Balanced(db3) by {
      forall key ensures Quantity(db3, key) == Ledger(db3.movements, key) {
        assert Quantity(db3, key) == Quantity(db2, key);
      }
    }
    FulfilKeepsBalanced(db3, cat.salesLines, central, Sale, |db3.salesOrders|);
  }

  // ---------------------------------------------------------------- the committed result

  /** Whether a reference list names a row. */
  function Listed(items: seq<(string, Option<string>)>, name: string): bool {
    |items| > 0 && (items[0].0 == name || Listed(items[1..], name))
  }

  lemma {:induction false} ListedAt(items: seq<(string, Option<string>)>, name: string) returns (j: nat)
    requires Listed(items, name)
    ensures j < |items| && items[j].0 == name
  {
    if items[0].0 == name {
      j := 0;
    } else {
      j := ListedAt(items[1..], name);
      j := j + 1;
    }
  }

  /** A listed name is in any dictionary holding every listed name. */
  lemma ListedIn(items: seq<(string, Option<string>)>, name: string, byName: map<string, nat>)
    requires Listed(items, name) && forall i :: 0 <= i < |items| ==> items[i].0 in byName
    ensures name in byName
  {
    var j := ListedAt(items, name);
  }

  /** Whether the catalogue has a product with that SKU. */
  function Catalogued(data: seq<ProductSeed>, sku: string): bool {
    |data| > 0 && (data[0].sku == sku || Catalogued(data[1..], sku))
  }

  lemma {:induction false} CataloguedAt(data: seq<ProductSeed>, sku: string) returns (k: nat)
    requires Catalogued(data, sku)
    ensures k < |data| && data[k].sku == sku
  {
    if data[0].sku == sku {
      k := 0;
    } else {
      k := CataloguedAt(data[1..], sku);
      k := k + 1;
    }
  }

  predicate SkusDistinct(data: seq<ProductSeed>) {
    forall i, j :: 0 <= i < j < |data| ==> data[i].sku != data[j].sku
  }

  /** A catalogue under which no lookup of the seeding can raise: every name a
      product or order refers to is listed, and every ordered SKU belongs to
      exactly one catalogue entry. */
  predicate Consistent(cat: Catalogue) {
    && SkusDistinct(cat.products)
    && (forall i :: 0 <= i < |cat.products| ==> Listed(cat.categories, cat.products[i].category))
    && (forall i :: 0 <= i < |cat.products| ==> Listed(cat.suppliers, cat.products[i].supplier))
    && Listed(cat.warehouses, cat.central)
    && Listed(cat.suppliers, cat.purchaseSupplier)
    && (forall i :: 0 <= i < |cat.purchaseLines| ==> Catalogued(cat.products, cat.purchaseLines[i].sku))
    && (forall i :: 0 <= i < |cat.salesLines| ==> Catalogued(cat.products, cat.salesLines[i].sku))
  }

  /** The products created from a catalogue with distinct SKUs carry distinct
      SKUs, the catalogue's, in order. */
  lemma CreatedSkus(data: seq<ProductSeed>, cats: map<string, nat>, sups: map<string, nat>)
    requires SkusDistinct(data) && CreateProducts([], data, cats, sups).Ok?
    ensures var ps := CreateProducts([], data, cats, sups).value;
            UniqueSkus(ps) && forall k :: 0 <= k < |data| ==> ps[k].sku == data[k].sku
  {
    var ps := CreateProducts([], data, cats, sups).value;
    forall k | 0 <= k < |data| ensures ps[k].sku == data[k].sku {
      var none: seq<Product> := [];
      assert ps[|none| + k].sku == data[k].sku;
    }
  }

  /** A catalogued SKU resolves to exactly one product. */
  lemma CataloguedResolves(data: seq<ProductSeed>, ps: seq<Product>, sku: string)
    requires UniqueSkus(ps) && |ps| == |data| && (forall k :: 0 <= k < |data| ==> ps[k].sku == data[k].sku)
    requires Catalogued(data, sku)
    ensures CountSku(ps, sku) == 1
  {
    var k := CataloguedAt(data, sku);
    CountUnique(ps, k);
  }

  /** Every ordered SKU resolves to exactly one product. */
  lemma {:induction false} OrderedSkusResolve(data: seq<ProductSeed>, ps: seq<Product>, lines: seq<OrderLine>)
    requires UniqueSkus(ps) && |ps| == |data| && (forall k :: 0 <= k < |data| ==> ps[k].sku == data[k].sku)
    requires forall i :: 0 <= i < |lines| ==> Catalogued(data, lines[i].sku)
    ensures forall i :: 0 <= i < |lines| ==> CountSku(ps, lines[i].sku) == 1
    decreases |lines|
  {
    if |lines| > 0 {
      CataloguedResolves(data, ps, lines[0].sku);
      assert forall i :: 1 <= i < |lines| ==> lines[i] == lines[1..][i - 1];
      OrderedSkusResolve(data, ps, lines[1..]);
    }
  }

  /** Seeding an empty store with a consistent catalogue raises nothing, so
      the transaction commits. */
  lemma SeedAllCommits(db: Db, cat: Catalogue)
    requires db.products == [] && Consistent(cat)
    ensures SeedAll(db, cat).Ok?
  {
    var refs := EnsureReferences(db, cat);
    forall i | 0 <= i < |cat.products|
      ensures cat.products[i].category in refs.categoryIds && cat.products[i].supplier in refs.supplierIds
    {
      ListedIn(cat.categories, cat.products[i].category, refs.categoryIds);
      ListedIn(cat.suppliers, cat.products[i].supplier, refs.supplierIds);
    }
    ListedIn(cat.warehouses, cat.central, refs.warehouseIds);
    ListedIn(cat.suppliers, cat.purchaseSupplier, refs.supplierIds);
    var ps := CreateProducts(db.products, cat.products, refs.categoryIds, refs.supplierIds).value;
    CreatedSkus(cat.products, refs.categoryIds, refs.supplierIds);
    assert cat.central in refs.warehouseIds;
    assert cat.purchaseSupplier in refs.supplierIds;
    var central := refs.warehouseIds[cat.central];
    var stocked := StockFrom(refs.db.(products := ps), |db.products|, central);
    OrderedSkusResolve(cat.products, ps, cat.purchaseLines);
    OrderedSkusResolve(cat.products, ps, cat.salesLines);
    var supplierId := refs.supplierIds[cat.purchaseSupplier];
    var db1 := stocked.(purchaseOrders := stocked.purchaseOrders + [PurchaseOrder(supplierId, "RECEIVED")]);
    assert Fulfil(db1, cat.purchaseLines, central, Purchase, |db1.purchaseOrders|).Ok?;
  }

  /** The total quantity of the lines for one SKU. */
  function LineSum(lines: seq<OrderLine>, sku: string): nat
    decreases |lines|
  {
    if |lines| == 0 then 0
    else (if lines[0].sku == sku then lines[0].quantity else 0) + LineSum(lines[1..], sku)
  }

  /** With unique SKUs, the lines move a product's quantity in the order's
      warehouse by its lines' total, signed by the kind of order. */
  lemma {:induction false} LineTotalIsSum(ps: seq<Product>, lines: seq<OrderLine>, warehouseId: nat, kind: OrderKind, k: nat)
    requires UniqueSkus(ps) && k < |ps|
    ensures LineTotal(ps, lines, warehouseId, kind, (k + 1, warehouseId)) == Signed(kind, LineSum(lines, ps[k].sku))
    decreases |lines|
  {
    if |lines| > 0 {
      LineTotalIsSum(ps, lines[1..], warehouseId, kind, k);
      CountUnique(ps, k);
      match FindOne(ps, lines[0].sku)
      case Ok(productId) =>
        if lines[0].sku == ps[k].sku {
          FindOneUnique(ps, k);
        } else {
          assert productId != k + 1;
        }
      case Err(_) =>
    }
  }

  /** `StockLevel` of the product with that SKU in the warehouse with that
      name, looked up as the application would; `None` when either is
      missing. */
  function StockOf(db: Db, sku: string, warehouse: string): (r: Option<int>)
    ensures r.Some? <==> FindSku(db.products, sku).Some? && FindName(db.warehouses, warehouse).Some?
  {
    match (FindSku(db.products, sku), FindName(db.warehouses, warehouse))
    case (Some(p), Some(w)) => Some(Quantity(db, (p + 1, w + 1)))
    case _ => None
  }

  /** After seeding an empty store, each catalogued product holds the initial
      quantity in the central warehouse, plus what the purchase order
      received, minus what the sales order shipped. */
  lemma SeedStock(db: Db, cat: Catalogue, k: nat)
    requires db.products == [] && db.levels == map[] && UniqueNames(db.warehouses)
    requires Consistent(cat) && k < |cat.products|
    ensures SeedAll(db, cat).Ok?
    ensures StockOf(SeedAll(db, cat).value, cat.products[k].sku, cat.central)
            == Some(InitialQuantity + LineSum(cat.purchaseLines, cat.products[k].sku) - LineSum(cat.salesLines, cat.products[k].sku))
  {
    SeedTables(db, cat);
    SeedQuantity(db, cat, k);
    WarehouseLookup(db, cat, cat.central);
    var r := SeedAll(db, cat).value;
    StockOfFound(r, k, cat.central, EnsureReferences(db, cat).warehouseIds[cat.central]);
  }

  /** The committed store holds the catalogue's products, with their SKUs
      unique and in catalogue order, and the reference tables' warehouses. */
  lemma SeedTables(db: Db, cat: Catalogue)
    requires db.products == [] && Consistent(cat)
    ensures SeedAll(db, cat).Ok?
    ensures UniqueSkus(SeedAll(db, cat).value.products)
    ensures |SeedAll(db, cat).value.products| == |cat.products|
    ensures forall k :: 0 <= k < |cat.products| ==> SeedAll(db, cat).value.products[k].sku == cat.products[k].sku
    ensures SeedAll(db, cat).value.warehouses == EnsureReferences(db, cat).db.warehouses
  {
    SeedAllCommits(db, cat);
    var refs := EnsureReferences(db, cat);
    var ps := CreateProducts(db.products, cat.products, refs.categoryIds, refs.supplierIds).value;
    CreatedSkus(cat.products, refs.categoryIds, refs.supplierIds);
  }

  /** The committed quantity of the product at catalogue position `k` in the
      central warehouse. */
  lemma SeedQuantity(db: Db, cat: Catalogue, k: nat)
    requires db.products == [] && db.levels == map[] && Consistent(cat) && k < |cat.products|
    ensures SeedAll(db, cat).Ok? && cat.central in EnsureReferences(db, cat).warehouseIds
    ensures Quantity(SeedAll(db, cat).value, (k + 1, EnsureReferences(db, cat).warehouseIds[cat.central]))
            == InitialQuantity + LineSum(cat.purchaseLines, cat.products[k].sku) - LineSum(cat.salesLines, cat.products[k].sku)
  {
    SeedAllCommits(db, cat);
    var refs := EnsureReferences(db, cat);
    var ps := CreateProducts(db.products, cat.products, refs.categoryIds, refs.supplierIds).value;
    CreatedSkus(cat.products, refs.categoryIds, refs.supplierIds);
    var central := refs.warehouseIds[cat.central];
    var db1 := refs.db.(products := ps);
    var stocked := StockFrom(db1, 0, central);
    StockFromLevels(db1, 0, central);
    SeedOrdersStock(stocked, cat, central, refs.supplierIds[cat.purchaseSupplier], k);
  }

  /** With unique SKUs, `StockOf` reads the level of the product at its
      position and the warehouse the name lookup finds. */
  lemma StockOfFound(db: Db, k: nat, warehouse: string, warehouseId: nat)
    requires UniqueSkus(db.products) && k < |db.products| && warehouseId >= 1
    requires FindName(db.warehouses, warehouse) == Some(warehouseId - 1)
    ensures StockOf(db, db.products[k].sku, warehouse) == Some(Quantity(db, (k + 1, warehouseId)))
  {
    CountUnique(db.products, k);
    FindOneUnique(db.products, k);
  }

  /** A listed warehouse is found, by name, at the id the seeding recorded
      for it. */
  lemma WarehouseLookup(db: Db, cat: Catalogue, name: string)
    requires UniqueNames(db.warehouses) && Listed(cat.warehouses, name)
    ensures name in EnsureReferences(db, cat).warehouseIds
    ensures EnsureReferences(db, cat).warehouseIds[name] >= 1
    ensures FindName(EnsureReferences(db, cat).db.warehouses, name) == Some(EnsureReferences(db, cat).warehouseIds[name] - 1)
  {
    RowLookup(db.warehouses, cat.warehouses, name);
  }

  /** After the get-or-create loop over a table with unique names, a listed
      name is found at the id recorded for it. */
  lemma RowLookup(t: seq<Row>, items: seq<(string, Option<string>)>, name: string)
    requires UniqueNames(t) && Listed(items, name)
    ensures var e := EnsureRows(t, items, map[]);
            && name in e.0 && e.0[name] >= 1
            && FindName(e.1, name) == Some(e.0[name] - 1)
  {
    var e := EnsureRows(t, items, map[]);
    EnsureRowsConsistent(t, items, map[]);
    ListedIn(items, name, e.0);
    FindNameUnique(e.1, e.0[name] - 1);
  }

  /** With unique names, the lookup by name finds the row's own position. */
  lemma FindNameUnique(t: seq<Row>, i: nat)
    requires UniqueNames(t) && i < |t|
    ensures FindName(t, t[i].name) == Some(i)
  {
    var f := FindName(t, t[i].name);
    assert f.Some? && f.value <= i;
  }

  /** The orders move product `k`'s quantity in their warehouse by what was
      received minus what was shipped. */
  lemma SeedOrdersStock(db: Db, cat: Catalogue, central: nat, supplierId: nat, k: nat)
    requires SeedOrders(db, cat, central, supplierId).Ok? && UniqueSkus(db.products) && k < |db.products|
    ensures Quantity(SeedOrders(db, cat, central, supplierId).value, (k + 1, central))
            == Quantity(db, (k + 1, central)) + LineSum(cat.purchaseLines, db.products[k].sku) - LineSum(cat.salesLines, db.products[k].sku)
  {
    var key := (k + 1, central);
    var po := db.(purchaseOrders := db.purchaseOrders + [PurchaseOrder(supplierId, "RECEIVED")]);
    assert Quantity(po, key) == Quantity(db, key);
    FulfilQuantities(po, cat.purchaseLines, central, Purchase, |po.purchaseOrders|, key);
    LineTotalIsSum(db.products, cat.purchaseLines, central, Purchase, k);
    var received := Fulfil(po, cat.purchaseLines, central, Purchase, |po.purchaseOrders|).value;
    var so := received.(salesOrders := received.salesOrders + [SalesOrder(cat.customer, "SHIPPED")]);
    assert Quantity(so, key) == Quantity(received, key);
    FulfilQuantities(so, cat.salesLines, central, Sale, |so.salesOrders|, key);
    LineTotalIsSum(db.products, cat.salesLines, central, Sale, k);
  }

  // ---------------------------------------------------------------- the demonstration catalogue

  /** The Central Warehouse quantity of every demonstration product after
      seeding an empty store. */
  const CentralStock: seq<(string, int)> := [
    ("ELEC-001", 90), ("ELEC-002", 45), ("ELEC-003", 50),
    ("OFF-001", 150), ("OFF-002", 50),
    ("FURN-001", 48), ("FURN-002", 50),
    ("GROC-001", 40), ("GROC-002", 50),
    ("APP-001", 50), ("APP-002", 110), ("APP-003", 50)]

  /** Every lookup the demonstration seeding makes succeeds. */
  lemma DemoConsistent()
    ensures Consistent(Demo)
  {
    DemoSkusDistinct();
    DemoNamesListed();
    DemoLinesResolve();
    LinesCatalogued(ProductsData, PurchaseLines, PurchasePositions);
    LinesCatalogued(ProductsData, SalesLines, SalesPositions);
  }

  /** Two different SKUs of the catalogue differ in their first or last
      character. */
  lemma DemoSkusDistinct()
    ensures SkusDistinct(ProductsData)
  {
    var keys := seq(|ProductsData|, i requires 0 <= i < |ProductsData| => (ProductsData[i].sku[0], ProductsData[i].sku[|ProductsData[i].sku| - 1]));
    assert keys == [('E', '1'), ('E', '2'), ('E', '3'), ('O', '1'), ('O', '2'), ('F', '1'), ('F', '2'), ('G', '1'), ('G', '2'), ('A', '1'), ('A', '2'), ('A', '3')];
    forall i, j | 0 <= i < j < |ProductsData| ensures ProductsData[i].sku != ProductsData[j].sku {
      assert keys[i] != keys[j];
    }
  }

  lemma DemoNamesListed()
    ensures forall i :: 0 <= i < |ProductsData| ==> Listed(Categories, ProductsData[i].category)
    ensures forall i :: 0 <= i < |ProductsData| ==> Listed(Suppliers, ProductsData[i].supplier)
    ensures Listed(Warehouses, "Central Warehouse") && Listed(Suppliers, "ACME Corp")
  {
  }

  /** The catalogue positions of the ordered SKUs. */
  const PurchasePositions: seq<nat> := [0, 3, 10]
  const SalesPositions: seq<nat> := [1, 5, 7]

  /** Line `i` orders the catalogue entry at position `ks[i]`. */
  predicate Resolved(data: seq<ProductSeed>, lines: seq<OrderLine>, ks: seq<nat>) {
    |ks| == |lines| && forall i :: 0 <= i < |lines| ==> ks[i] < |data| && data[ks[i]].sku == lines[i].sku
  }

  lemma DemoLinesResolve()
    ensures Resolved(ProductsData, PurchaseLines, PurchasePositions)
    ensures Resolved(ProductsData, SalesLines, SalesPositions)
  {
  }

  /** A catalogue entry's SKU is catalogued. */
  lemma {:induction false} CataloguedEntry(data: seq<ProductSeed>, k: nat)
    requires k < |data|
    ensures Catalogued(data, data[k].sku)
    decreases k
  {
    if k > 0 && data[0].sku != data[k].sku {
      assert data[1..][k - 1] == data[k];
      CataloguedEntry(data[1..], k - 1);
    }
  }

  lemma LinesCatalogued(data: seq<ProductSeed>, lines: seq<OrderLine>, ks: seq<nat>)
    requires Resolved(data, lines, ks)
    ensures forall i :: 0 <= i < |lines| ==> Catalogued(data, lines[i].sku)
  {
    forall i | 0 <= i < |lines| ensures Catalogued(data, lines[i].sku) {
      CataloguedEntry(data, ks[i]);
    }
  }

  /** The total quantity of the lines ordering the entry at position `k`. */
  function PositionSum(lines: seq<OrderLine>, ks: seq<nat>, k: nat): nat
    requires |ks| == |lines|
    decreases |lines|
  {
    if |lines| == 0 then 0
    else (if ks[0] == k then lines[0].quantity else 0) + PositionSum(lines[1..], ks[1..], k)
  }

  /** With distinct SKUs, the lines of a SKU are the lines of its position. */
  lemma {:induction false} LineSumByPosition(data: seq<ProductSeed>, lines: seq<OrderLine>, ks: seq<nat>, k: nat)
    requires SkusDistinct(data) && k < |data| && Resolved(data, lines, ks)
    ensures LineSum(lines, data[k].sku) == PositionSum(lines, ks, k)
    decreases |lines|
  {
    if |lines| > 0 {
      assert forall i :: 1 <= i < |lines| ==> lines[1..][i - 1] == lines[i] && ks[1..][i - 1] == ks[i];
      LineSumByPosition(data, lines[1..], ks[1..], k);
    }
  }

  /** `expected` lists each catalogued SKU, in catalogue order, with the
      initial quantity plus what its purchase lines receive minus what its
      sales lines ship. */
  predicate Expected(cat: Catalogue, expected: seq<(string, int)>) {
    && |expected| == |cat.products|
    && forall k :: 0 <= k < |expected| ==>
         && expected[k].0 == cat.products[k].sku
         && expected[k].1 == InitialQuantity + LineSum(cat.purchaseLines, cat.products[k].sku) - LineSum(cat.salesLines, cat.products[k].sku)
  }

  /** The demonstration catalogue is consistent and `CentralStock` lists the
      quantities it should leave. */
  lemma DemoExpected()
    ensures Consistent(Demo) && Expected(Demo, CentralStock)
    ensures Demo.central == "Central Warehouse" && |Demo.products| == 12
    ensures |Demo.purchaseLines| + |Demo.salesLines| == 6
  {
    DemoConsistent();
    DemoSkusDistinct();
    DemoLinesResolve();
    forall k | 0 <= k < |CentralStock|
      ensures CentralStock[k].0 == ProductsData[k].sku
      ensures CentralStock[k].1 == InitialQuantity + LineSum(PurchaseLines, ProductsData[k].sku) - LineSum(SalesLines, ProductsData[k].sku)
    {
      LineSumByPosition(ProductsData, PurchaseLines, PurchasePositions, k);
      LineSumByPosition(ProductsData, SalesLines, SalesPositions, k);
      DemoPositionSums(k);
    }
  }

  lemma DemoPositionSums(k: nat)
    requires k < |CentralStock|
    ensures |ProductsData| == |CentralStock| && CentralStock[k].0 == ProductsData[k].sku
    ensures CentralStock[k].1 == InitialQuantity + PositionSum(PurchaseLines, PurchasePositions, k) - PositionSum(SalesLines, SalesPositions, k)
  {
  }

  /** What a consistent catalogue seeds into a store without products: the
      transaction commits, with every catalogued product, and the central
      warehouse holds the expected quantity of each. */
  lemma SeedCommitsExpected(db: Db, cat: Catalogue, expected: seq<(string, int)>)
    requires db.products == [] && db.levels == map[] && UniqueNames(db.warehouses)
    requires Consistent(cat) && Expected(cat, expected)
    ensures SeedInventory(db, cat).1 == None
    ensures |SeedInventory(db, cat).0.products| == |cat.products|
    ensures |SeedInventory(db, cat).0.movements| == |db.movements| + |cat.products| + |cat.purchaseLines| + |cat.salesLines|
    ensures forall k :: 0 <= k < |expected| ==> StockOf(SeedInventory(db, cat).0, expected[k].0, cat.central) == Some(expected[k].1)
  {
    SeedAllCommits(db, cat);
    forall k | 0 <= k < |expected|
      ensures StockOf(SeedInventory(db, cat).0, expected[k].0, cat.central) == Some(expected[k].1)
    {
      SeedExpectedAt(db, cat, expected, k);
    }
  }

  lemma SeedExpectedAt(db: Db, cat: Catalogue, expected: seq<(string, int)>, k: nat)
    requires db.products == [] && db.levels == map[] && UniqueNames(db.warehouses)
    requires Consistent(cat) && Expected(cat, expected) && k < |expected|
    ensures StockOf(SeedInventory(db, cat).0, expected[k].0, cat.central) == Some(expected[k].1)
  {
    SeedStockAt(db, cat, k);
    StockOfExpected(SeedInventory(db, cat).0, cat, expected, k);
  }

  /** The seeded quantity of the product at catalogue position `k`, read from
      the committed store. */
  lemma SeedStockAt(db: Db, cat: Catalogue, k: nat)
    requires db.products == [] && db.levels == map[] && UniqueNames(db.warehouses)
    requires Consistent(cat) && k < |cat.products|
    ensures SeedInventory(db, cat).1 == None
    ensures StockOf(SeedInventory(db, cat).0, cat.products[k].sku, cat.central)
            == Some(InitialQuantity + LineSum(cat.purchaseLines, cat.products[k].sku) - LineSum(cat.salesLines, cat.products[k].sku))
  {
    SeedStock(db, cat, k);
  }

  lemma StockOfExpected(x: Db, cat: Catalogue, expected: seq<(string, int)>, k: nat)
    requires Expected(cat, expected) && k < |expected|
    requires StockOf(x, cat.products[k].sku, cat.central)
             == Some(InitialQuantity + LineSum(cat.purchaseLines, cat.products[k].sku) - LineSum(cat.salesLines, cat.products[k].sku))
    ensures StockOf(x, expected[k].0, cat.central) == Some(expected[k].1)
  {
  }

  /** Seeding a store that has no products yet with the demonstration
      catalogue commits twelve products and eighteen movements, and leaves the
      Central Warehouse quantities of `CentralStock`. */
  lemma SeedDemo(db: Db)
    requires db.products == [] && db.levels == map[] && UniqueNames(db.warehouses)
    ensures SeedInventory(db, Demo).1 == None
    ensures |SeedInventory(db, Demo).0.products| == 12
    ensures |SeedInventory(db, Demo).0.movements| == |db.movements| + 18
    ensures forall k :: 0 <= k < |CentralStock| ==>
              StockOf(SeedInventory(db, Demo).0, CentralStock[k].0, "Central Warehouse") == Some(CentralStock[k].1)
  {
    DemoExpected();
    SeedCommitsExpected(db, Demo, CentralStock);
  }
}
