/** The inventory schema's stock ledger: the named reference tables with their
    get-or-create helpers, stock levels per (product, warehouse) and the
    movement log `_adjust_stock` appends to. Tables are sequences of rows; a
    row's id is its position plus one, which is what an auto-increment key
    assigns to a table that only ever grows. */
module Inventory {
  import opened Common

  /** A category, supplier or warehouse row: a unique name and one optional
      descriptive column (description, email or location). */
  datatype Row = Row(name: string, detail: Option<string>)

  datatype Product = Product(sku: string, name: string, categoryId: nat, supplierId: nat, priceCents: int, reorderLevel: int)

  /** One line of the stock-movement log. */
  datatype Movement = Movement(productId: nat, warehouseId: nat, delta: int, reason: string, refType: Option<string>, refId: Option<nat>)

  datatype PurchaseOrder = PurchaseOrder(supplierId: nat, status: string)
  datatype SalesOrder = SalesOrder(customerName: string, status: string)
  datatype OrderItem = OrderItem(orderId: nat, productId: nat, quantity: int, priceCents: int)

  /** The store. `levels` holds the `StockLevel` rows, keyed by
      (product id, warehouse id), which the unique constraint makes a key. */
  datatype Db = Db(
    categories: seq<Row>,
    suppliers: seq<Row>,
    warehouses: seq<Row>,
    products: seq<Product>,
    levels: map<(nat, nat), int>,
    movements: seq<Movement>,
    purchaseOrders: seq<PurchaseOrder>,
    purchaseItems: seq<OrderItem>,
    salesOrders: seq<SalesOrder>,
    salesItems: seq<OrderItem>)

  const EmptyDb := Db([], [], [], [], map[], [], [], [], [], [])

  // ---------------------------------------------------------------- get-or-create

  /** `select(...).where(name == name).first()`: the position of the first row
      with that name. */
  function FindName(t: seq<Row>, name: string): (r: Option<nat>)
    ensures r.Some? ==> r.value < |t| && t[r.value].name == name
    ensures r.Some? ==> forall j :: 0 <= j < r.value ==> t[j].name != name
    ensures r.None? ==> forall j :: 0 <= j < |t| ==> t[j].name != name
  {
    if |t| == 0 then None
    else if t[0].name == name then Some(0)
    else match FindName(t[1..], name)
      case None => None
      case Some(i) => Some(i + 1)
  }

  /** `_get_or_create_category/_supplier/_warehouse`: the id of the existing
      row with that name, whose other columns are left as they are, or of a
      new row appended with the given detail. */
  function GetOrCreate(t: seq<Row>, name: string, detail: Option<string>): (r: (nat, seq<Row>))
    ensures 1 <= r.0 <= |r.1| && r.1[r.0 - 1].name == name
    ensures (exists j :: 0 <= j < |t| && t[j].name == name) ==> r.1 == t
    ensures (forall j :: 0 <= j < |t| ==> t[j].name != name) ==> r.1 == t + [Row(name, detail)]
  {
    match FindName(t, name)
    case Some(i) => (i + 1, t)
    case None => (|t| + 1, t + [Row(name, detail)])
  }

  predicate UniqueNames(t: seq<Row>) {
    forall i, j :: 0 <= i < j < |t| ==> t[i].name != t[j].name
  }

  /** A repeated call, whatever its detail, finds the row the first call
      returned or created and changes nothing. */
  lemma GetOrCreateIdempotent(t: seq<Row>, name: string, detail: Option<string>, detail': Option<string>)
    ensures var first := GetOrCreate(t, name, detail);
            GetOrCreate(first.1, name, detail') == first
  {
    var first := GetOrCreate(t, name, detail);
    assert first.1[first.0 - 1].name == name;
  }

  /** The table never holds two rows with the same name. */
  lemma GetOrCreateKeepsNamesUnique(t: seq<Row>, name: string, detail: Option<string>)
    requires UniqueNames(t)
    ensures UniqueNames(GetOrCreate(t, name, detail).1)
    ensures |GetOrCreate(t, name, detail).1| <= |t| + 1
  {
  }

  // ---------------------------------------------------------------- stock

  /** The stored quantity, 0 when no `StockLevel` row exists yet. */
  function Quantity(db: Db, key: (nat, nat)): int {
    if key in db.levels then db.levels[key] else 0
  }

  /** `_adjust_stock`: creates the level at 0 when missing, adds the delta
      with no lower bound, and logs one movement. Nothing else changes. */
  function AdjustStock(db: Db, productId: nat, warehouseId: nat, delta: int, reason: string,
                       refType: Option<string>, refId: Option<nat>): (r: Db)
    ensures (productId, warehouseId) in r.levels
    ensures r.levels[(productId, warehouseId)] == Quantity(db, (productId, warehouseId)) + delta
    ensures forall key :: key != (productId, warehouseId) ==> Quantity(r, key) == Quantity(db, key)
    ensures r.levels.Keys == db.levels.Keys + {(productId, warehouseId)}
    ensures r.movements == db.movements + [Movement(productId, warehouseId, delta, reason, refType, refId)]
    ensures r.(levels := db.levels, movements := db.movements) == db
  {
    var key := (productId, warehouseId);
    var current := if key in db.levels then db.levels[key] else 0;
    db.(levels := db.levels[key := current + delta],
        movements := db.movements + [Movement(productId, warehouseId, delta, reason, refType, refId)])
  }

  /** The sum of the logged deltas for one (product, warehouse) pair. */
  function Ledger(ms: seq<Movement>, key: (nat, nat)): int
    decreases |ms|
  {
    if |ms| == 0 then 0
    else (if (ms[0].productId, ms[0].warehouseId) == key then ms[0].delta else 0) + Ledger(ms[1..], key)
  }

  lemma {:induction false} LedgerAppend(ms: seq<Movement>, m: Movement, key: (nat, nat))
    ensures Ledger(ms + [m], key) == Ledger(ms, key) + (if (m.productId, m.warehouseId) == key then m.delta else 0)
    decreases |ms|
  {
    if |ms| > 0 {
      assert (ms + [m])[1..] == ms[1..] + [m];
      LedgerAppend(ms[1..], m, key);
    }
  }

  /** Every pair's quantity is the sum of its movements' deltas. */
  ghost predicate Balanced(db: Db) {
    forall key :: Quantity(db, key) == Ledger(db.movements, key)
  }

  lemma EmptyDbBalanced()
    ensures Balanced(EmptyDb)
  {
  }

  /** `_adjust_stock` keeps the levels and the log in agreement. */
  lemma AdjustStockKeepsBalanced(db: Db, productId: nat, warehouseId: nat, delta: int, reason: string,
                                 refType: Option<string>, refId: Option<nat>)
    requires Balanced(db)
    ensures Balanced(AdjustStock(db, productId, warehouseId, delta, reason, refType, refId))
  {
    var m := Movement(productId, warehouseId, delta, reason, refType, refId);
    forall key ensures Ledger(db.movements + [m], key) == Ledger(db.movements, key) + (if (productId, warehouseId) == key then delta else 0) {
      LedgerAppend(db.movements, m, key);
    }
  }

  /** The arguments of one `_adjust_stock` call. */
  datatype Adjustment = Adjustment(productId: nat, warehouseId: nat, delta: int, reason: string,
                                   refType: Option<string>, refId: Option<nat>)

  /** A run of `_adjust_stock` calls, in order. */
  function AdjustAll(db: Db, adjustments: seq<Adjustment>): (r: Db)
    ensures |r.movements| == |db.movements| + |adjustments|
    decreases |adjustments|
  {
    if |adjustments| == 0 then db
    else
      var a := adjustments[0];
      AdjustAll(AdjustStock(db, a.productId, a.warehouseId, a.delta, a.reason, a.refType, a.refId), adjustments[1..])
  }

  /** From any balanced store, after any sequence of adjustments each pair's
      quantity still equals the sum of its logged deltas. */
  lemma {:induction false} AdjustAllKeepsBalanced(db: Db, adjustments: seq<Adjustment>)
    requires Balanced(db)
    ensures Balanced(AdjustAll(db, adjustments))
    decreases |adjustments|
  {
    if |adjustments| > 0 {
      var a := adjustments[0];
      AdjustStockKeepsBalanced(db, a.productId, a.warehouseId, a.delta, a.reason, a.refType, a.refId);
      AdjustAllKeepsBalanced(AdjustStock(db, a.productId, a.warehouseId, a.delta, a.reason, a.refType, a.refId), adjustments[1..]);
    }
  }

  lemma LedgerFromEmpty(adjustments: seq<Adjustment>, key: (nat, nat))
    ensures var db := AdjustAll(EmptyDb, adjustments);
            Quantity(db, key) == Ledger(db.movements, key)
  {
    EmptyDbBalanced();
    AdjustAllKeepsBalanced(EmptyDb, adjustments);
  }
}
