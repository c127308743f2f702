/**
 * The JubanShop views that deposit stock and maintain items, as they run on
 * a `Store.Shop`: each is proved to leave the tables exactly as the
 * corresponding function of `Deposits` says, and to keep their integrity.
 */
module DepositViews {
  import opened Wrappers
  import opened FormData
  import opened JubanModels
  import opened Registry
  import opened Deposits
  import JubanForms
  import opened Store
  import JubanViews

  // ----------------------------------------------------------------------
  // juban_stock_in_create
  // ----------------------------------------------------------------------

  /**
   * The supplier step of `juban_stock_in_create`: with a supplier name, its
   * folder is got or created, the posted row saved under it, and the loop
   * files every unfiled row of the supplier. Without one the row is not saved.
   */
  method FileSupplier(db: Db, s: StockIn) returns (d: Db)
    ensures d == FileStockIn(db, s)
  {
    d := db;
    if Truthy(s.supplier) {
      var name := s.supplier.value;
      if name !in d.inventorySuppliers {
        d := d.(inventorySuppliers := d.inventorySuppliers + {name});
      }
      d := d.(stockIns := d.stockIns[d.nextStockIn := s.(supplierFolder := Some(name))], nextStockIn := d.nextStockIn + 1);
      var filed := JubanViews.LinkStockIns(d.stockIns, name, true);
      d := d.(stockIns := filed);
    }
  }

  /**
   * The item step of `juban_stock_in_create` on the store `d` the supplier
   * step left: the item with the row's code and supplier is got or created;
   * a new one starts with the deposit as its stock, an existing one receives
   * it. Several matches, or a null operand, raise.
   */
  method DepositStockIn(ghost db: Db, d: Db, s: StockIn) returns (r: Db, outcome: StockInOutcome)
    requires ProductExists(db.items, s.particulars) && d == FileStockIn(db, s)
    ensures (r, outcome) == Deposits.StockInCreate(db, Some(s))
  {
    var matches := CodeSupplierMatches(d.items, s.itemCode, s.supplier);
    if matches == {} {
      return d.(items := d.items[d.nextItem := StockInItem(s)], nextItem := d.nextItem + 1), Deposited(true);
    }
    if |matches| > 1 {
      return d, StockInFailed;
    }
    var k := MinKey(matches);
    var it := d.items[k];
    if it.quantityIn.None? || s.quantityIn.None? || it.quantityOut.None? {
      return d, StockInFailed;
    }
    var total := it.quantityIn.value + s.quantityIn.value;
    r := d.(items := d.items[k := it.(quantityIn := Some(total), stock := Some(total - it.quantityOut.value))]);
    outcome := Deposited(false);
  }

  /**
   * `juban_stock_in_create` on a posted form (`None` when it does not
   * validate): the particulars must name a product; then the supplier step
   * and the item step.
   */
  method StockInCreate(shop: Shop, form: Option<StockIn>) returns (outcome: StockInOutcome)
    requires shop.Valid()
    modifies shop
    ensures shop.State() == Deposits.StockInCreate(old(shop.State()), form).0
    ensures outcome == Deposits.StockInCreate(old(shop.State()), form).1
    ensures shop.Valid()
  {
    ghost var db := shop.State();
    StockInCreatePreservesValid(db, form);
    if form.None? {
      return StockInRejected;
    }
    var s := form.value;
    if !ProductExists(shop.items, s.particulars) {
      return UnknownParticulars;
    }
    var d := FileSupplier(shop.State(), s);
    var r;
    r, outcome := DepositStockIn(db, d, s);
    shop.Write(r);
  }

  // ----------------------------------------------------------------------
  // juban_handle_uploaded_stock_in_file
  // ----------------------------------------------------------------------

  /**
   * The body of the import loop for one parsed row: the row is saved (under
   * its supplier's folder, got or created, when it names one); then the
   * first item with the row's code, supplier, name and unit receives the
   * deposit, or a new item is created. `ok` is false when the deposit raised.
   */
  method ImportOne(db: Db, s: StockIn) returns (d: Db, ok: bool)
    ensures (d, ok) == ImportRow(db, s)
  {
    d := db;
    var row := s.(supplierFolder := None);
    if Truthy(s.supplier) {
      var name := s.supplier.value;
      if name !in d.inventorySuppliers {
        d := d.(inventorySuppliers := d.inventorySuppliers + {name});
      }
      row := s.(supplierFolder := Some(name));
    }
    d := d.(stockIns := d.stockIns[d.nextStockIn := row], nextStockIn := d.nextStockIn + 1);
    assert d == if Truthy(s.supplier) then
                  AddStockIn(GetOrCreate(db, InventorySupplierFolders, s.supplier.value).0,
                             s.(supplierFolder := Some(s.supplier.value)))
                else AddStockIn(db, s.(supplierFolder := None));
    var matches := RowMatches(d.items, s);
    if matches == {} {
      d := d.(items := d.items[d.nextItem := ImportedItem(s)], nextItem := d.nextItem + 1);
      return d, true;
    }
    var k := MinKey(matches);
    var it := d.items[k];
    if it.quantityIn.None? || s.quantityIn.None? || it.quantityOut.None? {
      return d, false;
    }
    var total := it.quantityIn.value + s.quantityIn.value;
    d := d.(items := d.items[k := it.(quantityIn := Some(total), stock := Some(total - it.quantityOut.value))]);
    ok := true;
  }

  /** Once a prefix of the rows has raised, the later rows change nothing. */
  lemma {:induction false} ImportRowsKeepsFailure(db: Db, rows: seq<StockIn>, j: nat)
    requires j <= |rows| && ImportRows(db, rows[..j]).1.Some?
    ensures ImportRows(db, rows) == ImportRows(db, rows[..j])
    decreases |rows| - j
  {
    if j < |rows| {
      var init := rows[..|rows| - 1];
      assert init[..j] == rows[..j];
      ImportRowsKeepsFailure(db, init, j);
    } else {
      assert rows[..j] == rows;
    }
  }

  /** The import loop over the parsed rows; the first row that raises ends it, and its index is returned. */
  method ImportAll(db: Db, rows: seq<StockIn>) returns (d: Db, failedAt: Option<nat>)
    ensures (d, failedAt) == ImportRows(db, rows)
  {
    d := db;
    var i := 0;
    while i < |rows|
      invariant 0 <= i <= |rows|
      invariant ImportRows(db, rows[..i]) == (d, None)
    {
      var ok;
      d, ok := ImportOne(d, rows[i]);
      assert rows[..i + 1][..i] == rows[..i];
      if !ok {
        ImportRowsKeepsFailure(db, rows, i + 1);
        return d, Some(i);
      }
      i := i + 1;
    }
    assert rows[..i] == rows;
    failedAt := None;
  }

  /** `juban_handle_uploaded_stock_in_file` over already parsed rows. */
  method ImportStockIns(shop: Shop, rows: seq<StockIn>) returns (failedAt: Option<nat>)
    requires shop.Valid()
    modifies shop
    ensures shop.State() == ImportRows(old(shop.State()), rows).0
    ensures failedAt == ImportRows(old(shop.State()), rows).1
    ensures shop.Valid()
  {
    ImportRowsPreservesValid(shop.State(), rows);
    var d;
    d, failedAt := ImportAll(shop.State(), rows);
    shop.Write(d);
  }

  // ----------------------------------------------------------------------
  // juban_inventory_form
  // ----------------------------------------------------------------------

  /**
   * `juban_inventory_form` on a POST, with the raw posted product name and
   * the validated form (`None` when it does not validate).
   */
  method InventoryFormCreate(shop: Shop, posted: Text, form: Option<ItemFields>) returns (outcome: ItemFormOutcome)
    requires shop.Valid()
    modifies shop
    ensures shop.State() == Deposits.InventoryFormCreate(old(shop.State()), posted, form).0
    ensures outcome == Deposits.InventoryFormCreate(old(shop.State()), posted, form).1
    ensures shop.Valid()
  {
    InventoryFormCreatePreservesValid(shop.State(), posted, form);
    if ProductExists(shop.items, posted) {
      return DuplicateName;
    }
    if form.None? {
      return ItemRejected;
    }
    var f := form.value;
    var it := BlankItem().(itemCode := f.itemCode, productName := f.productName, unit := f.unit,
                           supplier := f.supplier, quantityIn := f.quantityIn,
                           quantityOut := f.quantityOut, stock := f.stock);
    it := it.(quantityIn := Some(OrZero(it.quantityIn)));
    it := it.(quantityOut := Some(OrZero(it.quantityOut)));
    it := it.(stock := Some(it.quantityIn.value - it.quantityOut.value));
    var id := shop.nextItem;
    shop.items := shop.items[id := it];
    shop.nextItem := id + 1;
    outcome := ItemAdded(id);
  }

  // ----------------------------------------------------------------------
  // juban_inventory_edit
  // ----------------------------------------------------------------------

  /**
   * `juban_inventory_edit` on a POST, on store `db`: `cleaned` is the
   * quantity form's data after field validation and `valid` whether the form
   * has no errors. The form's clean runs first; then the edited values are
   * merged into the first twin, whose stock is recomputed, and the edited item
   * deleted, or they are saved on the item with its stock recomputed.
   */
  method EditItem(db: Db, id: nat, cleaned: Cleaned, valid: bool) returns (r: Db, outcome: EditOutcome)
    ensures (r, outcome) == Deposits.InventoryEdit(db, id, cleaned, valid)
  {
    r := db;
    if id !in db.items {
      return r, EditNotFound;
    }
    var form := new JubanForms.CleanedData(cleaned);
    var ok := form.CleanQuantity();
    if !ok {
      return r, EditFailed;
    }
    if !valid {
      return r, EditRejected;
    }
    var u := Construct(db.items[id], form.data);
    var twins := Twins(db.items, id, u);
    if twins != {} {
      var k := MinKey(twins);
      var e := db.items[k];
      if e.quantityIn.None? || u.quantityIn.None? || e.quantityOut.None? || u.quantityOut.None? {
        return r, EditFailed;
      }
      var inn := e.quantityIn.value + u.quantityIn.value;
      var out := e.quantityOut.value + u.quantityOut.value;
      r := r.(items := r.items[k := e.(quantityIn := Some(inn), quantityOut := Some(out), stock := Some(inn - out))]);
      return DeleteItems(r, {id}), Merged(k);
    }
    if u.quantityIn.None? || u.quantityOut.None? {
      return r, EditFailed;
    }
    r := r.(items := r.items[id := u.(stock := Some(u.quantityIn.value - u.quantityOut.value))]);
    outcome := Saved;
  }

  /** `juban_inventory_edit` on a POST, saving what `EditItem` computes. */
  method InventoryEdit(shop: Shop, id: nat, cleaned: Cleaned, valid: bool) returns (outcome: EditOutcome)
    requires shop.Valid()
    modifies shop
    ensures shop.State() == Deposits.InventoryEdit(old(shop.State()), id, cleaned, valid).0
    ensures outcome == Deposits.InventoryEdit(old(shop.State()), id, cleaned, valid).1
    ensures shop.Valid()
  {
    InventoryEditPreservesValid(shop.State(), id, cleaned, valid);
    var r;
    r, outcome := EditItem(shop.State(), id, cleaned, valid);
    shop.Write(r);
  }

  // ----------------------------------------------------------------------
  // The item-code list refresh in juban_inventory_table
  // ----------------------------------------------------------------------

  /** The `exists()` query of the refresh: whether the code list has the item's code and name. */
  method FindCode(codes: seq<CodeEntry>, it: Item) returns (found: bool)
    ensures found == Listed(codes, it)
  {
    found := false;
    var i := 0;
    while i < |codes| && !found
      invariant 0 <= i <= |codes|
      invariant found <==> exists j :: 0 <= j < i && codes[j].itemCode == it.itemCode && Some(codes[j].productName) == it.productName
    {
      found := codes[i].itemCode == it.itemCode && Some(codes[i].productName) == it.productName;
      i := i + 1;
    }
  }

  /**
   * The refresh loop over the items listed in `order`; `ok` is false when
   * creating an entry for an item with no product name raised.
   */
  method SyncLoop(codes: seq<CodeEntry>, items: map<nat, Item>, order: seq<nat>) returns (r: seq<CodeEntry>, ok: bool)
    requires forall i :: 0 <= i < |order| ==> order[i] in items
    ensures (r, ok) == SyncCodes(codes, items, order)
  {
    r := codes;
    var i := 0;
    while i < |order|
      invariant 0 <= i <= |order|
      invariant SyncCodes(codes, items, order) == SyncCodes(r, items, order[i..])
    {
      var it := items[order[i]];
      var listed := FindCode(r, it);
      assert order[i..][1..] == order[i + 1..];
      if !listed {
        if it.productName.None? {
          return r, false;
        }
        r := r + [CodeEntry(it.itemCode, it.productName.value, it.unit)];
      }
      i := i + 1;
    }
    ok := true;
  }

  /** The refresh of `juban_inventory_table`, with the items visited in `order` (by product name). */
  method SyncCodeList(shop: Shop, order: seq<nat>) returns (ok: bool)
    requires shop.Valid()
    requires forall i :: 0 <= i < |order| ==> order[i] in shop.items
    modifies shop
    ensures shop.State() == Deposits.SyncCodeList(old(shop.State()), order).0
    ensures ok == Deposits.SyncCodeList(old(shop.State()), order).1
    ensures shop.Valid()
  {
    ghost var db := shop.State();
    shop.codeList, ok := SyncLoop(shop.codeList, shop.items, order);
    assert shop.State() == db.(codeList := shop.codeList);
    assert ItemsOk(shop.State()) && CartOk(shop.State()) && HistoryOk(shop.State()) && StockInsOk(shop.State()) by {
      assert ItemsOk(db) && CartOk(db) && HistoryOk(db) && StockInsOk(db);
    }
  }
}
