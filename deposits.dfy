/**
 * Deposits and item maintenance: a stock-in posted through the form, the
 * per-row update of a stock-in import, the item form, the item edit with its
 * merge into a twin row, and the refresh of the item-code list.
 *
 * A Python TypeError on a null operand, `MultipleObjectsReturned` from
 * `get_or_create` and the NOT NULL IntegrityError all end the request where
 * they happen; rows saved before that point stay saved, since no view runs
 * in a transaction.
 */
module Deposits {
  import opened Wrappers
  import opened FormData
  import opened JubanModels
  import opened Registry
  import Ledger
  import JubanForms

  // ----------------------------------------------------------------------
  // Shared store updates
  // ----------------------------------------------------------------------

  /** The store with `it` saved under the next item primary key. */
  function AddItem(db: Db, it: Item): Db {
    db.(items := db.items[db.nextItem := it], nextItem := db.nextItem + 1)
  }

  /** The store with `s` saved under the next stock-in primary key. */
  function AddStockIn(db: Db, s: StockIn): Db {
    db.(stockIns := db.stockIns[db.nextStockIn := s], nextStockIn := db.nextStockIn + 1)
  }

  /**
   * `item.quantity_in += q` followed by `item.stock = item.quantity_in -
   * item.quantity_out`; `None` is the TypeError either step raises on a null
   * operand, before anything is saved.
   */
  function Deposit(it: Item, q: Decimal): Option<Item> {
    if it.quantityIn.None? || q.None? then None
    else
      var total := it.quantityIn.value + q.value;
      if it.quantityOut.None? then None
      else Some(it.(quantityIn := Some(total), stock := Some(total - it.quantityOut.value)))
  }

  /**
   * A deposit succeeds exactly when the item's two totals and the quantity are
   * all set; it then adds the quantity to the quantity in, leaves the quantity
   * out, rebalances the stock and changes no other column.
   */
  lemma DepositBalances(it: Item, q: Decimal)
    ensures Deposit(it, q).Some? <==> it.quantityIn.Some? && it.quantityOut.Some? && q.Some?
    ensures Deposit(it, q).Some? ==>
      var r := Deposit(it, q).value;
      && r.quantityIn == Some(it.quantityIn.value + q.value)
      && r.quantityOut == it.quantityOut
      && Balanced(r)
      && r.(quantityIn := it.quantityIn, stock := it.stock) == it
  {
  }

  /** The lowest primary key of a non-empty set of rows, as `.first()` returns on an unordered table. */
  function MinKey(s: set<nat>): (m: nat)
    requires s != {}
    ensures m in s && forall k :: k in s ==> m <= k
  {
    MinExists(s);
    var m :| m in s && forall k :: k in s ==> m <= k;
    m
  }

  lemma MinExists(s: set<nat>)
    requires s != {}
    ensures exists m :: m in s && forall k :: k in s ==> m <= k
  {
    var m := LeastOf(s);
  }

  lemma LeastOf(s: set<nat>) returns (m: nat)
    requires s != {}
    ensures m in s && forall k :: k in s ==> m <= k
    decreases s
  {
    var x :| x in s;
    if s == {x} {
      m := x;
    } else {
      var rest := LeastOf(s - {x});
      m := if x < rest then x else rest;
      forall k | k in s ensures m <= k {
        if k != x {
          assert k in s - {x};
        }
      }
    }
  }

  /** No history entry is about item `k`. */
  predicate NoEntriesFor(h: seq<HistoryEntry>, k: nat) {
    forall i :: 0 <= i < |h| ==> h[i].item != k
  }

  /** An item no entry records has withdrawn nothing according to the history. */
  lemma {:induction false} DeltaSumAbsent(h: seq<HistoryEntry>, k: nat)
    requires NoEntriesFor(h, k)
    ensures Ledger.DeltaSum(h, k) == 0
  {
    if h != [] {
      DeltaSumAbsent(h[1..], k);
    }
  }

  /** The next item key has no history in a valid store. */
  lemma NextItemHasNoHistory(db: Db)
    requires Valid(db)
    ensures NoEntriesFor(db.history, db.nextItem)
  {
    forall i | 0 <= i < |db.history|
      ensures db.history[i].item != db.nextItem
    {
      assert db.history[i] in db.history;
    }
  }

  /** Replacing an item by a balanced row with the same folder links keeps the store valid. */
  lemma SetItemPreservesValid(d: Db, k: nat, it: Item)
    requires Valid(d) && k in d.items && Balanced(it)
    requires it.siteFolder == d.items[k].siteFolder && it.clientFolder == d.items[k].clientFolder
    ensures Valid(d.(items := d.items[k := it]))
  {
    assert ItemRefsOk(d.items[k], d.sites, d.clients);
  }

  /** Saving a balanced item linked to no folder keeps the store valid. */
  lemma AddItemPreservesValid(d: Db, it: Item)
    requires Valid(d) && Balanced(it) && it.siteFolder.None? && it.clientFolder.None?
    ensures Valid(AddItem(d, it))
  {
  }

  /** Saving a stock-in row filed under an existing supplier folder, or none, keeps the store valid. */
  lemma AddStockInPreservesValid(d: Db, s: StockIn)
    requires Valid(d) && (s.supplierFolder.Some? ==> s.supplierFolder.value in d.inventorySuppliers)
    ensures Valid(AddStockIn(d, s))
  {
  }

  // ----------------------------------------------------------------------
  // juban_stock_in_create
  // ----------------------------------------------------------------------

  datatype StockInOutcome =
    | StockInRejected      // the form did not validate
    | UnknownParticulars   // no item carries the posted particulars as its product name
    | StockInFailed        // `get_or_create` found several rows, or a null operand raised
    | Deposited(created: bool)

  /** Some item carries `name` as its product name (null matches null, as `filter(x=None)` does). */
  predicate ProductExists(items: map<nat, Item>, name: Text) {
    exists k :: k in items && items[k].productName == name
  }

  /** The items `get_or_create(item_code=…, supplier=…)` looks up. */
  function CodeSupplierMatches(items: map<nat, Item>, code: Text, supplier: Text): set<nat> {
    set k | k in items && items[k].itemCode == code && items[k].supplier == supplier
  }

  /** The `defaults` of that `get_or_create`: the stock-in's columns, nothing withdrawn, stock equal to the deposit. */
  function StockInItem(s: StockIn): Item {
    BlankItem().(itemCode := s.itemCode, supplier := s.supplier, productName := s.particulars,
                 unit := s.unit, quantityIn := s.quantityIn, quantityOut := Some(0), stock := s.quantityIn)
  }

  /**
   * The supplier step: with a supplier name, get or create its folder, save
   * the posted row filed under it and file every unfiled row of the same
   * supplier. Without a supplier name the posted row is never saved.
   */
  function FileStockIn(db: Db, s: StockIn): Db {
    if Truthy(s.supplier) then
      var name := s.supplier.value;
      var d := AddStockIn(GetOrCreate(db, InventorySupplierFolders, name).0, s.(supplierFolder := Some(name)));
      d.(stockIns := BackfillStockIns(d.stockIns, name, true))
    else
      db
  }

  /** `juban_stock_in_create` on a posted form; `None` is a form that did not validate. */
  function StockInCreate(db: Db, form: Option<StockIn>): (Db, StockInOutcome) {
    if form.None? then (db, StockInRejected)
    else
      var s := form.value;
      if !ProductExists(db.items, s.particulars) then (db, UnknownParticulars)
      else
        var d := FileStockIn(db, s);
        var matches := CodeSupplierMatches(d.items, s.itemCode, s.supplier);
        if matches == {} then (AddItem(d, StockInItem(s)), Deposited(true))
        else if |matches| > 1 then (d, StockInFailed)
        else
          var k := MinKey(matches);
          var it := Deposit(d.items[k], s.quantityIn);
          if it.None? then (d, StockInFailed)
          else (d.(items := d.items[k := it.value]), Deposited(false))
  }

  /** An invalid form, or particulars naming no product, change nothing; every other outcome gets past both checks. */
  lemma StockInCreateRejects(db: Db, form: Option<StockIn>)
    ensures var r := StockInCreate(db, form);
      && (r.1 == StockInRejected <==> form.None?)
      && (r.1 == UnknownParticulars <==> form.Some? && !ProductExists(db.items, form.value.particulars))
      && (r.1.StockInRejected? || r.1.UnknownParticulars? ==> r.0 == db)
  {
  }

  /** The supplier step leaves the item, history and cart tables alone. */
  lemma FileStockInKeepsItems(db: Db, s: StockIn)
    ensures var d := FileStockIn(db, s);
      && d.items == db.items && d.history == db.history && d.cart == db.cart
      && d.nextItem == db.nextItem && d.sites == db.sites && d.clients == db.clients
  {
  }

  /**
   * With a supplier name the folder exists afterwards, the posted row is saved
   * filed under it, the supplier's unfiled rows are filed there and every other
   * row is unchanged; without one the stock-in table does not change.
   */
  lemma StockInCreateFilesSupplier(db: Db, s: StockIn)
    requires ProductExists(db.items, s.particulars)
    ensures var r := StockInCreate(db, Some(s)).0;
      if Truthy(s.supplier) then
        var name := s.supplier.value;
        && r.inventorySuppliers == db.inventorySuppliers + {name}
        && r.stockIns.Keys == db.stockIns.Keys + {db.nextStockIn}
        && r.stockIns[db.nextStockIn] == s.(supplierFolder := Some(name))
        && forall j :: j in db.stockIns && j != db.nextStockIn ==>
             r.stockIns[j] == (if db.stockIns[j].supplier == Some(name) && db.stockIns[j].supplierFolder.None?
                               then db.stockIns[j].(supplierFolder := Some(name)) else db.stockIns[j])
      else
        r.stockIns == db.stockIns && r.inventorySuppliers == db.inventorySuppliers
  {
    FileStockInKeepsItems(db, s);
  }

  /** A new (item code, supplier) pair creates one item: nothing withdrawn yet and the deposit as its stock. */
  lemma StockInCreateNewPair(db: Db, s: StockIn)
    requires ProductExists(db.items, s.particulars)
    requires CodeSupplierMatches(db.items, s.itemCode, s.supplier) == {}
    ensures var r := StockInCreate(db, Some(s));
      var it := r.0.items[db.nextItem];
      && r.1 == Deposited(true)
      && r.0.items == db.items[db.nextItem := it]
      && it.itemCode == s.itemCode && it.supplier == s.supplier && it.productName == s.particulars
      && it.unit == s.unit && it.quantityIn == s.quantityIn && it.quantityOut == Some(0) && it.stock == s.quantityIn
  {
    FileStockInKeepsItems(db, s);
  }

  /**
   * An existing pair gets the deposit added to its quantity in and its stock
   * rebalanced; a null operand leaves every item as it was. No other item
   * changes either way.
   */
  lemma StockInCreateExisting(db: Db, s: StockIn, k: nat)
    requires ProductExists(db.items, s.particulars)
    requires CodeSupplierMatches(db.items, s.itemCode, s.supplier) == {k}
    ensures var r := StockInCreate(db, Some(s));
      var old_ := db.items[k];
      if old_.quantityIn.Some? && old_.quantityOut.Some? && s.quantityIn.Some? then
        && r.1 == Deposited(false)
        && r.0.items.Keys == db.items.Keys
        && r.0.items[k].quantityIn == Some(old_.quantityIn.value + s.quantityIn.value)
        && r.0.items[k].quantityOut == old_.quantityOut
        && r.0.items[k].stock == Some(old_.quantityIn.value + s.quantityIn.value - old_.quantityOut.value)
        && r.0.items[k].(quantityIn := old_.quantityIn, stock := old_.stock) == old_
        && forall j :: j in db.items && j != k ==> r.0.items[j] == db.items[j]
      else
        r.1 == StockInFailed && r.0.items == db.items
  {
    FileStockInKeepsItems(db, s);
    assert k in CodeSupplierMatches(db.items, s.itemCode, s.supplier);
    DepositBalances(db.items[k], s.quantityIn);
  }

  /** Several rows with the pair make `get_or_create` raise after the supplier step has been saved. */
  lemma StockInCreateAmbiguous(db: Db, s: StockIn)
    requires ProductExists(db.items, s.particulars)
    requires |CodeSupplierMatches(db.items, s.itemCode, s.supplier)| > 1
    ensures StockInCreate(db, Some(s)) == (FileStockIn(db, s), StockInFailed)
    ensures StockInCreate(db, Some(s)).0.items == db.items
  {
    FileStockInKeepsItems(db, s);
  }

  lemma FileStockInPreservesValid(db: Db, s: StockIn)
    requires Valid(db)
    ensures Valid(FileStockIn(db, s))
  {
    if Truthy(s.supplier) {
      var name := s.supplier.value;
      GetOrCreatePreservesValid(db, InventorySupplierFolders, name);
      var g := GetOrCreate(db, InventorySupplierFolders, name).0;
      assert name in g.inventorySuppliers;
      var d := AddStockIn(g, s.(supplierFolder := Some(name)));
      assert StockInsOk(d);
      var r := FileStockIn(db, s);
      assert r == d.(stockIns := BackfillStockIns(d.stockIns, name, true));
      assert StockInsOk(r);
    }
  }

  /** A stock-in keeps the store's integrity, whatever its outcome. */
  lemma StockInCreatePreservesValid(db: Db, form: Option<StockIn>)
    requires Valid(db)
    ensures Valid(StockInCreate(db, form).0)
  {
    if form.Some? && ProductExists(db.items, form.value.particulars) {
      var s := form.value;
      FileStockInPreservesValid(db, s);
      FileStockInKeepsItems(db, s);
      var d := FileStockIn(db, s);
      var matches := CodeSupplierMatches(d.items, s.itemCode, s.supplier);
      if matches != {} && |matches| <= 1 {
        var k := MinKey(matches);
        DepositBalances(d.items[k], s.quantityIn);
      }
    }
  }

  /** A stock-in never touches what was withdrawn, so the history still accounts for every item's quantity out. */
  lemma StockInCreatePreservesReconciled(db: Db, form: Option<StockIn>)
    requires Valid(db) && Ledger.Reconciled(db)
    ensures Ledger.Reconciled(StockInCreate(db, form).0)
  {
    if form.Some? && ProductExists(db.items, form.value.particulars) {
      var s := form.value;
      FileStockInKeepsItems(db, s);
      var d := FileStockIn(db, s);
      var matches := CodeSupplierMatches(d.items, s.itemCode, s.supplier);
      if matches == {} {
        NextItemHasNoHistory(db);
        DeltaSumAbsent(db.history, db.nextItem);
      } else if |matches| <= 1 {
        var k := MinKey(matches);
        DepositBalances(d.items[k], s.quantityIn);
      }
    }
  }

  // ----------------------------------------------------------------------
  // juban_handle_uploaded_stock_in_file, one parsed row at a time
  // ----------------------------------------------------------------------

  /** The items the import looks up: same item code, supplier, product name and unit. */
  function RowMatches(items: map<nat, Item>, s: StockIn): set<nat> {
    set k | k in items && items[k].itemCode == s.itemCode && items[k].supplier == s.supplier
                       && items[k].productName == s.particulars && items[k].unit == s.unit
  }

  /** The item an import row creates: as a posted stock-in would, plus the row's delivery and invoice references. */
  function ImportedItem(s: StockIn): Item {
    StockInItem(s).(refs := s.refs)
  }

  /**
   * One row of the import. The row is always saved, filed under its
   * supplier's folder (got or created) when it names one; then the first
   * matching item gets the deposit, or a new item is created. False is the
   * TypeError a null operand raises, after the row was saved.
   */
  function ImportRow(db: Db, s: StockIn): (Db, bool) {
    var d :=
      if Truthy(s.supplier) then
        AddStockIn(GetOrCreate(db, InventorySupplierFolders, s.supplier.value).0,
                   s.(supplierFolder := Some(s.supplier.value)))
      else
        AddStockIn(db, s.(supplierFolder := None));
    var matches := RowMatches(d.items, s);
    if matches == {} then (AddItem(d, ImportedItem(s)), true)
    else
      var it := Deposit(d.items[MinKey(matches)], s.quantityIn);
      if it.None? then (d, false)
      else (d.(items := d.items[MinKey(matches) := it.value]), true)
  }

  /**
   * The import loop: rows are applied in order and the first one that raises
   * ends the import, reporting its index; earlier rows stay applied.
   */
  function ImportRows(db: Db, rows: seq<StockIn>): (Db, Option<nat>)
    decreases |rows|
  {
    if rows == [] then (db, None)
    else
      var before := ImportRows(db, rows[..|rows| - 1]);
      if before.1.Some? then before
      else
        var r := ImportRow(before.0, rows[|rows| - 1]);
        (r.0, if r.1 then None else Some(|rows| - 1))
  }

  /**
   * A row always adds exactly one stock-in row, filed under its supplier when
   * it names one. With no match it creates one item; otherwise the
   * lowest-keyed match gets the deposit, or, on a null operand, no item
   * changes.
   */
  lemma ImportRowEffect(db: Db, s: StockIn)
    ensures var r := ImportRow(db, s);
      && r.0.stockIns == db.stockIns[db.nextStockIn :=
           s.(supplierFolder := if Truthy(s.supplier) then Some(s.supplier.value) else None)]
      && r.0.nextStockIn == db.nextStockIn + 1
      && (Truthy(s.supplier) ==> s.supplier.value in r.0.inventorySuppliers)
      && r.0.history == db.history && r.0.cart == db.cart
      && (RowMatches(db.items, s) == {} ==>
            r.1 && r.0.items == db.items[db.nextItem := ImportedItem(s)])
      && (RowMatches(db.items, s) != {} ==>
            var k := MinKey(RowMatches(db.items, s));
            && (forall j :: j in RowMatches(db.items, s) ==> k <= j)
            && (r.1 <==> Deposit(db.items[k], s.quantityIn).Some?)
            && r.0.items == (if r.1 then db.items[k := Deposit(db.items[k], s.quantityIn).value] else db.items))
  {
  }

  /** A row that fails is the only one that raised: every earlier row went through and none later was applied. */
  lemma {:induction false} ImportRowsStops(db: Db, rows: seq<StockIn>)
    ensures var r := ImportRows(db, rows);
      r.1.Some? ==>
        && r.1.value < |rows|
        && var before := ImportRows(db, rows[..r.1.value]);
           && before.1.None?
           && r.0 == ImportRow(before.0, rows[r.1.value]).0
           && !ImportRow(before.0, rows[r.1.value]).1
    decreases |rows|
  {
    if rows != [] {
      var init := rows[..|rows| - 1];
      ImportRowsStops(db, init);
      var p := ImportRows(db, init);
      if p.1.Some? {
        var i := p.1.value;
        assert ImportRows(db, rows) == p;
        assert init[..i] == rows[..i];
        assert init[i] == rows[i];
      } else {
        var r := ImportRow(p.0, rows[|rows| - 1]);
        assert ImportRows(db, rows) == (r.0, if r.1 then None else Some(|rows| - 1));
      }
    }
  }

  lemma ImportRowPreservesValid(db: Db, s: StockIn)
    requires Valid(db)
    ensures Valid(ImportRow(db, s).0)
  {
    var g := if Truthy(s.supplier) then GetOrCreate(db, InventorySupplierFolders, s.supplier.value).0 else db;
    if Truthy(s.supplier) {
      GetOrCreatePreservesValid(db, InventorySupplierFolders, s.supplier.value);
    }
    var d := AddStockIn(g, s.(supplierFolder := if Truthy(s.supplier) then Some(s.supplier.value) else None));
    AddStockInPreservesValid(g, s.(supplierFolder := if Truthy(s.supplier) then Some(s.supplier.value) else None));
    var matches := RowMatches(d.items, s);
    if matches == {} {
      AddItemPreservesValid(d, ImportedItem(s));
    } else {
      var k := MinKey(matches);
      DepositBalances(d.items[k], s.quantityIn);
      if Deposit(d.items[k], s.quantityIn).Some? {
        SetItemPreservesValid(d, k, Deposit(d.items[k], s.quantityIn).value);
      }
    }
  }

  /** An import keeps the store's integrity, up to and including the row that raised. */
  lemma {:induction false} ImportRowsPreservesValid(db: Db, rows: seq<StockIn>)
    requires Valid(db)
    ensures Valid(ImportRows(db, rows).0)
    decreases |rows|
  {
    if rows != [] {
      var init := rows[..|rows| - 1];
      ImportRowsPreservesValid(db, init);
      ImportRowPreservesValid(ImportRows(db, init).0, rows[|rows| - 1]);
    }
  }

  lemma ImportRowPreservesReconciled(db: Db, s: StockIn)
    requires Valid(db) && Ledger.Reconciled(db)
    ensures Ledger.Reconciled(ImportRow(db, s).0)
  {
    ImportRowEffect(db, s);
    var matches := RowMatches(db.items, s);
    if matches == {} {
      NextItemHasNoHistory(db);
      DeltaSumAbsent(db.history, db.nextItem);
    } else {
      DepositBalances(db.items[MinKey(matches)], s.quantityIn);
    }
  }

  /** Imports only deposit, so the history still accounts for every item's quantity out. */
  lemma {:induction false} ImportRowsPreservesReconciled(db: Db, rows: seq<StockIn>)
    requires Valid(db) && Ledger.Reconciled(db)
    ensures Ledger.Reconciled(ImportRows(db, rows).0)
    decreases |rows|
  {
    if rows != [] {
      var init := rows[..|rows| - 1];
      ImportRowsPreservesValid(db, init);
      ImportRowsPreservesReconciled(db, init);
      ImportRowPreservesReconciled(ImportRows(db, init).0, rows[|rows| - 1]);
    }
  }

  // ----------------------------------------------------------------------
  // juban_inventory_form
  // ----------------------------------------------------------------------

  /** The validated fields of `JubanItemInventoryListForm`. */
  datatype ItemFields = ItemFields(
    itemCode: Text, productName: Text, unit: Text,
    quantityIn: Decimal, quantityOut: Decimal, stock: Decimal, supplier: Text)

  datatype ItemFormOutcome = DuplicateName | ItemRejected | ItemAdded(id: nat)

  /** `x or 0` on a nullable decimal. */
  function OrZero(q: Decimal): int {
    if q.Some? then q.value else 0
  }

  /** The row the item form saves: the form's columns, null totals counted as 0, stock recomputed. */
  function FormItem(f: ItemFields): Item {
    BlankItem().(itemCode := f.itemCode, productName := f.productName, unit := f.unit,
                 supplier := f.supplier, quantityIn := Some(OrZero(f.quantityIn)),
                 quantityOut := Some(OrZero(f.quantityOut)),
                 stock := Some(OrZero(f.quantityIn) - OrZero(f.quantityOut)))
  }

  /**
   * `juban_inventory_form`: the raw posted product name is checked against the
   * existing ones first, then the form's validity; `None` is a form that did
   * not validate.
   */
  function InventoryFormCreate(db: Db, posted: Text, form: Option<ItemFields>): (Db, ItemFormOutcome) {
    if ProductExists(db.items, posted) then (db, DuplicateName)
    else if form.None? then (db, ItemRejected)
    else (AddItem(db, FormItem(form.value)), ItemAdded(db.nextItem))
  }

  /**
   * A posted name some item already carries is refused with no change;
   * otherwise a valid form adds exactly one item, with the form's columns,
   * both totals set (null counting as 0) and its stock their difference.
   */
  lemma InventoryFormCreateEffect(db: Db, posted: Text, form: Option<ItemFields>)
    ensures var r := InventoryFormCreate(db, posted, form);
      && (r.1 == DuplicateName <==> ProductExists(db.items, posted))
      && (r.1 == ItemRejected <==> !ProductExists(db.items, posted) && form.None?)
      && (!r.1.ItemAdded? ==> r.0 == db)
      && (r.1.ItemAdded? ==>
            var f := form.value;
            var it := r.0.items[r.1.id];
            && r.1.id == db.nextItem
            && r.0.items == db.items[r.1.id := it]
            && it.productName == f.productName && it.itemCode == f.itemCode && it.unit == f.unit
            && it.supplier == f.supplier
            && it.quantityIn == Some(OrZero(f.quantityIn)) && it.quantityOut == Some(OrZero(f.quantityOut))
            && Balanced(it) && it.price == 0 && it.totalAmount == 0)
  {
  }

  lemma InventoryFormCreatePreservesValid(db: Db, posted: Text, form: Option<ItemFields>)
    requires Valid(db)
    ensures Valid(InventoryFormCreate(db, posted, form).0)
  {
  }

  /**
   * The history stays in step with the quantities out when the new item
   * starts with nothing withdrawn.
   */
  lemma InventoryFormCreateReconciled(db: Db, posted: Text, form: Option<ItemFields>)
    requires Valid(db) && Ledger.Reconciled(db)
    requires form.Some? ==> OrZero(form.value.quantityOut) == 0
    ensures Ledger.Reconciled(InventoryFormCreate(db, posted, form).0)
  {
    NextItemHasNoHistory(db);
    DeltaSumAbsent(db.history, db.nextItem);
  }

  /** Every item carries a different product name. */
  ghost predicate NamesUnique(items: map<nat, Item>) {
    forall j, k :: j in items && k in items && items[j].productName == items[k].productName ==> j == k
  }

  /**
   * When the form's product name is the posted one, the guard keeps product
   * names unique.
   */
  lemma InventoryFormCreateKeepsNamesUnique(db: Db, posted: Text, form: Option<ItemFields>)
    requires Valid(db) && NamesUnique(db.items)
    requires form.Some? ==> form.value.productName == posted
    ensures NamesUnique(InventoryFormCreate(db, posted, form).0.items)
  {
  }

  // ----------------------------------------------------------------------
  // juban_inventory_edit
  // ----------------------------------------------------------------------

  datatype EditOutcome =
    | EditNotFound        // no item has the id (404)
    | EditFailed          // the form's clean or a merge step raised on a null operand
    | EditRejected        // the form did not validate
    | Merged(into: nat)   // the edit was folded into the item with the same supplier and name
    | Saved

  /** A cleaned character field: a string, or null. */
  function TextOf(v: Value): Text {
    if v.Str? then Some(v.s) else None
  }

  /** A cleaned decimal field: a number, or null. */
  function DecimalOf(v: Value): Decimal {
    if v.Num? then Some(v.n) else None
  }

  /** `construct_instance`: the quantity form's fields present in `cleaned_data` are written onto the item. */
  function Construct(it: Item, c: Cleaned): Item {
    it.(productName := if "po_product_name" in c then TextOf(c["po_product_name"]) else it.productName,
        quantityIn := if "quantity_in" in c then DecimalOf(c["quantity_in"]) else it.quantityIn,
        quantityOut := if "quantity_out" in c then DecimalOf(c["quantity_out"]) else it.quantityOut,
        stock := if "stock" in c then DecimalOf(c["stock"]) else it.stock,
        supplier := if "supplier" in c then TextOf(c["supplier"]) else it.supplier)
  }

  /** The other items with the edited item's supplier and product name. */
  function Twins(items: map<nat, Item>, id: nat, u: Item): set<nat> {
    set k | k in items && k != id && items[k].supplier == u.supplier && items[k].productName == u.productName
  }

  /** The existing item with the edited quantities added to its own and its stock recomputed. */
  function MergeInto(e: Item, u: Item): Option<Item> {
    if e.quantityIn.None? || u.quantityIn.None? || e.quantityOut.None? || u.quantityOut.None? then None
    else
      var inn := e.quantityIn.value + u.quantityIn.value;
      var out := e.quantityOut.value + u.quantityOut.value;
      Some(e.(quantityIn := Some(inn), quantityOut := Some(out), stock := Some(inn - out)))
  }

  /**
   * `juban_inventory_edit` on a POST: `cleaned` is the form's data after field
   * validation and `valid` whether the form has no errors. The quantity
   * form's clean runs first; then the edited values either merge into a twin
   * (the lowest-keyed one), deleting the edited item, or are saved on it.
   */
  function InventoryEdit(db: Db, id: nat, cleaned: Cleaned, valid: bool): (Db, EditOutcome) {
    if id !in db.items then (db, EditNotFound)
    else
      var c := JubanForms.QuantityClean(cleaned);
      if c.None? then (db, EditFailed)
      else if !valid then (db, EditRejected)
      else
        var u := Construct(db.items[id], c.value);
        var twins := Twins(db.items, id, u);
        if twins != {} then
          var k := MinKey(twins);
          var m := MergeInto(db.items[k], u);
          if m.None? then (db, EditFailed)
          else (DeleteItems(db.(items := db.items[k := m.value]), {id}), Merged(k))
        else if u.quantityIn.None? || u.quantityOut.None? then (db, EditFailed)
        else (db.(items := db.items[id := u.(stock := Some(u.quantityIn.value - u.quantityOut.value))]), Saved)
  }

  /**
   * A merge adds the edited in and out quantities to the twin's, rebalances
   * the twin and deletes the edited item together with its history entries
   * and cart lines; no other item changes.
   */
  lemma InventoryEditMerges(db: Db, id: nat, cleaned: Cleaned, valid: bool)
    requires InventoryEdit(db, id, cleaned, valid).1.Merged?
    ensures var r := InventoryEdit(db, id, cleaned, valid);
      var k := r.1.into;
      var u := Construct(db.items[id], JubanForms.QuantityClean(cleaned).value);
      && id in db.items && k in db.items && k != id
      && db.items[k].supplier == u.supplier && db.items[k].productName == u.productName
      && (forall j :: j in Twins(db.items, id, u) ==> k <= j)
      && r.0.items.Keys == db.items.Keys - {id}
      && r.0.items[k].quantityIn == Some(db.items[k].quantityIn.value + u.quantityIn.value)
      && r.0.items[k].quantityOut == Some(db.items[k].quantityOut.value + u.quantityOut.value)
      && Balanced(r.0.items[k])
      && (forall j :: j in r.0.items && j != k ==> r.0.items[j] == db.items[j])
      && (forall e :: e in r.0.history ==> e.item != id)
      && (forall c :: c in r.0.cart ==> r.0.cart[c].item != id)
  {
    var r := InventoryEdit(db, id, cleaned, valid);
    forall e | e in r.0.history ensures e.item != id {
      var d := db.(items := db.items[r.1.into := MergeInto(db.items[r.1.into], Construct(db.items[id], JubanForms.QuantityClean(cleaned).value)).value]);
      assert r.0 == DeleteItems(d, {id});
    }
  }

  /**
   * Without a twin the edited item is saved with the form's values and its
   * stock recomputed from them; only that item changes.
   */
  lemma InventoryEditSaves(db: Db, id: nat, cleaned: Cleaned, valid: bool)
    requires InventoryEdit(db, id, cleaned, valid).1 == Saved
    ensures var r := InventoryEdit(db, id, cleaned, valid);
      var u := Construct(db.items[id], JubanForms.QuantityClean(cleaned).value);
      && id in db.items && Twins(db.items, id, u) == {}
      && r.0.items.Keys == db.items.Keys
      && r.0.items[id].(stock := u.stock) == u
      && Balanced(r.0.items[id])
      && (forall j :: j in db.items && j != id ==> r.0.items[j] == db.items[j])
      && r.0.history == db.history && r.0.cart == db.cart
  {
  }

  /** A missing item, a raising clean or an invalid form change nothing. */
  lemma InventoryEditRefusals(db: Db, id: nat, cleaned: Cleaned, valid: bool)
    ensures var r := InventoryEdit(db, id, cleaned, valid);
      && (r.1 == EditNotFound <==> id !in db.items)
      && (id in db.items && JubanForms.QuantityClean(cleaned).None? ==> r.1 == EditFailed)
      && (id in db.items && JubanForms.QuantityClean(cleaned).Some? && !valid ==> r.1 == EditRejected)
      && (!r.1.Merged? && r.1 != Saved ==> r.0 == db)
  {
  }

  /** An edit keeps the store's integrity. */
  lemma InventoryEditPreservesValid(db: Db, id: nat, cleaned: Cleaned, valid: bool)
    requires Valid(db)
    ensures Valid(InventoryEdit(db, id, cleaned, valid).0)
  {
    var r := InventoryEdit(db, id, cleaned, valid);
    if r.1.Merged? {
      var u := Construct(db.items[id], JubanForms.QuantityClean(cleaned).value);
      var k := r.1.into;
      var d := db.(items := db.items[k := MergeInto(db.items[k], u).value]);
      SetItemPreservesValid(db, k, MergeInto(db.items[k], u).value);
      DeleteItemsPreservesValid(d, {id});
    } else if r.1 == Saved {
      var u := Construct(db.items[id], JubanForms.QuantityClean(cleaned).value);
      SetItemPreservesValid(db, id, u.(stock := Some(u.quantityIn.value - u.quantityOut.value)));
    }
  }

  // ----------------------------------------------------------------------
  // The item-code list refresh in juban_inventory_table
  // ----------------------------------------------------------------------

  /** The code list has an entry with the item's code and product name. */
  predicate Listed(codes: seq<CodeEntry>, it: Item) {
    exists i :: 0 <= i < |codes| && codes[i].itemCode == it.itemCode && Some(codes[i].productName) == it.productName
  }

  /**
   * The refresh loop over the items in `order`: an item whose code and name
   * are not listed yet gets an entry. An item with a null product name is
   * never listed, and creating its entry violates the NOT NULL column: the
   * loop stops there (false), keeping the entries created before it.
   */
  function SyncCodes(codes: seq<CodeEntry>, items: map<nat, Item>, order: seq<nat>): (seq<CodeEntry>, bool)
    requires forall i :: 0 <= i < |order| ==> order[i] in items
    decreases |order|
  {
    if order == [] then (codes, true)
    else
      var it := items[order[0]];
      if Listed(codes, it) then SyncCodes(codes, items, order[1..])
      else if it.productName.None? then (codes, false)
      else SyncCodes(codes + [CodeEntry(it.itemCode, it.productName.value, it.unit)], items, order[1..])
  }

  /** The entry the refresh creates for an item with a product name. */
  predicate EntryOf(e: CodeEntry, it: Item) {
    e.itemCode == it.itemCode && it.productName == Some(e.productName) && e.unit == it.unit
  }

  /** The refresh only appends, and every appended entry is the code, name and unit of an item it went through. */
  lemma {:induction false} SyncCodesAppends(codes: seq<CodeEntry>, items: map<nat, Item>, order: seq<nat>)
    requires forall i :: 0 <= i < |order| ==> order[i] in items
    ensures var r := SyncCodes(codes, items, order).0;
      && codes <= r
      && forall j :: |codes| <= j < |r| ==> exists i :: 0 <= i < |order| && EntryOf(r[j], items[order[i]])
    decreases |order|
  {
    if order != [] {
      var it := items[order[0]];
      var next := if Listed(codes, it) || it.productName.None? then codes
                  else codes + [CodeEntry(it.itemCode, it.productName.value, it.unit)];
      if Listed(codes, it) || it.productName.Some? {
        SyncCodesAppends(next, items, order[1..]);
        var r := SyncCodes(next, items, order[1..]).0;
        forall j | |codes| <= j < |r|
          ensures exists i :: 0 <= i < |order| && EntryOf(r[j], items[order[i]])
        {
          if j < |next| {
            assert r[j] == next[j] && EntryOf(r[j], items[order[0]]);
          } else {
            var i :| 0 <= i < |order[1..]| && EntryOf(r[j], items[order[1..][i]]);
            assert order[1..][i] == order[i + 1];
          }
        }
      }
    }
  }

  lemma ListedGrows(codes: seq<CodeEntry>, more: seq<CodeEntry>, it: Item)
    requires Listed(codes, it)
    ensures Listed(codes + more, it)
  {
    var i :| 0 <= i < |codes| && codes[i].itemCode == it.itemCode && Some(codes[i].productName) == it.productName;
    assert (codes + more)[i] == codes[i];
  }

  /**
   * The refresh fails exactly when some item to be listed has a null product
   * name; when it succeeds every listed item's code and name are in the list.
   */
  lemma {:induction false} SyncCodesCovers(codes: seq<CodeEntry>, items: map<nat, Item>, order: seq<nat>)
    requires forall i :: 0 <= i < |order| ==> order[i] in items
    ensures var r := SyncCodes(codes, items, order);
      && (!r.1 <==> exists i :: 0 <= i < |order| && items[order[i]].productName.None?)
      && (r.1 ==> forall i :: 0 <= i < |order| ==> Listed(r.0, items[order[i]]))
    decreases |order|
  {
    if order != [] {
      var it := items[order[0]];
      var next := if Listed(codes, it) || it.productName.None? then codes
                  else codes + [CodeEntry(it.itemCode, it.productName.value, it.unit)];
      SyncCodesCovers(next, items, order[1..]);
      SyncCodesAppends(next, items, order[1..]);
      var r := SyncCodes(codes, items, order);
      if it.productName.None? {
        assert !Listed(codes, it);
      } else {
        var rest := SyncCodes(next, items, order[1..]);
        assert r == rest;
        assert Listed(next, it) by {
          if !Listed(codes, it) {
            assert next[|codes|].itemCode == it.itemCode;
          }
        }
        assert rest.0 == next + rest.0[|next|..];
        ListedGrows(next, rest.0[|next|..], it);
        if rest.1 {
          forall i | 0 <= i < |order| ensures Listed(r.0, items[order[i]]) {
            if i > 0 {
              assert order[i] == order[1..][i - 1];
            }
          }
        }
        if exists i :: 0 <= i < |order| && items[order[i]].productName.None? {
          var i :| 0 <= i < |order| && items[order[i]].productName.None?;
          assert i > 0;
          assert order[1..][i - 1] == order[i];
        }
        if exists i :: 0 <= i < |order[1..]| && items[order[1..][i]].productName.None? {
          var i :| 0 <= i < |order[1..]| && items[order[1..][i]].productName.None?;
          assert order[1..][i] == order[i + 1];
        }
      }
    }
  }

  /** A list in which every item to refresh is already listed is left as it is. */
  lemma {:induction false} SyncCodesNothingToAdd(codes: seq<CodeEntry>, items: map<nat, Item>, order: seq<nat>)
    requires forall i :: 0 <= i < |order| ==> order[i] in items
    requires forall i :: 0 <= i < |order| ==> Listed(codes, items[order[i]])
    ensures SyncCodes(codes, items, order) == (codes, true)
    decreases |order|
  {
    if order != [] {
      assert Listed(codes, items[order[0]]);
      forall i | 0 <= i < |order[1..]| ensures Listed(codes, items[order[1..][i]]) {
        assert order[1..][i] == order[i + 1];
      }
      SyncCodesNothingToAdd(codes, items, order[1..]);
    }
  }

  /** Refreshing again right after a successful refresh adds nothing. */
  lemma SyncCodesIdempotent(codes: seq<CodeEntry>, items: map<nat, Item>, order: seq<nat>)
    requires forall i :: 0 <= i < |order| ==> order[i] in items
    requires SyncCodes(codes, items, order).1
    ensures var r := SyncCodes(codes, items, order).0;
      SyncCodes(r, items, order) == (r, true)
  {
    SyncCodesCovers(codes, items, order);
    SyncCodesNothingToAdd(SyncCodes(codes, items, order).0, items, order);
  }

  /** No two entries share both the item code and the product name. */
  predicate PairsUnique(codes: seq<CodeEntry>) {
    forall i, j :: 0 <= i < j < |codes| ==>
      codes[i].itemCode != codes[j].itemCode || codes[i].productName != codes[j].productName
  }

  /** The refresh never lists a code and name twice. */
  lemma {:induction false} SyncCodesKeepsPairsUnique(codes: seq<CodeEntry>, items: map<nat, Item>, order: seq<nat>)
    requires forall i :: 0 <= i < |order| ==> order[i] in items
    requires PairsUnique(codes)
    ensures PairsUnique(SyncCodes(codes, items, order).0)
    decreases |order|
  {
    if order != [] {
      var it := items[order[0]];
      if !Listed(codes, it) && it.productName.Some? {
        var e := CodeEntry(it.itemCode, it.productName.value, it.unit);
        var next := codes + [e];
        forall i, j | 0 <= i < j < |next|
          ensures next[i].itemCode != next[j].itemCode || next[i].productName != next[j].productName
        {
          if j == |codes| {
            assert next[i] == codes[i];
            assert next[j] == e;
          } else {
            assert next[i] == codes[i] && next[j] == codes[j];
          }
        }
        SyncCodesKeepsPairsUnique(next, items, order[1..]);
      } else if Listed(codes, it) {
        SyncCodesKeepsPairsUnique(codes, items, order[1..]);
      }
    }
  }

  /** The refresh on the store; false is the IntegrityError that ends the request. */
  function SyncCodeList(db: Db, order: seq<nat>): (Db, bool)
    requires forall i :: 0 <= i < |order| ==> order[i] in db.items
  {
    var r := SyncCodes(db.codeList, db.items, order);
    (db.(codeList := r.0), r.1)
  }
}
