/**
 * The po app's tables. Its items, history, cart, stock-in rows and the
 * site, client, inventory-supplier and supplier folders have the same
 * uniqueness and on-delete rules as the JubanShop ones, so they are held in a
 * `JubanModels.Db`. Its code list differs in its columns: `item_code` and
 * `unit` are NOT NULL in the po app but nullable in the shared `CodeEntry`.
 * No operation here writes the po code list, so that difference is not
 * enforced. What the po app adds: archive folders (whose
 * names need not be unique), purchase orders, and the purchase-order cart.
 */
module PoModels {
  import opened Wrappers
  import opened JubanModels
  import Badges

  /** An `ArchiveFolder` row; `createdAt` is the creation time, supplied by the caller. */
  datatype ArchiveFolder = ArchiveFolder(name: string, createdAt: int)

  /**
   * A `PurchaseOrder` row. The quantity is a whole number (an integer
   * column), price and total amount nullable two-place decimals in
   * hundredths; `folder` is the primary key of an archive folder and
   * `supplierFolder` the name of a supplier folder.
   */
  datatype PurchaseOrder = PurchaseOrder(
    poNumber: Text,
    itemCode: Text,
    particulars: Text,
    quantity: Option<int>,
    unit: Text,
    price: Decimal,
    totalAmount: Decimal,
    supplier: Text,
    remarks2: Text,
    folder: Option<nat>,
    archived: bool,
    supplierFolder: Text)
  {
    function Remarks2Badge(): string {
      Badges.Remarks2Colour(remarks2)
    }
  }

  /** A `poCart` row: a purchase order put in the cart, with its own reference and status. */
  datatype PoCartRow = PoCartRow(order: nat, fbbdRef: Text, remarks2: Text)

  /** The po store. The `next` counters are the auto-increment primary keys. */
  datatype PoDb = PoDb(
    inventory: Db,
    archives: map<nat, ArchiveFolder>,
    orders: map<nat, PurchaseOrder>,
    poCart: map<nat, PoCartRow>,
    nextArchive: nat,
    nextOrder: nat,
    nextPoCart: nat)

  predicate OrderRefsOk(po: PurchaseOrder, archives: set<nat>, suppliers: set<string>) {
    && (po.folder.Some? ==> po.folder.value in archives)
    && (po.supplierFolder.Some? ==> po.supplierFolder.value in suppliers)
  }

  /** Every foreign key points at an existing row and every primary key lies below its counter. */
  ghost predicate PoValid(db: PoDb) {
    && Valid(db.inventory)
    && (forall a :: a in db.archives ==> a < db.nextArchive)
    && (forall o :: o in db.orders ==>
          o < db.nextOrder && OrderRefsOk(db.orders[o], db.archives.Keys, db.inventory.suppliers))
    && (forall c :: c in db.poCart ==> c < db.nextPoCart && db.poCart[c].order in db.orders)
  }

  /** A fresh purchase order: every nullable column null, filed nowhere, not archived. */
  function BlankOrder(): (po: PurchaseOrder)
    ensures !po.archived && po.folder.None? && po.supplierFolder.None?
    ensures po.quantity.None? && po.price.None? && po.totalAmount.None? && po.remarks2.None?
  {
    PurchaseOrder(None, None, None, None, None, None, None, None, None, None, false, None)
  }

  /** Saves an archive folder; nothing checks the name, so names may repeat. */
  function AddArchive(db: PoDb, name: string, now: int): (PoDb, nat) {
    (db.(archives := db.archives[db.nextArchive := ArchiveFolder(name, now)], nextArchive := db.nextArchive + 1),
     db.nextArchive)
  }

  /** Saves a purchase order under the next primary key. */
  function AddOrder(db: PoDb, po: PurchaseOrder): (PoDb, nat) {
    (db.(orders := db.orders[db.nextOrder := po], nextOrder := db.nextOrder + 1), db.nextOrder)
  }

  /** Deleting an archive folder: the purchase orders filed in it lose the link (SET_NULL). */
  function DeleteArchive(db: PoDb, id: nat): PoDb {
    db.(archives := map a | a in db.archives && a != id :: db.archives[a],
        orders := map o | o in db.orders ::
          if db.orders[o].folder == Some(id) then db.orders[o].(folder := None) else db.orders[o])
  }

  /**
   * Deleting a supplier folder: the folder goes, and the purchase orders
   * filed under it lose the link (SET_NULL).
   */
  function DeleteSupplierFolder(db: PoDb, name: string): PoDb {
    db.(inventory := DeleteFolder(db.inventory, SupplierFolders, name),
        orders := map o | o in db.orders ::
          if db.orders[o].supplierFolder == Some(name) then db.orders[o].(supplierFolder := None) else db.orders[o])
  }

  /** Deleting a purchase order deletes its cart rows (CASCADE). */
  function DeleteOrder(db: PoDb, id: nat): PoDb {
    db.(orders := map o | o in db.orders && o != id :: db.orders[o],
        poCart := map c | c in db.poCart && db.poCart[c].order != id :: db.poCart[c])
  }

  /** Deleting a site, client or inventory-supplier folder follows the shared rules and leaves the purchase orders alone. */
  function DeleteInventoryFolder(db: PoDb, kind: FolderKind, name: string): PoDb
    requires kind != SupplierFolders
  {
    db.(inventory := DeleteFolder(db.inventory, kind, name))
  }

  /** A new purchase order is not archived and is filed in no folder. */
  lemma NewOrderDefaults(db: PoDb)
    requires PoValid(db)
    ensures var r := AddOrder(db, BlankOrder());
      && r.1 !in db.orders && r.0.orders == db.orders[r.1 := BlankOrder()]
      && !r.0.orders[r.1].archived && r.0.orders[r.1].folder.None?
      && PoValid(r.0)
  {
  }

  /**
   * Unlike the other folders, archive folders may share a name: saving the
   * same name twice gives two folders.
   */
  lemma ArchiveNamesMayRepeat(db: PoDb, name: string, now: int)
    requires PoValid(db)
    ensures var (d1, a1) := AddArchive(db, name, now);
      var (d2, a2) := AddArchive(d1, name, now);
      && a1 != a2 && a1 in d2.archives && a2 in d2.archives
      && d2.archives[a1].name == d2.archives[a2].name == name
      && PoValid(d2)
  {
    var (d1, a1) := AddArchive(db, name, now);
    assert PoValid(d1);
  }

  /**
   * Deleting an archive folder keeps every purchase order; exactly the ones it
   * held lose their folder, nothing else about any order changes, and no
   * order refers to it afterwards.
   */
  lemma DeleteArchiveNullsOrders(db: PoDb, id: nat)
    requires PoValid(db)
    ensures var r := DeleteArchive(db, id);
      && r.orders.Keys == db.orders.Keys
      && id !in r.archives
      && (forall o :: o in r.orders ==>
            r.orders[o].(folder := db.orders[o].folder) == db.orders[o]
            && (r.orders[o].folder.None? <==> db.orders[o].folder.None? || db.orders[o].folder == Some(id)))
      && (forall o :: o in r.orders ==> r.orders[o].folder != Some(id))
      && r.poCart == db.poCart
      && PoValid(r)
  {
  }

  /**
   * Deleting a supplier folder keeps every purchase order, nulling the link of
   * exactly the orders filed under it; the stock-in rows and the other
   * folders are untouched.
   */
  lemma DeleteSupplierFolderNullsOrders(db: PoDb, name: string)
    requires PoValid(db)
    ensures var r := DeleteSupplierFolder(db, name);
      && r.orders.Keys == db.orders.Keys
      && name !in r.inventory.suppliers
      && (forall o :: o in r.orders ==>
            r.orders[o].(supplierFolder := db.orders[o].supplierFolder) == db.orders[o]
            && (r.orders[o].supplierFolder.None? <==>
                  db.orders[o].supplierFolder.None? || db.orders[o].supplierFolder == Some(name)))
      && r.inventory.stockIns == db.inventory.stockIns
      && r.inventory.items == db.inventory.items
      && r.inventory.sites == db.inventory.sites && r.inventory.clients == db.inventory.clients
      && PoValid(r)
  {
    DeleteFolderPreservesValid(db.inventory, SupplierFolders, name);
  }

  /** Deleting a purchase order removes exactly its cart rows and keeps the store consistent. */
  lemma DeleteOrderCascades(db: PoDb, id: nat)
    requires PoValid(db)
    ensures var r := DeleteOrder(db, id);
      && r.orders.Keys == db.orders.Keys - {id}
      && (forall c :: c in r.poCart <==> c in db.poCart && db.poCart[c].order != id)
      && (forall c :: c in r.poCart ==> r.poCart[c] == db.poCart[c])
      && r.archives == db.archives && r.inventory == db.inventory
      && PoValid(r)
  {
  }

  /** Site, client and inventory-supplier deletions keep the store consistent and every purchase order as it was. */
  lemma DeleteInventoryFolderKeepsOrders(db: PoDb, kind: FolderKind, name: string)
    requires PoValid(db) && kind != SupplierFolders
    ensures var r := DeleteInventoryFolder(db, kind, name);
      && r.orders == db.orders && r.poCart == db.poCart
      && Folders(r.inventory, kind) == Folders(db.inventory, kind) - {name}
      && PoValid(r)
  {
    DeleteFolderPreservesValid(db.inventory, kind, name);
  }

  /** The badge of a purchase order and of a stock-in row with the same status agree. */
  lemma BadgesAgree(po: PurchaseOrder, s: StockIn)
    requires po.remarks2 == s.remarks2
    ensures po.Remarks2Badge() == s.Remarks2Badge()
    ensures po.Remarks2Badge() == "#000000" <==> po.remarks2.None? || po.remarks2.value !in Badges.Remarks2Choices
  {
  }
}
