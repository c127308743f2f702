/**
 * The JubanShop tables: items, the withdrawal history, the cart, stock-in rows,
 * the item-code list and four kinds of named folder, with their declared
 * uniqueness and on-delete rules.
 *
 * Every decimal column has two decimal places and is held in hundredths;
 * a nullable column is an Option. A folder is identified by its name, which
 * the tables declare unique per kind, so each kind of folder is a set of
 * names and a foreign key to a folder is the folder's name.
 */
module JubanModels {
  import opened Wrappers
  import Badges

  /** A nullable character column. */
  type Text = Option<string>

  /** A nullable two-place decimal column, in hundredths. */
  type Decimal = Option<int>

  /** `site_or_client_choice`: where a withdrawal went. */
  datatype Kind = Site | Client

  /** Delivery and invoice references copied from the bulk form onto items and history. */
  datatype Refs = Refs(deliveryRef: Text, deliveryNo: Text, invoiceType: Text, invoiceNo: Text)

  /** A `JubanItemInventory` row. */
  datatype Item = Item(
    date: Option<int>,
    itemCode: Text,
    supplier: Text,
    productName: Text,
    newProductName: Text,
    unit: Text,
    quantityIn: Decimal,
    quantityOut: Decimal,
    stock: Decimal,
    price: int,
    totalAmount: int,
    choice: Option<Kind>,
    siteDelivered: Text,
    client: Text,
    siteFolder: Text,
    clientFolder: Text,
    refs: Refs)

  /** A `JubanInventoryHistory` row; `item` is the primary key of the item it records. */
  datatype HistoryEntry = HistoryEntry(
    id: nat,
    item: nat,
    date: Option<int>,
    itemCode: Text,
    supplier: Text,
    productName: Text,
    newProductName: Text,
    unit: Text,
    quantityIn: Decimal,
    quantityOut: Decimal,
    stock: Decimal,
    price: int,
    totalAmount: int,
    siteDelivered: Text,
    siteFolder: Text,
    client: Text,
    clientFolder: Text,
    refs: Refs,
    choice: Option<Kind>,
    remarks: Text)

  /** A `JubanCart` row: a pending withdrawal of `quantity` from item `item`. */
  datatype CartLine = CartLine(item: nat, quantity: int)

  /** The descriptive columns of a stock-in row that no bookkeeping reads. */
  datatype Paperwork = Paperwork(
    date: Option<int>,
    poNumber: Text,
    purchaser: Text,
    fbbdRef: Text,
    remarks: Text,
    paymentReqRef: Text,
    paymentDetails: Text)

  /** A `JubanStockInHistory` row. */
  datatype StockIn = StockIn(
    itemCode: Text,
    particulars: Text,
    quantityIn: Decimal,
    unit: Text,
    supplier: Text,
    refs: Refs,
    paper: Paperwork,
    remarks2: Text,
    supplierFolder: Text)
  {
    function Remarks2Badge(): string {
      Badges.Remarks2Colour(remarks2)
    }
  }

  /** A `JubanItemCodeList` row; the product name column is NOT NULL. */
  datatype CodeEntry = CodeEntry(itemCode: Text, productName: string, unit: Text)

  datatype FolderKind = SiteFolders | ClientFolders | InventorySupplierFolders | SupplierFolders

  /** The whole store. The `next` counters are the auto-increment primary keys. */
  datatype Db = Db(
    items: map<nat, Item>,
    history: seq<HistoryEntry>,
    cart: map<nat, CartLine>,
    stockIns: map<nat, StockIn>,
    codeList: seq<CodeEntry>,
    sites: set<string>,
    clients: set<string>,
    inventorySuppliers: set<string>,
    suppliers: set<string>,
    nextItem: nat,
    nextHistory: nat,
    nextCart: nat,
    nextStockIn: nat)

  function Folders(db: Db, kind: FolderKind): set<string> {
    match kind
    case SiteFolders => db.sites
    case ClientFolders => db.clients
    case InventorySupplierFolders => db.inventorySuppliers
    case SupplierFolders => db.suppliers
  }

  /** The store with no rows. */
  function EmptyDb(): Db {
    Db(map[], [], map[], map[], [], {}, {}, {}, {}, 0, 0, 0, 0)
  }

  /** A fresh item row: price and total amount default to 0, every nullable column is null. */
  function BlankItem(): (it: Item)
    ensures it.price == 0 && it.totalAmount == 0
    ensures it.quantityIn.None? && it.quantityOut.None? && it.stock.None?
    ensures it.siteFolder.None? && it.clientFolder.None? && it.choice.None?
  {
    Item(None, None, None, None, None, None, None, None, None, 0, 0, None, None, None, None, None,
         Refs(None, None, None, None))
  }

  /** A fresh cart row for `item`: quantity defaults to 0. */
  function BlankCartLine(item: nat): (line: CartLine)
    ensures line.item == item && line.quantity == 0
  {
    CartLine(item, 0)
  }

  /** The cached balance agrees with the two running totals (null when either total is null). */
  predicate Balanced(it: Item) {
    if it.quantityIn.Some? && it.quantityOut.Some? then
      it.stock == Some(it.quantityIn.value - it.quantityOut.value)
    else
      it.stock.None?
  }

  predicate ItemRefsOk(it: Item, sites: set<string>, clients: set<string>) {
    && (it.siteFolder.Some? ==> it.siteFolder.value in sites)
    && (it.clientFolder.Some? ==> it.clientFolder.value in clients)
  }

  predicate EntryRefsOk(e: HistoryEntry, sites: set<string>, clients: set<string>) {
    && (e.siteFolder.Some? ==> e.siteFolder.value in sites)
    && (e.clientFolder.Some? ==> e.clientFolder.value in clients)
  }

  predicate IdsIncreasing(h: seq<HistoryEntry>) {
    forall i, j :: 0 <= i < j < |h| ==> h[i].id < h[j].id
  }

  predicate OneLinePerItem(cart: map<nat, CartLine>) {
    forall c, d :: c in cart && d in cart && cart[c].item == cart[d].item ==> c == d
  }

  /**
   * The integrity the schema and the views maintain: every foreign key
   * points at an existing row, primary keys lie below their counters, history
   * ids increase in creation order, at most one cart line per item, and every
   * item's stock is its quantity in minus its quantity out.
   */
  ghost predicate Valid(db: Db) {
    ItemsOk(db) && CartOk(db) && HistoryOk(db) && StockInsOk(db)
  }

  ghost predicate ItemsOk(db: Db) {
    forall k :: k in db.items ==>
      k < db.nextItem && Balanced(db.items[k]) && ItemRefsOk(db.items[k], db.sites, db.clients)
  }

  ghost predicate CartOk(db: Db) {
    && (forall c :: c in db.cart ==> c < db.nextCart && db.cart[c].item in db.items)
    && OneLinePerItem(db.cart)
  }

  ghost predicate HistoryOk(db: Db) {
    && (forall e :: e in db.history ==>
          e.item in db.items && e.id < db.nextHistory && EntryRefsOk(e, db.sites, db.clients))
    && IdsIncreasing(db.history)
  }

  ghost predicate StockInsOk(db: Db) {
    forall s :: s in db.stockIns ==>
      s < db.nextStockIn &&
      (db.stockIns[s].supplierFolder.Some? ==> db.stockIns[s].supplierFolder.value in db.inventorySuppliers)
  }

  lemma EmptyDbValid()
    ensures Valid(EmptyDb())
  {
  }

  /** The history entries whose item survives a deletion of the items `gone`. */
  function KeepHistory(h: seq<HistoryEntry>, gone: set<nat>): (r: seq<HistoryEntry>)
    ensures forall e :: e in r <==> e in h && e.item !in gone
    ensures IdsIncreasing(h) ==> IdsIncreasing(r)
    ensures |r| <= |h|
  {
    if h == [] then []
    else
      var rest := KeepHistory(h[1..], gone);
      if h[0].item in gone then
        KeepTail(h, rest);
        rest
      else
        KeepHead(h, rest);
        [h[0]] + rest
  }

  /** Dropping the head keeps the tail's properties. */
  lemma KeepTail(h: seq<HistoryEntry>, rest: seq<HistoryEntry>)
    requires h != []
    requires forall e :: e in rest ==> e in h[1..]
    requires IdsIncreasing(h[1..]) ==> IdsIncreasing(rest)
    ensures forall e :: e in rest ==> e in h
    ensures IdsIncreasing(h) ==> IdsIncreasing(rest)
  {
    if IdsIncreasing(h) {
      assert IdsIncreasing(h[1..]) by {
        forall i, j | 0 <= i < j < |h[1..]| ensures h[1..][i].id < h[1..][j].id {
          assert h[1..][i] == h[i + 1] && h[1..][j] == h[j + 1];
        }
      }
    }
  }

  /** Keeping the head in front of a kept subsequence of the tail keeps ids increasing. */
  lemma KeepHead(h: seq<HistoryEntry>, rest: seq<HistoryEntry>)
    requires h != []
    requires forall e :: e in rest ==> e in h[1..]
    requires IdsIncreasing(h[1..]) ==> IdsIncreasing(rest)
    ensures forall e :: e in [h[0]] + rest <==> e == h[0] || e in rest
    ensures IdsIncreasing(h) ==> IdsIncreasing([h[0]] + rest)
  {
    if IdsIncreasing(h) {
      KeepTail(h, rest);
      var r := [h[0]] + rest;
      forall i, j | 0 <= i < j < |r| ensures r[i].id < r[j].id {
        if i == 0 {
          assert r[j] == rest[j - 1] && rest[j - 1] in rest;
          var m :| 0 <= m < |h[1..]| && h[1..][m] == r[j];
          assert h[m + 1] == r[j];
        } else {
          assert r[i] == rest[i - 1] && r[j] == rest[j - 1];
        }
      }
    }
  }

  /** Deletes the items `gone`; their history entries and cart lines go with them (CASCADE). */
  function DeleteItems(db: Db, gone: set<nat>): Db {
    db.(items := map k | k in db.items && k !in gone :: db.items[k],
        history := KeepHistory(db.history, gone),
        cart := map c | c in db.cart && db.cart[c].item !in gone :: db.cart[c])
  }

  /** Drops an entry's reference to folder `name` of `kind` (SET_NULL). */
  function ClearRef(e: HistoryEntry, kind: FolderKind, name: string): HistoryEntry {
    match kind
    case SiteFolders => if e.siteFolder == Some(name) then e.(siteFolder := None) else e
    case ClientFolders => if e.clientFolder == Some(name) then e.(clientFolder := None) else e
    case _ => e
  }

  /** Whether a history entry refers to folder `name` of `kind`. */
  predicate RefersTo(e: HistoryEntry, kind: FolderKind, name: string) {
    match kind
    case SiteFolders => e.siteFolder == Some(name)
    case ClientFolders => e.clientFolder == Some(name)
    case _ => false
  }

  /**
   * SET_NULL on the history: every entry is kept in place, none refers to the
   * folder afterwards, an entry that did not refer to it is unchanged, and one
   * that did loses only that reference.
   */
  function NullFolder(h: seq<HistoryEntry>, kind: FolderKind, name: string): (r: seq<HistoryEntry>)
    ensures |r| == |h|
    ensures forall i :: 0 <= i < |h| ==> !RefersTo(r[i], kind, name)
    ensures forall i :: 0 <= i < |h| && !RefersTo(h[i], kind, name) ==> r[i] == h[i]
    ensures kind == SiteFolders ==> forall i :: 0 <= i < |h| && RefersTo(h[i], kind, name) ==>
      r[i] == h[i].(siteFolder := None)
    ensures kind == ClientFolders ==> forall i :: 0 <= i < |h| && RefersTo(h[i], kind, name) ==>
      r[i] == h[i].(clientFolder := None)
  {
    seq(|h|, i requires 0 <= i < |h| => ClearRef(h[i], kind, name))
  }

  /** Whether deleting folder `name` of `kind` cascades to item `it`. */
  predicate LinkedTo(it: Item, kind: FolderKind, name: string) {
    match kind
    case SiteFolders => it.siteFolder == Some(name)
    case ClientFolders => it.clientFolder == Some(name)
    case _ => false
  }

  /** The items that deleting folder `name` of `kind` takes with it. */
  function Linked(db: Db, kind: FolderKind, name: string): set<nat> {
    set k | k in db.items && LinkedTo(db.items[k], kind, name)
  }

  /**
   * Deletes the folder `name` of `kind` following the declared on-delete rules:
   * items linked to a site or client folder are deleted (CASCADE), and with them
   * their history entries and cart lines (CASCADE); history entries of other items
   * lose their reference to the folder (SET_NULL); stock-in rows lose their
   * reference to an inventory-supplier folder (SET_NULL).
   */
  function DeleteFolder(db: Db, kind: FolderKind, name: string): (r: Db)
    ensures Folders(r, kind) == Folders(db, kind) - {name}
    ensures forall other :: other != kind ==> Folders(r, other) == Folders(db, other)
    ensures forall k :: k in r.items <==> k in db.items && k !in Linked(db, kind, name)
    ensures forall k :: k in r.items ==> r.items[k] == db.items[k]
    ensures forall c :: c in r.cart <==> c in db.cart && db.cart[c].item !in Linked(db, kind, name)
    ensures forall c :: c in r.cart ==> r.cart[c] == db.cart[c]
    ensures r.stockIns.Keys == db.stockIns.Keys
    ensures r.codeList == db.codeList
  {
    match kind
    case SiteFolders =>
      var d := DeleteItems(db, Linked(db, kind, name));
      d.(sites := d.sites - {name}, history := NullFolder(d.history, kind, name))
    case ClientFolders =>
      var d := DeleteItems(db, Linked(db, kind, name));
      d.(clients := d.clients - {name}, history := NullFolder(d.history, kind, name))
    case InventorySupplierFolders =>
      db.(inventorySuppliers := db.inventorySuppliers - {name},
          stockIns := map s | s in db.stockIns ::
            if db.stockIns[s].supplierFolder == Some(name) then db.stockIns[s].(supplierFolder := None)
            else db.stockIns[s])
    case SupplierFolders =>
      db.(suppliers := db.suppliers - {name})
  }

  /**
   * Deleting a site or client folder keeps, with its reference to the folder
   * nulled, every history entry whose item survives; it drops exactly the
   * entries of the deleted items, every entry left is such a nulled entry, and
   * no entry refers to the folder afterwards.
   */
  lemma DeleteFolderNullsHistory(db: Db, kind: FolderKind, name: string)
    requires kind == SiteFolders || kind == ClientFolders
    ensures var r := DeleteFolder(db, kind, name);
      && (forall e :: e in db.history && e.item !in Linked(db, kind, name) ==> ClearRef(e, kind, name) in r.history)
      && (forall f :: f in r.history ==> f.item !in Linked(db, kind, name) && !RefersTo(f, kind, name))
      && (forall f :: f in r.history ==>
            exists e :: e in db.history && e.item !in Linked(db, kind, name) && f == ClearRef(e, kind, name))
      && |r.history| <= |db.history|
  {
    var gone := Linked(db, kind, name);
    var kept := KeepHistory(db.history, gone);
    assert DeleteFolder(db, kind, name).history == NullFolder(kept, kind, name);
    NulledKept(db.history, gone, kept, kind, name);
  }

  lemma NulledKept(h: seq<HistoryEntry>, gone: set<nat>, kept: seq<HistoryEntry>, kind: FolderKind, name: string)
    requires kind == SiteFolders || kind == ClientFolders
    requires (forall e :: e in kept <==> e in h && e.item !in gone) && |kept| <= |h|
    ensures var r := NullFolder(kept, kind, name);
      && (forall e :: e in h && e.item !in gone ==> ClearRef(e, kind, name) in r)
      && (forall f :: f in r ==> f.item !in gone && !RefersTo(f, kind, name))
      && (forall f :: f in r ==> exists e :: e in h && e.item !in gone && f == ClearRef(e, kind, name))
      && |r| <= |h|
  {
    var r := NullFolder(kept, kind, name);
    forall e | e in h && e.item !in gone ensures ClearRef(e, kind, name) in r {
      var i :| 0 <= i < |kept| && kept[i] == e;
      assert r[i] == ClearRef(e, kind, name);
    }
    forall f | f in r
      ensures f.item !in gone && !RefersTo(f, kind, name)
      ensures exists e :: e in h && e.item !in gone && f == ClearRef(e, kind, name)
    {
      var i :| 0 <= i < |r| && r[i] == f;
      assert kept[i] in kept;
    }
  }

  /** Deleting an inventory-supplier folder never deletes a stock-in row; it only nulls its folder. */
  lemma DeleteSupplierFolderKeepsStockIns(db: Db, name: string)
    ensures var r := DeleteFolder(db, InventorySupplierFolders, name);
      r.stockIns.Keys == db.stockIns.Keys &&
      r.items == db.items && r.history == db.history && r.cart == db.cart &&
      forall s :: s in r.stockIns ==>
        r.stockIns[s] == (if db.stockIns[s].supplierFolder == Some(name)
                          then db.stockIns[s].(supplierFolder := None) else db.stockIns[s])
  {
  }

  /** Deleting items (with their dependants) keeps the store consistent. */
  lemma DeleteItemsPreservesValid(db: Db, gone: set<nat>)
    requires Valid(db)
    ensures Valid(DeleteItems(db, gone))
  {
    var r := DeleteItems(db, gone);
    forall e | e in r.history
      ensures e.item in r.items && e.id < r.nextHistory && EntryRefsOk(e, r.sites, r.clients)
    {
      assert e in db.history && e.item !in gone;
    }
  }

  /** Deleting a site or client folder, with its cascade, keeps the store consistent. */
  lemma DeleteLinkedPreservesValid(db: Db, kind: FolderKind, name: string)
    requires Valid(db)
    requires kind == SiteFolders || kind == ClientFolders
    ensures Valid(DeleteFolder(db, kind, name))
  {
    var gone := Linked(db, kind, name);
    var d := DeleteItems(db, gone);
    DeleteItemsPreservesValid(db, gone);
    forall k | k in d.items ensures !LinkedTo(d.items[k], kind, name) {
      assert k !in gone;
    }
    if kind == SiteFolders {
      NullFolderPreservesValid(d, d.(sites := d.sites - {name}, history := NullFolder(d.history, kind, name)), kind, name);
    } else {
      NullFolderPreservesValid(d, d.(clients := d.clients - {name}, history := NullFolder(d.history, kind, name)), kind, name);
    }
  }

  /** Removing a folder that no item links to, and nulling the history's references to it, keeps the store consistent. */
  lemma NullFolderPreservesValid(d: Db, r: Db, kind: FolderKind, name: string)
    requires Valid(d)
    requires kind == SiteFolders || kind == ClientFolders
    requires forall k :: k in d.items ==> !LinkedTo(d.items[k], kind, name)
    requires r.items == d.items && r.cart == d.cart && r.stockIns == d.stockIns
    requires r.inventorySuppliers == d.inventorySuppliers
    requires r.nextItem == d.nextItem && r.nextHistory == d.nextHistory
    requires r.nextCart == d.nextCart && r.nextStockIn == d.nextStockIn
    requires r.sites == (if kind == SiteFolders then d.sites - {name} else d.sites)
    requires r.clients == (if kind == ClientFolders then d.clients - {name} else d.clients)
    requires r.history == NullFolder(d.history, kind, name)
    ensures Valid(r)
  {
    assert ItemsOk(r) by {
      forall k | k in r.items ensures ItemRefsOk(r.items[k], r.sites, r.clients) {
        assert !LinkedTo(d.items[k], kind, name);
      }
    }
    assert CartOk(r);
    NullFolderHistoryOk(d, r, kind, name);
    assert StockInsOk(r);
  }

  lemma ClearRefOk(e: HistoryEntry, sites: set<string>, clients: set<string>, kind: FolderKind, name: string)
    requires kind == SiteFolders || kind == ClientFolders
    requires EntryRefsOk(e, sites, clients)
    ensures var e' := ClearRef(e, kind, name);
      && e'.item == e.item && e'.id == e.id
      && EntryRefsOk(e', if kind == SiteFolders then sites - {name} else sites,
                         if kind == ClientFolders then clients - {name} else clients)
  {
  }

  lemma NullFolderHistoryOk(d: Db, r: Db, kind: FolderKind, name: string)
    requires HistoryOk(d)
    requires kind == SiteFolders || kind == ClientFolders
    requires r.items == d.items && r.nextHistory == d.nextHistory
    requires r.sites == (if kind == SiteFolders then d.sites - {name} else d.sites)
    requires r.clients == (if kind == ClientFolders then d.clients - {name} else d.clients)
    requires r.history == NullFolder(d.history, kind, name)
    ensures HistoryOk(r)
  {
    forall e | e in r.history ensures e.item in r.items && e.id < r.nextHistory && EntryRefsOk(e, r.sites, r.clients) {
      var i :| 0 <= i < |r.history| && r.history[i] == e;
      assert d.history[i] in d.history;
      ClearRefOk(d.history[i], d.sites, d.clients, kind, name);
    }
    forall i, j | 0 <= i < j < |r.history| ensures r.history[i].id < r.history[j].id {
      assert r.history[i].id == d.history[i].id && r.history[j].id == d.history[j].id;
    }
  }

  /** Every deletion the on-delete rules allow leaves the store consistent. */
  lemma DeleteFolderPreservesValid(db: Db, kind: FolderKind, name: string)
    requires Valid(db)
    ensures Valid(DeleteFolder(db, kind, name))
  {
    if kind == SiteFolders || kind == ClientFolders {
      DeleteLinkedPreservesValid(db, kind, name);
    }
  }
}
