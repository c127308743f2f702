/**
 * The folder registry of the JubanShop views: get-or-create by name, creation
 * with back-fill of the rows that already name the folder, and the total
 * amount shown for a folder's contents.
 */
module Registry {
  import opened Wrappers
  import opened JubanModels

  /** Python truthiness of a nullable text value: neither null nor empty. */
  predicate Truthy(t: Text) {
    t.Some? && t.value != ""
  }

  function KindFolders(k: Kind): FolderKind {
    match k
    case Site => SiteFolders
    case Client => ClientFolders
  }

  /** Adds `name` to the folders of `kind`, leaving every other table alone. */
  function WithFolder(db: Db, kind: FolderKind, name: string): Db {
    match kind
    case SiteFolders => db.(sites := db.sites + {name})
    case ClientFolders => db.(clients := db.clients + {name})
    case InventorySupplierFolders => db.(inventorySuppliers := db.inventorySuppliers + {name})
    case SupplierFolders => db.(suppliers := db.suppliers + {name})
  }

  /** `get_or_create(name=name)` on the folder table of `kind`; the flag says whether a row was created. */
  function GetOrCreate(db: Db, kind: FolderKind, name: string): (r: (Db, bool))
    ensures r.1 <==> name !in Folders(db, kind)
    ensures Folders(r.0, kind) == Folders(db, kind) + {name}
    ensures forall other :: other != kind ==> Folders(r.0, other) == Folders(db, other)
    ensures r.0.items == db.items && r.0.history == db.history && r.0.cart == db.cart
    ensures r.0.stockIns == db.stockIns && r.0.codeList == db.codeList
    ensures r.0.nextItem == db.nextItem && r.0.nextHistory == db.nextHistory
    ensures r.0.nextCart == db.nextCart && r.0.nextStockIn == db.nextStockIn
  {
    if name in Folders(db, kind) then (db, false) else (WithFolder(db, kind, name), true)
  }

  /** Asking twice for the same name creates at most one folder: the second call finds it. */
  lemma GetOrCreateIdempotent(db: Db, kind: FolderKind, name: string)
    ensures var once := GetOrCreate(db, kind, name).0;
      GetOrCreate(once, kind, name) == (once, false)
  {
  }

  /** Adding a folder never breaks a reference: it only enlarges a set of names. */
  lemma GetOrCreatePreservesValid(db: Db, kind: FolderKind, name: string)
    requires Valid(db)
    ensures Valid(GetOrCreate(db, kind, name).0)
  {
    var r := GetOrCreate(db, kind, name).0;
    assert Folders(db, SiteFolders) <= Folders(r, SiteFolders);
    assert Folders(db, ClientFolders) <= Folders(r, ClientFolders);
    assert Folders(db, InventorySupplierFolders) <= Folders(r, InventorySupplierFolders);
  }

  datatype FolderOutcome = Created | AlreadyExists | NoName

  /** The folder-list views' POST: get-or-create, with no back-fill. */
  function CreateFolder(db: Db, kind: FolderKind, name: Text): (r: (Db, FolderOutcome))
    ensures !Truthy(name) ==> r == (db, NoName)
    ensures Truthy(name) ==> r.0 == GetOrCreate(db, kind, name.value).0
    ensures r.1 == Created <==> Truthy(name) && name.value !in Folders(db, kind)
  {
    if !Truthy(name) then (db, NoName)
    else
      var (d, created) := GetOrCreate(db, kind, name.value);
      (d, if created then Created else AlreadyExists)
  }

  /** Links a history entry whose free-text site or client equals `name` to that folder. */
  function LinkEntry(e: HistoryEntry, kind: Kind, name: string): HistoryEntry {
    match kind
    case Site => if e.siteDelivered == Some(name) then e.(siteFolder := Some(name)) else e
    case Client => if e.client == Some(name) then e.(clientFolder := Some(name)) else e
  }

  /**
   * The history after the back-fill of folder `name`: every entry is kept in
   * place, an entry is filed in the folder exactly when it already was or its
   * free-text destination is the name, and no other column changes.
   */
  function BackfillHistory(h: seq<HistoryEntry>, kind: Kind, name: string): (r: seq<HistoryEntry>)
    ensures |r| == |h|
    ensures kind == Site ==> forall i :: 0 <= i < |h| ==>
      && r[i].(siteFolder := h[i].siteFolder) == h[i]
      && (r[i].siteFolder == Some(name) <==> h[i].siteFolder == Some(name) || h[i].siteDelivered == Some(name))
      && (h[i].siteDelivered != Some(name) ==> r[i] == h[i])
    ensures kind == Client ==> forall i :: 0 <= i < |h| ==>
      && r[i].(clientFolder := h[i].clientFolder) == h[i]
      && (r[i].clientFolder == Some(name) <==> h[i].clientFolder == Some(name) || h[i].client == Some(name))
      && (h[i].client != Some(name) ==> r[i] == h[i])
  {
    seq(|h|, i requires 0 <= i < |h| => LinkEntry(h[i], kind, name))
  }

  /**
   * Links stock-in rows whose supplier is `name` to that supplier folder: all of
   * them, or with `onlyUnfiled` only those that have no folder yet.
   */
  function BackfillStockIns(m: map<nat, StockIn>, name: string, onlyUnfiled: bool): (r: map<nat, StockIn>)
    ensures r.Keys == m.Keys
    ensures forall s :: s in m ==> r[s].(supplierFolder := m[s].supplierFolder) == m[s]
    ensures forall s :: s in m && m[s].supplier == Some(name) && (!onlyUnfiled || m[s].supplierFolder.None?) ==>
      r[s].supplierFolder == Some(name)
    ensures forall s :: s in m && (m[s].supplier != Some(name) || (onlyUnfiled && m[s].supplierFolder.Some?)) ==>
      r[s] == m[s]
  {
    map s | s in m ::
      if m[s].supplier == Some(name) && (!onlyUnfiled || m[s].supplierFolder.None?)
      then m[s].(supplierFolder := Some(name)) else m[s]
  }

  /** Applies the back-fill that creating a folder of `kind` performs. */
  function Backfill(db: Db, kind: FolderKind, name: string): Db {
    match kind
    case SiteFolders => db.(history := BackfillHistory(db.history, Site, name))
    case ClientFolders => db.(history := BackfillHistory(db.history, Client, name))
    case InventorySupplierFolders => db.(stockIns := BackfillStockIns(db.stockIns, name, false))
    case SupplierFolders => db
  }

  /**
   * The create-folder views of the site, client and inventory-supplier kinds:
   * a new folder is back-filled; an existing name or a missing name changes nothing.
   */
  function CreateFolderWithBackfill(db: Db, kind: FolderKind, name: Text): (r: (Db, FolderOutcome))
    requires kind != SupplierFolders
    ensures r.1 != Created ==> r.0 == db
    ensures r.1 == Created <==> Truthy(name) && name.value !in Folders(db, kind)
  {
    if !Truthy(name) then (db, NoName)
    else if name.value in Folders(db, kind) then (db, AlreadyExists)
    else (Backfill(WithFolder(db, kind, name.value), kind, name.value), Created)
  }

  /**
   * `f` is history row `e` after the back-fill of folder `name`: filed in the
   * folder when its free-text destination is the name, and otherwise equal to `e`.
   */
  predicate BackfilledRow(e: HistoryEntry, f: HistoryEntry, kind: Kind, name: string) {
    match kind
    case Site =>
      && (e.siteDelivered == Some(name) ==> f.siteFolder == Some(name))
      && (e.siteDelivered != Some(name) ==> f == e)
      && f.(siteFolder := e.siteFolder) == e
    case Client =>
      && (e.client == Some(name) ==> f.clientFolder == Some(name))
      && (e.client != Some(name) ==> f == e)
      && f.(clientFolder := e.clientFolder) == e
  }

  /**
   * On creation of a site or client folder, every history row whose free-text
   * destination equals the name is filed in the new folder, and nothing else
   * about any row changes.
   */
  lemma BackfillFilesMatchingHistory(db: Db, kind: Kind, name: string)
    requires name !in Folders(db, KindFolders(kind)) && name != ""
    ensures var r := CreateFolderWithBackfill(db, KindFolders(kind), Some(name));
      && r.1 == Created
      && |r.0.history| == |db.history|
      && forall i :: 0 <= i < |db.history| ==> BackfilledRow(db.history[i], r.0.history[i], kind, name)
  {
  }

  /**
   * On creation of an inventory-supplier folder, every stock-in row whose
   * supplier equals the name is filed in it, and no other row changes.
   */
  lemma BackfillFilesMatchingStockIns(db: Db, name: string)
    requires name !in db.inventorySuppliers && name != ""
    ensures var r := CreateFolderWithBackfill(db, InventorySupplierFolders, Some(name)).0;
      && r.inventorySuppliers == db.inventorySuppliers + {name}
      && r.stockIns.Keys == db.stockIns.Keys
      && forall s :: s in db.stockIns ==>
           if db.stockIns[s].supplier == Some(name)
           then r.stockIns[s] == db.stockIns[s].(supplierFolder := Some(name))
           else r.stockIns[s] == db.stockIns[s]
  {
  }

  /** Creating a folder with back-fill keeps the store consistent. */
  lemma CreateFolderWithBackfillPreservesValid(db: Db, kind: FolderKind, name: Text)
    requires Valid(db) && kind != SupplierFolders
    ensures Valid(CreateFolderWithBackfill(db, kind, name).0)
  {
    if Truthy(name) && name.value !in Folders(db, kind) {
      var d := WithFolder(db, kind, name.value);
      GetOrCreatePreservesValid(db, kind, name.value);
      assert d == GetOrCreate(db, kind, name.value).0;
      var r := Backfill(d, kind, name.value);
      match kind
      case SiteFolders =>
        BackfillHistoryPreservesValid(d, Site, name.value);
      case ClientFolders =>
        BackfillHistoryPreservesValid(d, Client, name.value);
      case InventorySupplierFolders =>
        assert StockInsOk(r);
    }
  }

  lemma BackfillHistoryPreservesValid(d: Db, kind: Kind, name: string)
    requires Valid(d)
    requires name in Folders(d, KindFolders(kind))
    ensures Valid(d.(history := BackfillHistory(d.history, kind, name)))
  {
    BackfillHistoryOk(d, kind, name);
  }

  lemma BackfillHistoryOk(d: Db, kind: Kind, name: string)
    requires HistoryOk(d)
    requires name in Folders(d, KindFolders(kind))
    ensures HistoryOk(d.(history := BackfillHistory(d.history, kind, name)))
  {
    var h := BackfillHistory(d.history, kind, name);
    forall e | e in h ensures e.item in d.items && e.id < d.nextHistory && EntryRefsOk(e, d.sites, d.clients) {
      var i :| 0 <= i < |h| && h[i] == e;
      assert d.history[i] in d.history;
    }
    forall i, j | 0 <= i < j < |h| ensures h[i].id < h[j].id {
      assert h[i].id == d.history[i].id && h[j].id == d.history[j].id;
    }
  }

  /** Whether a history entry is filed in folder `name` of `kind`. */
  predicate FiledIn(e: HistoryEntry, kind: Kind, name: string) {
    match kind
    case Site => e.siteFolder == Some(name)
    case Client => e.clientFolder == Some(name)
  }

  /** The sum of `total_amount` over the history entries filed in a folder (0 when there are none). */
  function FolderTotal(h: seq<HistoryEntry>, kind: Kind, name: string): int {
    if h == [] then 0
    else (if FiledIn(h[0], kind, name) then h[0].totalAmount else 0) + FolderTotal(h[1..], kind, name)
  }

  /** The folder-contents views: the total of a folder, or nothing for an unknown folder (404). */
  function FolderContentsTotal(db: Db, kind: Kind, name: string): (r: Option<int>)
    ensures r.Some? <==> name in Folders(db, KindFolders(kind))
  {
    if name in Folders(db, KindFolders(kind)) then Some(FolderTotal(db.history, kind, name)) else None
  }

  /** The total of a concatenation is the sum of the totals. */
  lemma {:induction false} FolderTotalAppend(h1: seq<HistoryEntry>, h2: seq<HistoryEntry>, kind: Kind, name: string)
    ensures FolderTotal(h1 + h2, kind, name) == FolderTotal(h1, kind, name) + FolderTotal(h2, kind, name)
  {
    if h1 != [] {
      assert (h1 + h2)[1..] == h1[1..] + h2;
      FolderTotalAppend(h1[1..], h2, kind, name);
    } else {
      assert h1 + h2 == h2;
    }
  }

  /** The free-text destination of a history entry for `kind`: its site delivered or its client. */
  function Destination(e: HistoryEntry, kind: Kind): Text {
    match kind
    case Site => e.siteDelivered
    case Client => e.client
  }

  /** The sum of `total_amount` over the history entries whose free-text destination is `name`. */
  function DeliveredTotal(h: seq<HistoryEntry>, kind: Kind, name: string): int {
    if h == [] then 0
    else (if Destination(h[0], kind) == Some(name) then h[0].totalAmount else 0) + DeliveredTotal(h[1..], kind, name)
  }

  /**
   * Right after a site or client folder is created, its total is the total of
   * every history row whose free-text destination equals its name: the back-fill
   * files exactly those rows, since no row could be filed in a folder that did
   * not exist.
   */
  lemma {:induction false} BackfilledFolderTotal(h: seq<HistoryEntry>, kind: Kind, name: string)
    requires forall e :: e in h ==> !FiledIn(e, kind, name)
    ensures FolderTotal(BackfillHistory(h, kind, name), kind, name) == DeliveredTotal(h, kind, name)
  {
    if h != [] {
      var r := BackfillHistory(h, kind, name);
      assert r[1..] == BackfillHistory(h[1..], kind, name);
      assert h[0] in h;
      assert forall e :: e in h[1..] ==> e in h;
      BackfilledFolderTotal(h[1..], kind, name);
    }
  }

  /** In a consistent store no history entry is filed in a folder that does not exist. */
  lemma NothingFiledInMissingFolder(db: Db, kind: Kind, name: string)
    requires Valid(db) && name !in Folders(db, KindFolders(kind))
    ensures forall e :: e in db.history ==> !FiledIn(e, kind, name)
  {
    forall e | e in db.history ensures !FiledIn(e, kind, name) {
      assert EntryRefsOk(e, db.sites, db.clients);
    }
  }
}
