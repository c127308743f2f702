/**
 * The JubanShop views as they run: each view is a method that changes the
 * tables of a `Store.Shop` step by step, as the view's loops and saves do. Every method is proved to leave the store exactly as the corresponding
 * specification function of `Ledger`, `Registry` or `Deposits` says, and to
 * keep the store's integrity; what those functions promise is proved about
 * them in their own modules.
 */
module JubanViews {
  import opened Wrappers
  import opened Decimals
  import opened JubanModels
  import opened Registry
  import Ledger
  import Deposits
  import FormData
  import JubanForms
  import opened Store

  /** With one line per item, bumping item `k`'s quantity is updating its only line `c`. */
  lemma BumpOneLine(cart: map<nat, CartLine>, k: nat, c: nat, q: int)
    requires OneLinePerItem(cart) && c in cart && cart[c].item == k
    ensures Ledger.Bump(cart, k, q) == cart[c := cart[c].(quantity := cart[c].quantity + q)]
  {
  }

  /** The cart facts the add-to-cart loop relies on: one line per item, keys below the counter. */
  predicate CartKeyed(cart: map<nat, CartLine>, nextCart: nat) {
    OneLinePerItem(cart) && forall c :: c in cart ==> c < nextCart
  }

  /** One pick keeps them. */
  lemma AddPickKeyed(db: Db, p: Ledger.Pick)
    requires CartKeyed(db.cart, db.nextCart)
    ensures var r := Ledger.AddPick(db, p).0;
      CartKeyed(r.cart, r.nextCart)
  {
    var r := Ledger.AddPick(db, p).0;
    if p.quantity > 0 && p.item in db.items && !Ledger.HasLine(db.cart, p.item) {
      forall c, d | c in r.cart && d in r.cart && r.cart[c].item == r.cart[d].item ensures c == d {
        if c != db.nextCart && d != db.nextCart {
          assert db.cart[c].item == db.cart[d].item;
        }
      }
    }
  }

  /** The loop of `juban_edit_remarks` over the history: the entries with id `id` get the new remarks. */
  method Remark(h: seq<HistoryEntry>, id: nat, remarks: Text) returns (r: seq<HistoryEntry>, found: bool)
    ensures |r| == |h|
    ensures forall j :: 0 <= j < |h| ==> r[j] == if h[j].id == id then h[j].(remarks := remarks) else h[j]
    ensures found <==> exists j :: 0 <= j < |h| && h[j].id == id
  {
    r := h;
    found := false;
    var i := 0;
    while i < |r|
      invariant 0 <= i <= |r| && |r| == |h|
      invariant found <==> exists j :: 0 <= j < i && h[j].id == id
      invariant forall j :: 0 <= j < |h| ==> r[j] == if j < i && h[j].id == id then h[j].(remarks := remarks) else h[j]
    {
      if r[i].id == id {
        r := r[i := r[i].(remarks := remarks)];
        found := true;
      }
      i := i + 1;
    }
  }

  /** The first pass of `add_to_cart`: whether some pick has a positive quantity (the loop stops at the first). */
  method AnyPositive(picks: seq<Ledger.Pick>) returns (any: bool)
    ensures any <==> exists j :: 0 <= j < |picks| && picks[j].quantity > 0
  {
    any := false;
    var i := 0;
    while i < |picks| && !any
      invariant 0 <= i <= |picks|
      invariant !any ==> forall j :: 0 <= j < i ==> picks[j].quantity <= 0
      invariant any ==> 0 < i && picks[i - 1].quantity > 0
    {
      if picks[i].quantity > 0 {
        any := true;
      }
      i := i + 1;
    }
  }

  /**
   * The second pass of `add_to_cart` on store `db`: each positive quantity is
   * added to its item's cart line, created when missing (`get_or_create`);
   * unknown items are collected. Returns the new cart, its key counter and
   * the errors.
   */
  method AddPicks(db: Db, picks: seq<Ledger.Pick>) returns (cart: map<nat, CartLine>, nextCart: nat, errors: seq<nat>)
    requires CartKeyed(db.cart, db.nextCart)
    ensures (db.(cart := cart, nextCart := nextCart), errors) == Ledger.AddPicks(db, picks)
  {
    cart, nextCart, errors := db.cart, db.nextCart, [];
    var i := 0;
    while i < |picks|
      invariant 0 <= i <= |picks|
      invariant (db.(cart := cart, nextCart := nextCart), errors) == Ledger.AddPicks(db, picks[..i])
      invariant CartKeyed(cart, nextCart)
    {
      var p := picks[i];
      AddPickKeyed(db.(cart := cart, nextCart := nextCart), p);
      if p.quantity > 0 {
        if p.item !in db.items {
          errors := errors + [p.item];
        } else if exists c :: c in cart && cart[c].item == p.item {
          var c :| c in cart && cart[c].item == p.item;
          BumpOneLine(cart, p.item, c, p.quantity);
          cart := cart[c := cart[c].(quantity := cart[c].quantity + p.quantity)];
        } else {
          cart := cart[nextCart := CartLine(p.item, p.quantity)];
          nextCart := nextCart + 1;
        }
      }
      assert picks[..i + 1][..i] == picks[..i];
      i := i + 1;
    }
    assert picks[..i] == picks;
  }

  /**
   * The body of the line loop of `finalize_changes` for cart line `c`: the
   * destination folder is got or created; if the item's totals are set the
   * item is updated, a history entry appended and the line deleted, and
   * `ok` says so.
   */
  method ApplyOne(d: Db, c: nat, f: Ledger.BulkForm) returns (r: Db, ok: bool)
    requires c in d.cart && d.cart[c].item in d.items
    ensures (r, ok) == Ledger.ApplyLine(d, c, f)
  {
    var line := d.cart[c];
    var folders := KindFolders(f.kind);
    r := d;
    if f.name !in Folders(r, folders) {
      r := WithFolder(r, folders, f.name);
    }
    var it := r.items[line.item];
    ok := Ledger.Withdrawable(it);
    if ok {
      var it2 := Ledger.Withdrawn(it, line.quantity, f);
      r := r.(items := r.items[line.item := it2],
              history := r.history + [Ledger.LineEntry(r.nextHistory, line.item, it2, line.quantity, f)],
              nextHistory := r.nextHistory + 1,
              cart := r.cart - {c});
    }
  }

  /**
   * The line loop of `finalize_changes` on store `db` with the cleaned form
   * `f`: the cart lines are visited one at a time, in an order the database
   * chooses, which is returned as `order`. Each line first gets or creates
   * the destination folder; a line whose item has both totals set updates the
   * item, appends a history entry and is deleted, and any other line is
   * recorded by its item id.
   */
  method ApplyCart(db: Db, f: Ledger.BulkForm) returns (d: Db, failed: seq<nat>, ghost order: seq<nat>)
    requires Ledger.CartLinked(db)
    ensures Ledger.Enumerates(order, db.cart.Keys)
    ensures (d, failed) == Ledger.ApplyLines(db, order, f)
  {
    d, failed, order := db, [], [];
    var remaining := db.cart.Keys;
    while remaining != {}
      invariant remaining <= db.cart.Keys
      invariant forall c :: c in db.cart ==> (c in remaining <==> c !in order)
      invariant Ledger.Distinct(order) && Ledger.LinesOf(db, order)
      invariant (d, failed) == Ledger.ApplyLines(db, order, f)
      decreases remaining
    {
      var c :| c in remaining;
      ApplyLinesSnoc(db, order, c, f);
      var ok;
      d, ok := ApplyOne(d, c, f);
      if !ok {
        failed := failed + [db.cart[c].item];
      }
      order := order + [c];
      remaining := remaining - {c};
    }
  }

  /** Extending the visiting order by one line applies that line to the store the earlier lines left. */
  lemma ApplyLinesSnoc(db: Db, order: seq<nat>, c: nat, f: Ledger.BulkForm)
    requires Ledger.LinesOf(db, order) && Ledger.Distinct(order)
    requires c in db.cart && db.cart[c].item in db.items && c !in order
    ensures Ledger.LinesOf(db, order + [c]) && Ledger.Distinct(order + [c])
    ensures var (d, failed) := Ledger.ApplyLines(db, order, f);
      && c in d.cart && d.cart[c] == db.cart[c] && d.cart[c].item in d.items
      && var (d2, ok) := Ledger.ApplyLine(d, c, f);
         Ledger.ApplyLines(db, order + [c], f) == (d2, if ok then failed else failed + [d.cart[c].item])
  {
    assert (order + [c])[..|order|] == order;
  }

  /** Some order lists every key of `keys` once. */
  lemma {:induction false} SomeOrder(keys: set<nat>) returns (order: seq<nat>)
    ensures Ledger.Enumerates(order, keys)
    decreases keys
  {
    if keys == {} {
      order := [];
    } else {
      var c :| c in keys;
      var rest := SomeOrder(keys - {c});
      order := rest + [c];
      forall k | k in keys ensures k in order {
        if k != c {
          assert k in rest;
        }
      }
    }
  }

  /**
   * The `add_to_cart` branch of `juban_bulk_edit_inventory`: nothing happens
   * without a positive quantity; otherwise each positive quantity goes to
   * its item's cart line and unknown items are reported.
   */
  method AddToCart(shop: Shop, picks: seq<Ledger.Pick>) returns (outcome: Ledger.AddOutcome)
    requires shop.Valid()
    modifies shop
    ensures shop.State() == Ledger.AddToCart(old(shop.State()), picks).0
    ensures outcome == Ledger.AddToCart(old(shop.State()), picks).1
    ensures shop.Valid()
  {
    var any := AnyPositive(picks);
    if !any {
      return Ledger.NothingToAdd;
    }
    ghost var db := shop.State();
    Ledger.AddToCartPreservesValid(db, picks);
    assert CartKeyed(db.cart, db.nextCart) by {
      assert CartOk(db);
    }
    var errors;
    shop.cart, shop.nextCart, errors := AddPicks(shop.State(), picks);
    outcome := if errors == [] then Ledger.Added else Ledger.AddedWithErrors(errors);
  }

  /** `juban_remove_cart_item`: false is the 404 for a missing line. */
  method RemoveCartLine(shop: Shop, c: nat) returns (found: bool)
    requires shop.Valid()
    modifies shop
    ensures shop.State() == Ledger.RemoveCartLine(old(shop.State()), c).0
    ensures found == Ledger.RemoveCartLine(old(shop.State()), c).1
    ensures shop.Valid()
  {
    if c !in shop.cart {
      return false;
    }
    Ledger.RemoveCartLinePending(shop.State(), c);
    shop.cart := shop.cart - {c};
    return true;
  }

  /** `juban_edit_remarks`: false is the 404 for a missing history entry. */
  method EditRemarks(shop: Shop, id: nat, remarks: Text) returns (found: bool)
    requires shop.Valid()
    modifies shop
    ensures shop.State() == Ledger.SetRemarks(old(shop.State()), id, remarks).0
    ensures found == Ledger.SetRemarks(old(shop.State()), id, remarks).1
    ensures shop.Valid()
  {
    var db := shop.State();
    Ledger.SetRemarksPreservesValid(db, id, remarks);
    var h;
    h, found := Remark(db.history, id, remarks);
    RemarkIsSetRemarks(db, id, remarks, h, found);
    shop.Write(db.(history := h));
  }

  /** A history edited entry by entry as `Remark` promises is the one `Ledger.SetRemarks` describes. */
  lemma RemarkIsSetRemarks(db: Db, id: nat, remarks: Text, h: seq<HistoryEntry>, found: bool)
    requires |h| == |db.history|
    requires forall j :: 0 <= j < |h| ==> h[j] == if db.history[j].id == id then db.history[j].(remarks := remarks) else db.history[j]
    requires found <==> exists j :: 0 <= j < |h| && db.history[j].id == id
    ensures (db.(history := h), found) == Ledger.SetRemarks(db, id, remarks)
  {
    var r := Ledger.SetRemarks(db, id, remarks).0;
    assert h == r.history;
  }

  /**
   * The `finalize_changes` branch of `juban_bulk_edit_inventory`, with the
   * cleaned form (`None` when it is invalid): `order` is the order in which
   * the cart lines were visited. After every line has been tried the whole
   * cart is deleted.
   */
  method Finalize(shop: Shop, form: Option<Ledger.BulkForm>) returns (outcome: Ledger.FinalizeOutcome, ghost order: seq<nat>)
    requires shop.Valid()
    modifies shop
    ensures Ledger.Enumerates(order, old(shop.cart).Keys)
    ensures shop.State() == Ledger.Finalize(old(shop.State()), order, form).0
    ensures outcome == Ledger.Finalize(old(shop.State()), order, form).1
    ensures shop.Valid()
  {
    ghost var db := shop.State();
    assert Ledger.CartLinked(db) by {
      assert CartOk(db);
    }
    if |shop.cart| == 0 {
      order := SomeOrder(shop.cart.Keys);
      return Ledger.EmptyCart, order;
    }
    if form.None? {
      order := SomeOrder(shop.cart.Keys);
      return Ledger.InvalidForm, order;
    }
    var d, failed;
    d, failed, order := ApplyCart(shop.State(), form.value);
    Ledger.FinalizePreservesValid(db, order, form);
    shop.Write(d.(cart := map[]));
    outcome := if failed == [] then Ledger.Finalized else Ledger.FinalizedWithErrors(failed);
  }

  // ----------------------------------------------------------------------
  // The folder views
  // ----------------------------------------------------------------------

  /**
   * The back-fill loop of the site and client create-folder views: every
   * history entry whose free-text site (or client) is `name` is filed in the folder.
   */
  method LinkHistory(h: seq<HistoryEntry>, kind: Kind, name: string) returns (r: seq<HistoryEntry>)
    ensures r == BackfillHistory(h, kind, name)
  {
    r := h;
    var i := 0;
    while i < |r|
      invariant 0 <= i <= |r| && |r| == |h|
      invariant forall j :: 0 <= j < |h| ==> r[j] == if j < i then LinkEntry(h[j], kind, name) else h[j]
    {
      if kind == Site && r[i].siteDelivered == Some(name) {
        r := r[i := r[i].(siteFolder := Some(name))];
      } else if kind == Client && r[i].client == Some(name) {
        r := r[i := r[i].(clientFolder := Some(name))];
      }
      i := i + 1;
    }
  }

  /** Whether the stock-in back-fill of folder `name` files row `s`. */
  predicate ToFile(s: StockIn, name: string, onlyUnfiled: bool) {
    s.supplier == Some(name) && (!onlyUnfiled || s.supplierFolder.None?)
  }

  /**
   * The back-fill loop over the stock-in rows of supplier `name` (only the
   * unfiled ones with `onlyUnfiled`), in whatever order the table yields
   * them: each is filed under the folder.
   */
  method LinkStockIns(m: map<nat, StockIn>, name: string, onlyUnfiled: bool) returns (r: map<nat, StockIn>)
    ensures r == BackfillStockIns(m, name, onlyUnfiled)
  {
    r := m;
    var todo := set s | s in m && ToFile(m[s], name, onlyUnfiled);
    while todo != {}
      invariant todo <= m.Keys && r.Keys == m.Keys
      invariant forall s :: s in m ==>
        r[s] == if ToFile(m[s], name, onlyUnfiled) && s !in todo then m[s].(supplierFolder := Some(name)) else m[s]
      decreases todo
    {
      var s :| s in todo;
      r := r[s := r[s].(supplierFolder := Some(name))];
      todo := todo - {s};
    }
  }

  /** Saves a folder named `name` of `kind`. */
  method AddFolder(shop: Shop, kind: FolderKind, name: string)
    modifies shop
    ensures shop.State() == WithFolder(old(shop.State()), kind, name)
  {
    match kind
    case SiteFolders => shop.sites := shop.sites + {name};
    case ClientFolders => shop.clients := shop.clients + {name};
    case InventorySupplierFolders => shop.inventorySuppliers := shop.inventorySuppliers + {name};
    case SupplierFolders => shop.suppliers := shop.suppliers + {name};
  }

  /**
   * `juban_create_site_inventory_folder`, `juban_create_client_inventory_folder`
   * and the POST of `juban_inventory_supplier_list_folders`: get-or-create
   * by the posted name, and on creation the back-fill loop.
   */
  method CreateFolderWithBackfill(shop: Shop, kind: FolderKind, name: Text) returns (outcome: FolderOutcome)
    requires shop.Valid() && kind != SupplierFolders
    modifies shop
    ensures shop.State() == Registry.CreateFolderWithBackfill(old(shop.State()), kind, name).0
    ensures outcome == Registry.CreateFolderWithBackfill(old(shop.State()), kind, name).1
    ensures shop.Valid()
  {
    ghost var db := shop.State();
    CreateFolderWithBackfillPreservesValid(db, kind, name);
    if !Truthy(name) {
      return NoName;
    }
    var n := name.value;
    if n in Folders(shop.State(), kind) {
      return AlreadyExists;
    }
    AddFolder(shop, kind, n);
    if kind == SiteFolders {
      shop.history := LinkHistory(shop.history, Site, n);
    } else if kind == ClientFolders {
      shop.history := LinkHistory(shop.history, Client, n);
    } else {
      shop.stockIns := LinkStockIns(shop.stockIns, n, false);
    }
    outcome := Created;
  }

  /** The POST of the site and client folder-list views: get-or-create by the posted name, with no back-fill. */
  method CreateFolder(shop: Shop, kind: FolderKind, name: Text) returns (outcome: FolderOutcome)
    requires shop.Valid() && (kind == SiteFolders || kind == ClientFolders)
    modifies shop
    ensures shop.State() == Registry.CreateFolder(old(shop.State()), kind, name).0
    ensures outcome == Registry.CreateFolder(old(shop.State()), kind, name).1
    ensures shop.Valid()
  {
    if !Truthy(name) {
      return NoName;
    }
    var n := name.value;
    if n in Folders(shop.State(), kind) {
      return AlreadyExists;
    }
    GetOrCreatePreservesValid(shop.State(), kind, n);
    AddFolder(shop, kind, n);
    outcome := Created;
  }

  /**
   * The site and client delete-folder views (there are none for the other
   * kinds): false is the 404 for a missing folder;
   * otherwise the folder is deleted with the on-delete rules of every table
   * that refers to it.
   */
  method DeleteFolder(shop: Shop, kind: FolderKind, name: string) returns (found: bool)
    requires shop.Valid() && (kind == SiteFolders || kind == ClientFolders)
    modifies shop
    ensures found <==> name in Folders(old(shop.State()), kind)
    ensures shop.State() == if found then JubanModels.DeleteFolder(old(shop.State()), kind, name) else old(shop.State())
    ensures shop.Valid()
  {
    if name !in Folders(shop.State(), kind) {
      return false;
    }
    DeleteFolderPreservesValid(shop.State(), kind, name);
    shop.Write(JubanModels.DeleteFolder(shop.State(), kind, name));
    return true;
  }
}
