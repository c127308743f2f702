/**
 * The withdrawal ledger of the bulk-edit page: adding pending quantities to
 * the cart, removing a cart line, and finalizing the cart into item updates
 * and history entries; plus editing a history entry's remarks.
 */
module Ledger {
  import opened Wrappers
  import opened Decimals
  import opened JubanModels
  import opened Registry

  // ----------------------------------------------------------------------
  // Adding to the cart
  // ----------------------------------------------------------------------

  /** One selected item of the add-to-cart request: its id and its parsed quantity out (0 when blank). */
  datatype Pick = Pick(item: nat, quantity: int)

  predicate HasLine(cart: map<nat, CartLine>, k: nat) {
    exists c :: c in cart && cart[c].item == k
  }

  /** Adds `q` to the quantity of the cart line of item `k`. */
  function Bump(cart: map<nat, CartLine>, k: nat, q: int): map<nat, CartLine> {
    map c | c in cart :: if cart[c].item == k then cart[c].(quantity := cart[c].quantity + q) else cart[c]
  }

  /**
   * One pick: a non-positive quantity is skipped; an unknown item is an
   * error; otherwise the item's cart line is found and bumped, or created
   * with the quantity.
   */
  function AddPick(db: Db, p: Pick): (r: (Db, bool))
    ensures r.0 == db.(cart := r.0.cart, nextCart := r.0.nextCart)
    ensures !r.1 <==> p.quantity > 0 && p.item !in db.items
  {
    if p.quantity <= 0 then (db, true)
    else if p.item !in db.items then (db, false)
    else if HasLine(db.cart, p.item) then (db.(cart := Bump(db.cart, p.item, p.quantity)), true)
    else (db.(cart := db.cart[db.nextCart := CartLine(p.item, p.quantity)], nextCart := db.nextCart + 1), true)
  }

  /** The picks in order; the ids of unknown items with a positive quantity are collected as errors. */
  function AddPicks(db: Db, picks: seq<Pick>): (r: (Db, seq<nat>))
    ensures r.0 == db.(cart := r.0.cart, nextCart := r.0.nextCart)
    ensures r.0.nextCart >= db.nextCart
    decreases |picks|
  {
    if picks == [] then (db, [])
    else
      var (d, errors) := AddPicks(db, picks[..|picks| - 1]);
      var p := picks[|picks| - 1];
      var (d2, ok) := AddPick(d, p);
      (d2, if ok then errors else errors + [p.item])
  }

  datatype AddOutcome = NothingToAdd | Added | AddedWithErrors(missing: seq<nat>)

  /** The add-to-cart request: rejected with no change when no pick has a positive quantity. */
  function AddToCart(db: Db, picks: seq<Pick>): (r: (Db, AddOutcome))
    ensures r.1 == NothingToAdd <==> forall i :: 0 <= i < |picks| ==> picks[i].quantity <= 0
    ensures r.1 == NothingToAdd ==> r.0 == db
    ensures r.0 == db.(cart := r.0.cart, nextCart := r.0.nextCart)
  {
    if forall i :: 0 <= i < |picks| ==> picks[i].quantity <= 0 then (db, NothingToAdd)
    else
      var (d, errors) := AddPicks(db, picks);
      (d, if errors == [] then Added else AddedWithErrors(errors))
  }

  /** The ids of the picks with a positive quantity whose item does not exist, in order. */
  function Missing(items: map<nat, Item>, picks: seq<Pick>): seq<nat>
    decreases |picks|
  {
    if picks == [] then []
    else
      var p := picks[|picks| - 1];
      Missing(items, picks[..|picks| - 1]) + (if p.quantity > 0 && p.item !in items then [p.item] else [])
  }

  /** The errors reported are exactly the unknown items among the positive picks. */
  lemma {:induction false} AddPicksErrors(db: Db, picks: seq<Pick>)
    ensures AddPicks(db, picks).1 == Missing(db.items, picks)
    decreases |picks|
  {
    if picks != [] {
      AddPicksErrors(db, picks[..|picks| - 1]);
    }
  }

  /** The quantity pending in the cart for item `k`: its line's quantity, or 0 without a line. */
  ghost function Pending(cart: map<nat, CartLine>, k: nat): int {
    if HasLine(cart, k) then
      var c :| c in cart && cart[c].item == k; cart[c].quantity
    else 0
  }

  lemma PendingIs(cart: map<nat, CartLine>, k: nat, c: nat)
    requires OneLinePerItem(cart) && c in cart && cart[c].item == k
    ensures Pending(cart, k) == cart[c].quantity
  {
  }

  /** The sum of the positive quantities picked for item `k`. */
  function Picked(picks: seq<Pick>, k: nat): int
    decreases |picks|
  {
    if picks == [] then 0
    else
      var p := picks[|picks| - 1];
      Picked(picks[..|picks| - 1], k) + (if p.item == k && p.quantity > 0 then p.quantity else 0)
  }

  /** One pick keeps the cart consistent and adds its positive quantity to its item's pending quantity. */
  lemma AddPickPending(db: Db, p: Pick)
    requires Valid(db)
    ensures var r := AddPick(db, p).0;
      && Valid(r)
      && forall k :: Pending(r.cart, k) ==
           Pending(db.cart, k) + (if k == p.item && p.quantity > 0 && k in db.items then p.quantity else 0)
  {
    var r := AddPick(db, p).0;
    if p.quantity > 0 && p.item in db.items {
      if HasLine(db.cart, p.item) {
        BumpPending(db.cart, p.item, p.quantity);
      } else {
        assert db.nextCart !in db.cart;
        NewLinePending(db.cart, db.nextCart, p.item, p.quantity);
      }
      assert CartOk(r);
    }
  }

  /** Adding to an item's existing line raises its pending quantity and no other, keeping one line per item. */
  lemma BumpPending(cart: map<nat, CartLine>, item: nat, q: int)
    requires OneLinePerItem(cart) && HasLine(cart, item)
    ensures var r := Bump(cart, item, q);
      && r.Keys == cart.Keys && (forall c :: c in r ==> r[c].item == cart[c].item)
      && OneLinePerItem(r)
      && forall k :: Pending(r, k) == Pending(cart, k) + (if k == item then q else 0)
  {
    var r := Bump(cart, item, q);
    forall k ensures Pending(r, k) == Pending(cart, k) + (if k == item then q else 0) {
      if HasLine(cart, k) {
        var c :| c in cart && cart[c].item == k;
        PendingIs(cart, k, c);
        PendingIs(r, k, c);
      } else {
        assert !HasLine(r, k);
      }
    }
  }

  /** A new line under a fresh key for an item without one makes that item's pending quantity the line's. */
  lemma NewLinePending(cart: map<nat, CartLine>, n: nat, item: nat, q: int)
    requires OneLinePerItem(cart) && n !in cart && !HasLine(cart, item)
    ensures var r := cart[n := CartLine(item, q)];
      && OneLinePerItem(r)
      && forall k :: Pending(r, k) == Pending(cart, k) + (if k == item then q else 0)
  {
    var r := cart[n := CartLine(item, q)];
    assert forall d :: d in cart ==> cart[d].item != item;
    assert OneLinePerItem(r) by {
      forall c, d | c in r && d in r && r[c].item == r[d].item ensures c == d {
        if c != n && d != n {
          assert cart[c].item == cart[d].item;
        }
      }
    }
    forall k ensures Pending(r, k) == Pending(cart, k) + (if k == item then q else 0) {
      if k == item {
        PendingIs(r, k, n);
      } else if HasLine(cart, k) {
        var c :| c in cart && cart[c].item == k;
        PendingIs(cart, k, c);
        PendingIs(r, k, c);
      } else {
        assert !HasLine(r, k);
      }
    }
  }


  /**
   * Adding picks to the cart keeps at most one line per item and raises each
   * existing item's pending quantity by exactly the positive quantities picked for it.
   */
  lemma {:induction false} AddPicksPending(db: Db, picks: seq<Pick>)
    requires Valid(db)
    ensures var r := AddPicks(db, picks).0;
      && Valid(r)
      && forall k :: Pending(r.cart, k) == Pending(db.cart, k) + (if k in db.items then Picked(picks, k) else 0)
    decreases |picks|
  {
    if picks != [] {
      var init := picks[..|picks| - 1];
      var p := picks[|picks| - 1];
      AddPicksPending(db, init);
      var d := AddPicks(db, init).0;
      AddPickPending(d, p);
    }
  }

  /** The add-to-cart request keeps the store consistent. */
  lemma AddToCartPreservesValid(db: Db, picks: seq<Pick>)
    requires Valid(db)
    ensures Valid(AddToCart(db, picks).0)
  {
    AddPicksPending(db, picks);
  }

  // ----------------------------------------------------------------------
  // Removing a cart line
  // ----------------------------------------------------------------------

  /** The remove-cart-item request: deletes the line, or reports that there is none (404). */
  function RemoveCartLine(db: Db, c: nat): (r: (Db, bool))
    ensures r.1 <==> c in db.cart
    ensures r.0 == db.(cart := r.0.cart)
    ensures forall c' :: c' in r.0.cart <==> c' in db.cart && c' != c
    ensures forall c' :: c' in r.0.cart ==> r.0.cart[c'] == db.cart[c']
  {
    if c in db.cart then (db.(cart := db.cart - {c}), true) else (db, false)
  }

  /** Removing a line drops its item's pending quantity to 0 and keeps the store consistent. */
  lemma RemoveCartLinePending(db: Db, c: nat)
    requires Valid(db) && c in db.cart
    ensures var r := RemoveCartLine(db, c).0;
      && Valid(r)
      && Pending(r.cart, db.cart[c].item) == 0
      && forall k :: k != db.cart[c].item ==> Pending(r.cart, k) == Pending(db.cart, k)
  {
    var r := RemoveCartLine(db, c).0;
    assert !HasLine(r.cart, db.cart[c].item);
    forall k | k != db.cart[c].item ensures Pending(r.cart, k) == Pending(db.cart, k) {
      if HasLine(db.cart, k) {
        var c' :| c' in db.cart && db.cart[c'].item == k;
        PendingIs(db.cart, k, c');
        PendingIs(r.cart, k, c');
      } else {
        assert !HasLine(r.cart, k);
      }
    }
  }

  // ----------------------------------------------------------------------
  // Finalizing the cart
  // ----------------------------------------------------------------------

  /** The cleaned bulk form finalize reads: a date, a location type and name, and the references. */
  datatype BulkForm = BulkForm(date: int, kind: Kind, name: string, refs: Refs)

  /** An item the finalize arithmetic can run on: both running totals are set (null arithmetic raises). */
  predicate Withdrawable(it: Item) {
    it.quantityIn.Some? && it.quantityOut.Some?
  }

  /** The item after a withdrawal of `q` to the form's destination. */
  function Withdrawn(it: Item, q: int, f: BulkForm): (r: Item)
    requires Withdrawable(it)
    ensures Balanced(r)
  {
    var out := it.quantityOut.value + q;
    var placed := match f.kind
      case Site => it.(siteFolder := Some(f.name), siteDelivered := Some(f.name))
      case Client => it.(clientFolder := Some(f.name), client := Some(f.name));
    placed.(date := Some(f.date), quantityOut := Some(out), stock := Some(it.quantityIn.value - out),
            totalAmount := Times(q, it.price), refs := f.refs, choice := Some(f.kind))
  }

  /** The history entry recording a withdrawal of `q` from item `k`, whose updated row is `it`. */
  function LineEntry(id: nat, k: nat, it: Item, q: int, f: BulkForm): HistoryEntry {
    HistoryEntry(
      id, k, Some(f.date), it.itemCode, it.supplier, it.productName, None, it.unit,
      it.quantityIn, Some(q), it.stock, it.price, Times(q, it.price),
      if f.kind == Site then it.siteDelivered else None,
      if f.kind == Site then it.siteFolder else None,
      if f.kind == Client then it.client else None,
      if f.kind == Client then it.clientFolder else None,
      f.refs, None, None)
  }

  /**
   * One cart line: the destination folder is got or created first; then, if
   * the item's totals are set, the item is updated, a history entry appended
   * and the cart line deleted. Otherwise the line fails and only the folder stays.
   */
  function ApplyLine(db: Db, c: nat, f: BulkForm): (r: (Db, bool))
    requires c in db.cart && db.cart[c].item in db.items
    ensures r.0.items.Keys == db.items.Keys
    ensures forall c' :: c' in db.cart && c' != c ==> c' in r.0.cart && r.0.cart[c'] == db.cart[c']
    ensures forall k :: k in db.items && k != db.cart[c].item ==> r.0.items[k] == db.items[k]
    ensures Folders(r.0, KindFolders(f.kind)) == Folders(db, KindFolders(f.kind)) + {f.name}
    ensures forall other :: other != KindFolders(f.kind) ==> Folders(r.0, other) == Folders(db, other)
    ensures Frame(db, r.0)
    ensures var k, q := db.cart[c].item, db.cart[c].quantity;
      if Withdrawable(db.items[k]) then
        && r.1 && c !in r.0.cart
        && r.0.items[k] == Withdrawn(db.items[k], q, f)
        && r.0.history == db.history + [LineEntry(db.nextHistory, k, Withdrawn(db.items[k], q, f), q, f)]
        && r.0.nextHistory == db.nextHistory + 1
      else
        && !r.1 && r.0.cart == db.cart && r.0.items == db.items
        && r.0.history == db.history && r.0.nextHistory == db.nextHistory
  {
    var line := db.cart[c];
    var d := GetOrCreate(db, KindFolders(f.kind), f.name).0;
    var it := db.items[line.item];
    if !Withdrawable(it) then (d, false)
    else
      var it2 := Withdrawn(it, line.quantity, f);
      (d.(items := d.items[line.item := it2],
          history := d.history + [LineEntry(d.nextHistory, line.item, it2, line.quantity, f)],
          nextHistory := d.nextHistory + 1,
          cart := d.cart - {c}), true)
  }

  /** The tables and counters a withdrawal never touches. */
  predicate Frame(db: Db, r: Db) {
    && r.stockIns == db.stockIns && r.codeList == db.codeList
    && r.nextItem == db.nextItem && r.nextCart == db.nextCart && r.nextStockIn == db.nextStockIn
  }

  predicate Distinct(order: seq<nat>) {
    forall i, j :: 0 <= i < j < |order| ==> order[i] != order[j]
  }

  /** Every id of `order` names a cart line whose item exists. */
  predicate LinesOf(db: Db, order: seq<nat>) {
    forall i :: 0 <= i < |order| ==> order[i] in db.cart && db.cart[order[i]].item in db.items
  }

  /** No line of `order` is for item `k`. */
  predicate Untouched(db: Db, order: seq<nat>, k: nat) {
    forall i :: 0 <= i < |order| && order[i] in db.cart ==> db.cart[order[i]].item != k
  }

  /**
   * The cart lines in `order`, one after the other: a failing line is
   * recorded by its item id and the following lines still run.
   */
  function ApplyLines(db: Db, order: seq<nat>, f: BulkForm): (r: (Db, seq<nat>))
    requires LinesOf(db, order) && Distinct(order)
    ensures r.0.items.Keys == db.items.Keys
    ensures forall c :: c in db.cart && c !in order ==> c in r.0.cart && r.0.cart[c] == db.cart[c]
    ensures forall k :: k in db.items && Untouched(db, order, k) ==> r.0.items[k] == db.items[k]
    ensures Folders(r.0, KindFolders(f.kind)) == Folders(db, KindFolders(f.kind)) + (if order == [] then {} else {f.name})
    ensures forall other :: other != KindFolders(f.kind) ==> Folders(r.0, other) == Folders(db, other)
    ensures Frame(db, r.0)
    decreases |order|
  {
    if order == [] then (db, [])
    else
      var init := order[..|order| - 1];
      var c := order[|order| - 1];
      assert c !in init;
      var (d, failed) := ApplyLines(db, init, f);
      var (d2, ok) := ApplyLine(d, c, f);
      (d2, if ok then failed else failed + [d.cart[c].item])
  }

  datatype FinalizeOutcome = EmptyCart | InvalidForm | Finalized | FinalizedWithErrors(failed: seq<nat>)

  /** `order` lists every key of `keys` exactly once: an iteration order of a table. */
  predicate Enumerates(order: seq<nat>, keys: set<nat>) {
    Distinct(order) && (forall i :: 0 <= i < |order| ==> order[i] in keys) && (forall c :: c in keys ==> c in order)
  }

  predicate CartLinked(db: Db) {
    forall c :: c in db.cart ==> db.cart[c].item in db.items
  }

  /**
   * The finalize request, with the cart visited in `order`: an empty cart is an
   * error and an invalid form aborts the request, both with no change;
   * otherwise every line is applied, the destination folder exists afterwards,
   * and the whole cart is deleted.
   */
  function Finalize(db: Db, order: seq<nat>, form: Option<BulkForm>): (r: (Db, FinalizeOutcome))
    requires CartLinked(db) && Enumerates(order, db.cart.Keys)
    ensures |db.cart| == 0 ==> r == (db, EmptyCart)
    ensures |db.cart| > 0 && form.None? ==> r == (db, InvalidForm)
    ensures |db.cart| > 0 && form.Some? ==> r.0.cart == map[] && r.0.items.Keys == db.items.Keys
  {
    if |db.cart| == 0 then (db, EmptyCart)
    else if form.None? then (db, InvalidForm)
    else
      assert order != [] by {
        var c :| c in db.cart;
        assert c in order;
      }
      var (d, failed) := ApplyLines(db, order, form.value);
      (d.(cart := map[]), if failed == [] then Finalized else FinalizedWithErrors(failed))
  }

  // ----------------------------------------------------------------------
  // What finalize does, line by line, in closed form
  // ----------------------------------------------------------------------

  /** Whether cart line `c` succeeds: its item's totals are set. */
  predicate LineOk(db: Db, c: nat)
    requires c in db.cart && db.cart[c].item in db.items
  {
    Withdrawable(db.items[db.cart[c].item])
  }

  /** The item of cart line `c` after finalize: withdrawn from if its totals are set, unchanged otherwise. */
  function AfterLine(db: Db, c: nat, f: BulkForm): Item
    requires c in db.cart && db.cart[c].item in db.items
  {
    var it := db.items[db.cart[c].item];
    if Withdrawable(it) then Withdrawn(it, db.cart[c].quantity, f) else it
  }

  /** The lines of `order` that succeed, in order. */
  function OkLines(db: Db, order: seq<nat>): (r: seq<nat>)
    requires LinesOf(db, order)
    ensures LinesOf(db, r)
    ensures forall j :: 0 <= j < |r| ==> LineOk(db, r[j])
    ensures forall c :: c in r ==> c in order
    ensures |r| <= |order|
    decreases |order|
  {
    if order == [] then []
    else
      var c := order[|order| - 1];
      OkLines(db, order[..|order| - 1]) + (if LineOk(db, c) then [c] else [])
  }

  /** The item ids of the lines of `order` that fail, in order. */
  function FailedItems(db: Db, order: seq<nat>): seq<nat>
    requires LinesOf(db, order)
    decreases |order|
  {
    if order == [] then []
    else
      var c := order[|order| - 1];
      FailedItems(db, order[..|order| - 1]) + (if LineOk(db, c) then [] else [db.cart[c].item])
  }

  /** The history entry that successful line `c` appends with id `id`. */
  function EntryFor(db: Db, c: nat, id: nat, f: BulkForm): HistoryEntry
    requires c in db.cart && db.cart[c].item in db.items && LineOk(db, c)
  {
    var line := db.cart[c];
    LineEntry(id, line.item, Withdrawn(db.items[line.item], line.quantity, f), line.quantity, f)
  }

  /** The entries appended for the successful lines `ok`, numbered from `base`. */
  function Appended(db: Db, ok: seq<nat>, base: nat, f: BulkForm): (r: seq<HistoryEntry>)
    requires LinesOf(db, ok) && forall j :: 0 <= j < |ok| ==> LineOk(db, ok[j])
    ensures |r| == |ok|
    decreases |ok|
  {
    if ok == [] then []
    else Appended(db, ok[..|ok| - 1], base, f) + [EntryFor(db, ok[|ok| - 1], base + |ok| - 1, f)]
  }

  lemma HistoryStep(db: Db, h: seq<HistoryEntry>, h2: seq<HistoryEntry>, ok: seq<nat>, c: nat, f: BulkForm)
    requires LinesOf(db, ok) && (forall j :: 0 <= j < |ok| ==> LineOk(db, ok[j]))
    requires c in db.cart && db.cart[c].item in db.items && LineOk(db, c)
    requires h == db.history + Appended(db, ok, db.nextHistory, f)
    requires h2 == h + [EntryFor(db, c, db.nextHistory + |ok|, f)]
    ensures LinesOf(db, ok + [c]) && forall j :: 0 <= j < |ok + [c]| ==> LineOk(db, (ok + [c])[j])
    ensures h2 == db.history + Appended(db, ok + [c], db.nextHistory, f)
  {
    AppendedSnoc(db, ok, c, db.nextHistory, f);
    SnocAssoc(db.history, Appended(db, ok, db.nextHistory, f), EntryFor(db, c, db.nextHistory + |ok|, f));
  }

  lemma SnocAssoc(h: seq<HistoryEntry>, a: seq<HistoryEntry>, e: HistoryEntry)
    ensures (h + a) + [e] == h + (a + [e])
  {
  }

  lemma AppendedSnoc(db: Db, ok: seq<nat>, c: nat, base: nat, f: BulkForm)
    requires LinesOf(db, ok) && (forall j :: 0 <= j < |ok| ==> LineOk(db, ok[j]))
    requires c in db.cart && db.cart[c].item in db.items && LineOk(db, c)
    ensures LinesOf(db, ok + [c]) && forall j :: 0 <= j < |ok + [c]| ==> LineOk(db, (ok + [c])[j])
    ensures Appended(db, ok + [c], base, f) == Appended(db, ok, base, f) + [EntryFor(db, c, base + |ok|, f)]
  {
    assert (ok + [c])[..|ok|] == ok;
  }

  /** The lines of `order` are for distinct items. */
  predicate ItemsDistinct(db: Db, order: seq<nat>)
    requires LinesOf(db, order)
  {
    forall i, j :: 0 <= i < j < |order| ==> db.cart[order[i]].item != db.cart[order[j]].item
  }

  lemma OneLinePerItemDistinct(db: Db, order: seq<nat>)
    requires LinesOf(db, order) && Distinct(order) && OneLinePerItem(db.cart)
    ensures ItemsDistinct(db, order)
  {
  }

  /** The last line's item is untouched by the lines before it. */
  lemma LastUntouched(db: Db, order: seq<nat>)
    requires LinesOf(db, order) && ItemsDistinct(db, order) && order != []
    ensures Untouched(db, order[..|order| - 1], db.cart[order[|order| - 1]].item)
  {
    var init := order[..|order| - 1];
    forall i | 0 <= i < |init| ensures db.cart[init[i]].item != db.cart[order[|order| - 1]].item {
      assert order[i] == init[i];
    }
  }

  /** Applying lines for distinct items updates each line's item to its closed form. */
  lemma {:induction false} ApplyLinesItems(db: Db, order: seq<nat>, f: BulkForm)
    requires LinesOf(db, order) && Distinct(order) && ItemsDistinct(db, order)
    ensures var r := ApplyLines(db, order, f).0;
      forall i :: 0 <= i < |order| ==> r.items[db.cart[order[i]].item] == AfterLine(db, order[i], f)
    decreases |order|
  {
    if order != [] {
      var init := order[..|order| - 1];
      var c := order[|order| - 1];
      assert c !in init;
      assert ItemsDistinct(db, init);
      ApplyLinesItems(db, init, f);
      LastUntouched(db, order);
      var d := ApplyLines(db, init, f).0;
      var r := ApplyLines(db, order, f).0;
      var k := db.cart[c].item;
      assert d.items[k] == db.items[k] && d.cart[c] == db.cart[c];
      assert r.items[k] == AfterLine(db, c, f);
      forall i | 0 <= i < |order| ensures r.items[db.cart[order[i]].item] == AfterLine(db, order[i], f) {
        if i < |init| {
          assert order[i] == init[i];
          assert db.cart[order[i]].item != k;
        }
      }
    }
  }

  /** Applying lines for distinct items appends exactly one entry per successful line, in order. */
  lemma {:induction false} ApplyLinesHistory(db: Db, order: seq<nat>, f: BulkForm)
    requires LinesOf(db, order) && Distinct(order) && ItemsDistinct(db, order)
    ensures var r := ApplyLines(db, order, f).0;
      var ok := OkLines(db, order);
      && r.history == db.history + Appended(db, ok, db.nextHistory, f)
      && r.nextHistory == db.nextHistory + |ok|
    decreases |order|
  {
    if order != [] {
      var init := order[..|order| - 1];
      var c := order[|order| - 1];
      assert c !in init;
      assert ItemsDistinct(db, init);
      ApplyLinesHistory(db, init, f);
      LastUntouched(db, order);
      var d := ApplyLines(db, init, f).0;
      assert ApplyLines(db, order, f).0 == ApplyLine(d, c, f).0;
      LineHistoryStep(db, d, OkLines(db, init), c, f);
      assert OkLines(db, order) == OkLines(db, init) + (if LineOk(db, c) then [c] else []);
    } else {
      assert db.history + [] == db.history;
    }
  }

  /** One more line on top of the lines `ok` that succeeded so far. */
  lemma LineHistoryStep(db: Db, d: Db, ok: seq<nat>, c: nat, f: BulkForm)
    requires LinesOf(db, ok) && (forall j :: 0 <= j < |ok| ==> LineOk(db, ok[j]))
    requires c in db.cart && db.cart[c].item in db.items
    requires c in d.cart && d.cart[c] == db.cart[c] && d.items.Keys == db.items.Keys
    requires d.items[db.cart[c].item] == db.items[db.cart[c].item]
    requires d.history == db.history + Appended(db, ok, db.nextHistory, f)
    requires d.nextHistory == db.nextHistory + |ok|
    ensures var r := ApplyLine(d, c, f).0;
      var ok' := ok + (if LineOk(db, c) then [c] else []);
      && LinesOf(db, ok') && (forall j :: 0 <= j < |ok'| ==> LineOk(db, ok'[j]))
      && r.history == db.history + Appended(db, ok', db.nextHistory, f)
      && r.nextHistory == db.nextHistory + |ok'|
  {
    var r := ApplyLine(d, c, f).0;
    if LineOk(db, c) {
      HistoryStep(db, d.history, r.history, ok, c, f);
    } else {
      assert ok + [] == ok;
    }
  }

  /** Applying lines for distinct items deletes exactly the successful lines and reports exactly the failing ones. */
  lemma {:induction false} ApplyLinesCart(db: Db, order: seq<nat>, f: BulkForm)
    requires LinesOf(db, order) && Distinct(order) && ItemsDistinct(db, order)
    ensures var (r, failed) := ApplyLines(db, order, f);
      && (forall c :: c in r.cart <==> c in db.cart && c !in OkLines(db, order))
      && failed == FailedItems(db, order)
    decreases |order|
  {
    if order != [] {
      var init := order[..|order| - 1];
      var c := order[|order| - 1];
      assert c !in init;
      assert ItemsDistinct(db, init);
      ApplyLinesCart(db, init, f);
      LastUntouched(db, order);
      var (d, failed) := ApplyLines(db, init, f);
      ApplyLinesStep(db, order, f);
      CartStep(db, d, OkLines(db, init), c, f);
    }
    ApplyLinesFailed(db, order, f);
  }

  /** The line loop reports exactly the items of the lines that failed, in order. */
  lemma {:induction false} ApplyLinesFailed(db: Db, order: seq<nat>, f: BulkForm)
    requires LinesOf(db, order) && Distinct(order) && ItemsDistinct(db, order)
    ensures ApplyLines(db, order, f).1 == FailedItems(db, order)
    decreases |order|
  {
    if order != [] {
      var init := order[..|order| - 1];
      var c := order[|order| - 1];
      assert c !in init;
      assert ItemsDistinct(db, init);
      ApplyLinesFailed(db, init, f);
      LastUntouched(db, order);
      ApplyLinesStep(db, order, f);
      var d := ApplyLines(db, init, f).0;
      assert d.items[db.cart[c].item] == db.items[db.cart[c].item];
      assert ApplyLine(d, c, f).1 == LineOk(db, c);
    }
  }

  /** The line loop over `order` is the loop over all but its last line, followed by that line. */
  lemma ApplyLinesStep(db: Db, order: seq<nat>, f: BulkForm)
    requires LinesOf(db, order) && Distinct(order) && order != []
    ensures var init, c := order[..|order| - 1], order[|order| - 1];
      && LinesOf(db, init) && Distinct(init)
      && var (d, failed) := ApplyLines(db, init, f);
         && c in d.cart && d.cart[c] == db.cart[c]
         && var (r, b) := ApplyLine(d, c, f);
            ApplyLines(db, order, f) == (r, if b then failed else failed + [d.cart[c].item])
  {
    assert order[|order| - 1] !in order[..|order| - 1];
  }

  /** One more line on top of a cart from which the lines `ok` are gone. */
  lemma CartStep(db: Db, d: Db, ok: seq<nat>, c: nat, f: BulkForm)
    requires c in db.cart && db.cart[c].item in db.items
    requires c in d.cart && d.cart[c] == db.cart[c] && d.items.Keys == db.items.Keys
    requires d.items[db.cart[c].item] == db.items[db.cart[c].item]
    requires forall x :: x in d.cart <==> x in db.cart && x !in ok
    ensures var (r, b) := ApplyLine(d, c, f);
      && b == LineOk(db, c)
      && forall x :: x in r.cart <==> x in db.cart && x !in ok + (if LineOk(db, c) then [c] else [])
  {
  }

  /**
   * Finalize's effect on the items, for any order in which the database
   * returns the cart: every cart line's item is updated on its own (so the
   * result does not depend on the order) and every other item is untouched.
   */
  lemma FinalizeItems(db: Db, order: seq<nat>, f: BulkForm)
    requires Valid(db) && Enumerates(order, db.cart.Keys) && |db.cart| > 0
    ensures var r := Finalize(db, order, Some(f)).0;
      && (forall c :: c in db.cart ==> r.items[db.cart[c].item] == AfterLine(db, c, f))
      && (forall k :: k in db.items && !HasLine(db.cart, k) ==> r.items[k] == db.items[k])
  {
    OneLinePerItemDistinct(db, order);
    ApplyLinesItems(db, order, f);
    var r := ApplyLines(db, order, f).0;
    forall c | c in db.cart ensures r.items[db.cart[c].item] == AfterLine(db, c, f) {
      var i :| 0 <= i < |order| && order[i] == c;
    }
    forall k | k in db.items && !HasLine(db.cart, k) ensures r.items[k] == db.items[k] {
      assert Untouched(db, order, k);
    }
  }

  /**
   * Finalize's effect on the history and the outcome: one entry per successful
   * line is appended, and the outcome lists exactly the failing lines' items.
   */
  lemma FinalizeHistory(db: Db, order: seq<nat>, f: BulkForm)
    requires Valid(db) && Enumerates(order, db.cart.Keys) && |db.cart| > 0
    ensures var (r, outcome) := Finalize(db, order, Some(f));
      var ok := OkLines(db, order);
      && r.history == db.history + Appended(db, ok, db.nextHistory, f)
      && r.nextHistory == db.nextHistory + |ok|
      && (outcome == Finalized <==> FailedItems(db, order) == [])
      && (outcome != Finalized ==> outcome == FinalizedWithErrors(FailedItems(db, order)))
  {
    OneLinePerItemDistinct(db, order);
    ApplyLinesHistory(db, order, f);
    ApplyLinesCart(db, order, f);
  }

  /** Every appended entry is for an existing item, filed only under the destination, with increasing ids from `base`. */
  lemma {:induction false} AppendedShape(db: Db, ok: seq<nat>, base: nat, f: BulkForm)
    requires LinesOf(db, ok) && forall j :: 0 <= j < |ok| ==> LineOk(db, ok[j])
    ensures var a := Appended(db, ok, base, f);
      && (forall e :: e in a ==> e.item in db.items && base <= e.id < base + |ok|)
      && (forall e :: e in a ==> EntryRefsOk(e, if f.kind == Site then {f.name} else {}, if f.kind == Client then {f.name} else {}))
      && IdsIncreasing(a)
    decreases |ok|
  {
    if ok != [] {
      var init := ok[..|ok| - 1];
      AppendedShape(db, init, base, f);
      var a0 := Appended(db, init, base, f);
      var e := EntryFor(db, ok[|ok| - 1], base + |ok| - 1, f);
      assert Appended(db, ok, base, f) == a0 + [e];
      assert forall x :: x in a0 + [e] ==> x in a0 || x == e;
      assert IdsIncreasing(a0 + [e]) by {
        forall i, j | 0 <= i < j < |a0 + [e]| ensures (a0 + [e])[i].id < (a0 + [e])[j].id {
          if j < |a0| {
            assert (a0 + [e])[i] == a0[i] && (a0 + [e])[j] == a0[j];
          } else {
            assert (a0 + [e])[i] == a0[i] && a0[i] in a0;
          }
        }
      }
    }
  }

  /** The folders after finalize: the destination exists, no folder is lost. */
  predicate FoldersGrown(db: Db, r: Db, f: BulkForm) {
    && db.sites <= r.sites && db.clients <= r.clients && r.inventorySuppliers == db.inventorySuppliers
    && (f.kind == Site ==> f.name in r.sites) && (f.kind == Client ==> f.name in r.clients)
  }

  /**
   * Finalize's effect on the folders: the destination folder is got or
   * created, so it exists afterwards and no duplicate name arises; every
   * other folder is kept.
   */
  lemma FinalizeFolders(db: Db, order: seq<nat>, f: BulkForm)
    requires CartLinked(db) && Enumerates(order, db.cart.Keys) && |db.cart| > 0
    ensures var r := Finalize(db, order, Some(f)).0;
      && Folders(r, KindFolders(f.kind)) == Folders(db, KindFolders(f.kind)) + {f.name}
      && (forall other :: other != KindFolders(f.kind) ==> Folders(r, other) == Folders(db, other))
      && Frame(db, r) && FoldersGrown(db, r, f)
  {
    assert order != [] by {
      var c :| c in db.cart;
      assert c in order;
    }
    var d := ApplyLines(db, order, f).0;
    assert Finalize(db, order, Some(f)).0 == d.(cart := map[]);
    FoldersAfterLines(db, d, d.(cart := map[]), f);
  }

  lemma FoldersAfterLines(db: Db, d: Db, r: Db, f: BulkForm)
    requires Folders(d, KindFolders(f.kind)) == Folders(db, KindFolders(f.kind)) + {f.name}
    requires forall other :: other != KindFolders(f.kind) ==> Folders(d, other) == Folders(db, other)
    requires Frame(db, d) && r == d.(cart := map[])
    ensures Folders(r, KindFolders(f.kind)) == Folders(db, KindFolders(f.kind)) + {f.name}
    ensures forall other :: other != KindFolders(f.kind) ==> Folders(r, other) == Folders(db, other)
    ensures Frame(db, r) && FoldersGrown(db, r, f)
  {
    assert Folders(d, InventorySupplierFolders) == Folders(db, InventorySupplierFolders);
    if f.kind == Site {
      assert Folders(d, ClientFolders) == Folders(db, ClientFolders);
    } else {
      assert Folders(d, SiteFolders) == Folders(db, SiteFolders);
    }
  }

  /** Finalize keeps the store consistent, whatever the outcome. */
  lemma FinalizePreservesValid(db: Db, order: seq<nat>, form: Option<BulkForm>)
    requires Valid(db) && Enumerates(order, db.cart.Keys)
    ensures Valid(Finalize(db, order, form).0)
  {
    if |db.cart| > 0 && form.Some? {
      var f := form.value;
      var r := Finalize(db, order, form).0;
      FinalizeFolders(db, order, f);
      FinalizeItems(db, order, f);
      FinalizeItemsOk(db, f, r);
      FinalizeHistory(db, order, f);
      FinalizeHistoryOk(db, OkLines(db, order), f, r);
    }
  }

  lemma FinalizeItemsOk(db: Db, f: BulkForm, r: Db)
    requires Valid(db)
    requires r.items.Keys == db.items.Keys && r.cart == map[] && Frame(db, r) && FoldersGrown(db, r, f)
    requires forall c :: c in db.cart ==> r.items[db.cart[c].item] == AfterLine(db, c, f)
    requires forall k :: k in db.items && !HasLine(db.cart, k) ==> r.items[k] == db.items[k]
    ensures ItemsOk(r) && CartOk(r) && StockInsOk(r)
  {
    forall k | k in r.items
      ensures k < r.nextItem && Balanced(r.items[k]) && ItemRefsOk(r.items[k], r.sites, r.clients)
    {
      if HasLine(db.cart, k) {
        var c :| c in db.cart && db.cart[c].item == k;
        assert r.items[k] == AfterLine(db, c, f);
      }
    }
  }

  lemma FinalizeHistoryOk(db: Db, ok: seq<nat>, f: BulkForm, r: Db)
    requires Valid(db)
    requires LinesOf(db, ok) && forall j :: 0 <= j < |ok| ==> LineOk(db, ok[j])
    requires r.items.Keys == db.items.Keys && FoldersGrown(db, r, f)
    requires r.history == db.history + Appended(db, ok, db.nextHistory, f)
    requires r.nextHistory == db.nextHistory + |ok|
    ensures HistoryOk(r)
  {
    var a := Appended(db, ok, db.nextHistory, f);
    AppendedShape(db, ok, db.nextHistory, f);
    forall e | e in r.history ensures e.item in r.items && e.id < r.nextHistory && EntryRefsOk(e, r.sites, r.clients) {
      assert e in db.history || e in a;
    }
    IdsIncreasingAppend(db.history, a, db.nextHistory);
  }

  /** Appending entries numbered from `base` to a history whose ids lie below `base` keeps ids increasing. */
  lemma IdsIncreasingAppend(h: seq<HistoryEntry>, a: seq<HistoryEntry>, base: nat)
    requires IdsIncreasing(h) && IdsIncreasing(a)
    requires forall e :: e in h ==> e.id < base
    requires forall e :: e in a ==> base <= e.id
    ensures IdsIncreasing(h + a)
  {
    forall i, j | 0 <= i < j < |h + a| ensures (h + a)[i].id < (h + a)[j].id {
      var n := |h|;
      if j < n {
        assert (h + a)[i] == h[i] && (h + a)[j] == h[j];
      } else if i < n {
        assert (h + a)[i] == h[i] && h[i] in h;
        assert (h + a)[j] == a[j - n] && a[j - n] in a;
      } else {
        assert (h + a)[i] == a[i - n] && (h + a)[j] == a[j - n];
      }
    }
  }

  // ----------------------------------------------------------------------
  // The ledger reconciles: history deltas track the cumulative quantity out
  // ----------------------------------------------------------------------

  /** The sum of the quantities out recorded in the history for item `k`. */
  function DeltaSum(h: seq<HistoryEntry>, k: nat): int {
    if h == [] then 0
    else (if h[0].item == k && h[0].quantityOut.Some? then h[0].quantityOut.value else 0) + DeltaSum(h[1..], k)
  }

  lemma {:induction false} DeltaSumAppend(h1: seq<HistoryEntry>, h2: seq<HistoryEntry>, k: nat)
    ensures DeltaSum(h1 + h2, k) == DeltaSum(h1, k) + DeltaSum(h2, k)
  {
    if h1 != [] {
      assert (h1 + h2)[1..] == h1[1..] + h2;
      DeltaSumAppend(h1[1..], h2, k);
    } else {
      assert h1 + h2 == h2;
    }
  }

  /** The item's cumulative quantity out, 0 when null. */
  function OutTotal(it: Item): int {
    if it.quantityOut.Some? then it.quantityOut.value else 0
  }

  /** The total quantity of the lines among `ok` that are for item `k`. */
  function LineQuantity(db: Db, ok: seq<nat>, k: nat): int
    requires LinesOf(db, ok)
    decreases |ok|
  {
    if ok == [] then 0
    else
      var c := ok[|ok| - 1];
      LineQuantity(db, ok[..|ok| - 1], k) + (if db.cart[c].item == k then db.cart[c].quantity else 0)
  }

  /** Among lines of distinct items, the line quantity of `k` is that of its own line. */
  lemma {:induction false} LineQuantityOf(db: Db, ok: seq<nat>, k: nat, j: nat)
    requires LinesOf(db, ok) && ItemsDistinct(db, ok) && j < |ok| && db.cart[ok[j]].item == k
    ensures LineQuantity(db, ok, k) == db.cart[ok[j]].quantity
    decreases |ok|
  {
    var init := ok[..|ok| - 1];
    assert forall i :: 0 <= i < |init| ==> init[i] == ok[i];
    if j < |ok| - 1 {
      LineQuantityOf(db, init, k, j);
    } else {
      LineQuantityNone(db, init, k);
    }
  }

  /** An item with no line among `ok` has line quantity 0. */
  lemma {:induction false} LineQuantityNone(db: Db, ok: seq<nat>, k: nat)
    requires LinesOf(db, ok) && forall j :: 0 <= j < |ok| ==> db.cart[ok[j]].item != k
    ensures LineQuantity(db, ok, k) == 0
    decreases |ok|
  {
    if ok != [] {
      var init := ok[..|ok| - 1];
      assert forall j :: 0 <= j < |init| ==> init[j] == ok[j];
      LineQuantityNone(db, init, k);
    }
  }

  /** The entries appended for the successful lines record, for item `k`, the total quantity of its lines. */
  lemma {:induction false} AppendedDelta(db: Db, ok: seq<nat>, base: nat, f: BulkForm, k: nat)
    requires LinesOf(db, ok) && forall j :: 0 <= j < |ok| ==> LineOk(db, ok[j])
    ensures DeltaSum(Appended(db, ok, base, f), k) == LineQuantity(db, ok, k)
    decreases |ok|
  {
    if ok == [] {
      assert Appended(db, ok, base, f) == [];
    } else {
      var init, c := ok[..|ok| - 1], ok[|ok| - 1];
      assert ok == init + [c];
      assert forall j :: 0 <= j < |init| ==> init[j] == ok[j];
      AppendedDelta(db, init, base, f, k);
      AppendedSnoc(db, init, c, base, f);
      DeltaSumAppend(Appended(db, init, base, f), [EntryFor(db, c, base + |init|, f)], k);
      EntryForDelta(db, c, base + |init|, f, k);
    }
  }

  /** The entry of a successful line records, for item `k`, the line's quantity when the line is `k`'s and nothing otherwise. */
  lemma EntryForDelta(db: Db, c: nat, id: nat, f: BulkForm, k: nat)
    requires c in db.cart && db.cart[c].item in db.items && LineOk(db, c)
    ensures DeltaSum([EntryFor(db, c, id, f)], k) == if db.cart[c].item == k then db.cart[c].quantity else 0
  {
    var e := EntryFor(db, c, id, f);
    assert e.item == db.cart[c].item && e.quantityOut == Some(db.cart[c].quantity);
    assert [e][1..] == [];
  }

  /**
   * Over a finalize, the growth of every item's cumulative quantity out equals
   * the growth of the quantities out its history records, whatever the outcome.
   */
  lemma FinalizeDeltaTracksOut(db: Db, order: seq<nat>, form: Option<BulkForm>)
    requires Valid(db) && Enumerates(order, db.cart.Keys)
    ensures var r := Finalize(db, order, form).0;
      forall k :: k in db.items ==>
        OutTotal(r.items[k]) - OutTotal(db.items[k]) == DeltaSum(r.history, k) - DeltaSum(db.history, k)
  {
    if |db.cart| > 0 && form.Some? {
      var f := form.value;
      FinalizeItems(db, order, f);
      FinalizeHistory(db, order, f);
      var r := Finalize(db, order, form).0;
      var ok := OkLines(db, order);
      OneLinePerItemDistinct(db, order);
      OkLinesDistinct(db, order);
      OkLinesItemsDistinct(db, ok);
      forall c | c in db.cart && LineOk(db, c) ensures c in ok {
        OkLinesComplete(db, order, c);
      }
      forall k | k in db.items
        ensures OutTotal(r.items[k]) - OutTotal(db.items[k]) == DeltaSum(r.history, k) - DeltaSum(db.history, k)
      {
        ItemDelta(db, ok, f, r, k);
      }
    }
  }

  /** Distinct lines of a cart with one line per item are for distinct items. */
  lemma OkLinesItemsDistinct(db: Db, ok: seq<nat>)
    requires LinesOf(db, ok) && Distinct(ok) && OneLinePerItem(db.cart)
    ensures ItemsDistinct(db, ok)
  {
  }

  /** One item's reconciliation over a finalize whose effect is given in closed form. */
  lemma ItemDelta(db: Db, ok: seq<nat>, f: BulkForm, r: Db, k: nat)
    requires CartLinked(db) && r.items.Keys == db.items.Keys && k in db.items
    requires LinesOf(db, ok) && (forall j :: 0 <= j < |ok| ==> LineOk(db, ok[j])) && ItemsDistinct(db, ok)
    requires forall c :: c in db.cart && LineOk(db, c) ==> c in ok
    requires forall c :: c in db.cart ==> r.items[db.cart[c].item] == AfterLine(db, c, f)
    requires !HasLine(db.cart, k) ==> r.items[k] == db.items[k]
    requires r.history == db.history + Appended(db, ok, db.nextHistory, f)
    ensures OutTotal(r.items[k]) - OutTotal(db.items[k]) == DeltaSum(r.history, k) - DeltaSum(db.history, k)
  {
    var a := Appended(db, ok, db.nextHistory, f);
    DeltaSumAppend(db.history, a, k);
    AppendedDelta(db, ok, db.nextHistory, f, k);
    if HasLine(db.cart, k) {
      var c :| c in db.cart && db.cart[c].item == k;
      assert r.items[k] == AfterLine(db, c, f);
      if LineOk(db, c) {
        var j :| 0 <= j < |ok| && ok[j] == c;
        LineQuantityOf(db, ok, k, j);
      } else {
        forall j | 0 <= j < |ok| ensures db.cart[ok[j]].item != k {
          assert LineOk(db, ok[j]);
        }
        LineQuantityNone(db, ok, k);
      }
    } else {
      forall j | 0 <= j < |ok| ensures db.cart[ok[j]].item != k {
        assert ok[j] in db.cart;
      }
      LineQuantityNone(db, ok, k);
    }
  }

  lemma {:induction false} OkLinesDistinct(db: Db, order: seq<nat>)
    requires LinesOf(db, order) && Distinct(order)
    ensures Distinct(OkLines(db, order))
    decreases |order|
  {
    if order != [] {
      var init := order[..|order| - 1];
      var c := order[|order| - 1];
      OkLinesDistinct(db, init);
      assert c !in init;
    }
  }

  lemma {:induction false} OkLinesComplete(db: Db, order: seq<nat>, c: nat)
    requires LinesOf(db, order) && c in order && c in db.cart && db.cart[c].item in db.items && LineOk(db, c)
    ensures c in OkLines(db, order)
    decreases |order|
  {
    var init := order[..|order| - 1];
    if c != order[|order| - 1] {
      assert c in init by {
        var i :| 0 <= i < |order| && order[i] == c;
        assert init[i] == c;
      }
      OkLinesComplete(db, init, c);
    }
  }

  /**
   * An item is reconciled when its cumulative quantity out is the sum of the
   * quantities out its history records.
   */
  ghost predicate Reconciled(db: Db) {
    forall k :: k in db.items ==> OutTotal(db.items[k]) == DeltaSum(db.history, k)
  }

  /** Finalize-only traces keep every item reconciled. */
  lemma FinalizePreservesReconciled(db: Db, order: seq<nat>, form: Option<BulkForm>)
    requires Valid(db) && Reconciled(db) && Enumerates(order, db.cart.Keys)
    ensures Reconciled(Finalize(db, order, form).0)
  {
    FinalizeDeltaTracksOut(db, order, form);
  }

  // ----------------------------------------------------------------------
  // Folder totals after finalize
  // ----------------------------------------------------------------------

  /** The sum of the amounts `q * price` of the successful lines `ok`. */
  function LinesAmount(db: Db, ok: seq<nat>): int
    requires LinesOf(db, ok)
    decreases |ok|
  {
    if ok == [] then 0
    else
      var c := ok[|ok| - 1];
      LinesAmount(db, ok[..|ok| - 1]) + Times(db.cart[c].quantity, db.items[db.cart[c].item].price)
  }

  /**
   * The entries appended by finalize are all filed in the destination folder,
   * so its total grows by the amount of every successful line, while the
   * total of every other folder of either kind stays the same.
   */
  lemma {:induction false} AppendedTotal(db: Db, ok: seq<nat>, base: nat, f: BulkForm, kind: Kind, name: string)
    requires LinesOf(db, ok) && forall j :: 0 <= j < |ok| ==> LineOk(db, ok[j])
    ensures FolderTotal(Appended(db, ok, base, f), kind, name) ==
      (if kind == f.kind && name == f.name then LinesAmount(db, ok) else 0)
    decreases |ok|
  {
    if ok != [] {
      var init := ok[..|ok| - 1];
      var c := ok[|ok| - 1];
      AppendedTotal(db, init, base, f, kind, name);
      var e := EntryFor(db, c, base + |init|, f);
      assert Appended(db, ok, base, f) == Appended(db, init, base, f) + [e];
      FolderTotalAppend(Appended(db, init, base, f), [e], kind, name);
      assert [e][1..] == [];
    } else {
      assert Appended(db, ok, base, f) == [];
    }
  }

  lemma FinalizeFolderTotals(db: Db, order: seq<nat>, f: BulkForm, kind: Kind, name: string)
    requires Valid(db) && Enumerates(order, db.cart.Keys) && |db.cart| > 0
    ensures FolderTotal(Finalize(db, order, Some(f)).0.history, kind, name) ==
      FolderTotal(db.history, kind, name) +
      (if kind == f.kind && name == f.name then LinesAmount(db, OkLines(db, order)) else 0)
  {
    FinalizeHistory(db, order, f);
    var ok := OkLines(db, order);
    FolderTotalAppend(db.history, Appended(db, ok, db.nextHistory, f), kind, name);
    AppendedTotal(db, ok, db.nextHistory, f, kind, name);
  }

  // ----------------------------------------------------------------------
  // Editing a history entry's remarks
  // ----------------------------------------------------------------------

  /** The edit-remarks request: sets the remarks of history entry `id`, or reports that there is none (404). */
  function SetRemarks(db: Db, id: nat, remarks: Text): (r: (Db, bool))
    ensures r.1 <==> exists i :: 0 <= i < |db.history| && db.history[i].id == id
    ensures !r.1 ==> r.0 == db
    ensures r.0 == db.(history := r.0.history) && |r.0.history| == |db.history|
    ensures forall i :: 0 <= i < |db.history| ==>
      r.0.history[i] == if db.history[i].id == id then db.history[i].(remarks := remarks) else db.history[i]
  {
    if exists i :: 0 <= i < |db.history| && db.history[i].id == id then
      (db.(history := seq(|db.history|, i requires 0 <= i < |db.history| =>
         if db.history[i].id == id then db.history[i].(remarks := remarks) else db.history[i])), true)
    else (db, false)
  }

  /** Editing remarks changes nothing the integrity rules look at, so it keeps the store consistent. */
  lemma SetRemarksPreservesValid(db: Db, id: nat, remarks: Text)
    requires Valid(db)
    ensures Valid(SetRemarks(db, id, remarks).0)
  {
    RemarksOnlyHistoryOk(db, SetRemarks(db, id, remarks).0.history);
  }

  /** Editing remarks changes no quantity, so it keeps every item reconciled. */
  lemma SetRemarksPreservesReconciled(db: Db, id: nat, remarks: Text)
    requires Reconciled(db)
    ensures Reconciled(SetRemarks(db, id, remarks).0)
  {
    var r := SetRemarks(db, id, remarks).0;
    forall k ensures DeltaSum(r.history, k) == DeltaSum(db.history, k) {
      DeltaSumSameOut(db.history, r.history, k);
    }
  }

  /** A history that differs from a consistent one only in remarks is consistent too. */
  lemma RemarksOnlyHistoryOk(db: Db, h: seq<HistoryEntry>)
    requires HistoryOk(db) && |h| == |db.history|
    requires forall i :: 0 <= i < |h| ==> h[i].(remarks := db.history[i].remarks) == db.history[i]
    ensures HistoryOk(db.(history := h))
  {
    forall e | e in h ensures e.item in db.items && e.id < db.nextHistory && EntryRefsOk(e, db.sites, db.clients) {
      var i :| 0 <= i < |h| && h[i] == e;
      assert db.history[i] in db.history;
    }
    forall i, j | 0 <= i < j < |h| ensures h[i].id < h[j].id {
      assert h[i].id == db.history[i].id && h[j].id == db.history[j].id;
    }
  }

  /** Two histories that agree on every entry's item and quantity out record the same deltas. */
  lemma {:induction false} DeltaSumSameOut(h1: seq<HistoryEntry>, h2: seq<HistoryEntry>, k: nat)
    requires |h1| == |h2|
    requires forall i :: 0 <= i < |h1| ==> h1[i].item == h2[i].item && h1[i].quantityOut == h2[i].quantityOut
    ensures DeltaSum(h1, k) == DeltaSum(h2, k)
  {
    if h1 != [] {
      DeltaSumSameOut(h1[1..], h2[1..], k);
    }
  }
}
