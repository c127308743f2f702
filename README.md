# JubanShop stock ledger, modelled in Dafny

JubanShop is the inventory half of a Django shop-management site, and po is its
purchase-order twin. This project models JubanShop's stock-ledger bookkeeping
and the data rules it relies on:

- **Withdrawal ledger.** A bulk-edit screen puts item quantities into a cart,
  one line per item. Finalizing the cart does three things for each line:
  - it adds the line's quantity to the item's cumulative `quantity_out`;
  - it recomputes `stock = quantity_in - quantity_out` and overwrites `total_amount`;
  - it files the item under a site or client folder and appends one history
    entry that holds the withdrawn quantity.

  Afterwards the cart is emptied.
- **Deposits.** A stock-in form adds quantities to the item matching the row,
  or creates that item; a spreadsheet upload would do the same for each row,
  if `pandas` were imported (see "## Left out"). The item form creates items and
  refuses duplicate names. The edit view either saves an item or merges it into
  its twin with the same supplier and name. The inventory table copies missing
  (code, name) pairs into the item code list.
- **Folder registry.** Site, client and inventory-supplier folders are created
  by name, at most one per name. The create-folder views, and the
  inventory-supplier list view, link the existing rows that name a new folder.
  The site and client folder-list views and finalize create folders without
  linking, and stock-in create links only that supplier's unfiled rows.
  Deleting one follows the tables' declared on-delete rules. A
  folder's total is the sum of the amounts filed in it.
- **Form cleaning.**
  - The quantity form derives stock from in and out.
  - The bulk form puts the location name into exactly one of "site delivered"
    and "client".
  - The po forms do the same and also record the location type.
- **Status badges.** The colour shown for a purchase order's or stock-in's
  second remark.

## Layout

- `wrappers.dfy`: `Option`.
- `decimals.dfy`: two-place decimals held as whole hundredths. `Times` is the
  quantity × price product, rounded back to two places (ties to even).
- `badges.dfy`: the remarks2 colour map.
- `juban_models.dfy`: the tables, as one value `Db`.
  - Items, cart lines and stock-in rows are maps keyed by primary key.
  - History is a sequence whose ids increase.
  - Each folder kind is a set of names.
  - Also here: the consistency predicate `Valid`, whose parts are
    `stock == in - out` on every item, one cart line per item, every foreign
    key resolving and every key below its counter; and the on-delete rules.
- `registry.dfy`: folder get-or-create, creation with backfill, folder totals.
- `ledger.dfy`: add to cart, remove a cart line, finalize, edit remarks, and
  `Reconciled`. `Reconciled` says that each item's `quantity_out` equals the
  sum of the out-quantities of its history entries.
- `deposits.dfy`: stock-in create, the per-row upload update, item create, item
  edit, the code-list sync.
- `form_data.dfy`, `juban_forms.dfy`, `po_forms.dfy`: forms as maps from field
  name to value, with the `clean` rules.
- `po_models.dfy`: the po app's extra tables: purchase orders, archive
  folders and the purchase-order cart.
- `store.dfy`: `Store.Shop`, a class holding the tables as fields.
- `juban_views.dfy`, `deposit_views.dfy`: the views. Each is an imperative
  method over a `Shop`. Its loops walk the cart lines, the history, the
  stock-in rows or the uploaded rows, as the source's loops do. Each verified
  loop is proved equal to the function in the modules above, and each view
  ensures the shop's new state is that function applied to the old state. So
  every lemma about the functions is also a statement about the views.

Modelling choices that follow the code rather than an idealised design:

- `total_amount` on an item is overwritten with the last line's amount, not
  accumulated.
- Nothing rejects a negative stock.
- Finalize leaves the item's fields for the other location kind as they were.
- Deleting a site or client folder deletes the items linked to it (CASCADE),
  and with them their history entries and cart lines.
- A nullable quantity that is null makes the source's arithmetic raise a
  `TypeError`. The model handles this in two ways:
  - in finalize, the source catches it per line, and the model treats that line
    as failed;
  - elsewhere the request fails, and the model returns a failure outcome that
    keeps whatever the view had already saved (there are no transactions).
- Finalize walks the cart in database order, which is unspecified. The view
  therefore returns the order it used, as a ghost value. The finalize lemmas
  hold for every order that enumerates the cart.
- Finalize with an invalid bulk form changes nothing. The source returns no
  response in that case.
- `.first()` on the upload's unordered lookup is read as the smallest primary
  key that matches.
- `get_or_create` by (item code, supplier) raises when more than one item
  matches. The model reports this as a failed stock-in.
- The stock-in view's `quantity_out or 0` comes after the stock has already been
  computed, so it has no effect on the stock.
- The item form checks for duplicates using the raw posted name, while the item
  it saves carries the cleaned name.
- The code list's product-name column is not nullable. An item without a name
  therefore stops the sync with an integrity error, and the rows already added
  stay.
- `particulars` choices are computed once, when the form class is defined. The
  model takes the item table of that moment as a parameter.
- `JubanSupplierFolder` exists as a table, but no JubanShop table refers to it.
- Folders are identified by name, which is unique per kind.

## Model

| member | source | states |
|---|---|---|
| Badges.Remarks2Colour | JubanShop/models.py:88-98 | each of the four statuses has its own colour ("On Hold" red, "For Signature" orange, "Cancelled" grey, "Paid" green), and black exactly when the status is null or not one of them |
| PoModels.BadgesAgree | po/models.py:84-94 | a purchase order and a stock-in row with the same status show the same badge, black exactly for a null or unknown status |
| Decimals.Quantize | JubanShop/models.py:132 | storing a four-place product in a two-place column rounds to within half a hundredth, is exact on whole hundredths, and breaks ties to an even result |
| Decimals.Times | JubanShop/views.py:1141 | the amount quantity × price, stored to two places, is within half a hundredth of the exact product and exact when the product is whole hundredths |
| Decimals.TimesWholeUnits | JubanShop/views.py:1141 | for a whole-unit quantity the stored amount is exactly quantity × price |
| JubanModels.BlankItem | JubanShop/models.py:104-141 | a new item has price and total 0, null quantities and stock, and no folder or location choice |
| JubanModels.BlankCartLine | JubanShop/models.py:186-188 | a new cart line holds its item and quantity 0 |
| JubanModels.EmptyDbValid | JubanShop/models.py:6-188 | the empty database satisfies every table rule |
| JubanModels.KeepHistory | JubanShop/models.py:162 | deleting items keeps exactly the history entries of the items that remain, in order, so ids still increase |
| JubanModels.NullFolder | JubanShop/models.py:175-177 | SET_NULL keeps every entry in place; afterwards no entry refers to the folder, entries that did lose only that reference, the others are unchanged |
| JubanModels.DeleteFolder | JubanShop/models.py:136-188 | deleting a folder removes that name only. The items linked to it are deleted (CASCADE) along with their cart lines, the other items and cart lines are unchanged, and stock-in rows and the code list are kept |
| JubanModels.DeleteFolderNullsHistory | JubanShop/models.py:136-137 | after a site or client folder is deleted, every history entry of a surviving item remains with its link cleared, every entry left is such an entry, no entry refers to the folder, and no entry of a deleted item remains |
| JubanModels.DeleteSupplierFolderKeepsStockIns | JubanShop/models.py:86 | deleting an inventory-supplier folder keeps every stock-in row, clears the link on exactly the rows filed in it, and leaves items, history and cart alone |
| JubanModels.DeleteItemsPreservesValid | JubanShop/models.py:162 | deleting items together with their history and cart lines keeps the database consistent |
| JubanModels.DeleteLinkedPreservesValid | JubanShop/models.py:136-137 | deleting a site or client folder keeps the database consistent |
| JubanModels.DeleteFolderPreservesValid | JubanShop/models.py:15-40 | deleting a folder of any kind keeps the database consistent |
| Registry.GetOrCreate | JubanShop/views.py:1144-1152 | getting or creating a folder creates it exactly when the name is new. Afterwards the name is present once, and no other folder kind or table changes |
| Registry.GetOrCreateIdempotent | JubanShop/models.py:15-40 | a second get-or-create of the same name creates nothing and changes nothing |
| Registry.GetOrCreatePreservesValid | JubanShop/models.py:15-40 | getting or creating a folder keeps the database consistent |
| Registry.CreateFolder | JubanShop/views.py:903-921 | without a name nothing happens; otherwise the folder is get-or-created, reporting "created" exactly for a new (non-empty) name |
| Registry.BackfillHistory | JubanShop/views.py:878-885 | every entry is kept in place; an entry is filed in the folder exactly when it already was or its site delivered (client) is the name; no other column changes |
| Registry.BackfillStockIns | JubanShop/views.py:1299-1303 | every row is kept; a row of that supplier (with `onlyUnfiled`, an unfiled one) is linked to the folder, every other row is unchanged, and only the folder column ever changes |
| Registry.CreateFolderWithBackfill | JubanShop/views.py:873-891 | only a new, non-empty name creates a folder; otherwise the database is unchanged |
| Registry.BackfillFilesMatchingHistory | JubanShop/views.py:955-963 | creating a new site or client folder links exactly the history entries whose site delivered / client equals the name, and keeps all entries |
| Registry.BackfillFilesMatchingStockIns | JubanShop/views.py:1299-1306 | creating a new inventory-supplier folder links exactly the stock-in rows whose supplier equals the name and leaves the others as they were |
| Registry.CreateFolderWithBackfillPreservesValid | JubanShop/views.py:873-891 | creation with backfill keeps the database consistent |
| Registry.BackfillHistoryPreservesValid | JubanShop/views.py:950-969 | linking history entries to an existing folder keeps the database consistent |
| Registry.FolderContentsTotal | JubanShop/views.py:924-929 | a folder's total exists exactly when the folder does |
| Registry.FolderTotalAppend | JubanShop/views.py:1002-1006 | the folder total over two histories joined is the sum of their totals |
| Registry.BackfilledFolderTotal | JubanShop/views.py:878-885 | right after backfill, a new folder's total is the sum of the amounts delivered to that name |
| Registry.NothingFiledInMissingFolder | JubanShop/models.py:175-177 | in a consistent database no history entry is filed in a folder that does not exist |
| Ledger.AddPick | JubanShop/views.py:1078-1102 | one pick only touches the cart, and reports an error exactly for a positive quantity of a missing item |
| Ledger.AddPicks | JubanShop/views.py:1072-1102 | the selection loop only touches the cart, and cart keys only grow |
| Ledger.AddPicksErrors | JubanShop/views.py:1084-1090 | the reported errors are exactly the positively picked ids with no item, in order |
| Ledger.AddToCart | JubanShop/views.py:1068-1114 | "nothing to add" exactly when no pick is positive, and then nothing changes; otherwise only the cart changes |
| Ledger.PendingIs | JubanShop/models.py:186-188 | with one line per item, the item's pending quantity is its line's quantity |
| Ledger.AddPickPending | JubanShop/views.py:1094-1102 | one pick adds its quantity to that item's single line (creating it if absent) and no other item's pending quantity changes; non-positive or unknown picks change nothing; consistency is kept |
| Ledger.AddPicksPending | JubanShop/views.py:1072-1102 | after the selection loop, each existing item's pending quantity grows by the sum of its positive picks and the cart stays consistent |
| Ledger.AddToCartPreservesValid | JubanShop/views.py:1068-1114 | adding to cart keeps the database consistent |
| Ledger.RemoveCartLine | JubanShop/views.py:1225-1229 | removal reports found exactly when the line exists, removes exactly that line and changes nothing else |
| Ledger.RemoveCartLinePending | JubanShop/views.py:1225-1229 | removing a line leaves its item with nothing pending, leaves every other item's pending quantity unchanged, and keeps consistency |
| Ledger.Withdrawn | JubanShop/views.py:1154-1157 | a withdrawn item is balanced: stock equals in minus out |
| Ledger.ApplyLine | JubanShop/views.py:1136-1190 | one cart line does two things when the item's quantities are set: it adds q to `quantity_out`, overwrites the total, files the item, appends one history entry and deletes the line. Otherwise nothing but the folder changes. The folder of the chosen kind is get-or-created in both cases, and no other item or cart line changes |
| Ledger.ApplyLines | JubanShop/views.py:1136-1192 | the line loop keeps the item keys. It leaves unvisited lines and untouched items alone, and adds the destination folder once the loop has run at least once |
| Ledger.Finalize | JubanShop/views.py:1116-1201 | an empty cart is an error with no change. An invalid form changes nothing. Otherwise the cart ends empty and no item is added or removed |
| Ledger.OkLines | JubanShop/views.py:1136-1190 | the successful lines are a subsequence of the visited ones, each of them succeeding |
| Ledger.Appended | JubanShop/views.py:1165-1185 | one history entry per successful line |
| Ledger.ApplyLinesItems | JubanShop/views.py:1154-1162 | the line loop leaves every visited item exactly as its own line made it |
| Ledger.ApplyLinesHistory | JubanShop/views.py:1165-1185 | the line loop appends exactly one entry per successful line, in visiting order, with consecutive ids |
| Ledger.ApplyLinesFailed | JubanShop/views.py:1188-1190 | the line loop reports exactly the items of the failed lines, in visiting order |
| Ledger.ApplyLinesCart | JubanShop/views.py:1187-1192 | the line loop deletes exactly the successful lines and reports exactly the failed items |
| Ledger.FinalizeItems | JubanShop/views.py:1141-1162 | after finalize each carted item is exactly its line's withdrawal (q more out, stock = in - out, total = q × price, filed under the chosen folder) and every item without a line is unchanged |
| Ledger.FinalizeHistory | JubanShop/views.py:1165-1201 | finalize appends one history entry per successful line. An entry holds the delta q, the cumulative in, the new stock and the line amount. The outcome is an error list exactly when some line failed |
| Ledger.AppendedShape | JubanShop/views.py:1165-1185 | the new entries refer to existing items with fresh increasing ids, and only the chosen kind's folder is set on them |
| Ledger.FinalizeFolders | JubanShop/views.py:1143-1152 | finalize adds the location name to the chosen kind's folders (no duplicate can arise) and leaves the other kinds as they were |
| Ledger.FinalizePreservesValid | JubanShop/views.py:1116-1201 | finalize keeps the database consistent, stock = in - out on every item included |
| Ledger.DeltaSumAppend | JubanShop/views.py:1165-1185 | an item's out-delta sum over joined histories adds up |
| Ledger.AppendedDelta | JubanShop/views.py:1173 | across the new entries, an item's out-deltas add up to the quantities of its successful lines |
| Ledger.LineQuantityOf | JubanShop/models.py:186-188 | with one line per item, the quantity summed for an item is that of its own line |
| Ledger.FinalizeDeltaTracksOut | JubanShop/views.py:1155 | finalize raises every item's `quantity_out` by exactly the sum of the out-deltas it appends for it |
| Ledger.OkLinesDistinct | JubanShop/views.py:1136 | each cart line succeeds at most once |
| Ledger.OkLinesComplete | JubanShop/views.py:1136-1190 | every visited line that can succeed is among the successful ones |
| Ledger.FinalizePreservesReconciled | JubanShop/views.py:1155-1173 | if each item's out total agrees with its history before finalize, it still does afterwards |
| Ledger.AppendedTotal | JubanShop/views.py:1141-1178 | the new entries add the sum of the successful line amounts to the chosen folder's total and nothing to any other folder |
| Ledger.FinalizeFolderTotals | JubanShop/views.py:924-929 | after finalize the chosen folder's total grows by the sum of the successful line amounts and every other folder's total is unchanged |
| Ledger.SetRemarks | JubanShop/views.py:1050-1063 | found exactly when an entry has that id. Only that entry's remarks change, and nothing changes when it is missing |
| Ledger.SetRemarksPreservesValid | JubanShop/views.py:1050-1063 | editing remarks keeps the database consistent |
| Ledger.SetRemarksPreservesReconciled | JubanShop/views.py:1056-1058 | editing remarks changes no quantity, so every item's out total still agrees with its history |
| Deposits.DepositBalances | JubanShop/views.py:1277-1280 | a deposit succeeds exactly when in, out and the delta are all set. It adds the delta to `quantity_in`, keeps out, rebalances stock and changes nothing else |
| Deposits.MinKey | JubanShop/views.py:1601-1606 | the first match is the smallest matching primary key |
| Deposits.NextItemHasNoHistory | JubanShop/models.py:162 | no history entry refers to the next item id |
| Deposits.SetItemPreservesValid | JubanShop/models.py:104-141 | replacing an item by a balanced one with the same folders keeps consistency |
| Deposits.AddItemPreservesValid | JubanShop/models.py:104-141 | adding a balanced unfiled item keeps consistency |
| Deposits.AddStockInPreservesValid | JubanShop/models.py:43-86 | adding a stock-in row whose supplier folder exists keeps consistency |
| Deposits.StockInCreateRejects | JubanShop/views.py:1234-1243 | the stock-in view rejects an invalid form, and refuses particulars naming no product. In both cases nothing changes |
| Deposits.FileStockInKeepsItems | JubanShop/views.py:1248-1254 | filing a stock-in touches only stock-in rows and supplier folders |
| Deposits.StockInCreateFilesSupplier | JubanShop/views.py:1248-1262 | with a supplier, the supplier folder is get-or-created, the row is saved linked to it, and the unfiled rows of that supplier are linked. With no supplier, no row is saved |
| Deposits.StockInCreateNewPair | JubanShop/views.py:1264-1275 | a new (code, supplier) pair creates an item named after the particulars with in = delta, out = 0, stock = delta |
| Deposits.StockInCreateExisting | JubanShop/views.py:1264-1281 | an existing pair takes the delta on `quantity_in`, keeps out, gets stock = in - out, and no other item changes. A null quantity fails with no item changed |
| Deposits.StockInCreateAmbiguous | JubanShop/views.py:1264 | two or more items with the pair make the lookup fail after the row was filed, with no item changed |
| Deposits.FileStockInPreservesValid | JubanShop/views.py:1248-1262 | filing a stock-in keeps consistency |
| Deposits.StockInCreatePreservesValid | JubanShop/views.py:1232-1290 | stock-in create keeps consistency |
| Deposits.StockInCreatePreservesReconciled | JubanShop/views.py:1232-1290 | stock-in create keeps every item's out total agreeing with its history |
| Deposits.ImportRowEffect | JubanShop/views.py:1571-1628 | an uploaded row is always saved, filed under its supplier when there is one. The first item matching all four keys takes the deposit; if none matches, a new item is created. History and cart are untouched |
| Deposits.ImportRowsStops | JubanShop/views.py:1569-1628 | the upload stops at the first row that fails, after all earlier rows went through and that row's saves persisted |
| Deposits.ImportRowPreservesValid | JubanShop/views.py:1571-1628 | an uploaded row keeps consistency |
| Deposits.ImportRowsPreservesValid | JubanShop/views.py:1569-1628 | an upload keeps consistency |
| Deposits.ImportRowPreservesReconciled | JubanShop/views.py:1608-1628 | an uploaded row keeps every out total agreeing with the history |
| Deposits.ImportRowsPreservesReconciled | JubanShop/views.py:1569-1628 | an upload keeps every out total agreeing with the history |
| Deposits.InventoryFormCreateEffect | JubanShop/views.py:24-52 | a posted name already used is refused, and an invalid form is rejected; neither changes anything. Otherwise one item is added under the next id, with in/out defaulting to 0, stock = in - out, and price and total 0 |
| Deposits.InventoryFormCreatePreservesValid | JubanShop/views.py:24-52 | item create keeps consistency |
| Deposits.InventoryFormCreateReconciled | JubanShop/views.py:24-52 | creating an item with nothing out keeps the database reconciled |
| Deposits.InventoryFormCreateKeepsNamesUnique | JubanShop/views.py:30-34 | when the posted name is the saved name, item names stay unique |
| Deposits.InventoryEditMerges | JubanShop/views.py:114-129 | a merge adds the edited in and out to the twin with the same supplier and name (the first one), rebalances it, and deletes the edited item with its history and cart lines. Every other item is unchanged |
| Deposits.InventoryEditSaves | JubanShop/views.py:130-132 | without a twin the edited item is saved as the form built it, with stock = in - out, and nothing else changes |
| Deposits.InventoryEditRefusals | JubanShop/views.py:106-140 | an unknown id is "not found", a null quantity fails, an invalid form is rejected, and none of these changes anything |
| Deposits.InventoryEditPreservesValid | JubanShop/views.py:106-140 | editing an item keeps consistency |
| Deposits.SyncCodesAppends | JubanShop/views.py:74-81 | the sync only appends to the code list, and each appended entry is the (code, name, unit) of a visited item |
| Deposits.ListedGrows | JubanShop/views.py:75-76 | a listed (code, name) pair stays listed when the list grows |
| Deposits.SyncCodesCovers | JubanShop/views.py:74-81 | the sync fails exactly when a visited item has no name; when it succeeds, every visited item's pair is listed |
| Deposits.SyncCodesNothingToAdd | JubanShop/views.py:74-81 | when every pair is already listed the sync changes nothing |
| Deposits.SyncCodesIdempotent | JubanShop/views.py:74-81 | a second sync after a successful one changes nothing |
| Deposits.SyncCodesKeepsPairsUnique | JubanShop/views.py:74-81 | the sync never lists a (code, name) pair twice |
| FormData.Relaxed | JubanShop/forms.py:170-175 | the field set is kept, a named field is optional, an unnamed one keeps its flag, and no field becomes required |
| FormData.RelaxedIdempotent | JubanShop/forms.py:170-175 | relaxing twice is relaxing once |
| FormData.RelaxedRequiredSet | po/forms.py:226-231 | the required fields after relaxing are those required before, minus the named ones |
| FormData.FieldTable.RelaxRequired | po/forms.py:229-231 | the `__init__` loop over the form's fields leaves the field list alone and makes the named ones optional |
| JubanForms.QuantityClean | JubanShop/forms.py:96-106 | cleaning succeeds exactly when the two quantities are numbers (missing counts as 0) and adds only `stock` |
| JubanForms.QuantityCleanBalances | JubanShop/forms.py:96-106 | the cleaned stock is in minus out, and no other field changes |
| JubanForms.QuantityCleanDefaults | JubanShop/forms.py:98-100 | for any data with no quantity in, the stock is minus the quantity out; a null quantity in makes the subtraction fail |
| JubanForms.BulkClean | JubanShop/forms.py:177-189 | the bulk clean adds at most the two location fields |
| JubanForms.BulkCleanExclusive | JubanShop/forms.py:182-187 | for 'site' or 'client', exactly one of site delivered / client holds the name and the other is null; every other field, including `site_or_client_choice`, is unchanged |
| JubanForms.BulkCleanOtherwiseUnchanged | JubanShop/forms.py:177-189 | any other location type leaves the cleaned data unchanged |
| JubanForms.BulkCleanIdempotent | JubanShop/forms.py:177-189 | cleaning twice is cleaning once |
| JubanForms.BulkFormRequiredFields | JubanShop/forms.py:170-175 | the bulk form requires only date, location type and location name after `__init__` |
| JubanForms.CleanedData.CleanBulk | JubanShop/forms.py:177-189 | the in-place clean leaves `cleaned_data` as the bulk clean rule says |
| JubanForms.CleanedData.CleanQuantity | JubanShop/forms.py:96-106 | the in-place quantity clean sets stock = in - out, or fails and leaves the data alone |
| JubanForms.DistinctProperties | JubanShop/forms.py:194 | `.distinct()` gives each product name once and loses none |
| JubanForms.ProductNames | JubanShop/forms.py:194 | one name per listed item, in table order; every listed item's name appears and no other name does |
| JubanForms.ParticularsChoicesDistinct | JubanShop/forms.py:192-198 | each choice is a (name, name) pair, no name appears twice, and the choices cover exactly the product names in the table |
| PoForms.ChoiceClean | po/forms.py:149-164 | the po clean adds at most the two location fields and the choice, and always sets the choice |
| PoForms.ChoiceCleanExclusive | po/forms.py:154-162 | for 'site' or 'client' the name lands in exactly one field, the other is null, the choice is the type, and no other field changes |
| PoForms.ChoiceAlwaysSet | po/forms.py:161-162 | the choice is the location type whichever branch ran; for other types nothing else changes |
| PoForms.ChoiceCleanIdempotent | po/forms.py:234-249 | cleaning twice is cleaning once |
| PoForms.PoBulkFormRequiredFields | po/forms.py:226-231 | the po bulk form makes the same five fields optional, leaving date and the two location fields required, while the plain form still requires price and total |
| PoForms.CleanChoice | po/forms.py:234-249 | the in-place po clean leaves `cleaned_data` as the po clean rule says |
| PoModels.BlankOrder | po/models.py:246-248 | a new purchase order is not archived, is in no folder, and has null quantities, prices and status |
| PoModels.NewOrderDefaults | po/models.py:247 | saving a new order adds exactly it, not archived and in no folder, and keeps the po store consistent |
| PoModels.ArchiveNamesMayRepeat | po/models.py:191-193 | two archive folders can share a name |
| PoModels.DeleteArchiveNullsOrders | po/models.py:246 | deleting an archive folder keeps every order and clears the folder of exactly those filed in it; nothing else changes |
| PoModels.DeleteSupplierFolderNullsOrders | po/models.py:248 | deleting a supplier folder keeps every order and clears exactly the matching links. Stock-in rows, items and the other folders stay as they were |
| PoModels.DeleteOrderCascades | po/models.py:272 | deleting an order deletes exactly its cart rows and keeps the rest |
| PoModels.DeleteInventoryFolderKeepsOrders | po/models.py:132-133 | deleting a site, client or inventory-supplier folder leaves every purchase order and cart row unchanged and keeps consistency |
| Store.Shop.constructor | JubanShop/models.py:6-188 | a fresh shop holds the empty, consistent database |
| Store.Shop.Write | JubanShop/models.py:6-188 | saving a computed database makes it the shop's state |
| JubanViews.Remark | JubanShop/views.py:1056-1058 | the lookup loop changes only the remarks of the entry with that id and reports whether one exists |
| JubanViews.AnyPositive | JubanShop/views.py:1072-1076 | the scan is true exactly when some pick is positive |
| JubanViews.AddPicks | JubanShop/views.py:1078-1102 | the selection loop yields the cart and errors of `Ledger.AddPicks` |
| JubanViews.ApplyOne | JubanShop/views.py:1136-1190 | processing one cart line has the effect of `Ledger.ApplyLine` |
| JubanViews.ApplyCart | JubanShop/views.py:1136-1192 | the cart loop visits every line once and has the effect of `Ledger.ApplyLines` in that order |
| JubanViews.AddToCart | JubanShop/views.py:1068-1114 | the add-to-cart view moves the shop to `Ledger.AddToCart`'s state, keeping consistency |
| JubanViews.RemoveCartLine | JubanShop/views.py:1225-1229 | the removal view moves the shop to `Ledger.RemoveCartLine`'s state, keeping consistency |
| JubanViews.EditRemarks | JubanShop/views.py:1050-1063 | the remarks view moves the shop to `Ledger.SetRemarks`'s state, keeping consistency |
| JubanViews.Finalize | JubanShop/views.py:1116-1201 | the finalize view moves the shop to `Ledger.Finalize`'s state for the order it visited the cart in, keeping consistency |
| JubanViews.LinkHistory | JubanShop/views.py:882-885 | the backfill loop over history computes `Registry.BackfillHistory` |
| JubanViews.LinkStockIns | JubanShop/views.py:1302-1305 | the backfill loop over stock-in rows computes `Registry.BackfillStockIns` |
| JubanViews.AddFolder | JubanShop/views.py:878 | saving a folder adds its name to that kind |
| JubanViews.CreateFolderWithBackfill | JubanShop/views.py:873-891 | the creation views for site, client and inventory-supplier folders have the effect of `Registry.CreateFolderWithBackfill`, keeping consistency |
| JubanViews.CreateFolder | JubanShop/views.py:903-921 | the site folder-list creation view, and the client one at JubanShop/views.py:981-1000, have the effect of `Registry.CreateFolder`, keeping consistency |
| JubanViews.DeleteFolder | JubanShop/views.py:894-900 | deleting a site folder, or a client folder at JubanShop/views.py:972-978, that exists applies the on-delete rules. Deleting a missing one (a 404) changes nothing. Consistency is kept either way |
| DepositViews.FileSupplier | JubanShop/views.py:1248-1262 | filing the stock-in row computes `Deposits.FileStockIn` |
| DepositViews.DepositStockIn | JubanShop/views.py:1264-1281 | the deposit step completes `Deposits.StockInCreate` |
| DepositViews.StockInCreate | JubanShop/views.py:1232-1290 | the stock-in view moves the shop to `Deposits.StockInCreate`'s state, keeping consistency |
| DepositViews.ImportOne | JubanShop/views.py:1571-1628 | one uploaded row has the effect of `Deposits.ImportRow` |
| DepositViews.ImportRowsKeepsFailure | JubanShop/views.py:1569-1628 | once a prefix of the rows fails, the later rows change nothing |
| DepositViews.ImportAll | JubanShop/views.py:1569-1628 | the row loop computes `Deposits.ImportRows` |
| DepositViews.ImportStockIns | JubanShop/views.py:1565-1628 | over already parsed rows, the shop ends in `Deposits.ImportRows`'s state, keeping consistency |
| DepositViews.InventoryFormCreate | JubanShop/views.py:24-52 | the item form view moves the shop to `Deposits.InventoryFormCreate`'s state, keeping consistency |
| DepositViews.EditItem | JubanShop/views.py:106-140 | the edit computation, cleaning the form in place, yields `Deposits.InventoryEdit` |
| DepositViews.InventoryEdit | JubanShop/views.py:106-140 | the edit view moves the shop to `Deposits.InventoryEdit`'s state, keeping consistency |
| DepositViews.FindCode | JubanShop/views.py:75-76 | the existence check is true exactly when the pair is listed |
| DepositViews.SyncLoop | JubanShop/views.py:74-81 | the sync loop computes `Deposits.SyncCodes` |
| DepositViews.SyncCodeList | JubanShop/views.py:55-92 | the inventory table's sync moves the shop to `Deposits.SyncCodeList`'s state, keeping consistency |

## Left out

- HTTP plumbing is not modelled: requests, responses, redirects, messages and pagination. Neither are the JSON body parsing and the conversion of posted strings; forms and posted values arrive as parsed values, and the outcome datatypes stand for the responses.
- Spreadsheet and zip exports and every presentation view are not modelled. They are formatting over foreign libraries.
- Search and date filtering are not modelled. The item table's search filter only narrows the rows that the code-list sync visits, so the sync takes the visited item ids as a parameter.
- Reading the uploaded spreadsheet (`pd.read_excel`, `fillna`) is not modelled. As written, JubanShop/views.py never imports `pd`, so the handler always fails at JubanShop/views.py:1566 with a NameError before reading a row. `juban_upload_stock_in_file` catches it and reports an error, and the real upload changes nothing. The model is the per-row logic as it would run with pandas imported.
- DepositViews.ImportStockIns: the per-row model also assumes each cell already has its column's type. After `fillna('')`, an empty QUANTITY IN cell is `''`, which the decimal column rejects at `stock_in.save()` (JubanShop/views.py:1598). A numeric cell arrives as a numpy number rather than a `Decimal` for the `+=` at JubanShop/views.py:1611. Neither conversion is modelled: the rows arrive as `StockIn` values with a null or decimal quantity.
- `juban_edit_inventory_history_remarks` and the remaining list/detail views are not modelled. They are form saves and queries with no ledger logic.
- po/views.py, both urls.py files and the migration are routing, purchase-order CRUD, archive views and schema history, and are not part of this model. The po tables' rules are modelled in `PoModels`.
- Form widget attributes and labels are UI only.
- Concurrency and row locking are not modelled. No view uses transactions, so every view is a sequence of saves, and a failure keeps what was saved before it.
- The creation time of an archive folder is a parameter (the clock is not modelled).
- Field lengths (`max_length`) and the decimal columns' `max_digits` overflow are not modelled. Quantities are unbounded whole hundredths.
- The dead `__init__` and `clean_po_product_name` defined inside `JubanItemInventoryListForm.Meta` (JubanShop/forms.py:61-71) have no effect and are not modelled.
- Store.Shop.Write: the on-delete cascades and multi-row updates of a view are computed as one new database and saved through one write. The order of the individual row saves is not modelled.
- JubanViews.Finalize: the order in which the database returns cart lines is not specified, so it is a ghost output and the properties are proved for every order.
- DepositViews.SyncCodeList: the order in which items are visited is a parameter. Within the source it is ordered by product name after the search filter.
- Ledger.Finalize: its own contract states only the cart and item-key effects. Per-line effects, history, folders, consistency and reconciliation are stated by the `Finalize…` lemmas.
- Ledger.Reconciled: it is not an invariant of the whole system. It is established only for items created with nothing out (`Deposits.InventoryFormCreateReconciled`), and lemmas prove that finalize, remarks edits, stock-in create and the upload keep it.
- Deposits.InventoryEdit: no lemma says it keeps `Ledger.Reconciled`, and it does not keep it. A merge adds the edited item's quantity out to its twin's but deletes the edited item's history entries. A plain save replaces `quantity_out` with the posted value, whatever the history records.
