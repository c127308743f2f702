/**
 * The JubanShop database as mutable state: one field per table (and per
 * auto-increment counter), which the views change in place.
 */
module Store {
  import opened JubanModels

  class Shop {
    var items: map<nat, Item>
    var history: seq<HistoryEntry>
    var cart: map<nat, CartLine>
    var stockIns: map<nat, StockIn>
    var codeList: seq<CodeEntry>
    var sites: set<string>
    var clients: set<string>
    var inventorySuppliers: set<string>
    var suppliers: set<string>
    var nextItem: nat
    var nextHistory: nat
    var nextCart: nat
    var nextStockIn: nat

    /** The tables as one value. */
    function State(): Db
      reads this
    {
      Db(items, history, cart, stockIns, codeList, sites, clients, inventorySuppliers, suppliers,
         nextItem, nextHistory, nextCart, nextStockIn)
    }

    /** Every reference resolves, keys lie below their counters, and the stock columns balance. */
    ghost predicate Valid()
      reads this
    {
      JubanModels.Valid(State())
    }

    /** An empty database. */
    constructor ()
      ensures State() == EmptyDb() && Valid()
    {
      items, history, cart, stockIns, codeList := map[], [], map[], map[], [];
      sites, clients, inventorySuppliers, suppliers := {}, {}, {}, {};
      nextItem, nextHistory, nextCart, nextStockIn := 0, 0, 0, 0;
      EmptyDbValid();
    }

    /** Saves every table of `d`. */
    method Write(d: Db)
      modifies this
      ensures State() == d
    {
      WriteRows(d);
      WriteFolders(d);
      WriteCounters(d);
    }

    /** Saves the item, history, cart, stock-in and code-list tables of `d`. */
    method WriteRows(d: Db)
      modifies this
      ensures items == d.items && history == d.history && cart == d.cart && stockIns == d.stockIns
      ensures codeList == d.codeList
      ensures sites == old(sites) && clients == old(clients)
      ensures inventorySuppliers == old(inventorySuppliers) && suppliers == old(suppliers)
      ensures nextItem == old(nextItem) && nextHistory == old(nextHistory) && nextCart == old(nextCart) && nextStockIn == old(nextStockIn)
    {
      items, history, cart, stockIns, codeList := d.items, d.history, d.cart, d.stockIns, d.codeList;
    }

    /** Saves the four folder tables of `d`. */
    method WriteFolders(d: Db)
      modifies this
      ensures items == old(items) && history == old(history) && cart == old(cart) && stockIns == old(stockIns)
      ensures codeList == old(codeList)
      ensures sites == d.sites && clients == d.clients
      ensures inventorySuppliers == d.inventorySuppliers && suppliers == d.suppliers
      ensures nextItem == old(nextItem) && nextHistory == old(nextHistory) && nextCart == old(nextCart) && nextStockIn == old(nextStockIn)
    {
      sites, clients, inventorySuppliers, suppliers := d.sites, d.clients, d.inventorySuppliers, d.suppliers;
    }

    /** Saves the counters of `d`, keeping the tables. */
    method WriteCounters(d: Db)
      modifies this
      ensures items == old(items) && history == old(history) && cart == old(cart) && stockIns == old(stockIns)
      ensures codeList == old(codeList) && sites == old(sites) && clients == old(clients)
      ensures inventorySuppliers == old(inventorySuppliers) && suppliers == old(suppliers)
      ensures nextItem == d.nextItem && nextHistory == d.nextHistory && nextCart == d.nextCart && nextStockIn == d.nextStockIn
    {
      nextItem, nextHistory, nextCart, nextStockIn := d.nextItem, d.nextHistory, d.nextCart, d.nextStockIn;
    }
  }
}
