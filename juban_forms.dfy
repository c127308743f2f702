/**
 * The JubanShop form rules: the quantity form derives the stock from the two
 * running totals, the bulk form files a withdrawal under a site or a client
 * (never both) and leaves its numeric fields optional, and the stock-in form
 * offers the distinct product names as its particulars.
 */
module JubanForms {
  import opened Wrappers
  import opened FormData
  import JubanModels

  // ----------------------------------------------------------------------
  // The quantity form
  // ----------------------------------------------------------------------

  /**
   * `JubanItemInventoryQuantityForm.clean`: `stock` becomes quantity in minus
   * quantity out, a missing total counting as 0. `None` is the TypeError a
   * null total raises (the request then fails).
   */
  function QuantityClean(m: Cleaned): (r: Option<Cleaned>)
    ensures r.Some? <==> Get(m, "quantity_in", Num(0)).Num? && Get(m, "quantity_out", Num(0)).Num?
    ensures r.Some? ==> r.value.Keys == m.Keys + {"stock"}
  {
    var d := Minus(Get(m, "quantity_in", Num(0)), Get(m, "quantity_out", Num(0)));
    if d.None? then None else Some(m["stock" := d.value])
  }

  /** After the quantity form's clean, the stock is quantity in minus quantity out and nothing else changed. */
  lemma QuantityCleanBalances(m: Cleaned)
    requires QuantityClean(m).Some?
    ensures var r := QuantityClean(m).value;
      && r["stock"] == Num(Get(m, "quantity_in", Num(0)).n - Get(m, "quantity_out", Num(0)).n)
      && forall k :: k in m && k != "stock" ==> r[k] == m[k]
  {
  }

  /** A total that failed validation counts as 0; one that is null makes the clean raise. */
  lemma QuantityCleanDefaults(m: Cleaned, q: int)
    ensures "quantity_in" !in m && Get(m, "quantity_out", Num(0)) == Num(q) ==>
      QuantityClean(m) == Some(m["stock" := Num(-q)])
    ensures "quantity_in" in m && m["quantity_in"] == Null ==> QuantityClean(m) == None
  {
  }

  // ----------------------------------------------------------------------
  // The bulk (withdrawal) form
  // ----------------------------------------------------------------------

  /** The values the `location_type` choice field admits. */
  const LocationChoices: seq<string> := ["site", "client"]

  /** Whether a cleaned `location_type` is one the choice field admits. */
  predicate AdmittedLocation(v: Value) {
    v.Str? && v.s in LocationChoices
  }

  /** The fields `JubanItemInventoryBulkForm.__init__` makes optional. */
  const BulkOptional: set<string> := {"quantity_in", "quantity_out", "stock", "price", "total_amount"}

  /**
   * `JubanItemInventoryBulkForm.clean`: a site withdrawal names the location
   * as the site delivered and clears the client, a client withdrawal the
   * reverse. Any other location type leaves the data as it is.
   */
  function BulkClean(m: Cleaned): (r: Cleaned)
    ensures r.Keys <= m.Keys + {"site_delivered", "client"}
  {
    var kind := Get(m, "location_type", Null);
    var name := Get(m, "location_name", Null);
    if kind == Str("site") then m["site_delivered" := name]["client" := Null]
    else if kind == Str("client") then m["client" := name]["site_delivered" := Null]
    else m
  }

  /** The field that receives the location name for an admitted location type, and the one cleared. */
  function NamedField(kind: string): string { if kind == "site" then "site_delivered" else "client" }
  function ClearedField(kind: string): string { if kind == "site" then "client" else "site_delivered" }

  /**
   * For an admitted location type exactly one of site delivered and client
   * holds the location name and the other is null; every other field,
   * `site_or_client_choice` included, is left as it was.
   */
  lemma BulkCleanExclusive(m: Cleaned)
    requires AdmittedLocation(Get(m, "location_type", Null))
    ensures var r := BulkClean(m);
      var kind := Get(m, "location_type", Null).s;
      && r[NamedField(kind)] == Get(m, "location_name", Null)
      && r[ClearedField(kind)] == Null
      && NamedField(kind) != ClearedField(kind)
      && r.Keys == m.Keys + {"site_delivered", "client"}
      && forall k :: k in m && k != "site_delivered" && k != "client" ==> r[k] == m[k]
  {
  }

  /** Without an admitted location type the bulk clean changes nothing. */
  lemma BulkCleanOtherwiseUnchanged(m: Cleaned)
    requires !AdmittedLocation(Get(m, "location_type", Null))
    ensures BulkClean(m) == m
  {
  }

  /** The bulk clean is idempotent: cleaning cleaned data again changes nothing. */
  lemma BulkCleanIdempotent(m: Cleaned)
    ensures BulkClean(BulkClean(m)) == BulkClean(m)
  {
  }

  /**
   * The `required` flags `JubanItemInventoryBulkForm` starts from: a model
   * field is required unless it is declared blank, and the two extra location
   * fields are required.
   */
  const BulkDefaults: map<string, bool> := map[
    "date" := true, "item_code" := false, "supplier" := false, "po_product_name" := false,
    "new_product_name" := false, "unit" := false, "quantity_in" := false, "quantity_out" := false,
    "stock" := false, "price" := true, "total_amount" := true, "site_delivered" := false,
    "client" := false, "location_type" := true, "location_name" := true, "delivery_ref" := false,
    "delivery_no" := false, "invoice_type" := false, "invoice_no" := false]

  /** After `__init__`, the bulk form requires only the date and the two location fields. */
  lemma BulkFormRequiredFields()
    ensures var r := Relaxed(BulkDefaults, BulkOptional);
      (set f | f in r && r[f]) == {"date", "location_type", "location_name"}
  {
    RelaxedRequiredSet(BulkDefaults, BulkOptional);
    assert (set f | f in BulkDefaults && BulkDefaults[f]) == {"date", "price", "total_amount", "location_type", "location_name"};
  }

  /** The bulk form's clean, writing into the form's `cleaned_data` in place. */
  class CleanedData {
    var data: Cleaned

    constructor (data: Cleaned)
      ensures this.data == data
    {
      this.data := data;
    }

    /** `JubanItemInventoryBulkForm.clean` on this form's data. */
    method CleanBulk()
      modifies this
      ensures data == BulkClean(old(data))
    {
      var kind := Get(data, "location_type", Null);
      var name := Get(data, "location_name", Null);
      if kind == Str("site") {
        data := data["site_delivered" := name];
        data := data["client" := Null];
      } else if kind == Str("client") {
        data := data["client" := name];
        data := data["site_delivered" := Null];
      }
    }

    /** `JubanItemInventoryQuantityForm.clean` on this form's data; `ok` is false when it raises. */
    method CleanQuantity() returns (ok: bool)
      modifies this
      ensures ok == QuantityClean(old(data)).Some?
      ensures ok ==> data == QuantityClean(old(data)).value
      ensures !ok ==> data == old(data)
    {
      var qin := Get(data, "quantity_in", Num(0));
      var qout := Get(data, "quantity_out", Num(0));
      var d := Minus(qin, qout);
      if d.None? {
        return false;
      }
      data := data["stock" := d.value];
      return true;
    }
  }

  // ----------------------------------------------------------------------
  // The stock-in form's particulars
  // ----------------------------------------------------------------------

  /** `.distinct()` on a list of product names: the first occurrence of each, in order. */
  function DistinctNames(names: seq<JubanModels.Text>): (r: seq<JubanModels.Text>)
    decreases |names|
  {
    if names == [] then []
    else
      var rest := DistinctNames(names[..|names| - 1]);
      if names[|names| - 1] in rest then rest else rest + [names[|names| - 1]]
  }

  predicate NoDuplicates(s: seq<JubanModels.Text>) {
    forall i, j :: 0 <= i < j < |s| ==> s[i] != s[j]
  }

  /** The distinct names hold every name of the list, each once, and nothing else. */
  lemma {:induction false} DistinctProperties(names: seq<JubanModels.Text>)
    ensures NoDuplicates(DistinctNames(names))
    ensures forall p :: p in DistinctNames(names) <==> p in names
    decreases |names|
  {
    if names != [] {
      var init := names[..|names| - 1];
      DistinctProperties(init);
      assert names == init + [names[|names| - 1]];
      var rest := DistinctNames(init);
      var x := names[|names| - 1];
      if x !in rest {
        var r := rest + [x];
        assert DistinctNames(names) == r;
        forall i, j | 0 <= i < j < |r| ensures r[i] != r[j] {
          assert r[i] == rest[i] && rest[i] in rest;
          if j < |rest| {
            assert r[j] == rest[j];
          } else {
            assert r[j] == x;
          }
        }
      } else {
        assert DistinctNames(names) == rest;
      }
    }
  }

  /**
   * The `particulars` choices of `JubanStockInHistoryForm`: one (value, label)
   * pair per distinct product name of the items, listed in `order`, a null
   * name included.
   */
  function ParticularsChoices(items: map<nat, JubanModels.Item>, order: seq<nat>): (r: seq<(JubanModels.Text, JubanModels.Text)>)
    requires forall i :: 0 <= i < |order| ==> order[i] in items
  {
    var d := DistinctNames(ProductNames(items, order));
    seq(|d|, i requires 0 <= i < |d| => (d[i], d[i]))
  }

  /** The product names of the items listed in `order`. */
  function ProductNames(items: map<nat, JubanModels.Item>, order: seq<nat>): (r: seq<JubanModels.Text>)
    requires forall i :: 0 <= i < |order| ==> order[i] in items
    ensures |r| == |order| && forall i :: 0 <= i < |order| ==> r[i] == items[order[i]].productName
    ensures forall k :: k in order ==> items[k].productName in r
    ensures forall n :: n in r ==> exists k :: k in order && items[k].productName == n
  {
    seq(|order|, i requires 0 <= i < |order| => items[order[i]].productName)
  }

  /** The particulars offered are exactly the product names of the listed items, each once, as value and label. */
  lemma ParticularsChoicesDistinct(items: map<nat, JubanModels.Item>, order: seq<nat>)
    requires forall i :: 0 <= i < |order| ==> order[i] in items
    ensures var r := ParticularsChoices(items, order);
      && (forall i :: 0 <= i < |r| ==> r[i].0 == r[i].1)
      && (forall i, j :: 0 <= i < j < |r| ==> r[i].0 != r[j].0)
      && (set i | 0 <= i < |r| :: r[i].0) == (set i | 0 <= i < |order| :: items[order[i]].productName)
  {
    var names := ProductNames(items, order);
    DistinctProperties(names);
    var d := DistinctNames(names);
    var r := ParticularsChoices(items, order);
    var offered := set i | 0 <= i < |r| :: r[i].0;
    var listed := set i | 0 <= i < |order| :: items[order[i]].productName;
    assert forall i :: 0 <= i < |r| ==> r[i] == (d[i], d[i]);
    forall p | p in offered ensures p in listed {
      var i :| 0 <= i < |r| && r[i].0 == p;
      assert d[i] in d;
      var j :| 0 <= j < |names| && names[j] == p;
    }
    forall p | p in listed ensures p in offered {
      var i :| 0 <= i < |order| && items[order[i]].productName == p;
      assert names[i] in names;
      var j :| 0 <= j < |d| && d[j] == p;
      assert r[j].0 == p;
    }
  }
}
