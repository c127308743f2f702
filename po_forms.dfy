/**
 * The po app's item forms. Both `ItemInventoryForm.clean` and
 * `ItemInventoryBulkForm.clean` apply the JubanShop site/client rule and in
 * addition always record the location type as `site_or_client_choice`; the
 * bulk form's `__init__` makes the same five numeric fields optional.
 */
module PoForms {
  import opened FormData
  import JubanForms

  /**
   * The clean shared by `ItemInventoryForm` and `ItemInventoryBulkForm`:
   * the exclusivity rule, then `site_or_client_choice` set to the location
   * type (null when it is missing), whichever branch ran.
   */
  function ChoiceClean(m: Cleaned): (r: Cleaned)
    ensures r.Keys <= m.Keys + {"site_delivered", "client", "site_or_client_choice"}
    ensures "site_or_client_choice" in r
  {
    JubanForms.BulkClean(m)["site_or_client_choice" := Get(m, "location_type", Null)]
  }

  /**
   * With an admitted location type, the location name goes to exactly one of
   * site delivered and client, the other is null, the choice is the type, and
   * no other field changes.
   */
  lemma ChoiceCleanExclusive(m: Cleaned)
    requires JubanForms.AdmittedLocation(Get(m, "location_type", Null))
    ensures var r := ChoiceClean(m);
      var kind := Get(m, "location_type", Null).s;
      && r[JubanForms.NamedField(kind)] == Get(m, "location_name", Null)
      && r[JubanForms.ClearedField(kind)] == Null
      && r["site_or_client_choice"] == Str(kind)
      && forall k :: k in m && k !in {"site_delivered", "client", "site_or_client_choice"} ==> r[k] == m[k]
  {
  }

  /** Whatever the location type, the choice is recorded; without an admitted type nothing else changes. */
  lemma ChoiceAlwaysSet(m: Cleaned)
    ensures ChoiceClean(m)["site_or_client_choice"] == Get(m, "location_type", Null)
    ensures !JubanForms.AdmittedLocation(Get(m, "location_type", Null)) ==>
      ChoiceClean(m) == m["site_or_client_choice" := Get(m, "location_type", Null)]
  {
  }

  /** The po clean is idempotent. */
  lemma ChoiceCleanIdempotent(m: Cleaned)
    ensures ChoiceClean(ChoiceClean(m)) == ChoiceClean(m)
  {
  }

  /** `ItemInventoryBulkForm.__init__` makes the same fields optional as the JubanShop bulk form. */
  const BulkOptional: set<string> := {"quantity_in", "quantity_out", "stock", "price", "total_amount"}

  /**
   * The po inventory model declares the same fields blank as the JubanShop
   * one, so after `__init__` the po bulk form also requires only the date and
   * the two location fields, while the plain item form still requires price
   * and total amount.
   */
  lemma PoBulkFormRequiredFields()
    ensures BulkOptional == JubanForms.BulkOptional
    ensures var r := Relaxed(JubanForms.BulkDefaults, BulkOptional);
      (set f | f in r && r[f]) == {"date", "location_type", "location_name"}
    ensures (set f | f in JubanForms.BulkDefaults && JubanForms.BulkDefaults[f])
         == {"date", "price", "total_amount", "location_type", "location_name"}
  {
    JubanForms.BulkFormRequiredFields();
  }

  /** The po clean, writing into a form's `cleaned_data` in place. */
  method CleanChoice(form: JubanForms.CleanedData)
    modifies form
    ensures form.data == ChoiceClean(old(form.data))
  {
    var kind := Get(form.data, "location_type", Null);
    form.CleanBulk();
    form.data := form.data["site_or_client_choice" := kind];
  }
}
