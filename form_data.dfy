/**
 * What the form rules work on: a form's `cleaned_data` dictionary and its
 * table of declared fields with their `required` flags.
 */
module FormData {
  import opened Wrappers

  /** A value in `cleaned_data`: null, a string, or a two-place decimal held in hundredths. */
  datatype Value = Null | Str(s: string) | Num(n: int)

  /** A form's `cleaned_data`: field name to cleaned value; a field that failed validation is absent. */
  type Cleaned = map<string, Value>

  /** `cleaned_data.get(key, default)`. */
  function Get(m: Cleaned, key: string, default: Value): Value {
    if key in m then m[key] else default
  }

  /** Python's `a - b` on cleaned values: `None` is the TypeError raised when an operand is not a number. */
  function Minus(a: Value, b: Value): Option<Value> {
    if a.Num? && b.Num? then Some(Num(a.n - b.n)) else None
  }

  /** The requirement flags after the fields of `optional` are made optional. */
  function Relaxed(required: map<string, bool>, optional: set<string>): (r: map<string, bool>)
    ensures r.Keys == required.Keys
    ensures forall f :: f in r && f in optional ==> !r[f]
    ensures forall f :: f in r && f !in optional ==> r[f] == required[f]
    ensures forall f :: f in r && r[f] ==> required[f]
  {
    map f | f in required :: required[f] && f !in optional
  }

  /** Relaxing twice by the same set is relaxing once. */
  lemma RelaxedIdempotent(required: map<string, bool>, optional: set<string>)
    ensures Relaxed(Relaxed(required, optional), optional) == Relaxed(required, optional)
  {
  }

  /** A relaxed form requires exactly the fields it required before, less the optional ones. */
  lemma RelaxedRequiredSet(required: map<string, bool>, optional: set<string>)
    ensures (set f | f in Relaxed(required, optional) && Relaxed(required, optional)[f])
         == (set f | f in required && required[f]) - optional
  {
  }

  /**
   * A form's field table, as its `__init__` sees it: the declared fields in
   * declaration order, each with its `required` flag.
   */
  class FieldTable {
    var names: seq<string>
    var required: map<string, bool>

    /** Every declared field appears once and has a flag. */
    ghost predicate Valid()
      reads this
    {
      && (forall i, j :: 0 <= i < j < |names| ==> names[i] != names[j])
      && (forall i :: 0 <= i < |names| ==> names[i] in required)
      && (forall f :: f in required ==> f in names)
    }

    constructor (names: seq<string>, required: map<string, bool>)
      requires forall i, j :: 0 <= i < j < |names| ==> names[i] != names[j]
      requires forall i :: 0 <= i < |names| ==> names[i] in required
      requires forall f :: f in required ==> f in names
      ensures Valid() && this.names == names && this.required == required
    {
      this.names := names;
      this.required := required;
    }

    /**
     * The `__init__` loop over the fields: every field named in `optional` is
     * marked not required; the others keep their flag.
     */
    method RelaxRequired(optional: set<string>)
      requires Valid()
      modifies this
      ensures Valid() && names == old(names)
      ensures required == Relaxed(old(required), optional)
    {
      var i := 0;
      ghost var seen: set<string> := {};
      while i < |names|
        invariant 0 <= i <= |names|
        invariant names == old(names)
        invariant forall j :: 0 <= j < i ==> names[j] in seen
        invariant required.Keys == old(required).Keys
        invariant forall f :: f in required ==> required[f] == (old(required)[f] && !(f in optional && f in seen))
      {
        var f := names[i];
        if f in optional {
          required := required[f := false];
        }
        seen := seen + {f};
        i := i + 1;
      }
      assert forall f :: f in old(required) ==> f in seen by {
        forall f | f in old(required) ensures f in seen {
          var j :| 0 <= j < |names| && names[j] == f;
        }
      }
    }
  }
}
