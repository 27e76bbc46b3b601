/**
 * values.go: row normalisation and validation helpers. A row (`sql.Values`) is a Go
 * map passed by reference; the helpers that rewrite it return the rewritten row.
 */
module RowValues {
  import opened Wrappers
  import opened Schema

  /**
   * The API error the helpers build: an HTTP status, messages not tied to a field,
   * and one message per field name (`SetField` overwrites).
   */
  datatype APIError = APIError(code: int, meta: seq<string>, fields: map<string, string>)

  /** `NewError(code)`: nothing recorded yet. */
  function NewError(code: int): APIError {
    APIError(code, [], map[])
  }

  /** `Exists`: whether anything was recorded. */
  predicate Exists(e: APIError) {
    |e.meta| > 0 || |e.fields| > 0
  }

  // ---------------------------------------------------------------- FixValues

  /** A byte-sequence value becomes the string of the same bytes; other values are kept. */
  function FixValue(v: Value): Value {
    if v.Bytes? then Str(BytesToString(v.bytes)) else v
  }

  /** The row FixValues leaves: every byte-sequence value replaced by its string. */
  function Fixed(row: Row): Row {
    map k | k in row :: FixValue(row[k])
  }

  /** Fixing keeps the key set, keeps non-byte values, turns bytes into the same bytes as a string. */
  lemma FixedMeaning(row: Row)
    ensures Fixed(row).Keys == row.Keys
    ensures forall k :: k in row && !row[k].Bytes? ==> Fixed(row)[k] == row[k]
    ensures forall k :: k in row && row[k].Bytes? ==>
      Fixed(row)[k].Str? && |Fixed(row)[k].s| == |row[k].bytes|
      && forall i :: 0 <= i < |row[k].bytes| ==> Fixed(row)[k].s[i] as int == row[k].bytes[i]
  {
  }

  /** After one pass no byte-sequence value remains, so a second pass changes nothing. */
  lemma FixedIdempotent(row: Row)
    ensures forall k :: k in Fixed(row) ==> !Fixed(row)[k].Bytes?
    ensures Fixed(Fixed(row)) == Fixed(row)
  {
    assert Fixed(Fixed(row)).Keys == Fixed(row).Keys;
  }

  /** The per-row loop of FixValues: rewrites each byte-sequence value, key by key. */
  method FixRow(row: Row) returns (fixed: Row)
    ensures fixed == Fixed(row)
  {
    fixed := row;
    var remaining := row.Keys;
    while remaining != {}
      invariant remaining <= row.Keys && fixed.Keys == row.Keys
      invariant forall k :: k in remaining ==> fixed[k] == row[k]
      invariant forall k :: k in row && k !in remaining ==> fixed[k] == FixValue(row[k])
      decreases |remaining|
    {
      var k :| k in remaining;
      if fixed[k].Bytes? {
        fixed := fixed[k := Str(BytesToString(fixed[k].bytes))];
      }
      remaining := remaining - {k};
    }
  }

  /** FixValues: fixes every row of the slice in place. */
  method FixValues(results: array<Row>)
    modifies results
    ensures forall i :: 0 <= i < results.Length ==> results[i] == Fixed(old(results[i]))
  {
    var i := 0;
    while i < results.Length
      invariant 0 <= i <= results.Length
      invariant forall j :: 0 <= j < i ==> results[j] == Fixed(old(results[j]))
      invariant forall j :: i <= j < results.Length ==> results[j] == old(results[j])
    {
      results[i] := FixRow(results[i]);
      i := i + 1;
    }
  }

  // -------------------------------------------------------------- HasRequired

  /**
   * HasRequired: no error exactly when every requested key is present; otherwise one
   * "is required" field error for each missing key and nothing else, status 400.
   */
  method HasRequired(values: Row, keys: seq<string>) returns (err: Option<APIError>)
    ensures err.None? <==> forall i :: 0 <= i < |keys| ==> keys[i] in values
    ensures err.Some? ==> && err.value.code == 400 && err.value.meta == []
                          && err.value.fields.Keys == (set i | 0 <= i < |keys| && keys[i] !in values :: keys[i])
                          && forall f :: f in err.value.fields ==> err.value.fields[f] == "is required"
  {
    var e := NewError(400);
    var i := 0;
    while i < |keys|
      invariant 0 <= i <= |keys|
      invariant e.code == 400 && e.meta == []
      invariant e.fields.Keys == (set j | 0 <= j < i && keys[j] !in values :: keys[j])
      invariant forall f :: f in e.fields ==> e.fields[f] == "is required"
    {
      if keys[i] !in values {
        e := e.(fields := e.fields[keys[i] := "is required"]);
      }
      i := i + 1;
    }
    forall j | 0 <= j < |keys| && keys[j] !in values ensures keys[j] in e.fields {
    }
    if Exists(e) {
      return Some(e);
    }
    return None;
  }

  // ------------------------------------------------------------ ValidateUsing

  /** What a column type's `Validate` answers: the cleaned value, or an error message. */
  datatype Validated = Valid(clean: Value) | Invalid(message: string)

  /** The field error ValidateUsing records for `key`, if any. */
  function FieldError<V>(key: string, value: Value, types: map<string, V>, validate: (V, Value) -> Validated): Option<string> {
    if key !in types then Some("does not exist in this resource")
    else match validate(types[key], value)
      case Invalid(m) => Some(m)
      case Valid(_) => None
  }

  /** The field errors recorded once the keys in `visited` have been checked. */
  function FieldErrorsOn<V>(values: Row, visited: set<string>, types: map<string, V>, validate: (V, Value) -> Validated): map<string, string> {
    map k | k in values && k in visited && FieldError(k, values[k], types, validate).Some? :: FieldError(k, values[k], types, validate).value
  }

  /** The row once the keys in `visited` have been checked: each accepted one holds its cleaned value. */
  function CleanedOn<V>(values: Row, visited: set<string>, types: map<string, V>, validate: (V, Value) -> Validated): Row {
    map k | k in values :: if k in visited && FieldError(k, values[k], types, validate).None? then validate(types[k], values[k]).clean else values[k]
  }

  /** The field errors of a whole row: one per key that is unknown or fails its validator. */
  function FieldErrors<V>(values: Row, types: map<string, V>, validate: (V, Value) -> Validated): map<string, string> {
    FieldErrorsOn(values, values.Keys, types, validate)
  }

  /** The row after validation: every accepted value replaced by its cleaned form. */
  function Cleaned<V>(values: Row, types: map<string, V>, validate: (V, Value) -> Validated): Row {
    CleanedOn(values, values.Keys, types, validate)
  }

  /** Before any key is checked there is no field error and the row is untouched. */
  lemma VisitNone<V>(values: Row, types: map<string, V>, validate: (V, Value) -> Validated)
    ensures FieldErrorsOn(values, {}, types, validate) == map[]
    ensures CleanedOn(values, {}, types, validate) == values
  {
  }

  /** Checking one more key that has a field error records that error and leaves the row alone. */
  lemma VisitRejected<V>(values: Row, visited: set<string>, key: string, types: map<string, V>, validate: (V, Value) -> Validated)
    requires key in values && key !in visited
    requires FieldError(key, values[key], types, validate).Some?
    ensures FieldErrorsOn(values, visited + {key}, types, validate)
         == FieldErrorsOn(values, visited, types, validate)[key := FieldError(key, values[key], types, validate).value]
    ensures CleanedOn(values, visited + {key}, types, validate) == CleanedOn(values, visited, types, validate)
  {
  }

  /** Checking one more key that validates stores its cleaned value and records no error. */
  lemma VisitAccepted<V>(values: Row, visited: set<string>, key: string, types: map<string, V>, validate: (V, Value) -> Validated)
    requires key in values && key !in visited
    requires FieldError(key, values[key], types, validate).None?
    ensures FieldErrorsOn(values, visited + {key}, types, validate) == FieldErrorsOn(values, visited, types, validate)
    ensures CleanedOn(values, visited + {key}, types, validate)
         == CleanedOn(values, visited, types, validate)[key := validate(types[key], values[key]).clean]
  {
  }

  /**
   * One turn of ValidateUsing's loop: an unknown key or a value its validator
   * rejects gets a field error; an accepted value is replaced by its cleaned form.
   */
  method ValidateKey<V>(values: Row, ghost visited: set<string>, key: string, e: APIError, cleaned: Row,
                        types: map<string, V>, validate: (V, Value) -> Validated)
    returns (e': APIError, cleaned': Row)
    requires key in values && key !in visited
    requires e.fields == FieldErrorsOn(values, visited, types, validate)
    requires cleaned == CleanedOn(values, visited, types, validate)
    ensures e'.code == e.code && e'.meta == e.meta
    ensures e'.fields == FieldErrorsOn(values, visited + {key}, types, validate)
    ensures cleaned' == CleanedOn(values, visited + {key}, types, validate)
  {
    e', cleaned' := e, cleaned;
    var value := values[key];
    if key !in types {
      VisitRejected(values, visited, key, types, validate);
      e' := e.(fields := e.fields[key := "does not exist in this resource"]);
      return;
    }
    var result := validate(types[key], value);
    if result.Invalid? {
      VisitRejected(values, visited, key, types, validate);
      e' := e.(fields := e.fields[key := result.message]);
      return;
    }
    VisitAccepted(values, visited, key, types, validate);
    cleaned' := cleaned[key := result.clean];
  }

  /**
   * ValidateUsing: visits every key (in map order), accumulating errors instead of
   * stopping at the first, and rewrites accepted values in place.
   */
  method ValidateUsing<V>(values: Row, types: map<string, V>, validate: (V, Value) -> Validated)
    returns (cleaned: Row, err: Option<APIError>)
    ensures cleaned == Cleaned(values, types, validate)
    ensures var errors := FieldErrors(values, types, validate);
      err == if errors == map[] then None else Some(APIError(400, [], errors))
  {
    var e := NewError(400);
    cleaned := values;
    var remaining := values.Keys;
    ghost var visited: set<string> := {};
    VisitNone(values, types, validate);
    while remaining != {}
      invariant remaining <= values.Keys && visited == values.Keys - remaining
      invariant e.code == 400 && e.meta == []
      invariant e.fields == FieldErrorsOn(values, visited, types, validate)
      invariant cleaned == CleanedOn(values, visited, types, validate)
      decreases |remaining|
    {
      var key :| key in remaining;
      e, cleaned := ValidateKey(values, visited, key, e, cleaned, types, validate);
      remaining := remaining - {key};
      visited := visited + {key};
    }
    assert visited == values.Keys;
    if Exists(e) {
      return cleaned, Some(e);
    }
    return cleaned, None;
  }

  /** Validation never adds or removes keys; an unknown key always gets its own error. */
  lemma ValidationKeepsKeys<V>(values: Row, types: map<string, V>, validate: (V, Value) -> Validated)
    ensures Cleaned(values, types, validate).Keys == values.Keys
    ensures FieldErrors(values, types, validate).Keys <= values.Keys
    ensures forall k :: k in values && k !in types ==>
      k in FieldErrors(values, types, validate) && FieldErrors(values, types, validate)[k] == "does not exist in this resource"
  {
  }

  /** A rejected value is left untouched and an accepted one is replaced by its cleaned value. */
  lemma ValidationOutcomes<V>(values: Row, types: map<string, V>, validate: (V, Value) -> Validated, k: string)
    requires k in values && k in types
    ensures validate(types[k], values[k]).Invalid? ==>
      Cleaned(values, types, validate)[k] == values[k]
      && FieldErrors(values, types, validate)[k] == validate(types[k], values[k]).message
    ensures validate(types[k], values[k]).Valid? ==>
      Cleaned(values, types, validate)[k] == validate(types[k], values[k]).clean
      && k !in FieldErrors(values, types, validate)
  {
  }
}
