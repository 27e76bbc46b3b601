/** fields.go: `Fields`, a set of column-backed fields keyed by name, updated in place. */
module FieldSets {
  import opened Wrappers
  import opened Schema
  import opened ColumnSets

  /** field.go's `ColumnField`: a name and the column it wraps. */
  datatype ColumnField = ColumnField(name: string, column: Column)

  class Fields {
    var fields: map<string, ColumnField>

    constructor ()
      ensures fields == map[]
    {
      fields := map[];
    }

    /** Add: keyed by `f.name`; an existing name is an error and changes nothing. */
    method Add(f: ColumnField) returns (err: Option<string>)
      modifies this
      ensures err.Some? <==> f.name in old(fields)
      ensures err.Some? ==> fields == old(fields)
      ensures err.None? ==> fields == old(fields)[f.name := f]
    {
      if f.name in fields {
        return Some("argo: a field named " + f.name + " already exists in this set");
      }
      fields := fields[f.name := f];
      return None;
    }

    predicate Has(name: string)
      reads this
    {
      name in fields
    }

    /** Remove: an absent name is an error; otherwise only that key is deleted. */
    method Remove(name: string) returns (err: Option<string>)
      modifies this
      ensures err.Some? <==> name !in old(fields)
      ensures fields == old(fields) - {name}
    {
      if name !in fields {
        return Some("argo: no field named " + name + " exists in this set");
      }
      fields := fields - {name};
      return None;
    }
  }

  /**
   * FieldsFromColumns: one field per column name, the last column of a name
   * winning; the stored field's own `name` is left empty, as the Go struct
   * literal `ColumnField{c: column}` leaves it.
   */
  method FieldsFromColumns(columns: seq<Column>) returns (result: Fields)
    ensures fresh(result)
    ensures result.fields.Keys == KeyedByName(columns).Keys
    ensures forall k :: k in result.fields ==> result.fields[k] == ColumnField("", KeyedByName(columns)[k])
  {
    result := new Fields();
    var i := 0;
    while i < |columns|
      invariant 0 <= i <= |columns|
      invariant result.fields.Keys == KeyedByName(columns[..i]).Keys
      invariant forall k :: k in result.fields ==> result.fields[k] == ColumnField("", KeyedByName(columns[..i])[k])
    {
      assert columns[..i + 1][..i] == columns[..i];
      result.fields := result.fields[columns[i].name := ColumnField("", columns[i])];
      i := i + 1;
    }
    assert columns[..i] == columns;
  }
}
