/**
 * include.go: `IncludeElem`, the older has-many include. It keeps the bound foreign
 * key as two names (the local column and the parent column it refers to), is
 * attached to detail views only, never removes the foreign-key column from the
 * included rows, and has no batch query.
 */
module LegacyIncludes {
  import opened Wrappers
  import opened Schema
  import opened ColumnSets
  import opened RowValues
  import opened IncludeSpecs

  /** The include element; both key names are empty until Modify binds them. */
  datatype IncludeElem = IncludeElem(
    name: string,
    fkName: string,
    fkValueName: string,
    table: SqlTable,
    selects: Columns,
    asMap: Option<KeyValue>)

  /** AsMap: both columns must still be selected; the copy then maps `key` to `value`. */
  function AsMap(elem: IncludeElem, key: string, value: string): (r: Outcome<IncludeElem>)
    reads elem.selects
    ensures r.Ok? || r.Panic?
    ensures r.Ok? <==> key in elem.selects.cols && value in elem.selects.cols
    ensures r.Ok? ==> r.value == elem.(asMap := Some(KeyValue(key, value)))
  {
    if !elem.selects.Has(key) then
      Panic("argo: the column " + key + " is not a valid key - it either does not exist or has been excluded")
    else if !elem.selects.Has(value) then
      Panic("argo: the column " + value + " is not a valid value - it either does not exist or has been excluded")
    else
      Ok(elem.(asMap := Some(KeyValue(key, value))))
  }

  /**
   * Exclude: removes names of the included table's columns one by one from the shared
   * selects map; an unknown or already removed name panics, earlier removals staying.
   */
  method Exclude(elem: IncludeElem, names: seq<string>) returns (r: Outcome<IncludeElem>)
    modifies elem.selects
    ensures r.Ok? || r.Panic?
    ensures r.Ok? ==> r.value == elem
    ensures (elem.selects.cols, r.Ok?) == Excluded(old(elem.selects.cols), names, set n | n in elem.table.ColumnNames())
  {
    ghost var known := set n | n in elem.table.ColumnNames();
    ghost var spec := Excluded(elem.selects.cols, names, known);
    var i := 0;
    while i < |names|
      invariant 0 <= i <= |names|
      invariant Excluded(elem.selects.cols, names[i..], known) == spec
    {
      assert names[i..][0] == names[i] && names[i..][1..] == names[i + 1..];
      if !elem.table.HasColumn(names[i]) {
        return Panic("argo: cannot exclude " + names[i] + ", table " + elem.table.name + " does not have column with this name");
      }
      var err := elem.selects.Remove(names[i]);
      if err.Some? {
        return Panic("argo: the column " + names[i] + " cannot be excluded - it either does not exist or has already been excluded");
      }
      i := i + 1;
    }
    return Ok(elem);
  }

  /** The copy Modify registers: the first referencing key's two names, or the element unchanged. */
  function Bound(elem: IncludeElem, parent: SqlTable): (r: IncludeElem)
    ensures r.(fkName := elem.fkName, fkValueName := elem.fkValueName) == elem
  {
    match FirstReferencing(elem.table.foreignKeys, parent)
    case Some(fk) => elem.(fkName := fk.name, fkValueName := fk.foreignName)
    case None => elem
  }

  /**
   * Modify: binds the names of the first foreign key of the included table that
   * references the resource's table and appends the bound copy to the detail includes
   * only. It fails, changing nothing, on a resource without a table, when either name
   * is empty afterwards, or when the include name is already a parent column.
   */
  method Modify<I>(elem: IncludeElem, resource: Resource<I>, wrap: IncludeElem -> I) returns (err: Option<string>)
    modifies resource
    ensures resource.table == null ==> err.Some?
    ensures err.Some? ==> unchanged(resource)
    ensures resource.listIncludes == old(resource.listIncludes)
    ensures resource.table != null ==>
      var bound := Bound(elem, resource.table);
      && (err.None? <==> bound.fkName != "" && bound.fkValueName != "" && !resource.table.HasColumn(elem.name))
      && (err.None? ==> resource.detailIncludes == old(resource.detailIncludes) + [wrap(bound)])
  {
    if resource.table == null {
      return Some("argo: Many statements can only modify resources with an existing table");
    }
    var fks := elem.table.foreignKeys;
    var bound := elem;
    var i := 0;
    while i < |fks|
      invariant 0 <= i <= |fks|
      invariant FirstReferencing(fks[i..], resource.table) == FirstReferencing(fks, resource.table)
      invariant bound == elem
    {
      if fks[i].references == resource.table {
        bound := elem.(fkName := fks[i].name, fkValueName := fks[i].foreignName);
        break;
      }
      assert fks[i..][1..] == fks[i + 1..];
      i := i + 1;
    }
    if bound.fkName == "" || bound.fkValueName == "" {
      return Some("argo: could not match the many field '" + elem.name + "' to any foreign key column in '" + resource.name + "'");
    }
    if resource.table.HasColumn(elem.name) {
      return Some("argo: the parent table already has a field named " + elem.name);
    }
    resource.detailIncludes := resource.detailIncludes + [wrap(bound)];
    return None;
  }

  /**
   * Query: the parent row must hold `fkValueName`, or it panics. The rows the database
   * returns are fixed and stored under `name`, foreign-key column included; with AsMap
   * they are folded into a mapping first, and a non-string key is an error that leaves
   * the parent row as it was.
   */
  method Query(elem: IncludeElem, values: Row, results: seq<Row>) returns (r: Outcome<Row>)
    ensures r.Panic? <==> elem.fkValueName !in values
    ensures var rows := FixAll(results);
      && (r.Err? <==> elem.fkValueName in values && elem.asMap.Some?
                      && AsMapping(rows, elem.asMap.value.key, elem.asMap.value.value).None?)
      && (r.Ok? ==> r.value == values[elem.name :=
            if elem.asMap.None? then List(rows)
            else Mapping(AsMapping(rows, elem.asMap.value.key, elem.asMap.value.value).value)])
  {
    if elem.fkValueName !in values {
      return Panic("argo: cannot query an included table by a values key '" + elem.fkValueName + "' - it does not exist in the given values map");
    }
    var rows := ToSlice(results);
    FixValues(rows);
    assert rows[..] == FixAll(results);
    if elem.asMap.None? {
      return Ok(values[elem.name := List(rows[..])]);
    }
    var key := elem.asMap.value.key;
    var mapping := BuildMapping(rows[..], key, elem.asMap.value.value);
    if mapping.None? {
      return Err("argo: cannot creating mapping using key '" + key + "' - it is non-string type string");
    }
    return Ok(values[elem.name := Mapping(mapping.value)]);
  }

  /**
   * Many: a nil table or an empty name panics; otherwise the include selects all the
   * table's columns and has no key bound yet.
   */
  method Many(name: string, table: SqlTable?) returns (r: Outcome<IncludeElem>)
    ensures r.Ok? || r.Panic?
    ensures r.Ok? <==> table != null && name != ""
    ensures r.Ok? ==> && r.value.name == name && r.value.table == table
                      && r.value.fkName == "" && r.value.fkValueName == "" && r.value.asMap.None?
                      && fresh(r.value.selects) && r.value.selects.cols == KeyedByName(table.columns)
  {
    if table == null {
      return Panic("argo: tables in many statements cannot be nil");
    }
    if name == "" {
      return Panic("argo: invalid field name '" + name + "'");
    }
    var selects := ColumnSet(table.columns);
    return Ok(IncludeElem(name, "", "", table, selects, None));
  }
}
