/**
 * many.go: `ManyElem`, a has-many include. The included table holds a foreign key to
 * the parent resource's table; its rows are queried per parent (detail views) or in
 * one batch for all parents (list views) and attached to the parent rows under `name`.
 */
module ManyIncludes {
  import opened Wrappers
  import opened Schema
  import opened ColumnSets
  import opened RowValues
  import opened IncludeSpecs

  /**
   * The include element. `fk` is None until Modify binds it (Go's zero
   * `ForeignKeyElem`); `selects` is the shared, mutable column map.
   */
  datatype ManyElem = ManyElem(
    name: string,
    fk: Option<ForeignKey>,
    table: SqlTable,
    selects: Columns,
    showFK: bool,
    detailOnly: bool,
    asMap: Option<KeyValue>)

  /** AsMap: both columns must still be selected; the copy then maps `key` to `value`. */
  function AsMap(elem: ManyElem, key: string, value: string): (r: Outcome<ManyElem>)
    reads elem.selects
    ensures r.Ok? || r.Panic?
    ensures r.Ok? <==> key in elem.selects.cols && value in elem.selects.cols
    ensures r.Ok? ==> r.value == elem.(asMap := Some(KeyValue(key, value)))
  {
    if !elem.selects.Has(key) then
      Panic("argo: the column " + key + " is not a valid key - it either does not exist or has been excluded")
    else if !elem.selects.Has(value) then
      Panic("argo: the column " + value + " is not a valid value - it either does not exist or has been excluded")
    else
      Ok(elem.(asMap := Some(KeyValue(key, value))))
  }

  /** DetailOnly: the copy is attached to detail views only; nothing else differs. */
  function DetailOnly(elem: ManyElem): (r: ManyElem)
    ensures r.detailOnly
    ensures r.(detailOnly := elem.detailOnly) == elem
  {
    elem.(detailOnly := true)
  }

  /**
   * Exclude: removes the names one by one from the shared selects map. A name that is
   * not a column of the included table, or that was already removed, panics; the
   * removals before it stay in place.
   */
  method Exclude(elem: ManyElem, names: seq<string>) returns (r: Outcome<ManyElem>)
    modifies elem.selects
    ensures r.Ok? || r.Panic?
    ensures r.Ok? ==> r.value == elem
    ensures (elem.selects.cols, r.Ok?) == Excluded(old(elem.selects.cols), names, set n | n in elem.table.ColumnNames())
  {
    ghost var known := set n | n in elem.table.ColumnNames();
    ghost var spec := Excluded(elem.selects.cols, names, known);
    var i := 0;
    while i < |names|
      invariant 0 <= i <= |names|
      invariant Excluded(elem.selects.cols, names[i..], known) == spec
    {
      assert names[i..][0] == names[i] && names[i..][1..] == names[i + 1..];
      if !elem.table.HasColumn(names[i]) {
        return Panic("argo: cannot exclude " + names[i] + ", table " + elem.table.name + " does not have column with this name");
      }
      var err := elem.selects.Remove(names[i]);
      if err.Some? {
        return Panic("argo: the column " + names[i] + " cannot be excluded - it either does not exist or has already been excluded");
      }
      i := i + 1;
    }
    return Ok(elem);
  }

  /**
   * Modify: binds the first foreign key of the included table that references the
   * resource's table, then registers the bound copy with the resource: always in the
   * detail includes, in the list includes unless detail-only. It fails, changing
   * nothing, on a resource without a table, when no key is bound, or when the include
   * name is already a column of the parent table.
   */
  method Modify<I>(elem: ManyElem, resource: Resource<I>, wrap: ManyElem -> I) returns (err: Option<string>)
    modifies resource
    ensures resource.table == null ==> err.Some?
    ensures err.Some? ==> unchanged(resource)
    ensures resource.table != null ==>
      var first := FirstReferencing(elem.table.foreignKeys, resource.table);
      var bound := elem.(fk := if first.Some? then first else elem.fk);
      && (err.None? <==> KeyName(bound.fk) != "" && !resource.table.HasColumn(elem.name))
      && (err.None? ==> && resource.detailIncludes == old(resource.detailIncludes) + [wrap(bound)]
                        && resource.listIncludes == old(resource.listIncludes) + (if elem.detailOnly then [] else [wrap(bound)]))
  {
    if resource.table == null {
      return Some("argo: Many statements can only modify resources with an existing table");
    }
    var fks := elem.table.foreignKeys;
    var fk := elem.fk;
    var i := 0;
    while i < |fks|
      invariant 0 <= i <= |fks|
      invariant FirstReferencing(fks[i..], resource.table) == FirstReferencing(fks, resource.table)
      invariant fk == elem.fk
    {
      if fks[i].references == resource.table {
        fk := Some(fks[i]);
        break;
      }
      assert fks[i..][1..] == fks[i + 1..];
      i := i + 1;
    }
    if KeyName(fk) == "" {
      return Some("argo: could not match the many field '" + elem.name + "' to any foreign key column in '" + resource.name + "'");
    }
    if resource.table.HasColumn(elem.name) {
      return Some("argo: the parent table already has a field named " + elem.name);
    }
    var bound := elem.(fk := fk);
    resource.detailIncludes := resource.detailIncludes + [wrap(bound)];
    if !elem.detailOnly {
      resource.listIncludes := resource.listIncludes + [wrap(bound)];
    }
    return None;
  }

  /**
   * Query (detail views): the parent row must hold the foreign key's referenced
   * column, or it panics. The included rows, the database's answer, lose their
   * foreign-key column unless `showFK`, have their byte values fixed, and are stored
   * under `name`; with AsMap they are folded into a mapping first, and a non-string
   * key is an error that leaves the parent row as it was.
   */
  method Query(elem: ManyElem, values: Row, results: seq<Row>) returns (r: Outcome<Row>)
    ensures r.Panic? <==> KeyForeignName(elem.fk) !in values
    ensures var rows := FixAll(Stripped(results, KeyName(elem.fk), !elem.showFK));
      && (r.Err? <==> KeyForeignName(elem.fk) in values && elem.asMap.Some?
                      && AsMapping(rows, elem.asMap.value.key, elem.asMap.value.value).None?)
      && (r.Ok? ==> r.value == values[elem.name :=
            if elem.asMap.None? then List(rows)
            else Mapping(AsMapping(rows, elem.asMap.value.key, elem.asMap.value.value).value)])
  {
    var foreignName := KeyForeignName(elem.fk);
    if foreignName !in values {
      return Panic("argo: cannot query an included table by a values key '" + foreignName + "' - it does not exist in the given values map");
    }
    var rows := ToSlice(results);
    if !elem.showFK {
      var i := 0;
      while i < rows.Length
        invariant 0 <= i <= rows.Length
        invariant forall j :: 0 <= j < i ==> rows[j] == results[j] - {KeyName(elem.fk)}
        invariant forall j :: i <= j < rows.Length ==> rows[j] == results[j]
      {
        rows[i] := rows[i] - {KeyName(elem.fk)};
        i := i + 1;
      }
    }
    assert rows[..] == Stripped(results, KeyName(elem.fk), !elem.showFK);
    FixValues(rows);
    assert rows[..] == FixAll(Stripped(results, KeyName(elem.fk), !elem.showFK));
    if elem.asMap.None? {
      return Ok(values[elem.name := List(rows[..])]);
    }
    var key := elem.asMap.value.key;
    var mapping := BuildMapping(rows[..], key, elem.asMap.value.value);
    if mapping.None? {
      return Err("argo: cannot create mapping using key '" + key + "' - it is non-string type string");
    }
    return Ok(values[elem.name := Mapping(mapping.value)]);
  }

  /**
   * QueryAll (list views): every parent row must hold the referenced column, or it
   * panics before anything is written. With no parents nothing happens. A table
   * without a primary key then panics on the ordering column (Go indexes its first
   * primary-key column). Otherwise each parent gets, under `name`, exactly the fixed
   * result rows whose foreign-key value equals its own, in result order (stripped
   * unless `showFK`), or an empty list.
   */
  method QueryAll(elem: ManyElem, values: array<Row>, results: seq<Row>) returns (r: Outcome<()>)
    modifies values
    ensures r.Ok? || r.Panic?
    ensures r.Panic? <==> (exists i :: 0 <= i < values.Length && KeyForeignName(elem.fk) !in old(values[i]))
                          || (values.Length > 0 && |elem.table.primaryKey| == 0)
    ensures r.Panic? ==> values[..] == old(values[..])
    ensures r.Ok? ==> forall i :: 0 <= i < values.Length ==>
      values[i] == old(values[i])[elem.name :=
        List(Stripped(Matching(FixAll(results), KeyName(elem.fk), old(values[i])[KeyForeignName(elem.fk)]),
                      KeyName(elem.fk), !elem.showFK))]
  {
    var foreignName := KeyForeignName(elem.fk);
    var fkValues: seq<Value> := [];
    var i := 0;
    while i < values.Length
      invariant 0 <= i <= values.Length && |fkValues| == i
      invariant forall j :: 0 <= j < i ==> foreignName in values[j]
    {
      if foreignName !in values[i] {
        return Panic("argo: cannot query an included table by a values key '" + foreignName + "' - it does not exist in the given values map");
      }
      fkValues := fkValues + [values[i][foreignName]];
      i := i + 1;
    }
    if |fkValues| == 0 {
      return Ok(());
    }
    if |elem.table.primaryKey| == 0 {
      return Panic("runtime error: index out of range [0] with length 0");
    }
    var rows := ToSlice(results);
    FixValues(rows);
    assert rows[..] == FixAll(results);
    var byFkValue := GroupBy(rows[..], KeyName(elem.fk), !elem.showFK);
    AttachGroups(values, byFkValue, foreignName, elem.name);
    forall j | 0 <= j < values.Length
      ensures Attach(byFkValue, old(values[j])[foreignName])
           == Stripped(Matching(FixAll(results), KeyName(elem.fk), old(values[j])[foreignName]), KeyName(elem.fk), !elem.showFK)
    {
      GroupedIsMatching(FixAll(results), KeyName(elem.fk), !elem.showFK, old(values[j])[foreignName]);
    }
    return Ok(());
  }

  /**
   * Many: a nil table or an empty name panics; otherwise the include selects all the
   * table's columns, has no foreign key bound yet, and hides the foreign-key column.
   */
  method Many(name: string, table: SqlTable?) returns (r: Outcome<ManyElem>)
    ensures r.Ok? || r.Panic?
    ensures r.Ok? <==> table != null && name != ""
    ensures r.Ok? ==> && r.value.name == name && r.value.table == table && r.value.fk.None?
                      && !r.value.showFK && !r.value.detailOnly && r.value.asMap.None?
                      && fresh(r.value.selects) && r.value.selects.cols == KeyedByName(table.columns)
  {
    if table == null {
      return Panic("argo: tables in many statements cannot be nil");
    }
    if name == "" {
      return Panic("argo: invalid field name '" + name + "'");
    }
    var selects := ColumnSet(table.columns);
    return Ok(ManyElem(name, None, table, selects, false, false, None));
  }
}
