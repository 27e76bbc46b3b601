/**
 * many_to_many.go: `ManyToManyElem`, an include joined through a link table. The
 * through table holds one foreign key to the parent resource's table (`resourceFK`)
 * and one to the included table (`elementFK`); included rows are attached to parent
 * rows by the value of `resourceFK`.
 */
module ManyToManyIncludes {
  import opened Wrappers
  import opened Schema
  import opened ColumnSets
  import opened RowValues
  import opened IncludeSpecs

  /** The include element; the two keys are None until Modify finds them. */
  datatype ManyToManyElem = ManyToManyElem(
    name: string,
    resourceFK: Option<ForeignKey>,
    elementFK: Option<ForeignKey>,
    table: SqlTable,
    through: SqlTable,
    selects: Columns,
    detailOnly: bool)

  /** DetailOnly: the copy is attached to detail views only; nothing else differs. */
  function DetailOnly(elem: ManyToManyElem): (r: ManyToManyElem)
    ensures r.detailOnly
    ensures r.(detailOnly := elem.detailOnly) == elem
  {
    elem.(detailOnly := true)
  }

  /**
   * Exclude: removes names of the included table's columns one by one from the shared
   * selects map; an unknown or already removed name panics, earlier removals staying.
   */
  method Exclude(elem: ManyToManyElem, names: seq<string>) returns (r: Outcome<ManyToManyElem>)
    modifies elem.selects
    ensures r.Ok? || r.Panic?
    ensures r.Ok? ==> r.value == elem
    ensures (elem.selects.cols, r.Ok?) == Excluded(old(elem.selects.cols), names, set n | n in elem.table.ColumnNames())
  {
    ghost var known := set n | n in elem.table.ColumnNames();
    ghost var spec := Excluded(elem.selects.cols, names, known);
    var i := 0;
    while i < |names|
      invariant 0 <= i <= |names|
      invariant Excluded(elem.selects.cols, names[i..], known) == spec
    {
      assert names[i..][0] == names[i] && names[i..][1..] == names[i + 1..];
      if !elem.table.HasColumn(names[i]) {
        return Panic("argo: cannot exclude '" + names[i] + "' from many to many, table '" + elem.table.name + "' does not have a column with this name");
      }
      var err := elem.selects.Remove(names[i]);
      if err.Some? {
        return Panic("argo: the column '" + names[i] + "' cannot be excluded - it either does not exist or has already been excluded");
      }
      i := i + 1;
    }
    return Ok(elem);
  }

  /**
   * What IncludeThrough does to a column map: adds the through table's columns of the
   * given names in order, stopping (false) at the first name that is not a through
   * column or whose name is already selected.
   */
  function Included(cols: map<string, Column>, names: seq<string>, through: map<string, Column>): (map<string, Column>, bool)
    decreases |names|
  {
    if names == [] then (cols, true)
    else if names[0] !in through || through[names[0]].name in cols then (cols, false)
    else Included(cols[through[names[0]].name := through[names[0]]], names[1..], through)
  }

  /** Whether the names can all be added: through columns, not yet selected, no repeats. */
  ghost predicate Addable(cols: map<string, Column>, names: seq<string>, through: map<string, Column>) {
    && (forall i :: 0 <= i < |names| ==> names[i] in through && names[i] !in cols)
    && (forall i, j :: 0 <= i < j < |names| ==> names[i] != names[j])
  }

  /** IncludeThrough succeeds exactly when every name can be added. */
  lemma {:induction false} IncludedSucceeds(cols: map<string, Column>, names: seq<string>, through: map<string, Column>)
    requires forall n :: n in through ==> through[n].name == n
    decreases |names|
    ensures Included(cols, names, through).1 <==> Addable(cols, names, through)
  {
    if names != [] {
      var n := names[0];
      if n in through && n !in cols {
        var rest := names[1..];
        IncludedSucceeds(cols[n := through[n]], rest, through);
        assert forall i :: 1 <= i < |names| ==> names[i] == rest[i - 1];
        if Addable(cols, names, through) {
          assert forall i :: 0 <= i < |rest| ==> rest[i] == names[i + 1];
        }
      }
    }
  }

  /** A successful IncludeThrough adds exactly the named through columns. */
  lemma {:induction false} IncludedAddsNamed(cols: map<string, Column>, names: seq<string>, through: map<string, Column>)
    requires forall n :: n in through ==> through[n].name == n
    requires Included(cols, names, through).1
    decreases |names|
    ensures forall k :: k in Included(cols, names, through).0 <==> k in cols || k in names
    ensures forall k :: k in names ==> k in through && Included(cols, names, through).0[k] == through[k]
  {
    if names != [] {
      var n := names[0];
      IncludedAddsNamed(cols[n := through[n]], names[1..], through);
      IncludedKeeps(cols[n := through[n]], names[1..], through);
      assert names == [n] + names[1..];
    }
  }

  /** IncludeThrough never drops or changes a column that was already selected. */
  lemma {:induction false} IncludedKeeps(cols: map<string, Column>, names: seq<string>, through: map<string, Column>)
    requires forall n :: n in through ==> through[n].name == n
    decreases |names|
    ensures forall k :: k in cols ==> k in Included(cols, names, through).0 && Included(cols, names, through).0[k] == cols[k]
  {
    if names != [] && names[0] in through && names[0] !in cols {
      IncludedKeeps(cols[names[0] := through[names[0]]], names[1..], through);
    }
  }

  /**
   * IncludeThrough: adds through-table columns to the shared selects map. A name that
   * is not a column of the through table, or that collides with a selected column,
   * panics; the additions before it stay.
   */
  method IncludeThrough(elem: ManyToManyElem, names: seq<string>) returns (r: Outcome<ManyToManyElem>)
    modifies elem.selects
    ensures r.Ok? || r.Panic?
    ensures r.Ok? ==> r.value == elem
    ensures (elem.selects.cols, r.Ok?) == Included(old(elem.selects.cols), names, KeyedByName(elem.through.columns))
  {
    var through := KeyedByName(elem.through.columns);
    KeyedByNameKeys(elem.through.columns);
    KeyedByNameIsKeyed(elem.through.columns);
    ghost var spec := Included(elem.selects.cols, names, through);
    var i := 0;
    while i < |names|
      invariant 0 <= i <= |names|
      invariant Included(elem.selects.cols, names[i..], through) == spec
    {
      assert names[i..][0] == names[i] && names[i..][1..] == names[i + 1..];
      if !elem.through.HasColumn(names[i]) {
        assert names[i] !in through;
        return Panic("argo: cannot exclude '" + names[i] + "' from many to many, through table '" + elem.through.name + "' does not have a column with this name");
      }
      var err := elem.selects.Add(through[names[i]]);
      if err.Some? {
        return Panic("argo: cannot add column '" + names[i] + "' from through table '" + elem.through.name + "' to selects: " + err.value);
      }
      i := i + 1;
    }
    return Ok(elem);
  }

  /**
   * Modify: classifies the through table's foreign keys (a key to the parent table
   * becomes `resourceFK`, else a key to the included table becomes `elementFK`, later
   * ones overwriting earlier), then registers the classified copy: always in the detail
   * includes, in the list includes unless detail-only. It fails, changing nothing, on a
   * resource without a table, when either key is missing, or when the include name is
   * already a column of the parent table.
   */
  method Modify<I>(elem: ManyToManyElem, resource: Resource<I>, wrap: ManyToManyElem -> I) returns (err: Option<string>)
    modifies resource
    ensures resource.table == null ==> err.Some?
    ensures err.Some? ==> unchanged(resource)
    ensures resource.table != null ==>
      var keys := Classify(elem.through.foreignKeys, resource.table, elem.table, elem.resourceFK, elem.elementFK);
      var bound := elem.(resourceFK := keys.0, elementFK := keys.1);
      && (err.None? <==> KeyName(keys.0) != "" && KeyName(keys.1) != "" && !resource.table.HasColumn(elem.name))
      && (err.None? ==> && resource.detailIncludes == old(resource.detailIncludes) + [wrap(bound)]
                        && resource.listIncludes == old(resource.listIncludes) + (if elem.detailOnly then [] else [wrap(bound)]))
  {
    if resource.table == null {
      return Some("argo: Many To Many statements can only modify resources with an existing table");
    }
    var fks := elem.through.foreignKeys;
    ghost var spec := Classify(fks, resource.table, elem.table, elem.resourceFK, elem.elementFK);
    var resourceFK, elementFK := elem.resourceFK, elem.elementFK;
    var i := 0;
    while i < |fks|
      invariant 0 <= i <= |fks|
      invariant Classify(fks[i..], resource.table, elem.table, resourceFK, elementFK) == spec
    {
      assert fks[i..][0] == fks[i] && fks[i..][1..] == fks[i + 1..];
      if fks[i].references == resource.table {
        resourceFK := Some(fks[i]);
      } else if fks[i].references == elem.table {
        elementFK := Some(fks[i]);
      }
      i := i + 1;
    }
    if KeyName(resourceFK) == "" || KeyName(elementFK) == "" {
      return Some("argo: could not match the many to many relationship of '" + elem.table.name + "' to '"
                  + resource.table.name + "' through the table '" + elem.through.name + "'");
    }
    if resource.table.HasColumn(elem.name) {
      return Some("argo: the parent table already has a field named " + elem.name);
    }
    var bound := elem.(resourceFK := resourceFK, elementFK := elementFK);
    resource.detailIncludes := resource.detailIncludes + [wrap(bound)];
    if !elem.detailOnly {
      resource.listIncludes := resource.listIncludes + [wrap(bound)];
    }
    return None;
  }

  /**
   * Query (detail views): the parent row must hold the column `resourceFK` refers to,
   * or it panics; the joined rows the database returns are fixed and stored under
   * `name` with no column removed.
   */
  method Query(elem: ManyToManyElem, values: Row, results: seq<Row>) returns (r: Outcome<Row>)
    ensures r.Ok? || r.Panic?
    ensures r.Panic? <==> KeyForeignName(elem.resourceFK) !in values
    ensures r.Ok? ==> r.value.Keys == values.Keys + {elem.name}
    ensures r.Ok? ==> forall k :: k in values && k != elem.name ==> r.value[k] == values[k]
    ensures r.Ok? ==> r.value[elem.name] == List(FixAll(results))
  {
    var foreignName := KeyForeignName(elem.resourceFK);
    if foreignName !in values {
      return Panic("argo: cannot query an included table by a values key '" + foreignName + "' - it does not exist in the given values map");
    }
    var rows := ToSlice(results);
    FixValues(rows);
    assert rows[..] == FixAll(results);
    return Ok(values[elem.name := List(rows[..])]);
  }

  /**
   * QueryAll (list views): every parent row must hold the referenced column, or it
   * panics before anything is written. With no parents nothing happens. Otherwise each
   * parent gets, under `name`, exactly the fixed result rows whose `resourceFK` column
   * equals its own value, in result order, or an empty list.
   */
  method QueryAll(elem: ManyToManyElem, values: array<Row>, results: seq<Row>) returns (r: Outcome<()>)
    modifies values
    ensures r.Ok? || r.Panic?
    ensures r.Panic? <==> exists i :: 0 <= i < values.Length && KeyForeignName(elem.resourceFK) !in old(values[i])
    ensures r.Panic? ==> values[..] == old(values[..])
    ensures r.Ok? ==> forall i :: 0 <= i < values.Length ==>
      values[i] == old(values[i])[elem.name :=
        List(Matching(FixAll(results), KeyName(elem.resourceFK), old(values[i])[KeyForeignName(elem.resourceFK)]))]
  {
    var foreignName := KeyForeignName(elem.resourceFK);
    var fkValues: seq<Value> := [];
    var i := 0;
    while i < values.Length
      invariant 0 <= i <= values.Length && |fkValues| == i
      invariant forall j :: 0 <= j < i ==> foreignName in values[j]
    {
      if foreignName !in values[i] {
        return Panic("argo: cannot query an included many to many table by a values key '" + foreignName + "' - it does not exist in the given values map");
      }
      fkValues := fkValues + [values[i][foreignName]];
      i := i + 1;
    }
    if |fkValues| == 0 {
      return Ok(());
    }
    var rows := ToSlice(results);
    FixValues(rows);
    assert rows[..] == FixAll(results);
    var byFkValue := GroupBy(rows[..], KeyName(elem.resourceFK), false);
    AttachGroups(values, byFkValue, foreignName, elem.name);
    forall j | 0 <= j < values.Length
      ensures Attach(byFkValue, old(values[j])[foreignName])
           == Matching(FixAll(results), KeyName(elem.resourceFK), old(values[j])[foreignName])
    {
      var m := Matching(FixAll(results), KeyName(elem.resourceFK), old(values[j])[foreignName]);
      GroupedIsMatching(FixAll(results), KeyName(elem.resourceFK), false, old(values[j])[foreignName]);
      assert Stripped(m, KeyName(elem.resourceFK), false) == m;
    }
    return Ok(());
  }

  /**
   * ManyToMany: a nil table or through table, or an empty name, panics; otherwise the
   * include selects all columns of the included table and has no keys bound yet.
   */
  method ManyToMany(name: string, table: SqlTable?, through: SqlTable?) returns (r: Outcome<ManyToManyElem>)
    ensures r.Ok? || r.Panic?
    ensures r.Ok? <==> table != null && through != null && name != ""
    ensures r.Ok? ==> && r.value.name == name && r.value.table == table && r.value.through == through
                      && r.value.resourceFK.None? && r.value.elementFK.None? && !r.value.detailOnly
                      && fresh(r.value.selects) && r.value.selects.cols == KeyedByName(table.columns)
  {
    if table == null || through == null {
      return Panic("argo: tables in many to many statements cannot be nil");
    }
    if name == "" {
      return Panic("argo: invalid field name '" + name + "'");
    }
    var selects := ColumnSet(table.columns);
    return Ok(ManyToManyElem(name, None, None, table, through, selects, false));
  }
}
