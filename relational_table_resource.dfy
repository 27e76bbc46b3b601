/**
 * relational/table_resource.go: a resource generated from a table. Modelled here:
 * the sortable-column set, the parsing of the `order` parameter into an ordering
 * with a primary-key default, the limit/offset part of `Select`, and the defaults
 * `ResourceFromTable` applies.
 */
module RelationalResource {
  import opened Wrappers
  import opened Schema
  import opened Parsers

  // ---------------------------------------------------------------- StringSet

  /** `StringSet.Has`: a linear scan for an equal element. */
  method Has(elems: seq<string>, s: string) returns (found: bool)
    ensures found <==> s in elems
  {
    var i := 0;
    while i < |elems|
      invariant 0 <= i <= |elems|
      invariant s !in elems[..i]
    {
      if elems[i] == s {
        return true;
      }
      assert elems[..i + 1] == elems[..i] + [elems[i]];
      i := i + 1;
    }
    assert elems[..i] == elems;
    return false;
  }

  // ---------------------------------------------------------- strings.Split

  /** `strings.Split(s, ",")`: the comma-separated parts; the empty string gives one empty part. */
  function Split(s: string): (parts: seq<string>)
    ensures |parts| >= 1
    ensures forall i :: 0 <= i < |parts| ==> ',' !in parts[i]
  {
    if s == [] then [""]
    else
      var rest := Split(s[1..]);
      if s[0] == ',' then [""] + rest else [[s[0]] + rest[0]] + rest[1..]
  }

  /** `strings.Join(parts, ",")`, the inverse of Split. */
  function Join(parts: seq<string>): string
    requires |parts| >= 1
  {
    if |parts| == 1 then parts[0] else parts[0] + "," + Join(parts[1..])
  }

  /** Splitting and joining again gives back the parameter. */
  lemma {:induction false} JoinSplit(s: string)
    ensures Join(Split(s)) == s
  {
    if s != [] {
      JoinSplit(s[1..]);
      var rest := Split(s[1..]);
      if s[0] == ',' {
        assert s == [','] + s[1..];
      } else if |rest| == 1 {
        assert s == [s[0]] + s[1..];
      } else {
        assert ([[s[0]] + rest[0]] + rest[1..])[1..] == rest[1..];
        assert s == [s[0]] + s[1..];
      }
    }
  }

  /** Joining comma-free parts and splitting again gives back the parts. */
  lemma {:induction false} SplitJoin(parts: seq<string>)
    requires |parts| >= 1
    requires forall i :: 0 <= i < |parts| ==> ',' !in parts[i]
    ensures Split(Join(parts)) == parts
  {
    if |parts| == 1 {
      SplitPrefix(parts[0], "");
      assert parts[0] + "" == parts[0];
    } else {
      SplitJoin(parts[1..]);
      var tail := Join(parts[1..]);
      assert ("," + tail)[0] == ',' && ("," + tail)[1..] == tail;
      assert Split("," + tail) == [""] + parts[1..];
      SplitPrefix(parts[0], "," + tail);
      assert parts[0] + "," + tail == parts[0] + ("," + tail);
      assert parts[0] + "" == parts[0];
      assert [parts[0]] + parts[1..] == parts;
    }
  }

  /** A comma-free prefix is glued onto the first part of what follows it. */
  lemma {:induction false} SplitPrefix(p: string, tail: string)
    requires ',' !in p
    ensures Split(p + tail) == [p + Split(tail)[0]] + Split(tail)[1..]
  {
    if p == [] {
      assert p + tail == tail;
      assert p + Split(tail)[0] == Split(tail)[0];
      assert Split(tail) == [Split(tail)[0]] + Split(tail)[1..];
    } else {
      SplitPrefix(p[1..], tail);
      assert (p + tail)[1..] == p[1..] + tail;
      assert [p[0]] + (p[1..] + Split(tail)[0]) == p + Split(tail)[0];
    }
  }

  // ------------------------------------------------------------------ Ordering

  datatype Direction = Asc | Desc

  /** An ORDER BY term: a column of the resource's table and a direction. */
  datatype Orderable = Orderable(column: string, direction: Direction)

  /** One part of the `order` parameter: a leading `-` means descending on the rest. */
  function ParsePart(part: string): (o: Orderable)
    ensures part != "" && part[0] == '-' ==> o == Orderable(part[1..], Desc)
    ensures part == "" || part[0] != '-' ==> o == Orderable(part, Asc)
  {
    if part != "" && part[0] == '-' then Orderable(part[1..], Desc) else Orderable(part, Asc)
  }

  /** The parts whose column is sortable, in order, duplicates kept. */
  function Recognized(parts: seq<string>, sortable: seq<string>): seq<Orderable> {
    if parts == [] then []
    else
      var o := ParsePart(parts[|parts| - 1]);
      Recognized(parts[..|parts| - 1], sortable) + (if o.column in sortable then [o] else [])
  }

  /** The primary key columns, ascending, in primary-key order. */
  function Default(pk: seq<string>): (r: seq<Orderable>)
    ensures |r| == |pk|
    ensures forall i :: 0 <= i < |pk| ==> r[i] == Orderable(pk[i], Asc)
  {
    seq(|pk|, i requires 0 <= i < |pk| => Orderable(pk[i], Asc))
  }

  /** What `Ordering(raw)` returns: the recognised parts, or the primary key ascending. */
  function OrderingOf(raw: string, sortable: seq<string>, pk: seq<string>): seq<Orderable> {
    var r := Recognized(Split(raw), sortable);
    if r == [] then Default(pk) else r
  }

  /**
   * Recognition is a filter: its terms come from parts, in order, only sortable columns
   * are kept, and recognising concatenated parameters concatenates the results.
   */
  lemma {:induction false} RecognizedIsFilter(parts: seq<string>, more: seq<string>, sortable: seq<string>)
    ensures Recognized(parts + more, sortable) == Recognized(parts, sortable) + Recognized(more, sortable)
    ensures |Recognized(parts, sortable)| <= |parts|
    ensures forall o :: o in Recognized(parts, sortable) ==> o.column in sortable
    ensures forall i :: 0 <= i < |parts| && ParsePart(parts[i]).column in sortable ==> ParsePart(parts[i]) in Recognized(parts, sortable)
  {
    if more != [] {
      var n := |more| - 1;
      RecognizedIsFilter(parts, more[..n], sortable);
      assert (parts + more)[..|parts + more| - 1] == parts + more[..n];
      assert (parts + more)[|parts + more| - 1] == more[n];
    } else {
      assert parts + more == parts;
      if parts != [] {
        var n := |parts| - 1;
        RecognizedIsFilter(parts[..n], [], sortable);
        assert forall i :: 0 <= i < n ==> parts[i] == parts[..n][i];
      }
    }
  }

  /** With a non-empty primary key the ordering is never empty. */
  lemma OrderingNonEmpty(raw: string, sortable: seq<string>, pk: seq<string>)
    requires |pk| > 0
    ensures |OrderingOf(raw, sortable, pk)| > 0
  {
  }

  /** No parameter, and a parameter of bare commas, fall back to the primary key ascending. */
  lemma OrderingDefaults()
    ensures OrderingOf("", ["id", "name"], ["id"]) == [Orderable("id", Asc)]
    ensures OrderingOf(",,,", ["id", "name"], ["id"]) == [Orderable("id", Asc)]
  {
    assert Split("") == [""];
    assert Join(["", "", "", ""]) == ",,,";
    SplitJoin(["", "", "", ""]);
    assert Recognized(["", "", "", ""], ["id", "name"]) == [] by {
      assert ["", "", "", ""][..3] == ["", "", ""];
      assert ["", "", ""][..2] == ["", ""];
      assert ["", ""][..1] == [""];
    }
  }

  /** `name,-id` orders by name ascending, then id descending. */
  lemma OrderingMixed()
    ensures OrderingOf("name,-id", ["id", "name"], ["id"]) == [Orderable("name", Asc), Orderable("id", Desc)]
  {
    var parts := ["name", "-id"];
    assert Join(parts) == "name,-id";
    SplitJoin(parts);
    assert ParsePart("name") == Orderable("name", Asc);
    assert ParsePart("-id") == Orderable("id", Desc);
    assert parts[..1] == ["name"] && ["name"][..0] == [];
    assert Recognized(["name"], ["id", "name"]) == [Orderable("name", Asc)];
    assert Recognized(parts, ["id", "name"]) == [Orderable("name", Asc), Orderable("id", Desc)];
  }

  /** A part naming a column that is not sortable is skipped. */
  lemma OrderingSkipsUnsortable()
    ensures OrderingOf("-price,name", ["id", "name"], ["id"]) == [Orderable("name", Asc)]
  {
    var parts := ["-price", "name"];
    assert Join(parts) == "-price,name";
    SplitJoin(parts);
    assert ParsePart("-price") == Orderable("price", Desc);
    assert "price" !in ["id", "name"];
    assert ParsePart("name") == Orderable("name", Asc);
    assert parts[..1] == ["-price"] && ["-price"][..0] == [];
    assert Recognized(["-price"], ["id", "name"]) == [];
    assert Recognized(parts, ["id", "name"]) == [Orderable("name", Asc)];
  }

  // ------------------------------------------------------------------ Resource

  /** A location column with the two request parameters that locate it. */
  datatype LocationField = LocationField(latitude: string, longitude: string, location: string)

  /** A SELECT statement as far as this model follows it: order, limit and offset. */
  datatype SelectStmt = SelectStmt(orderBy: seq<Orderable>, limit: Option<int>, offset: Option<int>)

  /** `url.Values.Get`: the first value of the key, or the empty string. */
  function Get(params: map<string, seq<string>>, key: string): (v: string)
    ensures key !in params || params[key] == [] ==> v == ""
    ensures key in params && params[key] != [] ==> v == params[key][0]
  {
    if key in params && params[key] != [] then params[key][0] else ""
  }

  class Resource {
    const name: string
    const table: SqlTable
    var sortable: seq<string>
    var pk: seq<string>
    var locationFields: seq<LocationField>
    var limit: int
    var radius: int

    constructor (name: string, table: SqlTable)
      ensures this.name == name && this.table == table
      ensures sortable == [] && pk == [] && locationFields == [] && limit == 0 && radius == 0
    {
      this.name := name;
      this.table := table;
      sortable := [];
      pk := [];
      locationFields := [];
      limit := 0;
      radius := 0;
    }

    /**
     * Ordering: each comma-separated part names a sortable column, descending under a
     * leading `-`; unrecognised parts are skipped; with none recognised the primary
     * key columns ascending.
     */
    method Ordering(raw: string) returns (ordering: seq<Orderable>)
      ensures ordering == OrderingOf(raw, sortable, pk)
    {
      var parts := Split(raw);
      ordering := [];
      var i := 0;
      while i < |parts|
        invariant 0 <= i <= |parts|
        invariant ordering == Recognized(parts[..i], sortable)
      {
        assert parts[..i + 1][..i] == parts[..i];
        var part := parts[i];
        var inverted := false;
        if part != "" && part[0] == '-' {
          part := part[1..];
          inverted := true;
        }
        var ok := Has(sortable, part);
        if ok {
          if inverted {
            ordering := ordering + [Orderable(part, Desc)];
          } else {
            ordering := ordering + [Orderable(part, Asc)];
          }
        }
        i := i + 1;
      }
      assert parts[..i] == parts;
      if |ordering| == 0 {
        var j := 0;
        while j < |pk|
          invariant 0 <= j <= |pk|
          invariant ordering == Default(pk[..j])
        {
          ordering := ordering + [Orderable(pk[j], Asc)];
          j := j + 1;
        }
        assert pk[..j] == pk;
      }
    }

    /**
     * Select, without the location branch: orders by Ordering of the `order` parameter;
     * under a non-zero Limit applies and records it, and then a non-zero `offset`
     * parameter (default 0) is applied and recorded too. Nothing else is recorded.
     */
    method Select(params: map<string, seq<string>>) returns (stmt: SelectStmt, meta: map<string, int>)
      ensures stmt.orderBy == OrderingOf(Get(params, "order"), sortable, pk)
      ensures stmt.limit.Some? <==> limit != 0
      ensures "limit" in meta <==> limit != 0
      ensures limit != 0 ==> stmt.limit == Some(limit) && meta["limit"] == limit
      ensures var offset := ParseIntOrDefault(Get(params, "offset"), 0);
        && (stmt.offset.Some? <==> limit != 0 && offset != 0)
        && ("offset" in meta <==> limit != 0 && offset != 0)
        && (stmt.offset.Some? ==> stmt.offset.value == offset && meta["offset"] == offset)
      ensures meta.Keys <= {"limit", "offset"}
    {
      meta := map[];
      var ordering := Ordering(Get(params, "order"));
      stmt := SelectStmt(ordering, None, None);
      if limit != 0 {
        stmt := stmt.(limit := Some(limit));
        meta := meta["limit" := limit];
        var offset := ParseIntOrDefault(Get(params, "offset"), 0);
        if offset != 0 {
          stmt := stmt.(offset := Some(offset));
          meta := meta["offset" := offset];
        }
      }
    }
  }

  /**
   * ResourceFromTable: named after the table, keyed by its primary key, every column
   * sortable in column order, Limit 100 and Radius 200, and one location field exactly
   * when the table has `location`, `latitude` and `longitude` columns.
   */
  method ResourceFromTable(t: SqlTable) returns (r: Resource)
    ensures fresh(r)
    ensures r.name == t.name && r.table == t && r.pk == t.primaryKey
    ensures r.sortable == t.ColumnNames()
    ensures r.limit == 100 && r.radius == 200
    ensures r.locationFields ==
      if "location" in t.ColumnNames() && "latitude" in t.ColumnNames() && "longitude" in t.ColumnNames()
      then [LocationField("latitude", "longitude", "location")] else []
  {
    var columns := t.columns;
    var columnNames := new string[|columns|];
    var i := 0;
    while i < |columns|
      invariant 0 <= i <= |columns|
      invariant forall j :: 0 <= j < i ==> columnNames[j] == columns[j].name
    {
      columnNames[i] := columns[i].name;
      i := i + 1;
    }
    r := new Resource(t.name, t);
    r.pk := t.primaryKey;
    r.sortable := columnNames[..];
    assert r.sortable == t.ColumnNames();
    r.limit := 100;
    r.radius := 200;
    var hasLocation := Has(r.sortable, "location");
    var hasLatitude := Has(r.sortable, "latitude");
    var hasLongitude := Has(r.sortable, "longitude");
    if hasLocation && hasLatitude && hasLongitude {
      r.locationFields := [LocationField("latitude", "longitude", "location")];
    }
  }
}
