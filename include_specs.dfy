/**
 * What the three include kinds (many.go, many_to_many.go, include.go) compute from
 * the rows a query returned, stated once: which foreign key an include binds to,
 * how result rows are grouped by a foreign-key value and attached to parent rows,
 * and how an `AsMap` include folds rows into a key-to-value mapping. The loops that
 * compute these in the include elements are proved against the functions here.
 */
module IncludeSpecs {
  import opened Wrappers
  import opened Schema
  import opened RowValues

  /** The `asMap` setting of an include: the key column and the value column. */
  datatype KeyValue = KeyValue(key: string, value: string)

  // ---------------------------------------------------------- foreign keys

  /** The first foreign key in `fks` that references `parent` (the scan that stops at `break`). */
  function FirstReferencing(fks: seq<ForeignKey>, parent: SqlTable): Option<ForeignKey> {
    if fks == [] then None
    else if fks[0].references == parent then Some(fks[0])
    else FirstReferencing(fks[1..], parent)
  }

  /** The first referencing key is found exactly when one exists, and no earlier key references the parent. */
  lemma {:induction false} FirstReferencingIsFirst(fks: seq<ForeignKey>, parent: SqlTable)
    ensures FirstReferencing(fks, parent).None? <==> forall i :: 0 <= i < |fks| ==> fks[i].references != parent
    ensures FirstReferencing(fks, parent).Some? ==>
      exists i :: 0 <= i < |fks| && fks[i] == FirstReferencing(fks, parent).value && fks[i].references == parent
                  && forall j :: 0 <= j < i ==> fks[j].references != parent
  {
    if fks != [] && fks[0].references != parent {
      FirstReferencingIsFirst(fks[1..], parent);
      if FirstReferencing(fks, parent).Some? {
        var i :| 0 <= i < |fks[1..]| && fks[1..][i] == FirstReferencing(fks, parent).value && fks[1..][i].references == parent
                 && forall j :: 0 <= j < i ==> fks[1..][j].references != parent;
        assert fks[i + 1] == fks[1..][i];
        assert forall j :: 1 <= j < i + 1 ==> fks[j] == fks[1..][j - 1];
      } else {
        assert forall i :: 1 <= i < |fks| ==> fks[i] == fks[1..][i - 1];
      }
    }
  }

  /**
   * The many-to-many classification: every through-table key that references the
   * parent overwrites the resource key; every other key that references the target
   * table overwrites the element key. Keys found earlier survive when none matches.
   */
  function Classify(fks: seq<ForeignKey>, parent: SqlTable, target: SqlTable,
                    resourceFK: Option<ForeignKey>, elementFK: Option<ForeignKey>)
    : (Option<ForeignKey>, Option<ForeignKey>)
  {
    if fks == [] then (resourceFK, elementFK)
    else if fks[0].references == parent then Classify(fks[1..], parent, target, Some(fks[0]), elementFK)
    else if fks[0].references == target then Classify(fks[1..], parent, target, resourceFK, Some(fks[0]))
    else Classify(fks[1..], parent, target, resourceFK, elementFK)
  }

  /** The last key of `fks` with `references == t` and `references != skip`, or `init` when there is none. */
  ghost predicate IsLastReferencing(fks: seq<ForeignKey>, t: SqlTable, skip: SqlTable?, init: Option<ForeignKey>,
                                    found: Option<ForeignKey>)
  {
    if forall i :: 0 <= i < |fks| ==> fks[i].references != t || fks[i].references == skip then found == init
    else exists i :: && 0 <= i < |fks| && fks[i].references == t && fks[i].references != skip
                     && found == Some(fks[i])
                     && forall j :: i < j < |fks| ==> fks[j].references != t || fks[j].references == skip
  }

  /** Later matches overwrite earlier ones: each key ends up as the last match of its kind. */
  lemma {:induction false} ClassifyIsLast(fks: seq<ForeignKey>, parent: SqlTable, target: SqlTable,
                                          resourceFK: Option<ForeignKey>, elementFK: Option<ForeignKey>)
    ensures IsLastReferencing(fks, parent, null, resourceFK, Classify(fks, parent, target, resourceFK, elementFK).0)
    ensures IsLastReferencing(fks, target, parent, elementFK, Classify(fks, parent, target, resourceFK, elementFK).1)
  {
    if fks != [] {
      var r := if fks[0].references == parent then Some(fks[0]) else resourceFK;
      var e := if fks[0].references != parent && fks[0].references == target then Some(fks[0]) else elementFK;
      ClassifyIsLast(fks[1..], parent, target, r, e);
      assert forall i :: 1 <= i < |fks| ==> fks[i] == fks[1..][i - 1];
      var result := Classify(fks, parent, target, resourceFK, elementFK);
      assert result == Classify(fks[1..], parent, target, r, e);
      LastReferencingStep(fks, parent, null, resourceFK, r, result.0);
      LastReferencingStep(fks, target, parent, elementFK, e, result.1);
    }
  }

  /** One step of ClassifyIsLast: prepending a key to the scan. */
  lemma LastReferencingStep(fks: seq<ForeignKey>, t: SqlTable, skip: SqlTable?, init: Option<ForeignKey>,
                            next: Option<ForeignKey>, found: Option<ForeignKey>)
    requires fks != []
    requires next == if fks[0].references == t && fks[0].references != skip then Some(fks[0]) else init
    requires IsLastReferencing(fks[1..], t, skip, next, found)
    ensures IsLastReferencing(fks, t, skip, init, found)
  {
    var tail := fks[1..];
    assert forall i :: 1 <= i < |fks| ==> fks[i] == tail[i - 1];
    if forall i :: 0 <= i < |tail| ==> tail[i].references != t || tail[i].references == skip {
      if fks[0].references == t && fks[0].references != skip {
        assert forall j :: 0 < j < |fks| ==> fks[j].references != t || fks[j].references == skip;
      }
    } else {
      var i :| && 0 <= i < |tail| && tail[i].references == t && tail[i].references != skip
               && found == Some(tail[i])
               && forall j :: i < j < |tail| ==> tail[j].references != t || tail[j].references == skip;
      assert fks[i + 1] == tail[i];
      assert forall j :: i + 1 < j < |fks| ==> fks[j] == tail[j - 1];
    }
  }

  /** The name of a possibly unset foreign key: the zero `ForeignKeyElem` has the empty name. */
  function KeyName(fk: Option<ForeignKey>): (n: string)
    ensures fk.None? ==> n == ""
  {
    if fk.Some? then fk.value.name else ""
  }

  /** The referenced column name of a possibly unset foreign key, empty when unset. */
  function KeyForeignName(fk: Option<ForeignKey>): (n: string)
    ensures fk.None? ==> n == ""
  {
    if fk.Some? then fk.value.foreignName else ""
  }

  // --------------------------------------------------------- result rows

  /** The result rows after `FixValues`. */
  function FixAll(rows: seq<Row>): (r: seq<Row>)
    ensures |r| == |rows|
    ensures forall i :: 0 <= i < |rows| ==> r[i] == Fixed(rows[i])
  {
    seq(|rows|, i requires 0 <= i < |rows| => Fixed(rows[i]))
  }

  /** A result row with its foreign-key column deleted, when `strip` is set. */
  function StripRow(row: Row, col: string, strip: bool): (r: Row)
    ensures r.Keys == if strip then row.Keys - {col} else row.Keys
    ensures forall k :: k in r ==> r[k] == row[k]
  {
    if strip then row - {col} else row
  }

  /** Every row stripped of `col` when `strip` is set. */
  function Stripped(rows: seq<Row>, col: string, strip: bool): (r: seq<Row>)
    ensures |r| == |rows|
    ensures forall i :: 0 <= i < |rows| ==> r[i] == StripRow(rows[i], col, strip)
  {
    seq(|rows|, i requires 0 <= i < |rows| => StripRow(rows[i], col, strip))
  }

  /** The rows whose `col` value equals `v` (a missing column reads as nil), in order. */
  function Matching(rows: seq<Row>, col: string, v: Value): seq<Row> {
    if rows == [] then []
    else Matching(rows[..|rows| - 1], col, v) + (if Lookup(rows[|rows| - 1], col) == v then [rows[|rows| - 1]] else [])
  }

  /** Matching keeps exactly the rows whose `col` value is `v`, in their order. */
  lemma {:induction false} MatchingIsFilter(rows: seq<Row>, col: string, v: Value)
    ensures |Matching(rows, col, v)| <= |rows|
    ensures forall r :: r in Matching(rows, col, v) <==> r in rows && Lookup(r, col) == v
    ensures Matching(rows, col, v) == [] <==> forall i :: 0 <= i < |rows| ==> Lookup(rows[i], col) != v
  {
    if rows != [] {
      var init := rows[..|rows| - 1];
      MatchingIsFilter(init, col, v);
      assert rows == init + [rows[|rows| - 1]];
      assert forall i :: 0 <= i < |init| ==> rows[i] == init[i];
    }
  }

  /**
   * The `byFkValue` map of a batch query: each row, stripped when `strip` is set, is
   * appended to the list of its `col` value.
   */
  function Grouped(rows: seq<Row>, col: string, strip: bool): map<Value, seq<Row>> {
    if rows == [] then map[]
    else
      var g := Grouped(rows[..|rows| - 1], col, strip);
      var last := rows[|rows| - 1];
      var k := Lookup(last, col);
      g[k := Attach(g, k) + [StripRow(last, col, strip)]]
  }

  /** What a parent with foreign value `v` receives: its group, or an empty list. */
  function Attach(g: map<Value, seq<Row>>, v: Value): seq<Row> {
    if v in g then g[v] else []
  }

  /**
   * Grouping then looking a parent up gives the same list as filtering the results by
   * the parent's value: every matching row, in result order, and only those.
   */
  lemma {:induction false} GroupedIsMatching(rows: seq<Row>, col: string, strip: bool, v: Value)
    ensures v in Grouped(rows, col, strip) <==> Matching(rows, col, v) != []
    ensures Attach(Grouped(rows, col, strip), v) == Stripped(Matching(rows, col, v), col, strip)
  {
    if rows != [] {
      var init := rows[..|rows| - 1];
      var last := rows[|rows| - 1];
      GroupedIsMatching(init, col, strip, v);
      var m := Matching(init, col, v);
      if Lookup(last, col) == v {
        assert Matching(rows, col, v) == m + [last];
        assert Stripped(m + [last], col, strip) == Stripped(m, col, strip) + [StripRow(last, col, strip)];
      }
    }
  }

  /** Fixing a row commutes with deleting a column from it. */
  lemma FixStripCommute(row: Row, col: string, strip: bool)
    ensures Fixed(StripRow(row, col, strip)) == StripRow(Fixed(row), col, strip)
  {
    assert Fixed(StripRow(row, col, strip)).Keys == StripRow(Fixed(row), col, strip).Keys;
  }

  /** Fixing values only rewrites byte sequences, so the rows matching a non-byte value are the same. */
  lemma {:induction false} FixMatchCommute(rows: seq<Row>, col: string, v: Value)
    requires forall i :: 0 <= i < |rows| ==> !Lookup(rows[i], col).Bytes?
    ensures Matching(FixAll(rows), col, v) == FixAll(Matching(rows, col, v))
  {
    if rows != [] {
      var init := rows[..|rows| - 1];
      var last := rows[|rows| - 1];
      FixMatchCommute(init, col, v);
      assert FixAll(rows)[..|rows| - 1] == FixAll(init);
      assert Lookup(Fixed(last), col) == Lookup(last, col);
      var m := Matching(init, col, v);
      if Lookup(last, col) == v {
        assert FixAll(m + [last]) == FixAll(m) + [Fixed(last)];
      }
    }
  }

  /**
   * The batch query agrees with the single-row query: when no foreign-key value is a
   * byte sequence, the list QueryAll attaches to a parent with value `v` equals what
   * Query stores when the database returns the rows of the batch that match `v`.
   */
  lemma BatchAgreesWithSingle(results: seq<Row>, col: string, strip: bool, v: Value)
    requires forall i :: 0 <= i < |results| ==> !Lookup(results[i], col).Bytes?
    ensures Attach(Grouped(FixAll(results), col, strip), v)
         == FixAll(Stripped(Matching(results, col, v), col, strip))
  {
    GroupedIsMatching(FixAll(results), col, strip, v);
    FixMatchCommute(results, col, v);
    var m := Matching(results, col, v);
    forall i | 0 <= i < |m|
      ensures Stripped(FixAll(m), col, strip)[i] == FixAll(Stripped(m, col, strip))[i]
    {
      FixStripCommute(m[i], col, strip);
    }
  }

  // --------------------------------------------------------------- AsMap

  /**
   * The AsMap fold: every row's key column must hold a string; the mapping sends it to
   * the row's value column, later rows overwriting earlier ones. None is the error.
   */
  function AsMapping(rows: seq<Row>, key: string, value: string): Option<map<string, Value>> {
    if rows == [] then Some(map[])
    else
      var last := rows[|rows| - 1];
      match AsMapping(rows[..|rows| - 1], key, value)
      case None => None
      case Some(m) => if Lookup(last, key).Str? then Some(m[Lookup(last, key).s := Lookup(last, value)]) else None
  }

  /** The fold fails exactly when some row's key is not a string. */
  lemma {:induction false} AsMappingFails(rows: seq<Row>, key: string, value: string)
    ensures AsMapping(rows, key, value).None? <==> exists i :: 0 <= i < |rows| && !Lookup(rows[i], key).Str?
  {
    if rows != [] {
      var init := rows[..|rows| - 1];
      AsMappingFails(init, key, value);
      assert forall i :: 0 <= i < |init| ==> rows[i] == init[i];
    }
  }

  /** A successful fold has one entry per distinct key string, nothing more. */
  lemma {:induction false} AsMappingKeys(rows: seq<Row>, key: string, value: string)
    requires AsMapping(rows, key, value).Some?
    ensures forall i :: 0 <= i < |rows| ==> Lookup(rows[i], key).Str?
    ensures AsMapping(rows, key, value).value.Keys == set i | 0 <= i < |rows| && Lookup(rows[i], key).Str? :: Lookup(rows[i], key).s
  {
    if rows != [] {
      var init := rows[..|rows| - 1];
      AsMappingKeys(init, key, value);
      assert forall i :: 0 <= i < |init| ==> rows[i] == init[i];
      var n := |rows| - 1;
      assert (set i | 0 <= i < |rows| && Lookup(rows[i], key).Str? :: Lookup(rows[i], key).s)
          == (set i | 0 <= i < |init| && Lookup(init[i], key).Str? :: Lookup(init[i], key).s) + {Lookup(rows[n], key).s};
    }
  }

  /** On duplicate keys the last row wins: the value is that of the last row with that key. */
  lemma {:induction false} AsMappingLastWins(rows: seq<Row>, key: string, value: string, i: nat)
    requires AsMapping(rows, key, value).Some?
    requires i < |rows| && Lookup(rows[i], key).Str?
    requires forall j :: i < j < |rows| ==> Lookup(rows[j], key) != Lookup(rows[i], key)
    ensures Lookup(rows[i], key).s in AsMapping(rows, key, value).value
    ensures AsMapping(rows, key, value).value[Lookup(rows[i], key).s] == Lookup(rows[i], value)
  {
    var n := |rows| - 1;
    var init := rows[..n];
    if i < n {
      assert init[i] == rows[i];
      assert forall j :: i < j < |init| ==> init[j] == rows[j];
      AsMappingLastWins(init, key, value, i);
      assert Lookup(rows[n], key).s != Lookup(rows[i], key).s;
    }
  }

  // ----------------------------------------------------- shared loop bodies

  /** The mapping loop of an AsMap include's Query, stopping at the first non-string key. */
  method BuildMapping(rows: seq<Row>, key: string, value: string) returns (mapping: Option<map<string, Value>>)
    ensures mapping == AsMapping(rows, key, value)
  {
    var m: map<string, Value> := map[];
    var i := 0;
    while i < |rows|
      invariant 0 <= i <= |rows|
      invariant AsMapping(rows[..i], key, value) == Some(m)
    {
      assert rows[..i + 1][..i] == rows[..i];
      var k := Lookup(rows[i], key);
      if !k.Str? {
        NoneStaysNone(rows, key, value, i + 1);
        return None;
      }
      m := m[k.s := Lookup(rows[i], value)];
      i := i + 1;
    }
    assert rows[..i] == rows;
    return Some(m);
  }

  /** Once the fold of a prefix fails, the fold of the whole fails. */
  lemma {:induction false} NoneStaysNone(rows: seq<Row>, key: string, value: string, n: nat)
    requires n <= |rows| && AsMapping(rows[..n], key, value).None?
    ensures AsMapping(rows, key, value).None?
  {
    if n < |rows| {
      var m := |rows| - 1;
      assert rows[..m][..n] == rows[..n];
      NoneStaysNone(rows[..m], key, value, n);
    } else {
      assert rows[..n] == rows;
    }
  }

  /** The grouping loop of a batch query: builds `byFkValue` row by row. */
  method GroupBy(rows: seq<Row>, col: string, strip: bool) returns (g: map<Value, seq<Row>>)
    ensures g == Grouped(rows, col, strip)
  {
    g := map[];
    var i := 0;
    while i < |rows|
      invariant 0 <= i <= |rows|
      invariant g == Grouped(rows[..i], col, strip)
    {
      assert rows[..i + 1][..i] == rows[..i];
      var k := Lookup(rows[i], col);
      var row := StripRow(rows[i], col, strip);
      g := g[k := Attach(g, k) + [row]];
      i := i + 1;
    }
    assert rows[..i] == rows;
  }

  /**
   * The attach loop of a batch query: every parent row gets, under `name`, the group of
   * its `foreignName` value or an empty list; nothing else in any parent changes.
   */
  method AttachGroups(values: array<Row>, g: map<Value, seq<Row>>, foreignName: string, name: string)
    requires forall i :: 0 <= i < values.Length ==> foreignName in values[i]
    modifies values
    ensures forall i :: 0 <= i < values.Length ==>
      values[i] == old(values[i])[name := List(Attach(g, old(values[i])[foreignName]))]
  {
    var i := 0;
    while i < values.Length
      invariant 0 <= i <= values.Length
      invariant forall j :: 0 <= j < i ==> values[j] == old(values[j])[name := List(Attach(g, old(values[j])[foreignName]))]
      invariant forall j :: i <= j < values.Length ==> values[j] == old(values[j])
    {
      var key := values[i][foreignName];
      if key in g {
        values[i] := values[i][name := List(g[key])];
      } else {
        values[i] := values[i][name := List([])];
      }
      i := i + 1;
    }
  }

  /** Copies query results into a fresh slice, as `results := make([]sql.Values, 0)` is filled. */
  method ToSlice(rows: seq<Row>) returns (a: array<Row>)
    ensures fresh(a) && a[..] == rows
  {
    a := new Row[|rows|](i requires 0 <= i < |rows| => rows[i]);
  }
}
