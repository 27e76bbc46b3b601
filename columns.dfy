/**
 * columns.go: `Columns`, a set of columns keyed by name. The Go map is shared by
 * every value that holds it, so it is modelled as an object whose `cols` field the
 * methods update in place.
 */
module ColumnSets {
  import opened Wrappers
  import opened Schema

  /** The map ColumnSet builds: each column under its name, a later column of the same name winning. */
  function KeyedByName(columns: seq<Column>): (m: map<string, Column>)
  {
    if columns == [] then map[]
    else
      var last := columns[|columns| - 1];
      KeyedByName(columns[..|columns| - 1])[last.name := last]
  }

  /** Exactly the names of the given columns are keys. */
  lemma {:induction false} KeyedByNameKeys(columns: seq<Column>)
    ensures KeyedByName(columns).Keys == set c | c in columns :: c.name
  {
    if columns != [] {
      var init := columns[..|columns| - 1];
      KeyedByNameKeys(init);
      assert columns == init + [columns[|columns| - 1]];
    }
  }

  /** Each name maps to the last column carrying it. */
  lemma {:induction false} KeyedByNameLastWins(columns: seq<Column>, i: nat)
    requires i < |columns|
    requires forall j :: i < j < |columns| ==> columns[j].name != columns[i].name
    ensures columns[i].name in KeyedByName(columns)
    ensures KeyedByName(columns)[columns[i].name] == columns[i]
  {
    if i < |columns| - 1 {
      KeyedByNameLastWins(columns[..|columns| - 1], i);
    }
  }

  /** Every stored column sits under its own name. */
  lemma {:induction false} KeyedByNameIsKeyed(columns: seq<Column>)
    ensures forall k :: k in KeyedByName(columns) ==> KeyedByName(columns)[k].name == k
  {
    if columns != [] {
      KeyedByNameIsKeyed(columns[..|columns| - 1]);
    }
  }

  class Columns {
    var cols: map<string, Column>

    constructor ()
      ensures cols == map[]
    {
      cols := map[];
    }

    /** Add: a name already present is an error and changes nothing; otherwise exactly one entry is inserted. */
    method Add(c: Column) returns (err: Option<string>)
      modifies this
      ensures err.Some? <==> c.name in old(cols)
      ensures err.Some? ==> cols == old(cols)
      ensures err.None? ==> cols == old(cols)[c.name := c]
    {
      if c.name in cols {
        return Some("argo: a column named " + c.name + " already exists in this set");
      }
      cols := cols[c.name := c];
      return None;
    }

    predicate Has(name: string)
      reads this
    {
      name in cols
    }

    /** Remove: an absent name is an error and changes nothing; otherwise exactly that name goes. */
    method Remove(name: string) returns (err: Option<string>)
      modifies this
      ensures err.Some? <==> name !in old(cols)
      ensures cols == old(cols) - {name}
      ensures err.Some? ==> cols == old(cols)
    {
      if name !in cols {
        return Some("argo: no column named " + name + " exists in this set");
      }
      cols := cols - {name};
      return None;
    }

    /**
     * Selectable: every column of the set exactly once, in map iteration order
     * (`keys` records that order; Go leaves it unspecified).
     */
    method Selectable() returns (columns: seq<Column>, ghost keys: seq<string>)
      ensures |columns| == |cols| && |keys| == |columns|
      ensures forall i :: 0 <= i < |keys| ==> keys[i] in cols && columns[i] == cols[keys[i]]
      ensures forall i, j :: 0 <= i < j < |keys| ==> keys[i] != keys[j]
      ensures forall k :: k in cols ==> k in keys
    {
      var arr := new Column[|cols|];
      var remaining := cols.Keys;
      var i := 0;
      keys := [];
      while remaining != {}
        invariant i == |keys| && i + |remaining| == |cols|
        invariant remaining <= cols.Keys
        invariant forall k :: k in cols ==> (k in keys <==> k !in remaining)
        invariant forall j :: 0 <= j < i ==> keys[j] in cols && arr[j] == cols[keys[j]]
        invariant forall j, l :: 0 <= j < l < i ==> keys[j] != keys[l]
        decreases |remaining|
      {
        var k :| k in remaining;
        arr[i] := cols[k];
        keys := keys + [k];
        remaining := remaining - {k};
        i := i + 1;
      }
      columns := arr[..];
    }
  }

  /** ColumnSet: a fresh set holding the given columns keyed by name. */
  method ColumnSet(columns: seq<Column>) returns (result: Columns)
    ensures fresh(result)
    ensures result.cols == KeyedByName(columns)
  {
    result := new Columns();
    var i := 0;
    while i < |columns|
      invariant 0 <= i <= |columns|
      invariant result.cols == KeyedByName(columns[..i])
    {
      assert columns[..i + 1][..i] == columns[..i];
      result.cols := result.cols[columns[i].name := columns[i]];
      i := i + 1;
    }
    assert columns[..i] == columns;
  }

  /**
   * The state an Exclude loop leaves after removing `names[..k]` one at a time:
   * each of those names was allowed (`known`), present, and not already removed.
   */
  ghost predicate RemovedPrefix(before: map<string, Column>, after: map<string, Column>,
                                names: seq<string>, known: set<string>, k: nat)
  {
    && k <= |names|
    && (forall j :: 0 <= j < k ==> names[j] in known && names[j] in before)
    && (forall j, l :: 0 <= j < l < k ==> names[j] != names[l])
    && (forall n :: n in after <==> n in before && n !in names[..k])
    && (forall n :: n in after ==> after[n] == before[n])
  }

  /** Whether removing `names[k]` after `names[..k]` would fail. */
  ghost predicate StopsAt(before: map<string, Column>, names: seq<string>, known: set<string>, k: nat)
  {
    && k < |names|
    && (names[k] !in known || names[k] !in before || names[k] in names[..k])
  }

  /** Removing one more allowed, present name extends the removed prefix. */
  lemma RemovedStep(before: map<string, Column>, after: map<string, Column>,
                    names: seq<string>, known: set<string>, k: nat)
    requires RemovedPrefix(before, after, names, known, k)
    requires k < |names| && names[k] in known && names[k] in after
    ensures RemovedPrefix(before, after - {names[k]}, names, known, k + 1)
  {
    assert names[k] !in names[..k];
    assert names[..k + 1] == names[..k] + [names[k]];
  }

  /** A name that is not allowed, or no longer present, is where the removals stop. */
  lemma StopStep(before: map<string, Column>, after: map<string, Column>,
                 names: seq<string>, known: set<string>, k: nat)
    requires RemovedPrefix(before, after, names, known, k)
    requires k < |names| && (names[k] !in known || names[k] !in after)
    ensures StopsAt(before, names, known, k)
  {
    if names[k] in known && names[k] in before {
      var j :| 0 <= j < k && names[j] == names[k];
      assert names[..k][j] == names[k];
    }
  }

  /**
   * What an Exclude loop does to a column map: removes the names in order, stopping
   * (false) at the first one that is not allowed or no longer present.
   */
  function Excluded(cols: map<string, Column>, names: seq<string>, known: set<string>): (map<string, Column>, bool) {
    if names == [] then (cols, true)
    else if names[0] !in known || names[0] !in cols then (cols, false)
    else Excluded(cols - {names[0]}, names[1..], known)
  }

  /** Excluded, continued from a state where `names[..i]` are already removed. */
  lemma {:induction false} ExcludedFrom(before: map<string, Column>, cur: map<string, Column>,
                                        names: seq<string>, known: set<string>, i: nat)
    requires RemovedPrefix(before, cur, names, known, i)
    ensures var (after, ok) := Excluded(cur, names[i..], known);
      && (ok ==> RemovedPrefix(before, after, names, known, |names|))
      && (!ok ==> exists k :: RemovedPrefix(before, after, names, known, k) && StopsAt(before, names, known, k))
    decreases |names| - i
  {
    if i < |names| {
      assert names[i..][0] == names[i] && names[i..][1..] == names[i + 1..];
      if names[i] in known && names[i] in cur {
        RemovedStep(before, cur, names, known, i);
        ExcludedFrom(before, cur - {names[i]}, names, known, i + 1);
      } else {
        StopStep(before, cur, names, known, i);
      }
    }
  }

  /**
   * Excluding succeeds exactly when every name was allowed, present and not repeated,
   * and then removes exactly those names; on failure the names before the offending
   * one are removed and nothing else.
   */
  lemma ExcludedMeaning(before: map<string, Column>, names: seq<string>, known: set<string>)
    ensures var (after, ok) := Excluded(before, names, known);
      && (ok ==> RemovedPrefix(before, after, names, known, |names|))
      && (!ok ==> exists k :: RemovedPrefix(before, after, names, known, k) && StopsAt(before, names, known, k))
  {
    assert names[0..] == names;
    ExcludedFrom(before, before, names, known, 0);
  }
}
