/**
 * table.go: `TableElem`, a table wrapped with a mutable set of selected columns and
 * a URL name, plus `slugify`.
 */
module Tables {
  import opened Wrappers
  import opened Schema
  import opened ColumnSets

  datatype TableElem = TableElem(name: string, table: SqlTable, selects: Columns)

  /**
   * The Unicode classification `slugify` consults (Go's unicode.IsDigit, IsLetter,
   * IsPrint and ToLower). The tables themselves are not modelled; they are a parameter.
   */
  datatype UnicodeTables = UnicodeTables(
    isDigit: char -> bool,
    isLetter: char -> bool,
    isPrint: char -> bool,
    toLower: char -> char)

  predicate IsAscii(c: char) {
    c < 128 as char
  }

  /** The tables agree with ASCII on ASCII characters, as Go's do. */
  ghost predicate AsciiAgrees(u: UnicodeTables) {
    forall c: char :: IsAscii(c) ==>
      && (u.isDigit(c) <==> '0' <= c <= '9')
      && (u.isLetter(c) <==> 'a' <= c <= 'z' || 'A' <= c <= 'Z')
      && (u.isPrint(c) <==> ' ' <= c <= '~')
      && u.toLower(c) == (if 'A' <= c <= 'Z' then (c as int + 32) as char else c)
  }

  /** Lowering a letter gives a letter, not a digit, that lowers to itself; '-' is a printable non-letter. */
  ghost predicate LowerIsStable(u: UnicodeTables) {
    && (forall c: char :: u.isLetter(c) ==>
          && u.isLetter(u.toLower(c)) && !u.isDigit(u.toLower(c))
          && u.toLower(u.toLower(c)) == u.toLower(c))
    && !u.isDigit('-') && !u.isLetter('-') && u.isPrint('-')
  }

  /** What strings.Map's mapping does to one rune: kept, replaced, or dropped (None). */
  function SlugRune(c: char, u: UnicodeTables): Option<char> {
    if u.isDigit(c) then Some(c)
    else if u.isLetter(c) then Some(u.toLower(c))
    else if u.isPrint(c) then Some('-')
    else None
  }

  /** slugify, over the runes of the name (UTF-8 decoding and encoding not modelled). */
  function Slug(name: string, u: UnicodeTables): string {
    if name == [] then ""
    else
      var rest := Slug(name[1..], u);
      match SlugRune(name[0], u)
      case Some(c) => [c] + rest
      case None => rest
  }

  /** The two cases of the package's own test. */
  lemma SlugExamples(u: UnicodeTables)
    requires AsciiAgrees(u)
    ensures Slug("Ca CB", u) == "ca-cb"
    ensures Slug("CO_IN", u) == "co-in"
  {
    assert IsAscii('C') && IsAscii('a') && IsAscii(' ') && IsAscii('B');
    assert IsAscii('O') && IsAscii('_') && IsAscii('I') && IsAscii('N');
    assert Slug("B", u) == "b";
    assert Slug("CB", u) == "cb";
    assert Slug(" CB", u) == "-cb";
    assert Slug("a CB", u) == "a-cb";
    assert Slug("N", u) == "n";
    assert Slug("IN", u) == "in";
    assert Slug("_IN", u) == "-in";
    assert Slug("O_IN", u) == "o-in";
  }

  predicate IsSlugChar(c: char) {
    'a' <= c <= 'z' || '0' <= c <= '9' || c == '-'
  }

  /** For ASCII input the slug is no longer than the name and uses only lower-case letters, digits and '-'. */
  lemma {:induction false} SlugOfAscii(name: string, u: UnicodeTables)
    requires AsciiAgrees(u)
    requires forall i :: 0 <= i < |name| ==> IsAscii(name[i])
    ensures |Slug(name, u)| <= |name|
    ensures forall i :: 0 <= i < |Slug(name, u)| ==> IsSlugChar(Slug(name, u)[i])
  {
    if name != [] {
      SlugOfAscii(name[1..], u);
      assert IsAscii(name[0]);
    }
  }

  /** A character slugify emits is mapped to itself by a second pass. */
  lemma SlugRuneFixes(c: char, u: UnicodeTables)
    requires LowerIsStable(u)
    requires SlugRune(c, u).Some?
    ensures SlugRune(SlugRune(c, u).value, u) == SlugRune(c, u)
  {
  }

  /** slugify is idempotent. */
  lemma {:induction false} SlugIdempotent(name: string, u: UnicodeTables)
    requires LowerIsStable(u)
    ensures Slug(Slug(name, u), u) == Slug(name, u)
  {
    if name != [] {
      SlugIdempotent(name[1..], u);
      match SlugRune(name[0], u)
      case Some(c) =>
        SlugRuneFixes(name[0], u);
        var s := [c] + Slug(name[1..], u);
        assert s[0] == c && s[1..] == Slug(name[1..], u);
      case None =>
    }
  }

  /** Slugify: only the name changes. */
  function Slugify(elem: TableElem, u: UnicodeTables): (r: TableElem)
    ensures r.name == Slug(elem.name, u)
    ensures r.table == elem.table && r.selects == elem.selects
  {
    elem.(name := Slug(elem.name, u))
  }

  /**
   * Exclude: removes the names one by one from the shared selects map; the first
   * name that is absent (never there or already removed) panics, leaving the
   * earlier removals in place.
   */
  method Exclude(elem: TableElem, names: seq<string>) returns (r: Outcome<TableElem>)
    modifies elem.selects
    ensures r.Ok? || r.Panic?
    ensures r.Ok? ==> r.value == elem
    ensures (elem.selects.cols, r.Ok?) == Excluded(old(elem.selects.cols), names, old(elem.selects.cols).Keys)
  {
    ghost var known := elem.selects.cols.Keys;
    ghost var spec := Excluded(elem.selects.cols, names, known);
    var i := 0;
    while i < |names|
      invariant 0 <= i <= |names|
      invariant elem.selects.cols.Keys <= known
      invariant Excluded(elem.selects.cols, names[i..], known) == spec
    {
      assert names[i..][0] == names[i] && names[i..][1..] == names[i + 1..];
      var err := elem.selects.Remove(names[i]);
      if err.Some? {
        return Panic("argo: the column " + names[i] + " cannot be excluded from the table - it either does not exist or has already been excluded");
      }
      i := i + 1;
    }
    return Ok(elem);
  }

  /** FromTable: a nil table or one without a primary key panics; otherwise all columns are selected. */
  method FromTable(table: SqlTable?) returns (r: Outcome<TableElem>)
    ensures r.Ok? || r.Panic?
    ensures r.Ok? <==> table != null && |table.primaryKey| > 0
    ensures r.Ok? ==> && r.value.name == table.name && r.value.table == table
                      && fresh(r.value.selects) && r.value.selects.cols == KeyedByName(table.columns)
  {
    if table == null {
      return Panic("argo: a table cannot be nil");
    }
    if |table.primaryKey| == 0 {
      return Panic("argo: tables must have a primary key");
    }
    var selects := ColumnSet(table.columns);
    return Ok(TableElem(table.name, table, selects));
  }
}
