/**
 * The parts of the SQL toolkit (package aspect) and of the resource type that the
 * relational core relies on: tables with columns, primary keys and foreign keys, the
 * dynamically typed row `sql.Values`, and the resource whose include lists the
 * include elements append to.
 */
module Schema {
  import opened Wrappers

  /** A byte; a Go string is modelled as a Dafny string whose characters are its bytes. */
  type byte = b: int | 0 <= b < 256

  /** Go's `string(b)` conversion: the string made of exactly these bytes. */
  function BytesToString(b: seq<byte>): (s: string)
    ensures |s| == |b|
    ensures forall i :: 0 <= i < |b| ==> s[i] as int == b[i]
  {
    if b == [] then "" else [b[0] as char] + BytesToString(b[1..])
  }

  /**
   * One value of a row as the database driver returns it, or as the include
   * elements attach it: a list of rows, or a string-keyed mapping.
   */
  datatype Value =
    | Null
    | Int(i: int)
    | Float(f: real)
    | Bool(b: bool)
    | Str(s: string)
    | Time(t: int)
    | Bytes(bytes: seq<byte>)
    | List(rows: seq<map<string, Value>>)
    | Mapping(entries: map<string, Value>)

  /** `sql.Values`: one row, column name to value. */
  type Row = map<string, Value>

  /** Go's `row[key]` on a map of interfaces: a missing key reads as nil. */
  function Lookup(row: Row, key: string): (v: Value)
    ensures key !in row ==> v == Null
    ensures key in row ==> v == row[key]
  {
    if key in row then row[key] else Null
  }

  /** A column of a table, identified by its table's name and its own name. */
  datatype Column = Column(table: string, name: string)

  /**
   * A foreign key: the local column `name`, the referenced column's name
   * `foreignName`, and the table it references.
   */
  datatype ForeignKey = ForeignKey(name: string, foreignName: string, references: SqlTable)

  /** `*sql.TableElem`: an immutable table schema; tables are compared by identity. */
  class SqlTable {
    const name: string
    const columns: seq<Column>
    const primaryKey: seq<string>
    const foreignKeys: seq<ForeignKey>

    constructor (name: string, columns: seq<Column>, primaryKey: seq<string>, foreignKeys: seq<ForeignKey>)
      ensures this.name == name && this.columns == columns
      ensures this.primaryKey == primaryKey && this.foreignKeys == foreignKeys
    {
      this.name := name;
      this.columns := columns;
      this.primaryKey := primaryKey;
      this.foreignKeys := foreignKeys;
    }

    /** The column names in declaration order (`Columns()` mapped to `Name()`). */
    function ColumnNames(): (names: seq<string>)
      ensures |names| == |columns|
      ensures forall i :: 0 <= i < |columns| ==> names[i] == columns[i].name
    {
      seq(|columns|, i requires 0 <= i < |columns| => columns[i].name)
    }

    /** `_, ok := table.C[name]` */
    predicate HasColumn(n: string) {
      n in ColumnNames()
    }
  }

  /**
   * The parts of `ResourceSQL` that include elements touch: its name, its table
   * (possibly nil), and the two include lists they append themselves to. The
   * element type `I` stands for Go's `Include` interface.
   */
  class Resource<I> {
    const name: string
    const table: SqlTable?
    var detailIncludes: seq<I>
    var listIncludes: seq<I>

    constructor (name: string, table: SqlTable?)
      ensures this.name == name && this.table == table
      ensures detailIncludes == [] && listIncludes == []
    {
      this.name := name;
      this.table := table;
      detailIncludes := [];
      listIncludes := [];
    }
  }
}
