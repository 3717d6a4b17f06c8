/**
 * `MigrationBuilder`: turns a model's column list into the calls of a
 * `createTable` callback, and drops the model's table again. The knex schema
 * it drives is modelled as a catalogue of tables that refuses a table that
 * already exists or whose foreign keys point at a missing table, and refuses
 * to drop a missing table or one another table still references.
 */
module Schema {
  import opened Wrappers

  /**
   * One entry of a model's `columns`: the keys `MigrationBuilder` reads.
   * `unique`, `foreignKey`, `constraints` and `default` are never read.
   */
  datatype Column = Column(
    name: string,
    kind: string,
    length: Option<int>,
    values: seq<string>,
    references: string,
    onDelete: Option<string>)

  datatype Model = Model(tableName: string, columns: seq<Column>)

  /** One call on the knex table builder, with its chained modifiers. */
  datatype ColumnOp =
    | IncrementsPrimary(name: string)                          // increments(name).primary()
    | StringCol(name: string, length: int)
    | IntegerCol(name: string, unsigned: bool)                 // integer(name), .unsigned()
    | DecimalCol(name: string)
    | TextCol(name: string, textType: Option<string>)          // text(name) or text(name, 'longText')
    | BooleanCol(name: string)
    | Timestamps                                              // timestamps(true, true)
    | DateCol(name: string)
    | DateTimeCol(name: string)
    | EnumCol(name: string, values: seq<string>)
    | ForeignKey(name: string, references: string, onDelete: string)

  const DefaultStringLength: int := 255
  const DefaultOnDelete: string := "CASCADE"

  const RecognisedKinds: set<string> :=
    {"string", "integer", "decimal", "text", "longtext", "boolean", "timestamp", "date", "datetime", "enum", "foreign"}

  /** The reference definition of one column's calls: the `if`/`else if` chain of `up`. */
  function ColumnOps(col: Column): (ops: seq<ColumnOp>)
    ensures col.kind !in RecognisedKinds ==> ops == []
    ensures col.kind in RecognisedKinds ==> 1 <= |ops| <= 2
    ensures col.kind == "string" ==>
      ops == [StringCol(col.name, if col.length.Some? && col.length.value != 0 then col.length.value else DefaultStringLength)]
    ensures col.kind == "timestamp" ==> ops == [Timestamps]
    ensures col.kind == "foreign" ==> ops == [IntegerCol(col.name, true),
      ForeignKey(col.name, col.references, if col.onDelete.Some? && col.onDelete.value != "" then col.onDelete.value else DefaultOnDelete)]
    ensures col.kind == "integer" ==> ops == [IntegerCol(col.name, false)]
  {
    if col.kind == "string" then
      [StringCol(col.name, if col.length.Some? && col.length.value != 0 then col.length.value else DefaultStringLength)]
    else if col.kind == "integer" then [IntegerCol(col.name, false)]
    else if col.kind == "decimal" then [DecimalCol(col.name)]
    else if col.kind == "text" then [TextCol(col.name, None)]
    else if col.kind == "longtext" then [TextCol(col.name, Some("longText"))]
    else if col.kind == "boolean" then [BooleanCol(col.name)]
    else if col.kind == "timestamp" then [Timestamps]
    else if col.kind == "date" then [DateCol(col.name)]
    else if col.kind == "datetime" then [DateTimeCol(col.name)]
    else if col.kind == "enum" then [EnumCol(col.name, col.values)]
    else if col.kind == "foreign" then
      [IntegerCol(col.name, true),
       ForeignKey(col.name, col.references, if col.onDelete.Some? && col.onDelete.value != "" then col.onDelete.value else DefaultOnDelete)]
    else []
  }

  /** The calls of all columns, column after column. */
  function ColumnsOps(cols: seq<Column>): seq<ColumnOp> {
    if cols == [] then [] else ColumnsOps(cols[..|cols| - 1]) + ColumnOps(cols[|cols| - 1])
  }

  /** The whole `createTable` callback: the `id` key, the columns, the default timestamps. */
  function TableOps(cols: seq<Column>): seq<ColumnOp> {
    [IncrementsPrimary("id")] + ColumnsOps(cols) + [Timestamps]
  }

  /** Columns produce their calls in declaration order. */
  lemma {:induction false} ColumnsOpsAppend(a: seq<Column>, b: seq<Column>)
    ensures ColumnsOps(a + b) == ColumnsOps(a) + ColumnsOps(b)
  {
    if b == [] {
      assert a + b == a;
    } else {
      assert (a + b)[..|a + b| - 1] == a + b[..|b| - 1];
      ColumnsOpsAppend(a, b[..|b| - 1]);
    }
  }

  /**
   * `up` always starts with the auto-increment primary key `id` and ends with
   * the default timestamps, with every column's calls in between, in order.
   */
  lemma TableOpsShape(cols: seq<Column>, i: int)
    requires 0 <= i < |cols|
    ensures TableOps(cols)[0] == IncrementsPrimary("id")
    ensures TableOps(cols)[|TableOps(cols)| - 1] == Timestamps
    ensures TableOps(cols) == [IncrementsPrimary("id")] + ColumnsOps(cols) + [Timestamps]
    ensures ColumnsOps(cols) == ColumnsOps(cols[..i]) + ColumnOps(cols[i]) + ColumnsOps(cols[i + 1..])
  {
    var pre, mid, post := cols[..i], [cols[i]], cols[i + 1..];
    assert cols == pre + mid + post;
    ColumnsOpsAppend(pre + mid, post);
    ColumnsOpsAppend(pre, mid);
    ColumnsOpsSingle(cols[i]);
  }

  lemma ColumnsOpsSingle(col: Column)
    ensures ColumnsOps([col]) == ColumnOps(col)
  {
    assert [col][..0] == [];
  }

  /** A column of an unrecognised type (or one whose only flag is ignored) leaves the calls unchanged. */
  lemma UnknownColumnIgnored(cols: seq<Column>, col: Column)
    requires col.kind !in RecognisedKinds
    ensures TableOps(cols + [col]) == TableOps(cols)
  {
    assert (cols + [col])[..|cols + [col]| - 1] == cols;
  }

  function TimestampCount(ops: seq<ColumnOp>): nat {
    if ops == [] then 0 else (if ops[0] == Timestamps then 1 else 0) + TimestampCount(ops[1..])
  }

  function TimestampColumns(cols: seq<Column>): nat {
    if cols == [] then 0 else TimestampColumns(cols[..|cols| - 1]) + (if cols[|cols| - 1].kind == "timestamp" then 1 else 0)
  }

  lemma {:induction false} TimestampCountAppend(a: seq<ColumnOp>, b: seq<ColumnOp>)
    ensures TimestampCount(a + b) == TimestampCount(a) + TimestampCount(b)
  {
    if a == [] {
      assert a + b == b;
    } else {
      assert (a + b)[1..] == a[1..] + b;
      TimestampCountAppend(a[1..], b);
    }
  }

  lemma {:induction false} ColumnsTimestamps(cols: seq<Column>)
    ensures TimestampCount(ColumnsOps(cols)) == TimestampColumns(cols)
  {
    if cols != [] {
      var last := cols[|cols| - 1];
      ColumnsTimestamps(cols[..|cols| - 1]);
      TimestampCountAppend(ColumnsOps(cols[..|cols| - 1]), ColumnOps(last));
      ColumnTimestamps(last);
    }
  }

  /** Only a `timestamp` column produces a timestamps call, and then just one. */
  lemma ColumnTimestamps(col: Column)
    ensures TimestampCount(ColumnOps(col)) == if col.kind == "timestamp" then 1 else 0
  {
    var ops := ColumnOps(col);
    if col.kind == "timestamp" {
      assert ops[1..] == [];
    } else if col.kind == "foreign" {
      assert ops[0] != Timestamps && ops[1] != Timestamps;
      assert ops[1..][1..] == [];
      assert TimestampCount(ops[1..]) == 0;
    } else if col.kind in RecognisedKinds {
      assert |ops| == 1 && ops[0] != Timestamps;
      assert ops[1..] == [];
    }
  }

  /** Each `timestamp` column adds the timestamps pair once more, on top of the default one. */
  lemma TimestampsPerTable(cols: seq<Column>)
    ensures TimestampCount(TableOps(cols)) == 1 + TimestampColumns(cols)
  {
    ColumnsTimestamps(cols);
    TimestampCountAppend([IncrementsPrimary("id")] + ColumnsOps(cols), [Timestamps]);
    TimestampCountAppend([IncrementsPrimary("id")], ColumnsOps(cols));
  }

  // ---------------------------------------------------------------- catalogue

  /** The table part of a `references` target such as `book.id`. */
  function TableOfRef(r: string): (t: string)
    ensures |t| <= |r| && t == r[..|t|] && '.' !in t
    ensures |t| == |r| || r[|t|] == '.'
  {
    if r == [] || r[0] == '.' then [] else [r[0]] + TableOfRef(r[1..])
  }

  /** The tables the foreign keys among `ops` point at. */
  function Targets(ops: seq<ColumnOp>): set<string> {
    if ops == [] then {} else (if ops[0].ForeignKey? then {TableOfRef(ops[0].references)} else {}) + Targets(ops[1..])
  }

  /** The reference definition of a column list's targets: the table part of each `foreign` column's `references`. */
  function ForeignTargets(cols: seq<Column>): set<string> {
    if cols == [] then {}
    else
      var last := cols[|cols| - 1];
      ForeignTargets(cols[..|cols| - 1]) + (if last.kind == "foreign" then {TableOfRef(last.references)} else {})
  }

  lemma {:induction false} TargetsAppend(a: seq<ColumnOp>, b: seq<ColumnOp>)
    ensures Targets(a + b) == Targets(a) + Targets(b)
  {
    if a == [] {
      assert a + b == b;
    } else {
      assert (a + b)[1..] == a[1..] + b;
      TargetsAppend(a[1..], b);
    }
  }

  /** A `references` of the form `table.column` names `table`. */
  lemma {:induction false} TableOfRefDotted(t: string, column: string)
    requires '.' !in t
    ensures TableOfRef(t + "." + column) == t
  {
    if t != [] {
      assert (t + "." + column)[1..] == t[1..] + "." + column;
      TableOfRefDotted(t[1..], column);
    }
  }

  /** The foreign keys `up` declares are exactly those of the `foreign` columns; no other call adds one. */
  lemma {:induction false} TableTargets(cols: seq<Column>)
    ensures Targets(TableOps(cols)) == ForeignTargets(cols)
  {
    ColumnsTargets(cols);
    TargetsAppend([IncrementsPrimary("id")] + ColumnsOps(cols), [Timestamps]);
    TargetsAppend([IncrementsPrimary("id")], ColumnsOps(cols));
  }

  /** One column declares a foreign key exactly when it is a `foreign` column. */
  lemma ColumnTargets(col: Column)
    ensures Targets(ColumnOps(col)) == if col.kind == "foreign" then {TableOfRef(col.references)} else {}
  {
    var ops := ColumnOps(col);
    if col.kind == "foreign" {
      assert ops[1..][1..] == [];
      assert Targets(ops[1..]) == {TableOfRef(col.references)} + Targets(ops[1..][1..]);
    } else if col.kind in RecognisedKinds {
      assert ops[1..] == [];
    }
  }

  lemma {:induction false} ColumnsTargets(cols: seq<Column>)
    ensures Targets(ColumnsOps(cols)) == ForeignTargets(cols)
  {
    if cols != [] {
      var front, last := cols[..|cols| - 1], cols[|cols| - 1];
      ColumnsTargets(front);
      TargetsAppend(ColumnsOps(front), ColumnOps(last));
      ColumnTargets(last);
    }
  }

  /** `knex.schema`, seen as the tables that exist and the calls that built them. */
  class Catalogue {
    var tables: map<string, seq<ColumnOp>>

    constructor (initial: map<string, seq<ColumnOp>>)
      ensures tables == initial
    {
      tables := initial;
    }

    /** Whether a table other than `name` has a foreign key to `name`. */
    predicate Referenced(name: string)
      reads this
    {
      exists t :: t in tables && t != name && name in Targets(tables[t])
    }

    /** `createTable`: refused for an existing name or a foreign key to a missing table. */
    method CreateTable(name: string, ops: seq<ColumnOp>) returns (ok: bool)
      modifies this
      ensures ok <==> name !in old(tables) && forall t :: t in Targets(ops) ==> t in old(tables) || t == name
      ensures tables == if ok then old(tables)[name := ops] else old(tables)
    {
      ok := name !in tables && forall t :: t in Targets(ops) ==> t in tables || t == name;
      if ok {
        tables := tables[name := ops];
      }
    }

    /** `dropTable`: refused for a missing table or one another table references. */
    method DropTable(name: string) returns (ok: bool)
      modifies this
      ensures ok <==> name in old(tables) && !old(Referenced(name))
      ensures tables == if ok then old(tables) - {name} else old(tables)
    {
      ok := name in tables && !Referenced(name);
      if ok {
        tables := tables - {name};
      }
    }
  }

  /** The table builder handed to the `createTable` callback: it records each call. */
  class TableBuilder {
    var ops: seq<ColumnOp>

    constructor ()
      ensures ops == []
    {
      ops := [];
    }

    method Add(op: ColumnOp)
      modifies this
      ensures ops == old(ops) + [op]
    {
      ops := ops + [op];
    }
  }

  class MigrationBuilder {
    const tableName: string
    const columns: seq<Column>

    /** Takes the table name and columns from the model unchanged. */
    constructor (model: Model)
      ensures tableName == model.tableName && columns == model.columns
    {
      tableName := model.tableName;
      columns := model.columns;
    }

    /** `up`: creates the model's table with the calls `TableOps` describes. */
    method Up(schema: Catalogue) returns (ok: bool)
      modifies schema
      ensures ok <==> (tableName !in old(schema.tables)
        && forall t :: t in Targets(TableOps(columns)) ==> t in old(schema.tables) || t == tableName)
      ensures schema.tables == if ok then old(schema.tables)[tableName := TableOps(columns)] else old(schema.tables)
    {
      var table := new TableBuilder();
      table.Add(IncrementsPrimary("id"));
      for i := 0 to |columns|
        invariant table.ops == [IncrementsPrimary("id")] + ColumnsOps(columns[..i])
        invariant schema.tables == old(schema.tables)
      {
        assert columns[..i + 1][..i] == columns[..i];
        AddColumn(table, columns[i]);
      }
      assert columns[..|columns|] == columns;
      table.Add(Timestamps);
      assert table.ops == TableOps(columns);
      ok := schema.CreateTable(tableName, table.ops);
    }

    /** The body of the `forEach` callback: the calls for one column. */
    static method AddColumn(table: TableBuilder, col: Column)
      modifies table
      ensures table.ops == old(table.ops) + ColumnOps(col)
    {
      if col.kind == "string" {
        table.Add(StringCol(col.name, if col.length.Some? && col.length.value != 0 then col.length.value else DefaultStringLength));
      } else if col.kind == "integer" {
        table.Add(IntegerCol(col.name, false));
      } else if col.kind == "decimal" {
        table.Add(DecimalCol(col.name));
      } else if col.kind == "text" {
        table.Add(TextCol(col.name, None));
      } else if col.kind == "longtext" {
        table.Add(TextCol(col.name, Some("longText")));
      } else if col.kind == "boolean" {
        table.Add(BooleanCol(col.name));
      } else if col.kind == "timestamp" {
        table.Add(Timestamps);
      } else if col.kind == "date" {
        table.Add(DateCol(col.name));
      } else if col.kind == "datetime" {
        table.Add(DateTimeCol(col.name));
      } else if col.kind == "enum" {
        table.Add(EnumCol(col.name, col.values));
      } else if col.kind == "foreign" {
        table.Add(IntegerCol(col.name, true));
        table.Add(ForeignKey(col.name, col.references,
                             if col.onDelete.Some? && col.onDelete.value != "" then col.onDelete.value else DefaultOnDelete));
      }
    }

    /** `down`: drops exactly the model's table. */
    method Down(schema: Catalogue) returns (ok: bool)
      modifies schema
      ensures ok <==> tableName in old(schema.tables) && !old(schema.Referenced(tableName))
      ensures schema.tables == if ok then old(schema.tables) - {tableName} else old(schema.tables)
    {
      ok := schema.DropTable(tableName);
    }
  }
}
