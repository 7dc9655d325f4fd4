/** One table as a schema migration sees it, and the statements it can be sent. The database
    refuses a statement that does not apply or would leave a constraint violated. */
module SchemaOps {
  import opened Wrappers

  type Column = string
  type Row = map<Column, Option<string>>

  /** Check constraints all have the form "column IS NOT NULL"; both they and foreign keys are
      named and mention one column. */
  datatype Table = Table(
    columns: set<Column>, notNull: set<Column>, checks: map<string, Column>, foreignKeys: map<string, Column>,
    primaryKey: Option<seq<Column>>, rows: seq<Row>)

  /** `Fill` sets a column, where it is null, to a constant or to another column. */
  datatype Fill = Constant(value: string) | Copy(column: Column)

  datatype Statement =
    | AddColumn(column: Column)
    | FillNulls(column: Column, fill: Fill)
    | SetNotNull(column: Column)
    | AddCheck(name: string, column: Column)
    | DropCheck(name: string)
    | DropForeignKey(name: string)
    | DropPrimaryKey
    | AddPrimaryKey(columns: seq<Column>)
    | DropColumn(column: Column)

  predicate SameKey(r: Row, s: Row, key: seq<Column>) {
    forall k :: 0 <= k < |key| ==> key[k] in r && key[k] in s && r[key[k]] == s[key[k]]
  }

  predicate NoNulls(rows: seq<Row>, c: Column) {
    forall i :: 0 <= i < |rows| ==> c in rows[i] && rows[i][c].Some?
  }

  predicate KeyHolds(rows: seq<Row>, key: seq<Column>) {
    && (forall k :: 0 <= k < |key| ==> NoNulls(rows, key[k]))
    && (forall i, j :: 0 <= i < j < |rows| ==> !SameKey(rows[i], rows[j], key))
  }

  /** All constraints of the table hold. */
  predicate Valid(t: Table) {
    && (forall i :: 0 <= i < |t.rows| ==> t.rows[i].Keys == t.columns)
    && (forall c :: c in t.notNull ==> c in t.columns && NoNulls(t.rows, c))
    && (forall n :: n in t.checks ==> t.checks[n] in t.columns && NoNulls(t.rows, t.checks[n]))
    && (forall n :: n in t.foreignKeys ==> t.foreignKeys[n] in t.columns)
    && (t.primaryKey.Some? ==> (forall k :: 0 <= k < |t.primaryKey.value| ==> t.primaryKey.value[k] in t.columns)
                               && KeyHolds(t.rows, t.primaryKey.value))
  }

  /** A live constraint mentions the column. */
  predicate Mentioned(t: Table, c: Column) {
    || (exists n :: n in t.checks && t.checks[n] == c)
    || (exists n :: n in t.foreignKeys && t.foreignKeys[n] == c)
    || (t.primaryKey.Some? && c in t.primaryKey.value)
  }

  function FillRow(r: Row, c: Column, fill: Fill): Row {
    if c in r && r[c].None? then
      match fill
      case Constant(v) => r[c := Some(v)]
      case Copy(d) => if d in r then r[c := r[d]] else r
    else r
  }

  function MapRows(rows: seq<Row>, f: Row -> Row): (r: seq<Row>)
    ensures |r| == |rows|
    ensures forall i :: 0 <= i < |rows| ==> r[i] == f(rows[i])
  {
    seq(|rows|, i requires 0 <= i < |rows| => f(rows[i]))
  }

  predicate Applies(t: Table, s: Statement) {
    match s
    case AddColumn(c) => c !in t.columns
    case FillNulls(c, fill) => c in t.columns && (fill.Copy? ==> fill.column in t.columns)
    case SetNotNull(c) => c in t.columns && NoNulls(t.rows, c)
    case AddCheck(n, c) => n !in t.checks && c in t.columns && NoNulls(t.rows, c)
    case DropCheck(n) => n in t.checks
    case DropForeignKey(n) => n in t.foreignKeys
    case DropPrimaryKey => t.primaryKey.Some?
    case AddPrimaryKey(key) => t.primaryKey.None? && (forall k :: 0 <= k < |key| ==> key[k] in t.columns) && KeyHolds(t.rows, key)
    case DropColumn(c) => c in t.columns && !Mentioned(t, c)
  }

  function Effect(t: Table, s: Statement): Table {
    match s
    case AddColumn(c) => t.(columns := t.columns + {c}, rows := MapRows(t.rows, (r: Row) => r[c := None]))
    case FillNulls(c, fill) => t.(rows := MapRows(t.rows, (r: Row) => FillRow(r, c, fill)))
    case SetNotNull(c) => t.(notNull := t.notNull + {c})
    case AddCheck(n, c) => t.(checks := t.checks[n := c])
    case DropCheck(n) => t.(checks := t.checks - {n})
    case DropForeignKey(n) => t.(foreignKeys := t.foreignKeys - {n})
    case DropPrimaryKey => t.(primaryKey := None)
    case AddPrimaryKey(key) => t.(primaryKey := Some(key))
    case DropColumn(c) =>
      t.(columns := t.columns - {c}, notNull := t.notNull - {c}, rows := MapRows(t.rows, (r: Row) => r - {c}))
  }

  /** None: the database refuses the statement. */
  function Execute(t: Table, s: Statement): Option<Table> {
    if Applies(t, s) && Valid(Effect(t, s)) then Some(Effect(t, s)) else None
  }

  /** A sequence of statements in one transaction. */
  function Run(t: Table, script: seq<Statement>): Option<Table>
    decreases |script|
  {
    if script == [] then Some(t)
    else
      var t1 := Execute(t, script[0]);
      if t1.None? then None else Run(t1.value, script[1..])
  }

  lemma {:induction false} RunConcat(t: Table, a: seq<Statement>, b: seq<Statement>)
    ensures Run(t, a + b) == if Run(t, a).None? then None else Run(Run(t, a).value, b)
    decreases |a|
  {
    if a == [] {
      assert a + b == b;
    } else {
      assert (a + b)[1..] == a[1..] + b;
      var t1 := Execute(t, a[0]);
      if t1.Some? {
        RunConcat(t1.value, a[1..], b);
      }
    }
  }

  /** Statements that only touch the list of constraints keep a valid table valid. */
  lemma ConstraintStepValid(t: Table, s: Statement)
    requires Valid(t) && Applies(t, s) && !s.AddColumn? && !s.FillNulls? && !s.DropColumn?
    ensures Valid(Effect(t, s))
  {}

  lemma AddColumnValid(t: Table, c: Column)
    requires Valid(t) && Applies(t, AddColumn(c))
    ensures Valid(Effect(t, AddColumn(c)))
  {
    var t1 := Effect(t, AddColumn(c));
    forall d | d in t.columns && NoNulls(t.rows, d)
      ensures NoNulls(t1.rows, d)
    {
    }
    if t.primaryKey.Some? {
      SameKeysStay(t.rows, t1.rows, t.primaryKey.value);
    }
  }

  /** A key over columns that did not change still holds. */
  lemma SameKeysStay(rows: seq<Row>, rows1: seq<Row>, key: seq<Column>)
    requires |rows| == |rows1| && KeyHolds(rows, key)
    requires forall i, k :: 0 <= i < |rows| && 0 <= k < |key| ==>
               key[k] in rows[i] && key[k] in rows1[i] && rows1[i][key[k]] == rows[i][key[k]]
    ensures KeyHolds(rows1, key)
  {
    forall i, j | 0 <= i < j < |rows1|
      ensures SameKey(rows1[i], rows1[j], key) ==> SameKey(rows[i], rows[j], key)
    {
    }
  }

  lemma DropColumnValid(t: Table, c: Column)
    requires Valid(t) && Applies(t, DropColumn(c))
    ensures Valid(Effect(t, DropColumn(c)))
  {
    var t1 := Effect(t, DropColumn(c));
    forall d | d in t.columns && d != c && NoNulls(t.rows, d)
      ensures NoNulls(t1.rows, d)
    {
    }
    if t.primaryKey.Some? {
      var key := t.primaryKey.value;
      assert forall k :: 0 <= k < |key| ==> key[k] != c && key[k] in t.columns;
      SameKeysStay(t.rows, t1.rows, key);
    }
  }

  /** Filling a column no constraint mentions keeps the table valid. */
  lemma FillValid(t: Table, c: Column, fill: Fill)
    requires Valid(t) && Applies(t, FillNulls(c, fill)) && !Mentioned(t, c) && c !in t.notNull
    ensures Valid(Effect(t, FillNulls(c, fill)))
  {
    var t1 := Effect(t, FillNulls(c, fill));
    forall d | d in t.columns && d != c && NoNulls(t.rows, d)
      ensures NoNulls(t1.rows, d)
    {
    }
    if t.primaryKey.Some? {
      var key := t.primaryKey.value;
      assert forall k :: 0 <= k < |key| ==> key[k] != c && key[k] in t.columns;
      SameKeysStay(t.rows, t1.rows, key);
    }
  }
}
