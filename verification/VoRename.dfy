/** `rename_vo` on a database with foreign keys. */
module VoRename {
  // Drop the foreign keys into scopes and accounts, rewrite every scope and account column, move the
  // RSEs, add the foreign keys again. A statement that leaves a live foreign key violated fails, and
  // then the transaction is rolled back.

  import opened Wrappers
  import opened VoNames

  type Table = string
  type Column = string
  type Cell = Option<string>
  type Row = map<Column, Cell>
  type Data = map<Table, seq<Row>>

  datatype ForeignKey = ForeignKey(name: string, table: Table, columns: seq<Column>, refTable: Table, refColumns: seq<Column>)

  /** Unique and primary keys are pairs of a table and some of its columns. */
  datatype Database = Database(data: Data, keys: set<ForeignKey>, uniques: set<(Table, seq<Column>)>)

  datatype Rename = Rename(oldVo: string, newVo: string, skipHistory: bool)

  // ------------------------------------------------------------------- selection

  predicate Contains(s: string, part: string) {
    part <= s || (s != "" && Contains(s[1..], part))
  }

  predicate SkipsTable(ren: Rename, t: Table) {
    ren.skipHistory && (Contains(t, "_history") || Contains(t, "_hist_recent"))
  }

  /** The columns rewritten value by value. */
  predicate Selected(ren: Rename, t: Table, c: Column) {
    !SkipsTable(ren, t) && (Contains(c, "scope") || c == "account")
  }

  /** The foreign keys dropped and added again. */
  predicate Dropped(ren: Rename, fk: ForeignKey) {
    !SkipsTable(ren, fk.table) && fk.name != "" && ("scope" in fk.refColumns || "account" in fk.refColumns)
  }

  // ---------------------------------------------------------------- foreign keys

  predicate Refers(row: Row, columns: seq<Column>, target: Row, refColumns: seq<Column>) {
    && |columns| == |refColumns|
    && forall k :: 0 <= k < |columns| ==>
         columns[k] in row && refColumns[k] in target && row[columns[k]] == target[refColumns[k]]
  }

  /** A row with a null in a constrained column refers to nothing. */
  predicate HasNull(row: Row, columns: seq<Column>) {
    exists k :: 0 <= k < |columns| && (columns[k] in row ==> row[columns[k]].None?)
  }

  predicate FindsTarget(data: Data, row: Row, fk: ForeignKey) {
    fk.refTable in data && exists j :: 0 <= j < |data[fk.refTable]| && Refers(row, fk.columns, data[fk.refTable][j], fk.refColumns)
  }

  predicate Satisfied(data: Data, fk: ForeignKey) {
    fk.table in data ==>
      forall i :: 0 <= i < |data[fk.table]| ==> HasNull(data[fk.table][i], fk.columns) || FindsTarget(data, data[fk.table][i], fk)
  }

  /** Two rows clash on a unique key; nulls never do. */
  predicate SameOn(row: Row, other: Row, columns: seq<Column>) {
    forall k :: 0 <= k < |columns| ==>
      columns[k] in row && columns[k] in other && row[columns[k]].Some? && row[columns[k]] == other[columns[k]]
  }

  predicate Unique(data: Data, t: Table, columns: seq<Column>) {
    t in data ==> forall i, j :: 0 <= i < j < |data[t]| ==> !SameOn(data[t][i], data[t][j], columns)
  }

  predicate Consistent(db: Database) {
    && (forall fk :: fk in db.keys ==> Satisfied(db.data, fk))
    && AllUnique(db.data, db.uniques)
  }

  predicate AllUnique(data: Data, uniques: set<(Table, seq<Column>)>) {
    forall u :: u in uniques ==> Unique(data, u.0, u.1)
  }

  // --------------------------------------------------------------------- rewrite

  /** The new content of one cell. */
  function NewCell(ren: Rename, t: Table, c: Column, v: Cell): Cell {
    if v.None? then v
    else if Selected(ren, t, c) then Some(Rewrite(ren.oldVo, ren.newVo, v.value))
    else if t == "rses" && c == "vo" && v.value == ren.oldVo then Some(ren.newVo)
    else v
  }

  function NewRow(ren: Rename, t: Table, row: Row): (r: Row)
    ensures r.Keys == row.Keys
  {
    map c | c in row :: NewCell(ren, t, c, row[c])
  }

  function NewData(ren: Rename, data: Data): (r: Data)
    ensures r.Keys == data.Keys
    ensures forall t :: t in data ==> |r[t]| == |data[t]|
    ensures forall t, i :: t in data && 0 <= i < |data[t]| ==> r[t][i] == NewRow(ren, t, data[t][i])
  {
    map t | t in data :: seq(|data[t]|, i requires 0 <= i < |data[t]| => NewRow(ren, t, data[t][i]))
  }

  predicate IsRseVo(t: Table, c: Column) { t == "rses" && c == "vo" }

  /** Both sides of each column pair of a foreign key are rewritten, or neither is. */
  predicate Aligned(ren: Rename, fk: ForeignKey) {
    && |fk.columns| == |fk.refColumns|
    && forall k :: 0 <= k < |fk.columns| ==>
         && !IsRseVo(fk.table, fk.columns[k]) && !IsRseVo(fk.refTable, fk.refColumns[k])
         && (Selected(ren, fk.table, fk.columns[k]) <==> Selected(ren, fk.refTable, fk.refColumns[k]))
  }

  /** The foreign key from `rses.vo` to the table of VOs, which has to hold the new VO. */
  predicate VoKey(ren: Rename, data: Data, fk: ForeignKey) {
    && fk.table == "rses" && fk.columns == ["vo"] && |fk.refColumns| == 1
    && !Selected(ren, fk.refTable, fk.refColumns[0]) && !IsRseVo(fk.refTable, fk.refColumns[0])
    && fk.refTable in data
    && exists j :: 0 <= j < |data[fk.refTable]| && fk.refColumns[0] in data[fk.refTable][j]
                   && data[fk.refTable][j][fk.refColumns[0]] == Some(ren.newVo)
  }

  lemma NullStays(ren: Rename, t: Table, row: Row, columns: seq<Column>)
    requires HasNull(row, columns)
    ensures HasNull(NewRow(ren, t, row), columns)
  {
    var k :| 0 <= k < |columns| && (columns[k] in row ==> row[columns[k]].None?);
    assert columns[k] in NewRow(ren, t, row) ==> NewRow(ren, t, row)[columns[k]].None?;
  }

  /** Rewriting both sides alike keeps a foreign key satisfied. */
  lemma RewriteKeepsKey(ren: Rename, data: Data, fk: ForeignKey)
    requires Aligned(ren, fk) && Satisfied(data, fk)
    ensures Satisfied(NewData(ren, data), fk)
  {
    var data1 := NewData(ren, data);
    if fk.table in data {
      forall i | 0 <= i < |data[fk.table]|
        ensures HasNull(data1[fk.table][i], fk.columns) || FindsTarget(data1, data1[fk.table][i], fk)
      {
        var row := data[fk.table][i];
        if HasNull(row, fk.columns) {
          NullStays(ren, fk.table, row, fk.columns);
        } else {
          var j :| 0 <= j < |data[fk.refTable]| && Refers(row, fk.columns, data[fk.refTable][j], fk.refColumns);
          assert Refers(data1[fk.table][i], fk.columns, data1[fk.refTable][j], fk.refColumns);
        }
      }
    }
  }

  /** Moving the RSEs keeps their foreign key satisfied once the new VO exists. */
  lemma MoveKeepsVoKey(ren: Rename, data: Data, fk: ForeignKey)
    requires VoKey(ren, data, fk) && Satisfied(data, fk) && !Selected(ren, "rses", "vo")
    ensures Satisfied(NewData(ren, data), fk)
  {
    var data1 := NewData(ren, data);
    if fk.table in data {
      forall i | 0 <= i < |data[fk.table]|
        ensures HasNull(data1[fk.table][i], fk.columns) || FindsTarget(data1, data1[fk.table][i], fk)
      {
        var row := data[fk.table][i];
        if HasNull(row, fk.columns) {
          NullStays(ren, fk.table, row, fk.columns);
        } else {
          var j :| 0 <= j < |data[fk.refTable]| && Refers(row, fk.columns, data[fk.refTable][j], fk.refColumns);
          var n :| 0 <= n < |data[fk.refTable]| && fk.refColumns[0] in data[fk.refTable][n]
                   && data[fk.refTable][n][fk.refColumns[0]] == Some(ren.newVo);
          var m := if row["vo"] == Some(ren.oldVo) then n else j;
          assert Refers(data1[fk.table][i], fk.columns, data1[fk.refTable][m], fk.refColumns);
        }
      }
    }
  }

  // ------------------------------------------------------------------ statements

  /** The pairs already updated, as in `done`, hold their new content, the others their old one. */
  ghost predicate UpdatedSoFar(ren: Rename, data0: Data, done: set<(Table, Column)>, data: Data) {
    && data.Keys == data0.Keys
    && (forall t :: t in data ==> |data[t]| == |data0[t]|)
    && (forall t, i :: t in data && 0 <= i < |data[t]| ==> RowUpdated(ren, t, done, data0[t][i], data[t][i]))
  }

  ghost predicate RowUpdated(ren: Rename, t: Table, done: set<(Table, Column)>, row0: Row, row: Row) {
    && row.Keys == row0.Keys
    && forall c :: c in row ==> row[c] == if (t, c) in done then NewCell(ren, t, c, row0[c]) else row0[c]
  }

  /** `UPDATE t SET c = ...`, on every row. */
  method UpdateColumn(ren: Rename, data0: Data, t: Table, c: Column) returns (data: Data)
    ensures UpdatedSoFar(ren, data0, {(t, c)}, data)
  {
    if t !in data0 {
      return data0;
    }
    var rows := data0[t];
    for i := 0 to |rows|
      invariant |rows| == |data0[t]|
      invariant forall k :: 0 <= k < i ==> RowUpdated(ren, t, {(t, c)}, data0[t][k], rows[k])
      invariant forall k :: i <= k < |rows| ==> rows[k] == data0[t][k]
    {
      if c in rows[i] {
        rows := rows[i := rows[i][c := NewCell(ren, t, c, rows[i][c])]];
      }
    }
    data := data0[t := rows];
  }

  lemma UpdateComposes(ren: Rename, data0: Data, done: set<(Table, Column)>, data1: Data, t: Table, c: Column, data2: Data)
    requires UpdatedSoFar(ren, data0, done, data1) && (t, c) !in done
    requires UpdatedSoFar(ren, data1, {(t, c)}, data2)
    ensures UpdatedSoFar(ren, data0, done + {(t, c)}, data2)
  {
    forall u, i | u in data2 && 0 <= i < |data2[u]|
      ensures RowUpdated(ren, u, done + {(t, c)}, data0[u][i], data2[u][i])
    {
      assert RowUpdated(ren, u, done, data0[u][i], data1[u][i]);
      assert RowUpdated(ren, u, {(t, c)}, data1[u][i], data2[u][i]);
    }
  }

  /** No column of the foreign key, on either side, is among `done`. */
  predicate Untouched(fk: ForeignKey, done: set<(Table, Column)>) {
    && (forall k :: 0 <= k < |fk.columns| ==> (fk.table, fk.columns[k]) !in done)
    && (forall k :: 0 <= k < |fk.refColumns| ==> (fk.refTable, fk.refColumns[k]) !in done)
  }

  lemma UntouchedKeyStays(ren: Rename, data0: Data, done: set<(Table, Column)>, data: Data, fk: ForeignKey)
    requires UpdatedSoFar(ren, data0, done, data) && Untouched(fk, done) && Satisfied(data0, fk)
    ensures Satisfied(data, fk)
  {
    if fk.table in data {
      forall i | 0 <= i < |data[fk.table]|
        ensures HasNull(data[fk.table][i], fk.columns) || FindsTarget(data, data[fk.table][i], fk)
      {
        var row0, row := data0[fk.table][i], data[fk.table][i];
        assert RowUpdated(ren, fk.table, done, row0, row);
        if HasNull(row0, fk.columns) {
          var k :| 0 <= k < |fk.columns| && (fk.columns[k] in row0 ==> row0[fk.columns[k]].None?);
          assert fk.columns[k] in row ==> row[fk.columns[k]].None?;
        } else {
          var j :| 0 <= j < |data0[fk.refTable]| && Refers(row0, fk.columns, data0[fk.refTable][j], fk.refColumns);
          assert RowUpdated(ren, fk.refTable, done, data0[fk.refTable][j], data[fk.refTable][j]);
          assert Refers(row, fk.columns, data[fk.refTable][j], fk.refColumns);
        }
      }
    }
  }

  // ------------------------------------------------------------ when it can be undone

  /** A cell the rename can undo: well-formed, and not of the new VO yet. */
  predicate CellReady(ren: Rename, t: Table, c: Column, v: Cell) {
    v.Some? ==>
      && (Selected(ren, t, c) ==> WellFormed(v.value) && Vo(v.value) != Suffix(ren.newVo))
      && (IsRseVo(t, c) ==> v.value != ren.newVo)
  }

  ghost predicate Ready(ren: Rename, data: Data) {
    forall t, i, c :: t in data && 0 <= i < |data[t]| && c in data[t][i] ==> CellReady(ren, t, c, data[t][i][c])
  }

  function Back(ren: Rename): Rename { Rename(ren.newVo, ren.oldVo, ren.skipHistory) }

  lemma CellBack(ren: Rename, t: Table, c: Column, v: Cell)
    requires ValidVo(ren.oldVo) && ValidVo(ren.newVo) && CellReady(ren, t, c, v)
    ensures NewCell(Back(ren), t, c, NewCell(ren, t, c, v)) == v
  {
    NotSelectedRseVo(ren);
    if v.Some? && Selected(ren, t, c) {
      RewriteBack(ren.oldVo, ren.newVo, v.value);
      assert Selected(Back(ren), t, c);
    }
  }

  /** Between the statements, rows clash on a unique key exactly if they did before. */
  lemma SameOnMeanwhile(ren: Rename, t: Table, done: set<(Table, Column)>, row0: Row, other0: Row, row: Row, other: Row, columns: seq<Column>)
    requires ValidVo(ren.oldVo) && ValidVo(ren.newVo)
    requires RowUpdated(ren, t, done, row0, row) && RowUpdated(ren, t, done, other0, other)
    requires forall c :: c in row0 ==> CellReady(ren, t, c, row0[c])
    requires forall c :: c in other0 ==> CellReady(ren, t, c, other0[c])
    ensures SameOn(row0, other0, columns) <==> SameOn(row, other, columns)
  {
    forall k | 0 <= k < |columns| && columns[k] in row0 && columns[k] in other0
      ensures row0[columns[k]] == other0[columns[k]] <==> row[columns[k]] == other[columns[k]]
      ensures row0[columns[k]].Some? <==> row[columns[k]].Some?
    {
      CellBack(ren, t, columns[k], row0[columns[k]]);
      CellBack(ren, t, columns[k], other0[columns[k]]);
    }
  }

  /** If the new VO was unused, unique keys are never violated between the statements. */
  lemma UniqueMeanwhile(ren: Rename, data0: Data, done: set<(Table, Column)>, data: Data, t: Table, columns: seq<Column>)
    requires ValidVo(ren.oldVo) && ValidVo(ren.newVo) && Ready(ren, data0) && UpdatedSoFar(ren, data0, done, data)
    ensures Unique(data0, t, columns) <==> Unique(data, t, columns)
  {
    if t in data {
      forall i, j | 0 <= i < j < |data[t]|
        ensures SameOn(data0[t][i], data0[t][j], columns) <==> SameOn(data[t][i], data[t][j], columns)
      {
        assert RowUpdated(ren, t, done, data0[t][i], data[t][i]) && RowUpdated(ren, t, done, data0[t][j], data[t][j]);
        SameOnMeanwhile(ren, t, done, data0[t][i], data0[t][j], data[t][i], data[t][j], columns);
      }
    }
  }

  // ------------------------------------------------------------------- the script

  /** Every column to be changed is known to the script. */
  ghost predicate Reflects(ren: Rename, data: Data, columns: seq<(Table, Column)>) {
    forall t, i, c :: t in data && 0 <= i < |data[t]| && c in data[t][i] && Selected(ren, t, c) ==> (t, c) in columns
  }

  /** Each foreign key can stand the rename: one that is not dropped has no rewritten column. */
  ghost predicate Safe(ren: Rename, data: Data, fk: ForeignKey) {
    || VoKey(ren, data, fk)
    || (&& Aligned(ren, fk)
        && (Dropped(ren, fk) || forall k :: 0 <= k < |fk.columns| ==> !Selected(ren, fk.table, fk.columns[k])))
  }

  lemma NotSelectedRseVo(ren: Rename)
    ensures !Selected(ren, "rses", "vo")
  {
    assert !Contains("", "scope");
    assert "o"[1..] == "" && "vo"[1..] == "o";
    assert !Contains("o", "scope") && !Contains("vo", "scope");
  }

  lemma LiveKeyUntouched(ren: Rename, data: Data, fk: ForeignKey, done: set<(Table, Column)>)
    requires Safe(ren, data, fk) && !Dropped(ren, fk)
    requires forall t, c :: (t, c) in done ==> Selected(ren, t, c)
    ensures Untouched(fk, done)
  {
    NotSelectedRseVo(ren);
  }

  lemma AllUpdated(ren: Rename, data0: Data, done: set<(Table, Column)>, data: Data)
    requires UpdatedSoFar(ren, data0, done, data)
    requires forall t, i, c :: t in data0 && 0 <= i < |data0[t]| && c in data0[t][i] && (Selected(ren, t, c) || IsRseVo(t, c)) ==> (t, c) in done
    ensures data == NewData(ren, data0)
  {
    forall t | t in data
      ensures data[t] == NewData(ren, data0)[t]
    {
      forall i | 0 <= i < |data[t]|
        ensures data[t][i] == NewRow(ren, t, data0[t][i])
      {
        assert RowUpdated(ren, t, done, data0[t][i], data[t][i]);
      }
    }
  }

  /** `done` holds exactly the selected ones among the first `n` columns. */
  ghost predicate SelectedUpTo(ren: Rename, columns: seq<(Table, Column)>, n: nat, done: set<(Table, Column)>)
    requires n <= |columns|
  {
    forall tc :: tc in done <==> tc in columns[..n] && Selected(ren, tc.0, tc.1)
  }

  /** No foreign key in force and no unique key stands in the way of the rename. */
  ghost predicate Harmless(ren: Rename, data: Data, live: set<ForeignKey>, uniques: set<(Table, seq<Column>)>) {
    && (forall fk :: fk in live ==> Satisfied(data, fk) && Safe(ren, data, fk) && !Dropped(ren, fk))
    && AllUnique(data, uniques)
    && (uniques != {} ==> ValidVo(ren.oldVo) && ValidVo(ren.newVo) && Ready(ren, data))
  }

  lemma HarmlessMeanwhile(ren: Rename, data0: Data, live: set<ForeignKey>, uniques: set<(Table, seq<Column>)>,
                          done: set<(Table, Column)>, data: Data)
    requires Harmless(ren, data0, live, uniques) && UpdatedSoFar(ren, data0, done, data)
    ensures AllUnique(data, uniques)
    ensures (forall t, c :: (t, c) in done ==> Selected(ren, t, c)) ==> forall fk :: fk in live ==> Satisfied(data, fk)
  {
    if forall t, c :: (t, c) in done ==> Selected(ren, t, c) {
      LiveKeysHold(ren, data0, live, done, data);
    }
    forall u | u in uniques
      ensures Unique(data, u.0, u.1)
    {
      UniqueMeanwhile(ren, data0, done, data, u.0, u.1);
    }
  }

  /** The constraints in force hold. */
  predicate Holds(data: Data, live: set<ForeignKey>, uniques: set<(Table, seq<Column>)>) {
    (forall fk :: fk in live ==> Satisfied(data, fk)) && AllUnique(data, uniques)
  }

  /** The update loop, with the foreign keys `live` and the unique keys enforced after every statement. */
  method UpdateSelected(ren: Rename, data0: Data, live: set<ForeignKey>, uniques: set<(Table, seq<Column>)>, columns: seq<(Table, Column)>)
    returns (data: Data, ok: bool, ghost done: set<(Table, Column)>)
    requires forall i, j :: 0 <= i < j < |columns| ==> columns[i] != columns[j]
    ensures ok ==> UpdatedSoFar(ren, data0, done, data) && SelectedUpTo(ren, columns, |columns|, done)
    ensures Harmless(ren, data0, live, uniques) ==> ok
  {
    ghost var harmless := Harmless(ren, data0, live, uniques);
    data, done := data0, {};
    for n := 0 to |columns|
      invariant UpdatedSoFar(ren, data0, done, data) && SelectedUpTo(ren, columns, n, done)
    {
      var (t, c) := columns[n];
      assert columns[..n + 1] == columns[..n] + [columns[n]];
      if Selected(ren, t, c) {
        var data1 := UpdateColumn(ren, data, t, c);
        UpdateComposes(ren, data0, done, data, t, c, data1);
        data, done := data1, done + {(t, c)};
        if harmless {
          HarmlessMeanwhile(ren, data0, live, uniques, done, data);
        }
        if !Holds(data, live, uniques) {
          return data, false, done;
        }
      }
    }
    ok := true;
  }

  /** The updates and then the move of the RSEs. */
  method UpdateAll(ren: Rename, data0: Data, live: set<ForeignKey>, uniques: set<(Table, seq<Column>)>, columns: seq<(Table, Column)>)
    returns (data: Data, ok: bool)
    requires forall i, j :: 0 <= i < j < |columns| ==> columns[i] != columns[j]
    requires Reflects(ren, data0, columns)
    ensures ok ==> data == NewData(ren, data0) && Holds(data, live, uniques)
    ensures Harmless(ren, data0, live, uniques) ==> ok
  {
    NotSelectedRseVo(ren);
    ghost var done;
    data, ok, done := UpdateSelected(ren, data0, live, uniques, columns);
    if !ok {
      return;
    }
    assert columns[..|columns|] == columns;
    var data1 := UpdateColumn(ren, data, "rses", "vo");
    UpdateComposes(ren, data0, done, data, "rses", "vo", data1);
    AllUpdated(ren, data0, done + {("rses", "vo")}, data1);
    data := data1;
    if Harmless(ren, data0, live, uniques) {
      FinalHolds(ren, data0, live, uniques, done + {("rses", "vo")});
    }
    ok := Holds(data, live, uniques);
  }

  lemma FinalHolds(ren: Rename, data: Data, live: set<ForeignKey>, uniques: set<(Table, seq<Column>)>, done: set<(Table, Column)>)
    requires Harmless(ren, data, live, uniques) && UpdatedSoFar(ren, data, done, NewData(ren, data))
    ensures Holds(NewData(ren, data), live, uniques)
  {
    HarmlessMeanwhile(ren, data, live, uniques, done, NewData(ren, data));
    forall fk | fk in live
      ensures Satisfied(NewData(ren, data), fk)
    {
      FinalKey(ren, data, fk);
    }
  }

  lemma FinalKey(ren: Rename, data: Data, fk: ForeignKey)
    requires Safe(ren, data, fk) && Satisfied(data, fk)
    ensures Satisfied(NewData(ren, data), fk)
  {
    NotSelectedRseVo(ren);
    if VoKey(ren, data, fk) {
      MoveKeepsVoKey(ren, data, fk);
    } else {
      RewriteKeepsKey(ren, data, fk);
    }
  }

  lemma LiveKeysHold(ren: Rename, data0: Data, live: set<ForeignKey>, done: set<(Table, Column)>, data: Data)
    requires UpdatedSoFar(ren, data0, done, data)
    requires forall t, c :: (t, c) in done ==> Selected(ren, t, c)
    requires forall fk :: fk in live ==> Satisfied(data0, fk) && Safe(ren, data0, fk) && !Dropped(ren, fk)
    ensures forall fk :: fk in live ==> Satisfied(data, fk)
  {
    forall fk | fk in live
      ensures Satisfied(data, fk)
    {
      LiveKeyUntouched(ren, data0, fk, done);
      UntouchedKeyStays(ren, data0, done, data, fk);
    }
  }

  ghost predicate CanStand(ren: Rename, db: Database) {
    && (forall fk :: fk in db.keys ==> Safe(ren, db.data, fk))
    && (db.uniques != {} ==> ValidVo(ren.oldVo) && ValidVo(ren.newVo) && Ready(ren, db.data))
  }

  /** The script. It leaves the database alone on failure; on success every cell is rewritten, all foreign keys
      are back, and all constraints hold. It succeeds if every foreign key can stand the rename and, where there
      are unique keys, the new VO is unused. */
  method RenameVo(db0: Database, ren: Rename, columns: seq<(Table, Column)>) returns (db: Database, ok: bool)
    requires forall i, j :: 0 <= i < j < |columns| ==> columns[i] != columns[j]
    requires Reflects(ren, db0.data, columns) && Consistent(db0)
    ensures !ok ==> db == db0
    ensures ok ==> db == Database(NewData(ren, db0.data), db0.keys, db0.uniques)
    ensures Consistent(db)
    ensures CanStand(ren, db0) ==> ok
  {
    var dropped := set fk | fk in db0.keys && Dropped(ren, fk);
    var keys := db0.keys - dropped;
    var data, updated := UpdateAll(ren, db0.data, keys, db0.uniques, columns);
    if !updated {
      return db0, false;
    }
    var todo := dropped;
    while todo != {}
      invariant todo <= dropped && keys == db0.keys - todo
      invariant forall fk :: fk in dropped && fk !in todo ==> Satisfied(data, fk)
      decreases todo
    {
      var fk :| fk in todo;
      if !Satisfied(data, fk) {
        if Safe(ren, db0.data, fk) {
          FinalKey(ren, db0.data, fk);
        }
        return db0, false;
      }
      keys, todo := keys + {fk}, todo - {fk};
    }
    db, ok := Database(data, keys, db0.uniques), true;
    assert keys == db0.keys;
  }

  // ------------------------------------------------------- what the rename preserves

  /** If the new VO was unused, renaming back restores every row exactly. */
  lemma RenameBack(ren: Rename, data: Data)
    requires ValidVo(ren.oldVo) && ValidVo(ren.newVo) && Ready(ren, data)
    ensures NewData(Back(ren), NewData(ren, data)) == data
  {
    var data1 := NewData(ren, data);
    var data2 := NewData(Back(ren), data1);
    forall t, i | t in data && 0 <= i < |data[t]|
      ensures data2[t][i] == data[t][i]
    {
      forall c | c in data[t][i]
        ensures data2[t][i][c] == data[t][i][c]
      {
        assert CellReady(ren, t, c, data[t][i][c]);
        CellBack(ren, t, c, data[t][i][c]);
        assert data1[t][i] == NewRow(ren, t, data[t][i]) && data2[t][i] == NewRow(Back(ren), t, data1[t][i]);
      }
    }
    forall t | t in data
      ensures data2[t] == data[t]
    {
    }
  }

  lemma RewrittenIsUpdated(ren: Rename, data: Data, done: set<(Table, Column)>)
    requires forall t, i, c :: t in data && 0 <= i < |data[t]| && c in data[t][i] ==> (t, c) in done
    ensures UpdatedSoFar(ren, data, done, NewData(ren, data))
  {
  }

  /** All columns of all rows. */
  function AllColumns(data: Data): set<(Table, Column)> {
    set t, i, c | t in data && 0 <= i < |data[t]| && c in data[t][i] :: (t, c)
  }

  /** If the new VO was unused, distinct values stay distinct, so every unique key stays one. */
  lemma KeysStayUnique(ren: Rename, data: Data, t: Table, columns: seq<Column>)
    requires ValidVo(ren.oldVo) && ValidVo(ren.newVo) && Ready(ren, data)
    ensures Unique(data, t, columns) <==> Unique(NewData(ren, data), t, columns)
  {
    RewrittenIsUpdated(ren, data, AllColumns(data));
    UniqueMeanwhile(ren, data, AllColumns(data), NewData(ren, data), t, columns);
  }

  // ------------------------------------------------------- what is read and written

  ghost predicate Around(s: string, before: string, part: string, after: string) { s == before + part + after }

  /** The text stands somewhere in the other. */
  ghost predicate Within(s: string, part: string) { exists before, after :: Around(s, before, part, after) }

  lemma {:induction false} ContainsIff(s: string, part: string)
    ensures Contains(s, part) <==> Within(s, part)
  {
    if part <= s {
      assert Around(s, "", part, s[|part|..]);
    } else if s != "" {
      ContainsIff(s[1..], part);
      if before, after :| Around(s[1..], before, part, after) {
        assert Around(s, [s[0]] + before, part, after);
      }
      if before, after :| Around(s, before, part, after) {
        ShorterAround(s, before, part, after);
      }
    } else if before, after :| Around(s, before, part, after) {
      AroundIsLonger(s, before, part, after);
    }
  }

  lemma AroundIsLonger(s: string, before: string, part: string, after: string)
    requires Around(s, before, part, after)
    ensures |s| >= |part|
  {
  }

  lemma ShorterAround(s: string, before: string, part: string, after: string)
    requires s != "" && Around(s, before, part, after)
    ensures before == "" ==> part <= s
    ensures before != "" ==> Within(s[1..], part)
  {
    if before == "" {
      assert s == part + after;
    } else {
      assert s[1..] == before[1..] + part + after;
      assert Around(s[1..], before[1..], part, after);
    }
  }

  /** Which columns are rewritten, which foreign keys dropped, and what a cell holds afterwards. */
  lemma CellsMeant(ren: Rename, t: Table, c: Column, v: Cell, fk: ForeignKey)
    ensures var skipped := ren.skipHistory && (Within(t, "_history") || Within(t, "_hist_recent"));
            NewCell(ren, t, c, v) ==
              if v.Some? && !skipped && (Within(c, "scope") || c == "account") then Some(Rewrite(ren.oldVo, ren.newVo, v.value))
              else if t == "rses" && c == "vo" && v == Some(ren.oldVo) then Some(ren.newVo) else v
    ensures Dropped(ren, fk) <==>
              && fk.name != "" && ("scope" in fk.refColumns || "account" in fk.refColumns)
              && !(ren.skipHistory && (Within(fk.table, "_history") || Within(fk.table, "_hist_recent")))
  {
    ContainsIff(t, "_history");
    ContainsIff(t, "_hist_recent");
    ContainsIff(c, "scope");
    ContainsIff(fk.table, "_history");
    ContainsIff(fk.table, "_hist_recent");
  }
}
