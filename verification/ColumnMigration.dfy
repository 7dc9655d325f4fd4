/** The two column steps of `db_roles_column_rename.py`. */
module ColumnMigration {
  // `roles.locked` is replaced by two flags and `role_permission_map.scope` by `scope_pattern`. Each
  // function reads the existing columns and constraints once and emits statements; what they do is
  // judged by running them.

  import opened Wrappers
  import opened SchemaOps

  const LOCKED := "locked"
  const LOCKED_NN := "ROLES_LOCKED_NN"
  const DISABLED := "assignment_disabled"
  const DISABLED_NN := "ROLES_ASSIGNMENT_DISABLED_NN"
  const INTERNAL := "internal_role_flag"
  const INTERNAL_NN := "ROLES_INTERNAL_ROLE_FLAG_NN"
  const SCOPE := "scope"
  const SCOPE_FK := "ROLE_PERMISSION_MAP_SCOPE_FK"
  const SCOPE_NN := "ROLE_PERMISSION_MAP_SCOPE_NN"
  const PATTERN := "scope_pattern"
  const PATTERN_NN := "ROLE_PERMISSION_MAP_SCOPE_PATTERN_NN"
  const NEW_KEY: seq<Column> := ["role", PATTERN, "operation"]
  const OLD_KEY: seq<Column> := ["role", SCOPE, "operation"]

  // ---------------------------------------------------------------------- scripts

  function FlagScript(columns: set<Column>, c: Column, check: string): seq<Statement> {
    if c in columns then []
    else [AddColumn(c), FillNulls(c, Constant("false")), SetNotNull(c), AddCheck(check, c)]
  }

  function LockedScript(columns: set<Column>, checks: set<string>): seq<Statement> {
    if LOCKED !in columns then []
    else if LOCKED_NN in checks then [DropCheck(LOCKED_NN), DropColumn(LOCKED)]
    else [DropColumn(LOCKED)]
  }

  function RolesScript(columns: set<Column>, checks: set<string>): seq<Statement> {
    FlagScript(columns, DISABLED, DISABLED_NN) + FlagScript(columns, INTERNAL, INTERNAL_NN) + LockedScript(columns, checks)
  }

  function PatternScript(columns: set<Column>): seq<Statement> {
    if PATTERN in columns then []
    else [AddColumn(PATTERN)] + (if SCOPE in columns then [FillNulls(PATTERN, Copy(SCOPE))] else [])
         + [SetNotNull(PATTERN), AddCheck(PATTERN_NN, PATTERN)]
  }

  function ScopeScript(columns: set<Column>, checks: set<string>, foreignKeys: set<string>): seq<Statement> {
    if SCOPE !in columns then []
    else [DropPrimaryKey, AddPrimaryKey(NEW_KEY)]
         + (if SCOPE_FK in foreignKeys then [DropForeignKey(SCOPE_FK)] else [])
         + (if SCOPE_NN in checks then [DropCheck(SCOPE_NN)] else [])
         + [DropColumn(SCOPE)]
  }

  function PermissionScript(columns: set<Column>, checks: set<string>, foreignKeys: set<string>): seq<Statement> {
    PatternScript(columns) + ScopeScript(columns, checks, foreignKeys)
  }

  // ------------------------------------------------------------------ adding a column

  /** The table with a new, filled, mandatory column. */
  function WithColumn(t: Table, c: Column, check: string, value: Row -> Option<string>): Table {
    t.(columns := t.columns + {c}, notNull := t.notNull + {c}, checks := t.checks[check := c],
       rows := MapRows(t.rows, (r: Row) => r[c := value(r)]))
  }

  lemma Unroll(t: Table, s: Statement, rest: seq<Statement>)
    ensures Run(t, [s] + rest) == if Execute(t, s).None? then None else Run(Execute(t, s).value, rest)
  {
    assert ([s] + rest)[1..] == rest;
  }

  /** After adding and filling: every row has what the fill gives it. */
  lemma FilledColumn(t: Table, c: Column, fill: Fill, t1: Table)
    requires Valid(t) && c !in t.columns && (fill.Copy? ==> fill.column in t.columns)
    requires t1 == Effect(Effect(t, AddColumn(c)), FillNulls(c, fill))
    ensures Run(t, [AddColumn(c), FillNulls(c, fill)]) == Some(t1) && Valid(t1)
    ensures forall i :: 0 <= i < |t.rows| ==>
              t1.rows[i] == t.rows[i][c := match fill case Constant(v) => Some(v) case Copy(d) => t.rows[i][d]]
  {
    var added := Effect(t, AddColumn(c));
    AddColumnValid(t, c);
    assert !Mentioned(added, c) && c !in added.notNull;
    FillValid(added, c, fill);
    Unroll(t, AddColumn(c), [FillNulls(c, fill)]);
    Unroll(added, FillNulls(c, fill), []);
    assert [AddColumn(c)] + [FillNulls(c, fill)] == [AddColumn(c), FillNulls(c, fill)];
    assert [FillNulls(c, fill)] + [] == [FillNulls(c, fill)];
  }

  /** NOT NULL and its check constraint are accepted exactly if there is no null and the name is free. */
  lemma Mandatory(t: Table, c: Column, check: string)
    requires Valid(t) && c in t.columns
    ensures Run(t, [SetNotNull(c), AddCheck(check, c)]) ==
              if NoNulls(t.rows, c) && check !in t.checks
              then Some(t.(notNull := t.notNull + {c}, checks := t.checks[check := c])) else None
    ensures NoNulls(t.rows, c) && check !in t.checks ==> Valid(t.(notNull := t.notNull + {c}, checks := t.checks[check := c]))
  {
    var t1 := Effect(t, SetNotNull(c));
    Unroll(t, SetNotNull(c), [AddCheck(check, c)]);
    assert [SetNotNull(c)] + [AddCheck(check, c)] == [SetNotNull(c), AddCheck(check, c)];
    if NoNulls(t.rows, c) {
      ConstraintStepValid(t, SetNotNull(c));
      Unroll(t1, AddCheck(check, c), []);
      assert [AddCheck(check, c)] + [] == [AddCheck(check, c)];
      if check !in t.checks {
        ConstraintStepValid(t1, AddCheck(check, c));
      }
    }
  }

  /** One flag: accepted exactly if its check name is free, and all roles get `false`. */
  lemma FlagRuns(t: Table, c: Column, check: string)
    requires Valid(t) && c !in t.columns
    ensures Run(t, FlagScript(t.columns, c, check)) ==
              if check !in t.checks then Some(WithColumn(t, c, check, (r: Row) => Some("false"))) else None
    ensures check !in t.checks ==> Valid(WithColumn(t, c, check, (r: Row) => Some("false")))
  {
    var first, second := [AddColumn(c), FillNulls(c, Constant("false"))], [SetNotNull(c), AddCheck(check, c)];
    assert FlagScript(t.columns, c, check) == first + second;
    RunConcat(t, first, second);
    var t1 := Effect(Effect(t, AddColumn(c)), FillNulls(c, Constant("false")));
    FilledColumn(t, c, Constant("false"), t1);
    Mandatory(t1, c, check);
    assert WithColumn(t, c, check, (r: Row) => Some("false")).rows == t1.rows;
  }

  // --------------------------------------------------------------------------- roles

  /** Nothing but the given check constraints and foreign keys mentions `c`. */
  predicate OnlyKnown(t: Table, c: Column, checks: set<string>, foreignKeys: set<string>) {
    && (forall n :: n in t.checks && t.checks[n] == c ==> n in checks)
    && (forall n :: n in t.foreignKeys && t.foreignKeys[n] == c ==> n in foreignKeys)
    && (t.primaryKey.Some? ==> c !in t.primaryKey.value)
  }

  function Unconstrained(t: Table, checks: set<string>, foreignKeys: set<string>): Table {
    t.(checks := t.checks - checks, foreignKeys := t.foreignKeys - foreignKeys)
  }

  lemma MentionedIff(t: Table, c: Column, checks: set<string>, foreignKeys: set<string>)
    ensures Mentioned(Unconstrained(t, checks, foreignKeys), c) <==> !OnlyKnown(t, c, checks, foreignKeys)
  {
    var t1 := Unconstrained(t, checks, foreignKeys);
    if n :| n in t.checks && t.checks[n] == c && n !in checks {
      assert n in t1.checks && t1.checks[n] == c;
    }
    if n :| n in t.foreignKeys && t.foreignKeys[n] == c && n !in foreignKeys {
      assert n in t1.foreignKeys && t1.foreignKeys[n] == c;
    }
  }

  /** The table without column `c` and the constraints that were known to mention it. */
  function WithoutColumn(t: Table, c: Column, checks: set<string>, foreignKeys: set<string>): Table {
    Effect(Unconstrained(t, checks, foreignKeys), DropColumn(c))
  }

  /** The statements that drop a constraint if it is there. */
  function DropIfThere(t: Table, check: string): seq<Statement> {
    if check in t.checks then [DropCheck(check)] else []
  }

  lemma DropCheckRuns(t: Table, check: string)
    requires Valid(t)
    ensures Run(t, DropIfThere(t, check)) == Some(Unconstrained(t, {check}, {})) && Valid(Unconstrained(t, {check}, {}))
  {
    assert t.foreignKeys - {} == t.foreignKeys;
    if check in t.checks {
      ConstraintStepValid(t, DropCheck(check));
      Unroll(t, DropCheck(check), []);
      assert [DropCheck(check)] + [] == [DropCheck(check)];
    } else {
      assert t.checks - {check} == t.checks;
    }
  }

  lemma DropColumnRuns(t: Table, c: Column, checks: set<string>, foreignKeys: set<string>)
    requires Valid(Unconstrained(t, checks, foreignKeys)) && c in t.columns
    ensures Run(Unconstrained(t, checks, foreignKeys), [DropColumn(c)]) ==
              if OnlyKnown(t, c, checks, foreignKeys) then Some(WithoutColumn(t, c, checks, foreignKeys)) else None
    ensures OnlyKnown(t, c, checks, foreignKeys) ==> Valid(WithoutColumn(t, c, checks, foreignKeys))
  {
    var t1 := Unconstrained(t, checks, foreignKeys);
    MentionedIff(t, c, checks, foreignKeys);
    Unroll(t1, DropColumn(c), []);
    assert [DropColumn(c)] + [] == [DropColumn(c)];
    if OnlyKnown(t, c, checks, foreignKeys) {
      DropColumnValid(t1, c);
    }
  }

  lemma LockedRuns(t: Table, columns: set<Column>, checks: set<string>)
    requires Valid(t) && LOCKED in columns && LOCKED in t.columns && (LOCKED_NN in checks <==> LOCKED_NN in t.checks)
    ensures Run(t, LockedScript(columns, checks)) ==
              if OnlyKnown(t, LOCKED, {LOCKED_NN}, {}) then Some(WithoutColumn(t, LOCKED, {LOCKED_NN}, {})) else None
    ensures OnlyKnown(t, LOCKED, {LOCKED_NN}, {}) ==> Valid(WithoutColumn(t, LOCKED, {LOCKED_NN}, {}))
  {
    assert LockedScript(columns, checks) == DropIfThere(t, LOCKED_NN) + [DropColumn(LOCKED)];
    RunConcat(t, DropIfThere(t, LOCKED_NN), [DropColumn(LOCKED)]);
    DropCheckRuns(t, LOCKED_NN);
    DropColumnRuns(t, LOCKED, {LOCKED_NN}, {});
  }

  function AddFlag(t: Table, c: Column, check: string): Table {
    if c in t.columns then t else WithColumn(t, c, check, (r: Row) => Some("false"))
  }

  function DropLocked(t: Table): Table {
    if LOCKED in t.columns then WithoutColumn(t, LOCKED, {LOCKED_NN}, {}) else t
  }

  /** The table the migration of `roles` aims at. */
  function NewRoles(t: Table): Table {
    DropLocked(AddFlag(AddFlag(t, DISABLED, DISABLED_NN), INTERNAL, INTERNAL_NN))
  }

  predicate FlagReady(t: Table, c: Column, check: string) { c in t.columns || check !in t.checks }

  /** When the migration of `roles` can be applied: the names it needs are free and nothing
      unknown depends on the column it drops. */
  predicate RolesReady(t: Table) {
    && FlagReady(t, DISABLED, DISABLED_NN) && FlagReady(t, INTERNAL, INTERNAL_NN)
    && (LOCKED in t.columns ==> OnlyKnown(t, LOCKED, {LOCKED_NN}, {}))
  }

  lemma FlagStep(t: Table, columns: set<Column>, c: Column, check: string)
    requires Valid(t) && (c in columns <==> c in t.columns)
    ensures Run(t, FlagScript(columns, c, check)) == if FlagReady(t, c, check) then Some(AddFlag(t, c, check)) else None
    ensures FlagReady(t, c, check) ==> Valid(AddFlag(t, c, check))
  {
    if c !in t.columns {
      assert FlagScript(columns, c, check) == FlagScript(t.columns, c, check);
      FlagRuns(t, c, check);
    }
  }

  /** The names of the migration are all different. */
  lemma NamesDiffer()
    ensures DISABLED != INTERNAL && DISABLED != LOCKED && INTERNAL != LOCKED
    ensures DISABLED_NN != INTERNAL_NN && DISABLED_NN != LOCKED_NN && INTERNAL_NN != LOCKED_NN
  {
    assert |DISABLED| == 19 && |INTERNAL| == 18 && |LOCKED| == 6;
    assert |DISABLED_NN| == 28 && |INTERNAL_NN| == 27 && |LOCKED_NN| == 15;
  }

  function AddFlags(t: Table): Table { AddFlag(AddFlag(t, DISABLED, DISABLED_NN), INTERNAL, INTERNAL_NN) }

  lemma FlagsStep(t: Table)
    requires Valid(t)
    ensures Run(t, FlagScript(t.columns, DISABLED, DISABLED_NN) + FlagScript(t.columns, INTERNAL, INTERNAL_NN)) ==
              if FlagReady(t, DISABLED, DISABLED_NN) && FlagReady(t, INTERNAL, INTERNAL_NN) then Some(AddFlags(t)) else None
    ensures FlagReady(t, DISABLED, DISABLED_NN) && FlagReady(t, INTERNAL, INTERNAL_NN) ==> Valid(AddFlags(t))
  {
    NamesDiffer();
    RunConcat(t, FlagScript(t.columns, DISABLED, DISABLED_NN), FlagScript(t.columns, INTERNAL, INTERNAL_NN));
    FlagStep(t, t.columns, DISABLED, DISABLED_NN);
    if FlagReady(t, DISABLED, DISABLED_NN) {
      FlagStep(AddFlag(t, DISABLED, DISABLED_NN), t.columns, INTERNAL, INTERNAL_NN);
    }
  }

  /** The migration of `roles` goes through exactly when the table is ready for it, never refused
      half-way: no live constraint is left on a dropped column, no null under a NOT NULL. */
  lemma RolesMigration(t: Table)
    requires Valid(t)
    ensures Run(t, RolesScript(t.columns, t.checks.Keys)) == if RolesReady(t) then Some(NewRoles(t)) else None
    ensures RolesReady(t) ==> Valid(NewRoles(t))
  {
    var flags := FlagScript(t.columns, DISABLED, DISABLED_NN) + FlagScript(t.columns, INTERNAL, INTERNAL_NN);
    RunConcat(t, flags, LockedScript(t.columns, t.checks.Keys));
    FlagsStep(t);
    if FlagReady(t, DISABLED, DISABLED_NN) && FlagReady(t, INTERNAL, INTERNAL_NN) {
      KnownUnaffected(t);
      if LOCKED in t.columns {
        LockedRuns(AddFlags(t), t.columns, t.checks.Keys);
      }
    }
  }

  lemma KnownUnaffected(t: Table)
    requires FlagReady(t, DISABLED, DISABLED_NN) && FlagReady(t, INTERNAL, INTERNAL_NN)
    ensures OnlyKnown(AddFlags(t), LOCKED, {LOCKED_NN}, {}) <==> OnlyKnown(t, LOCKED, {LOCKED_NN}, {})
    ensures LOCKED in AddFlags(t).columns <==> LOCKED in t.columns
    ensures LOCKED_NN in AddFlags(t).checks <==> LOCKED_NN in t.checks
  {
    NamesDiffer();
    forall n | n in t.checks && t.checks[n] == LOCKED
      ensures n in AddFlags(t).checks && AddFlags(t).checks[n] == LOCKED
    {
    }
  }

  /** A second run emits no statement. */
  lemma RolesMigrationIdempotent(t: Table)
    ensures RolesScript(NewRoles(t).columns, NewRoles(t).checks.Keys) == []
  {
    NamesDiffer();
  }

  /** Roles lose `locked`, gain the two flags as `false` where they were missing, and keep everything else. */
  lemma RolesRows(t: Table, i: nat)
    requires Valid(t) && i < |t.rows|
    ensures |NewRoles(t).rows| == |t.rows|
    ensures var r, r1 := t.rows[i], NewRoles(t).rows[i];
            && r1.Keys == r.Keys - {LOCKED} + {DISABLED, INTERNAL}
            && (forall c :: c in r && c != LOCKED ==> r1[c] == r[c])
            && (DISABLED !in r ==> r1[DISABLED] == Some("false"))
            && (INTERNAL !in r ==> r1[INTERNAL] == Some("false"))
  {
    NamesDiffer();
    var t1 := AddFlag(t, DISABLED, DISABLED_NN);
    var t2 := AddFlag(t1, INTERNAL, INTERNAL_NN);
    assert t.rows[i].Keys == t.columns;
    assert t1.rows[i] == if DISABLED in t.columns then t.rows[i] else t.rows[i][DISABLED := Some("false")];
    assert t2.rows[i] == if INTERNAL in t.columns then t1.rows[i] else t1.rows[i][INTERNAL := Some("false")];
    assert NewRoles(t).rows[i] == if LOCKED in t.columns then t2.rows[i] - {LOCKED} else t2.rows[i];
  }

  // --------------------------------------------------------------------- permissions

  /** The table after the first half: `scope_pattern` is there, with the values of `scope` if it is new. */
  function AddPattern(t: Table): Table {
    if PATTERN in t.columns then t
    else WithColumn(t, PATTERN, PATTERN_NN, (r: Row) => if SCOPE in r then r[SCOPE] else None)
  }

  /** The new column can be made mandatory: it gets no null, and its check name is free. */
  predicate PatternReady(t: Table) {
    PATTERN in t.columns || (PATTERN_NN !in t.checks && if SCOPE in t.columns then NoNulls(t.rows, SCOPE) else t.rows == [])
  }

  lemma PatternNamesDiffer()
    ensures PATTERN != SCOPE && PATTERN_NN != SCOPE_NN && PATTERN != "role" && PATTERN != "operation"
  {
    assert |PATTERN| == 13 && |SCOPE| == 5 && |PATTERN_NN| == 36 && |SCOPE_NN| == 28;
  }

  lemma PatternAdded(t: Table)
    requires Valid(t) && PATTERN !in t.columns && SCOPE in t.columns
    ensures Run(t, PatternScript(t.columns)) == if PatternReady(t) then Some(AddPattern(t)) else None
    ensures PatternReady(t) ==> Valid(AddPattern(t))
  {
    PatternNamesDiffer();
    var first, second := [AddColumn(PATTERN), FillNulls(PATTERN, Copy(SCOPE))], [SetNotNull(PATTERN), AddCheck(PATTERN_NN, PATTERN)];
    assert PatternScript(t.columns) == first + second;
    RunConcat(t, first, second);
    var t1 := Effect(Effect(t, AddColumn(PATTERN)), FillNulls(PATTERN, Copy(SCOPE)));
    FilledColumn(t, PATTERN, Copy(SCOPE), t1);
    Mandatory(t1, PATTERN, PATTERN_NN);
    assert NoNulls(t1.rows, PATTERN) <==> NoNulls(t.rows, SCOPE) by {
      forall i | 0 <= i < |t.rows|
        ensures t1.rows[i][PATTERN] == t.rows[i][SCOPE]
      {
      }
    }
    assert AddPattern(t).rows == t1.rows;
  }

  lemma PatternAddedEmpty(t: Table)
    requires Valid(t) && PATTERN !in t.columns && SCOPE !in t.columns
    ensures Run(t, PatternScript(t.columns)) == if PatternReady(t) then Some(AddPattern(t)) else None
    ensures PatternReady(t) ==> Valid(AddPattern(t))
  {
    var t1 := Effect(t, AddColumn(PATTERN));
    var second := [SetNotNull(PATTERN), AddCheck(PATTERN_NN, PATTERN)];
    assert PatternScript(t.columns) == [AddColumn(PATTERN)] + second;
    AddColumnValid(t, PATTERN);
    Unroll(t, AddColumn(PATTERN), second);
    Mandatory(t1, PATTERN, PATTERN_NN);
    if t.rows != [] {
      assert t1.rows[0][PATTERN].None?;
    }
    assert AddPattern(t).rows == t1.rows;
  }

  lemma PatternStep(t: Table)
    requires Valid(t)
    ensures Run(t, PatternScript(t.columns)) == if PatternReady(t) then Some(AddPattern(t)) else None
    ensures PatternReady(t) ==> Valid(AddPattern(t))
  {
    if PATTERN !in t.columns {
      if SCOPE in t.columns {
        PatternAdded(t);
      } else {
        PatternAddedEmpty(t);
      }
    }
  }

  function WithNewKey(t: Table): Table { t.(primaryKey := Some(NEW_KEY)) }

  /** The second half can be applied: there is a key to replace, the new one holds, and nothing
      unknown depends on `scope`. */
  predicate ScopeReady(t: Table) {
    && t.primaryKey.Some? && "role" in t.columns && "operation" in t.columns && PATTERN in t.columns
    && KeyHolds(t.rows, NEW_KEY)
    && OnlyKnown(WithNewKey(t), SCOPE, {SCOPE_NN}, {SCOPE_FK})
  }

  lemma KeyRuns(t: Table)
    requires Valid(t)
    ensures Run(t, [DropPrimaryKey, AddPrimaryKey(NEW_KEY)]) ==
              if t.primaryKey.Some? && "role" in t.columns && PATTERN in t.columns && "operation" in t.columns && KeyHolds(t.rows, NEW_KEY)
              then Some(WithNewKey(t)) else None
    ensures t.primaryKey.Some? && "role" in t.columns && PATTERN in t.columns && "operation" in t.columns && KeyHolds(t.rows, NEW_KEY)
            ==> Valid(WithNewKey(t))
  {
    var add := [AddPrimaryKey(NEW_KEY)];
    Unroll(t, DropPrimaryKey, add);
    assert [DropPrimaryKey] + add == [DropPrimaryKey, AddPrimaryKey(NEW_KEY)];
    if t.primaryKey.Some? {
      var t1 := Effect(t, DropPrimaryKey);
      ConstraintStepValid(t, DropPrimaryKey);
      Unroll(t1, AddPrimaryKey(NEW_KEY), []);
      assert add + [] == add;
      assert Applies(t1, AddPrimaryKey(NEW_KEY)) <==>
          "role" in t.columns && PATTERN in t.columns && "operation" in t.columns && KeyHolds(t.rows, NEW_KEY) by {
        assert NEW_KEY[0] == "role" && NEW_KEY[1] == PATTERN && NEW_KEY[2] == "operation";
      }
    }
  }

  function DropKeyIfThere(t: Table): seq<Statement> {
    if SCOPE_FK in t.foreignKeys then [DropForeignKey(SCOPE_FK)] else []
  }

  lemma DropKeyRuns(t: Table)
    requires Valid(t)
    ensures Run(t, DropKeyIfThere(t)) == Some(Unconstrained(t, {}, {SCOPE_FK})) && Valid(Unconstrained(t, {}, {SCOPE_FK}))
  {
    assert t.checks - {} == t.checks;
    if SCOPE_FK in t.foreignKeys {
      ConstraintStepValid(t, DropForeignKey(SCOPE_FK));
      Unroll(t, DropForeignKey(SCOPE_FK), []);
      assert [DropForeignKey(SCOPE_FK)] + [] == [DropForeignKey(SCOPE_FK)];
    } else {
      assert t.foreignKeys - {SCOPE_FK} == t.foreignKeys;
    }
  }

  /** Dropping the two known constraints and then the column. */
  lemma ScopeDropped(t: Table)
    requires Valid(t) && SCOPE in t.columns
    ensures Run(t, DropKeyIfThere(t) + DropIfThere(t, SCOPE_NN) + [DropColumn(SCOPE)]) ==
              if OnlyKnown(t, SCOPE, {SCOPE_NN}, {SCOPE_FK}) then Some(WithoutColumn(t, SCOPE, {SCOPE_NN}, {SCOPE_FK})) else None
    ensures OnlyKnown(t, SCOPE, {SCOPE_NN}, {SCOPE_FK}) ==> Valid(WithoutColumn(t, SCOPE, {SCOPE_NN}, {SCOPE_FK}))
  {
    var t1 := Unconstrained(t, {}, {SCOPE_FK});
    DropKeyRuns(t);
    assert t1.checks == t.checks && DropIfThere(t1, SCOPE_NN) == DropIfThere(t, SCOPE_NN);
    DropCheckRuns(t1, SCOPE_NN);
    assert Unconstrained(t1, {SCOPE_NN}, {}) == Unconstrained(t, {SCOPE_NN}, {SCOPE_FK});
    RunConcat(t, DropKeyIfThere(t) + DropIfThere(t, SCOPE_NN), [DropColumn(SCOPE)]);
    RunConcat(t, DropKeyIfThere(t), DropIfThere(t, SCOPE_NN));
    DropColumnRuns(t, SCOPE, {SCOPE_NN}, {SCOPE_FK});
  }

  function DropScope(t: Table): Table {
    if SCOPE in t.columns then WithoutColumn(WithNewKey(t), SCOPE, {SCOPE_NN}, {SCOPE_FK}) else t
  }

  lemma ScopeStep(t: Table, columns: set<Column>, checks: set<string>, foreignKeys: set<string>)
    requires Valid(t) && SCOPE in columns && SCOPE in t.columns && PATTERN in t.columns
    requires (SCOPE_NN in checks <==> SCOPE_NN in t.checks) && (SCOPE_FK in foreignKeys <==> SCOPE_FK in t.foreignKeys)
    ensures Run(t, ScopeScript(columns, checks, foreignKeys)) == if ScopeReady(t) then Some(DropScope(t)) else None
    ensures ScopeReady(t) ==> Valid(DropScope(t))
  {
    var keys, t1 := [DropPrimaryKey, AddPrimaryKey(NEW_KEY)], WithNewKey(t);
    var rest := DropKeyIfThere(t1) + DropIfThere(t1, SCOPE_NN) + [DropColumn(SCOPE)];
    assert ScopeScript(columns, checks, foreignKeys) == keys + rest;
    RunConcat(t, keys, rest);
    KeyRuns(t);
    if t.primaryKey.Some? && "role" in t.columns && PATTERN in t.columns && "operation" in t.columns && KeyHolds(t.rows, NEW_KEY) {
      ScopeDropped(t1);
    }
  }

  /** The table the migration of `role_permission_map` aims at. */
  function NewPermissions(t: Table): Table { DropScope(AddPattern(t)) }

  predicate PermissionsReady(t: Table) {
    PatternReady(t) && (SCOPE in t.columns ==> ScopeReady(AddPattern(t)))
  }

  /** The migration of `role_permission_map` goes through exactly when the table is ready for it. */
  lemma PermissionMigration(t: Table)
    requires Valid(t)
    ensures Run(t, PermissionScript(t.columns, t.checks.Keys, t.foreignKeys.Keys)) ==
              if PermissionsReady(t) then Some(NewPermissions(t)) else None
    ensures PermissionsReady(t) ==> Valid(NewPermissions(t))
  {
    PatternNamesDiffer();
    RunConcat(t, PatternScript(t.columns), ScopeScript(t.columns, t.checks.Keys, t.foreignKeys.Keys));
    PatternStep(t);
    if PatternReady(t) && SCOPE in t.columns {
      ScopeStep(AddPattern(t), t.columns, t.checks.Keys, t.foreignKeys.Keys);
    }
  }

  /** A second run emits no statement. */
  lemma PermissionMigrationIdempotent(t: Table)
    ensures var t1 := NewPermissions(t); PermissionScript(t1.columns, t1.checks.Keys, t1.foreignKeys.Keys) == []
  {
    PatternNamesDiffer();
  }

  /** An old-format table: keyed by role, scope and operation, no pattern yet. */
  predicate OldFormat(t: Table) {
    && Valid(t) && t.primaryKey == Some(OLD_KEY) && PATTERN !in t.columns && PATTERN_NN !in t.checks
    && (forall n :: n in t.checks && t.checks[n] == SCOPE ==> n == SCOPE_NN)
    && (forall n :: n in t.foreignKeys && t.foreignKeys[n] == SCOPE ==> n == SCOPE_FK)
  }

  /** Rows that agree on the new key agreed on the old one. */
  lemma SameNewKey(r: Row, s: Row, r1: Row, s1: Row)
    requires SCOPE in r && SCOPE in s && r1 == r[PATTERN := r[SCOPE]] && s1 == s[PATTERN := s[SCOPE]]
    requires "role" in r && "role" in s && "operation" in r && "operation" in s
    ensures SameKey(r1, s1, NEW_KEY) ==> SameKey(r, s, OLD_KEY)
  {
    PatternNamesDiffer();
    assert OLD_KEY[0] == "role" && OLD_KEY[1] == SCOPE && OLD_KEY[2] == "operation";
    assert NEW_KEY[0] == "role" && NEW_KEY[1] == PATTERN && NEW_KEY[2] == "operation";
    assert |PATTERN| == 13 && |"role"| == 4 && |"operation"| == 9;
    if SameKey(r1, s1, NEW_KEY) {
      assert r1[NEW_KEY[0]] == s1[NEW_KEY[0]] && r1[NEW_KEY[1]] == s1[NEW_KEY[1]] && r1[NEW_KEY[2]] == s1[NEW_KEY[2]];
    }
  }

  /** Every old-format table is ready: in particular the new key is still unique. */
  lemma OldFormatIsReady(t: Table)
    requires OldFormat(t)
    ensures PermissionsReady(t)
  {
    PatternNamesDiffer();
    assert OLD_KEY[0] == "role" && OLD_KEY[1] == SCOPE && OLD_KEY[2] == "operation";
    assert NEW_KEY[0] == "role" && NEW_KEY[1] == PATTERN && NEW_KEY[2] == "operation";
    assert NoNulls(t.rows, OLD_KEY[0]) && NoNulls(t.rows, OLD_KEY[1]) && NoNulls(t.rows, OLD_KEY[2]);
    var t1 := AddPattern(t);
    forall i, j | 0 <= i < j < |t1.rows|
      ensures !SameKey(t1.rows[i], t1.rows[j], NEW_KEY)
    {
      SameNewKey(t.rows[i], t.rows[j], t1.rows[i], t1.rows[j]);
    }
  }

  /** Each (role, scope, operation) becomes (role, scope_pattern, operation) with the same values; other columns stay. */
  lemma OldFormatRows(t: Table, i: nat)
    requires OldFormat(t) && i < |t.rows|
    ensures |NewPermissions(t).rows| == |t.rows|
    ensures var r, r1 := t.rows[i], NewPermissions(t).rows[i];
            && SCOPE in r && r1.Keys == r.Keys - {SCOPE} + {PATTERN} && r1[PATTERN] == r[SCOPE]
            && forall c :: c in r && c != SCOPE ==> r1[c] == r[c]
    ensures NewPermissions(t).primaryKey == Some(NEW_KEY)
  {
    PatternNamesDiffer();
    assert OLD_KEY[1] == SCOPE;
    assert t.rows[i].Keys == t.columns;
    assert AddPattern(t).rows[i] == t.rows[i][PATTERN := t.rows[i][SCOPE]];
    assert NewPermissions(t).rows[i] == AddPattern(t).rows[i] - {SCOPE};
  }

  /** With both columns there and a null pattern, left by a half-applied run, the script is refused: it does not backfill. */
  lemma HalfAppliedIsRefused(t: Table, i: nat)
    requires Valid(t) && PATTERN in t.columns && SCOPE in t.columns
    requires i < |t.rows| && t.rows[i][PATTERN].None?
    ensures Run(t, PermissionScript(t.columns, t.checks.Keys, t.foreignKeys.Keys)) == None
  {
    PermissionMigration(t);
    assert NEW_KEY[1] == PATTERN;
    assert !NoNulls(t.rows, NEW_KEY[1]);
  }

  // --------------------------------------------------------------------- emitters

  lemma FlagAfter(log0: seq<Statement>, columns: set<Column>, c: Column, check: string)
    ensures forall t :: Run(t, log0).Some? && Valid(Run(t, log0).value) && (c in columns <==> c in Run(t, log0).value.columns) ==>
              Run(t, log0 + FlagScript(columns, c, check)) ==
                if FlagReady(Run(t, log0).value, c, check) then Some(AddFlag(Run(t, log0).value, c, check)) else None
  {
    forall t | Run(t, log0).Some? && Valid(Run(t, log0).value) && (c in columns <==> c in Run(t, log0).value.columns)
      ensures Run(t, log0 + FlagScript(columns, c, check)) ==
                if FlagReady(Run(t, log0).value, c, check) then Some(AddFlag(Run(t, log0).value, c, check)) else None
    {
      RunConcat(t, log0, FlagScript(columns, c, check));
      FlagStep(Run(t, log0).value, columns, c, check);
    }
  }

  /** `_add_role_flag`: run behind what was emitted before, the statements add the flag as `false` to all
      roles, or are refused because the name of the check is taken. */
  method EmitFlag(log0: seq<Statement>, columns: set<Column>, c: Column, check: string) returns (log: seq<Statement>)
    ensures log == log0 + FlagScript(columns, c, check)
    ensures forall t :: Run(t, log0).Some? && Valid(Run(t, log0).value) && (c in columns <==> c in Run(t, log0).value.columns) ==>
              Run(t, log) == if FlagReady(Run(t, log0).value, c, check) then Some(AddFlag(Run(t, log0).value, c, check)) else None
  {
    log := log0;
    FlagAfter(log0, columns, c, check);
    if c in columns {
      return;
    }
    log := log + [AddColumn(c)];
    log := log + [FillNulls(c, Constant("false"))];
    log := log + [SetNotNull(c)];
    log := log + [AddCheck(check, c)];
  }

  /** `replace_roles_locked_with_flags`: run on the table they were emitted for, the statements lead to
      the new table, or are refused because it is not ready. */
  method EmitRoles(columns: set<Column>, checks: set<string>) returns (log: seq<Statement>)
    ensures log == RolesScript(columns, checks)
    ensures forall t :: Valid(t) && t.columns == columns && t.checks.Keys == checks ==>
              Run(t, log) == if RolesReady(t) then Some(NewRoles(t)) else None
  {
    forall t | Valid(t) && t.columns == columns && t.checks.Keys == checks
      ensures Run(t, RolesScript(columns, checks)) == if RolesReady(t) then Some(NewRoles(t)) else None
    {
      RolesMigration(t);
    }
    log := EmitFlag([], columns, DISABLED, DISABLED_NN);
    log := EmitFlag(log, columns, INTERNAL, INTERNAL_NN);
    if LOCKED !in columns {
      return;
    }
    if LOCKED_NN in checks {
      log := log + [DropCheck(LOCKED_NN)];
    }
    log := log + [DropColumn(LOCKED)];
  }

  lemma PermissionScriptRuns(columns: set<Column>, checks: set<string>, foreignKeys: set<string>)
    ensures forall t :: Valid(t) && t.columns == columns && t.checks.Keys == checks && t.foreignKeys.Keys == foreignKeys ==>
              Run(t, PermissionScript(columns, checks, foreignKeys)) == if PermissionsReady(t) then Some(NewPermissions(t)) else None
  {
    forall t | Valid(t) && t.columns == columns && t.checks.Keys == checks && t.foreignKeys.Keys == foreignKeys
      ensures Run(t, PermissionScript(columns, checks, foreignKeys)) == if PermissionsReady(t) then Some(NewPermissions(t)) else None
    {
      PermissionMigration(t);
    }
  }

  /** `replace_role_permission_map_scope_with_pattern`: run on the table they were emitted for, the
      statements lead to the new table, or are refused because it is not ready. */
  method EmitPermissions(columns: set<Column>, checks: set<string>, foreignKeys: set<string>) returns (log: seq<Statement>)
    ensures log == PermissionScript(columns, checks, foreignKeys)
    ensures forall t :: Valid(t) && t.columns == columns && t.checks.Keys == checks && t.foreignKeys.Keys == foreignKeys ==>
              Run(t, log) == if PermissionsReady(t) then Some(NewPermissions(t)) else None
  {
    PermissionScriptRuns(columns, checks, foreignKeys);
    log := [];
    if PATTERN !in columns {
      log := log + [AddColumn(PATTERN)];
      if SCOPE in columns {
        log := log + [FillNulls(PATTERN, Copy(SCOPE))];
      }
      log := log + [SetNotNull(PATTERN)];
      log := log + [AddCheck(PATTERN_NN, PATTERN)];
    }
    assert log == PatternScript(columns);
    if SCOPE !in columns {
      return;
    }
    ghost var scopes := [DropPrimaryKey, AddPrimaryKey(NEW_KEY)];
    log := log + [DropPrimaryKey];
    log := log + [AddPrimaryKey(NEW_KEY)];
    if SCOPE_FK in foreignKeys {
      log := log + [DropForeignKey(SCOPE_FK)];
      scopes := scopes + [DropForeignKey(SCOPE_FK)];
    }
    if SCOPE_NN in checks {
      log := log + [DropCheck(SCOPE_NN)];
      scopes := scopes + [DropCheck(SCOPE_NN)];
    }
    log := log + [DropColumn(SCOPE)];
    scopes := scopes + [DropColumn(SCOPE)];
    assert scopes == ScopeScript(columns, checks, foreignKeys);
    assert log == PatternScript(columns) + scopes;
  }

  // ------------------------------------------------------------- the tables in full

  /** The new roles table: only what concerns the three flags is different. */
  lemma RolesTableMeans(t: Table)
    requires Valid(t)
    ensures var u := NewRoles(t);
            && u.columns == t.columns - {"locked"} + {"assignment_disabled", "internal_role_flag"}
            && u.foreignKeys == t.foreignKeys && u.primaryKey == t.primaryKey
            && FlagMandatory(t, u, "assignment_disabled", "ROLES_ASSIGNMENT_DISABLED_NN")
            && FlagMandatory(t, u, "internal_role_flag", "ROLES_INTERNAL_ROLE_FLAG_NN")
            && ("locked" in t.columns ==> "locked" !in u.notNull)
            && (forall c :: c in t.notNull && c != "locked" ==> c in u.notNull)
  {
    NamesDiffer();
  }

  /** Of the checks only that of the dropped column is gone. */
  lemma RolesChecksMean(t: Table)
    requires Valid(t)
    ensures var u := NewRoles(t);
            && ("locked" in t.columns ==> "ROLES_LOCKED_NN" !in u.checks)
            && (forall n :: n in t.checks && n !in {"ROLES_LOCKED_NN", "ROLES_ASSIGNMENT_DISABLED_NN", "ROLES_INTERNAL_ROLE_FLAG_NN"} ==>
                  n in u.checks && u.checks[n] == t.checks[n])
  {
    NamesDiffer();
  }

  /** A flag that was missing is now mandatory, and has its check. */
  ghost predicate FlagMandatory(t: Table, u: Table, c: Column, check: string) {
    c !in t.columns ==> c in u.notNull && check in u.checks && u.checks[check] == c
  }

  /** The new permission table: the pattern takes the place of the scope, also in the key. */
  lemma PermissionTableMeans(t: Table)
    requires Valid(t)
    ensures var u := NewPermissions(t);
            && u.columns == t.columns - {"scope"} + {"scope_pattern"}
            && FlagMandatory(t, u, "scope_pattern", "ROLE_PERMISSION_MAP_SCOPE_PATTERN_NN")
            && ("scope" in t.columns ==>
                  && u.primaryKey == Some(["role", "scope_pattern", "operation"])
                  && "ROLE_PERMISSION_MAP_SCOPE_FK" !in u.foreignKeys && "ROLE_PERMISSION_MAP_SCOPE_NN" !in u.checks)
            && ("scope" !in t.columns ==> u.primaryKey == t.primaryKey && u.foreignKeys == t.foreignKeys)
            && (forall n :: n in t.foreignKeys && n != "ROLE_PERMISSION_MAP_SCOPE_FK" ==> n in u.foreignKeys && u.foreignKeys[n] == t.foreignKeys[n])
            && (forall n :: n in t.checks && n !in {"ROLE_PERMISSION_MAP_SCOPE_NN", "ROLE_PERMISSION_MAP_SCOPE_PATTERN_NN"} ==>
                  n in u.checks && u.checks[n] == t.checks[n])
            && (forall c :: c in t.notNull && c != "scope" ==> c in u.notNull)
  {
    PatternNamesDiffer();
  }
}
