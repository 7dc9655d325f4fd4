/** `apply_declared_constraints` of `db_roles_modification.py`: giving the tables the foreign
    keys and unique constraints the models declare, as far as the dialect can express them. */
module DeclaredConstraints {
  import opened Wrappers

  type Action = Option<string>

  const NO_ACTION := "NO ACTION"
  const RESTRICT := "RESTRICT"
  const ORACLE := "oracle"

  datatype ForeignKey = ForeignKey(columns: seq<string>, refTable: string, refColumns: seq<string>, onUpdate: Action, onDelete: Action)

  /** The named constraints of one table, as the inspector reports them. */
  datatype Constraints = Constraints(foreignKeys: map<string, ForeignKey>, uniques: map<string, seq<string>>)

  type Database = map<string, Constraints>

  datatype NamedKey = NamedKey(name: string, key: ForeignKey)
  datatype NamedUnique = NamedUnique(name: string, columns: seq<string>)

  /** A model: its table, and what it declares for it. */
  datatype Model = Model(table: string, foreignKeys: seq<NamedKey>, uniques: seq<NamedUnique>)

  datatype Statement =
    | DropKey(table: string, name: string)
    | CreateKey(table: string, name: string, key: ForeignKey)
    | CreateUnique(table: string, name: string, columns: seq<string>)

  // ----------------------------------------------------------------------- actions

  function UpperChar(c: char): char { if 'a' <= c <= 'z' then c - 'a' + 'A' else c }

  function Upper(s: string): string {
    if s == "" then "" else [UpperChar(s[0])] + Upper(s[1..])
  }

  /** `_referential_action`: NO ACTION and no action at all are the same thing. */
  function Normalise(a: Action): Action {
    if a.None? || Upper(a.value) == "" || Upper(a.value) == NO_ACTION then None else Some(Upper(a.value))
  }

  lemma {:induction false} UpperTwice(s: string)
    ensures Upper(Upper(s)) == Upper(s)
  {
    if s != "" {
      UpperTwice(s[1..]);
      assert Upper(s)[1..] == Upper(s[1..]);
    }
  }

  /** Normalising is a projection: what is written back reads as itself. */
  lemma NormaliseTwice(a: Action)
    ensures Normalise(Normalise(a)) == Normalise(a)
  {
    if a.Some? {
      UpperTwice(a.value);
    }
  }

  /** The text in capitals, as far as it is in ASCII. */
  ghost predicate InCapitals(s: string, t: string) {
    && |s| == |t|
    && forall i :: 0 <= i < |s| ==> t[i] as int == s[i] as int - if 'a' <= s[i] <= 'z' then 32 else 0
  }

  lemma {:induction false} UpperInCapitals(s: string, t: string)
    ensures t == Upper(s) <==> InCapitals(s, t)
  {
    if s != "" && t != "" {
      UpperInCapitals(s[1..], t[1..]);
      assert t == [t[0]] + t[1..];
      if InCapitals(s, t) {
        assert forall i :: 0 <= i < |s[1..]| ==> s[1..][i] == s[i + 1] && t[1..][i] == t[i + 1];
      }
      if InCapitals(s[1..], t[1..]) && t[0] == UpperChar(s[0]) {
        assert forall i :: 1 <= i < |s| ==> s[i] == s[1..][i - 1] && t[i] == t[1..][i - 1];
      }
    }
  }

  /** No action, the empty one and NO ACTION in any spelling mean none; every other one is read in capitals. */
  lemma NormaliseMeans(a: Action)
    ensures Normalise(a).None? <==> a.None? || a.value == "" || InCapitals(a.value, "NO ACTION")
    ensures Normalise(a).Some? ==> InCapitals(a.value, Normalise(a).value)
  {
    if a.Some? {
      UpperInCapitals(a.value, Upper(a.value));
      UpperInCapitals(a.value, "NO ACTION");
    }
  }

  /** What a foreign key is created with: what was declared, but for Oracle, which has no ON UPDATE and no RESTRICT. */
  lemma CreatedMeans(key: ForeignKey, dialect: string)
    ensures Created(key, dialect).(onUpdate := None, onDelete := None) == key.(onUpdate := None, onDelete := None)
    ensures Created(key, dialect).onUpdate == if dialect == "oracle" then None else Normalise(key.onUpdate)
    ensures Created(key, dialect).onDelete ==
              if dialect == "oracle" && Normalise(key.onDelete) == Some("RESTRICT") then None else Normalise(key.onDelete)
  {
  }

  /** The actions a dialect can express: Oracle has no ON UPDATE, and no ON DELETE RESTRICT. */
  function UpdateAction(key: ForeignKey, dialect: string): Action {
    if dialect == ORACLE then None else Normalise(key.onUpdate)
  }

  function DeleteAction(key: ForeignKey, dialect: string): Action {
    if dialect == ORACLE && Normalise(key.onDelete) == Some(RESTRICT) then None else Normalise(key.onDelete)
  }

  /** `_actions_for_dialect` on the declared, normalised actions. */
  method ActionsForDialect(onUpdate0: Action, onDelete0: Action, dialect: string) returns (onUpdate: Action, onDelete: Action)
    ensures dialect != "oracle" ==> onUpdate == onUpdate0 && onDelete == onDelete0
    ensures dialect == "oracle" ==> onUpdate == if onUpdate0 == Some("") then onUpdate0 else None
    ensures dialect == "oracle" ==> onDelete == if onDelete0 == Some("RESTRICT") then None else onDelete0
  {
    onUpdate, onDelete := onUpdate0, onDelete0;
    if dialect == ORACLE {
      if onUpdate.Some? && onUpdate.value != "" {
        onUpdate := None;
      }
      if onDelete == Some(RESTRICT) {
        onDelete := None;
      }
    }
  }

  // --------------------------------------------------------------------- statements

  predicate Applies(db: Database, s: Statement) {
    match s
    case DropKey(t, n) => t in db && n in db[t].foreignKeys
    case CreateKey(t, n, _) => t in db && n !in db[t].foreignKeys
    case CreateUnique(t, n, _) => t in db && n !in db[t].uniques
  }

  function Effect(db: Database, s: Statement): Database
    requires Applies(db, s)
  {
    match s
    case DropKey(t, n) => db[t := db[t].(foreignKeys := db[t].foreignKeys - {n})]
    case CreateKey(t, n, key) => db[t := db[t].(foreignKeys := db[t].foreignKeys[n := key])]
    case CreateUnique(t, n, columns) => db[t := db[t].(uniques := db[t].uniques[n := columns])]
  }

  /** The statements in order; None if the database refuses one. */
  function Replay(db: Database, log: seq<Statement>): Option<Database> {
    if log == [] then Some(db)
    else
      var before := Replay(db, log[..|log| - 1]);
      if before.Some? && Applies(before.value, log[|log| - 1]) then Some(Effect(before.value, log[|log| - 1])) else None
  }

  lemma ReplaySnoc(db: Database, log: seq<Statement>, s: Statement)
    requires Replay(db, log).Some? && Applies(Replay(db, log).value, s)
    ensures Replay(db, log + [s]) == Some(Effect(Replay(db, log).value, s))
  {
    assert (log + [s])[..|log|] == log;
  }

  // ------------------------------------------------------------------------- target

  /** The foreign key carries exactly the actions the dialect can express. */
  predicate HasActions(current: ForeignKey, declared: ForeignKey, dialect: string) {
    && Normalise(current.onUpdate) == UpdateAction(declared, dialect)
    && Normalise(current.onDelete) == DeleteAction(declared, dialect)
  }

  /** The foreign key as it is created. */
  function Created(declared: ForeignKey, dialect: string): ForeignKey {
    declared.(onUpdate := UpdateAction(declared, dialect), onDelete := DeleteAction(declared, dialect))
  }

  lemma CreatedHasActions(declared: ForeignKey, dialect: string)
    ensures HasActions(Created(declared, dialect), declared, dialect)
  {
    NormaliseTwice(declared.onUpdate);
    NormaliseTwice(declared.onDelete);
  }

  /** A foreign key of the declared name exists and carries the right actions. */
  predicate AlreadyThere(keys: map<string, ForeignKey>, d: NamedKey, dialect: string) {
    d.name in keys && HasActions(keys[d.name], d.key, dialect)
  }

  /** The foreign keys left by a list of declarations, `keys` being what the inspector reported. */
  function KeysAfter(keys: map<string, ForeignKey>, ds: seq<NamedKey>, dialect: string): map<string, ForeignKey> {
    if ds == [] then keys
    else
      var before, d := KeysAfter(keys, ds[..|ds| - 1], dialect), ds[|ds| - 1];
      if AlreadyThere(keys, d, dialect) then before else before[d.name := Created(d.key, dialect)]
  }

  function UniquesAfter(uniques: map<string, seq<string>>, us: seq<NamedUnique>): map<string, seq<string>> {
    if us == [] then uniques
    else
      var before, u := UniquesAfter(uniques, us[..|us| - 1]), us[|us| - 1];
      if u.name in uniques then before else before[u.name := u.columns]
  }

  function ModelAfter(c: Constraints, m: Model, dialect: string): Constraints {
    Constraints(KeysAfter(c.foreignKeys, m.foreignKeys, dialect), UniquesAfter(c.uniques, m.uniques))
  }

  predicate DistinctKeys(ds: seq<NamedKey>) { forall j, k :: 0 <= j < k < |ds| ==> ds[j].name != ds[k].name }
  predicate DistinctUniques(us: seq<NamedUnique>) { forall j, k :: 0 <= j < k < |us| ==> us[j].name != us[k].name }
  predicate DistinctTables(ms: seq<Model>) { forall j, k :: 0 <= j < k < |ms| ==> ms[j].table != ms[k].table }

  predicate NamesDistinct(m: Model) { DistinctKeys(m.foreignKeys) && DistinctUniques(m.uniques) }

  /** Undeclared foreign keys are left alone. */
  lemma {:induction false} UndeclaredKeyStays(keys: map<string, ForeignKey>, ds: seq<NamedKey>, dialect: string, name: string)
    requires forall k :: 0 <= k < |ds| ==> ds[k].name != name
    ensures name in KeysAfter(keys, ds, dialect) <==> name in keys
    ensures name in keys ==> KeysAfter(keys, ds, dialect)[name] == keys[name]
  {
    if ds != [] {
      UndeclaredKeyStays(keys, ds[..|ds| - 1], dialect, name);
    }
  }

  /** A declared foreign key carries exactly the actions the dialect can express; it is the existing one
      if that had them, and otherwise the declared one. */
  lemma {:induction false} DeclaredKeyApplied(keys: map<string, ForeignKey>, ds: seq<NamedKey>, dialect: string, k: nat)
    requires DistinctKeys(ds) && k < |ds|
    ensures AlreadyThere(KeysAfter(keys, ds, dialect), ds[k], dialect)
    ensures KeysAfter(keys, ds, dialect)[ds[k].name] ==
              if AlreadyThere(keys, ds[k], dialect) then keys[ds[k].name] else Created(ds[k].key, dialect)
  {
    var init := ds[..|ds| - 1];
    assert DistinctKeys(init);
    if k == |ds| - 1 {
      UndeclaredKeyStays(keys, init, dialect, ds[k].name);
      CreatedHasActions(ds[k].key, dialect);
    } else {
      DeclaredKeyApplied(keys, init, dialect, k);
      assert ds[k].name != ds[|ds| - 1].name;
    }
  }

  lemma {:induction false} UndeclaredUniqueStays(uniques: map<string, seq<string>>, us: seq<NamedUnique>, name: string)
    requires forall k :: 0 <= k < |us| ==> us[k].name != name
    ensures name in UniquesAfter(uniques, us) <==> name in uniques
    ensures name in uniques ==> UniquesAfter(uniques, us)[name] == uniques[name]
  {
    if us != [] {
      UndeclaredUniqueStays(uniques, us[..|us| - 1], name);
    }
  }

  /** A declared unique constraint exists; one that existed before is not touched. */
  lemma {:induction false} DeclaredUniqueApplied(uniques: map<string, seq<string>>, us: seq<NamedUnique>, k: nat)
    requires DistinctUniques(us) && k < |us|
    ensures us[k].name in UniquesAfter(uniques, us)
    ensures UniquesAfter(uniques, us)[us[k].name] == if us[k].name in uniques then uniques[us[k].name] else us[k].columns
  {
    var init := us[..|us| - 1];
    assert DistinctUniques(init);
    if k == |us| - 1 {
      UndeclaredUniqueStays(uniques, init, us[k].name);
    } else {
      DeclaredUniqueApplied(uniques, init, k);
      assert us[k].name != us[|us| - 1].name;
    }
  }

  /** The declared definition is in force afterwards exactly if it had to be made or was there already:
      a foreign key over other columns whose actions happen to be right is not repaired. */
  lemma DefinitionInForceIff(keys: map<string, ForeignKey>, ds: seq<NamedKey>, dialect: string, k: nat)
    requires DistinctKeys(ds) && k < |ds|
    ensures ds[k].name in KeysAfter(keys, ds, dialect)
    ensures var d, after := ds[k], KeysAfter(keys, ds, dialect)[ds[k].name];
            after.(onUpdate := None, onDelete := None) == d.key.(onUpdate := None, onDelete := None) <==>
              (AlreadyThere(keys, d, dialect) ==> keys[d.name].(onUpdate := None, onDelete := None) == d.key.(onUpdate := None, onDelete := None))
  {
    DeclaredKeyApplied(keys, ds, dialect, k);
  }

  /** Nothing is left to do for a model. */
  predicate InLine(c: Constraints, m: Model, dialect: string) {
    && (forall k :: 0 <= k < |m.foreignKeys| ==> AlreadyThere(c.foreignKeys, m.foreignKeys[k], dialect))
    && (forall k :: 0 <= k < |m.uniques| ==> m.uniques[k].name in c.uniques)
  }

  lemma ModelInLine(c: Constraints, m: Model, dialect: string)
    requires NamesDistinct(m)
    ensures InLine(ModelAfter(c, m, dialect), m, dialect)
  {
    forall k | 0 <= k < |m.foreignKeys|
      ensures AlreadyThere(ModelAfter(c, m, dialect).foreignKeys, m.foreignKeys[k], dialect)
    {
      DeclaredKeyApplied(c.foreignKeys, m.foreignKeys, dialect, k);
    }
    forall k | 0 <= k < |m.uniques|
      ensures m.uniques[k].name in ModelAfter(c, m, dialect).uniques
    {
      DeclaredUniqueApplied(c.uniques, m.uniques, k);
    }
  }

  // --------------------------------------------------------------------------- loops

  /** One declared foreign key; `current` is what the inspector reported before the loop. */
  method ApplyKey(db0: Database, log0: seq<Statement>, t: string, current: map<string, ForeignKey>, d: NamedKey, dialect: string, ghost start: Database)
    returns (db: Database, log: seq<Statement>)
    requires t in db0 && Replay(start, log0) == Some(db0)
    requires d.name in current <==> d.name in db0[t].foreignKeys
    ensures Replay(start, log) == Some(db) && log0 <= log
    ensures db == db0[t := db0[t].(foreignKeys := if AlreadyThere(current, d, dialect) then db0[t].foreignKeys
                                                   else db0[t].foreignKeys[d.name := Created(d.key, dialect)])]
    ensures log == log0 <==> AlreadyThere(current, d, dialect)
  {
    var onUpdate, onDelete := ActionsForDialect(Normalise(d.key.onUpdate), Normalise(d.key.onDelete), dialect);
    db, log := db0, log0;
    if d.name in current && Normalise(current[d.name].onUpdate) == onUpdate && Normalise(current[d.name].onDelete) == onDelete {
      assert db0 == db0[t := db0[t]];
      return;
    }
    if d.name in current {
      ReplaySnoc(start, log, DropKey(t, d.name));
      db, log := Effect(db, DropKey(t, d.name)), log + [DropKey(t, d.name)];
    }
    var create := CreateKey(t, d.name, d.key.(onUpdate := onUpdate, onDelete := onDelete));
    ReplaySnoc(start, log, create);
    db, log := Effect(db, create), log + [create];
    assert db[t].foreignKeys == db0[t].foreignKeys[d.name := Created(d.key, dialect)];
  }

  lemma KeysAfterSnoc(keys: map<string, ForeignKey>, ds: seq<NamedKey>, n: nat, dialect: string)
    requires n < |ds| && DistinctKeys(ds)
    ensures KeysAfter(keys, ds[..n + 1], dialect) ==
              if AlreadyThere(keys, ds[n], dialect) then KeysAfter(keys, ds[..n], dialect)
              else KeysAfter(keys, ds[..n], dialect)[ds[n].name := Created(ds[n].key, dialect)]
    ensures ds[n].name in KeysAfter(keys, ds[..n], dialect) <==> ds[n].name in keys
  {
    assert ds[..n + 1][..n] == ds[..n];
    UndeclaredKeyStays(keys, ds[..n], dialect, ds[n].name);
  }

  /** `db` is `db0` with the first `n` declared keys of a table applied. */
  ghost predicate KeysApplied(db0: Database, m: Model, dialect: string, n: nat, db: Database)
    requires m.table in db0 && n <= |m.foreignKeys|
  {
    db == db0[m.table := db0[m.table].(foreignKeys := KeysAfter(db0[m.table].foreignKeys, m.foreignKeys[..n], dialect))]
  }

  lemma OneMoreKey(db0: Database, m: Model, dialect: string, n: nat, db: Database, db1: Database)
    requires m.table in db0 && n < |m.foreignKeys| && DistinctKeys(m.foreignKeys) && KeysApplied(db0, m, dialect, n, db)
    requires var (t, d) := (m.table, m.foreignKeys[n]);
             db1 == db[t := db[t].(foreignKeys := if AlreadyThere(db0[t].foreignKeys, d, dialect) then db[t].foreignKeys
                                                  else db[t].foreignKeys[d.name := Created(d.key, dialect)])]
    ensures KeysApplied(db0, m, dialect, n + 1, db1)
  {
    KeysAfterSnoc(db0[m.table].foreignKeys, m.foreignKeys, n, dialect);
  }

  method ApplyKeys(db0: Database, log0: seq<Statement>, m: Model, dialect: string, ghost start: Database)
    returns (db: Database, log: seq<Statement>)
    requires m.table in db0 && Replay(start, log0) == Some(db0) && NamesDistinct(m)
    ensures Replay(start, log) == Some(db) && log0 <= log
    ensures db == db0[m.table := db0[m.table].(foreignKeys := KeysAfter(db0[m.table].foreignKeys, m.foreignKeys, dialect))]
    ensures log == log0 <==> forall k :: 0 <= k < |m.foreignKeys| ==> AlreadyThere(db0[m.table].foreignKeys, m.foreignKeys[k], dialect)
  {
    var current := db0[m.table].foreignKeys;
    db, log := db0, log0;
    assert db0 == db0[m.table := db0[m.table]];
    for n := 0 to |m.foreignKeys|
      invariant Replay(start, log) == Some(db) && log0 <= log
      invariant KeysApplied(db0, m, dialect, n, db)
      invariant log == log0 <==> forall k :: 0 <= k < n ==> AlreadyThere(current, m.foreignKeys[k], dialect)
    {
      ghost var before := db;
      KeysAfterSnoc(current, m.foreignKeys, n, dialect);
      db, log := ApplyKey(db, log, m.table, current, m.foreignKeys[n], dialect, start);
      OneMoreKey(db0, m, dialect, n, before, db);
    }
    assert m.foreignKeys[..|m.foreignKeys|] == m.foreignKeys;
  }

  lemma UniquesAfterSnoc(uniques: map<string, seq<string>>, us: seq<NamedUnique>, n: nat)
    requires n < |us| && DistinctUniques(us)
    ensures UniquesAfter(uniques, us[..n + 1]) ==
              if us[n].name in uniques then UniquesAfter(uniques, us[..n]) else UniquesAfter(uniques, us[..n])[us[n].name := us[n].columns]
    ensures us[n].name in UniquesAfter(uniques, us[..n]) <==> us[n].name in uniques
  {
    assert us[..n + 1][..n] == us[..n];
    UndeclaredUniqueStays(uniques, us[..n], us[n].name);
  }

  method ApplyUniques(db0: Database, log0: seq<Statement>, m: Model, ghost start: Database)
    returns (db: Database, log: seq<Statement>)
    requires m.table in db0 && Replay(start, log0) == Some(db0) && NamesDistinct(m)
    ensures Replay(start, log) == Some(db) && log0 <= log
    ensures db == db0[m.table := db0[m.table].(uniques := UniquesAfter(db0[m.table].uniques, m.uniques))]
    ensures log == log0 <==> forall k :: 0 <= k < |m.uniques| ==> m.uniques[k].name in db0[m.table].uniques
  {
    var t, current := m.table, db0[m.table].uniques;
    db, log := db0, log0;
    assert db0 == db0[t := db0[t]];
    for n := 0 to |m.uniques|
      invariant Replay(start, log) == Some(db) && log0 <= log
      invariant db == db0[t := db0[t].(uniques := UniquesAfter(current, m.uniques[..n]))]
      invariant log == log0 <==> forall k :: 0 <= k < n ==> m.uniques[k].name in current
    {
      UniquesAfterSnoc(current, m.uniques, n);
      var u := m.uniques[n];
      if u.name in current {
        continue;
      }
      var create := CreateUnique(t, u.name, u.columns);
      ReplaySnoc(start, log, create);
      db, log := Effect(db, create), log + [create];
    }
    assert m.uniques[..|m.uniques|] == m.uniques;
  }

  /** One model: its foreign keys, then its unique constraints. */
  method ApplyModel(db0: Database, log0: seq<Statement>, m: Model, dialect: string, ghost start: Database)
    returns (db: Database, log: seq<Statement>)
    requires m.table in db0 && Replay(start, log0) == Some(db0) && NamesDistinct(m)
    ensures Replay(start, log) == Some(db) && log0 <= log
    ensures db == db0[m.table := ModelAfter(db0[m.table], m, dialect)]
    ensures log == log0 <==> InLine(db0[m.table], m, dialect)
  {
    db, log := ApplyKeys(db0, log0, m, dialect, start);
    db, log := ApplyUniques(db, log, m, start);
  }

  /** The outer loop. The statements it emits are never refused, bring every declared table in line
      and leave every other one alone; it emits none exactly if all tables are in line already. */
  method ApplyDeclaredConstraints(db0: Database, models: seq<Model>, dialect: string) returns (db: Database, log: seq<Statement>)
    requires DistinctTables(models)
    requires forall i :: 0 <= i < |models| ==> models[i].table in db0 && NamesDistinct(models[i])
    ensures Replay(db0, log) == Some(db)
    ensures db.Keys == db0.Keys
    ensures forall i :: 0 <= i < |models| ==> db[models[i].table] == ModelAfter(db0[models[i].table], models[i], dialect)
    ensures forall t :: t in db && (forall i :: 0 <= i < |models| ==> models[i].table != t) ==> db[t] == db0[t]
    ensures forall i :: 0 <= i < |models| ==> InLine(db[models[i].table], models[i], dialect)
    ensures log == [] <==> forall i :: 0 <= i < |models| ==> InLine(db0[models[i].table], models[i], dialect)
  {
    db, log := db0, [];
    for n := 0 to |models|
      invariant Replay(db0, log) == Some(db) && db.Keys == db0.Keys
      invariant forall i :: 0 <= i < n ==> db[models[i].table] == ModelAfter(db0[models[i].table], models[i], dialect)
      invariant forall t :: t in db && (forall i :: 0 <= i < n ==> models[i].table != t) ==> db[t] == db0[t]
      invariant log == [] <==> forall i :: 0 <= i < n ==> InLine(db0[models[i].table], models[i], dialect)
    {
      assert db[models[n].table] == db0[models[n].table] by {
        assert forall i :: 0 <= i < n ==> models[i].table != models[n].table;
      }
      db, log := ApplyModel(db, log, models[n], dialect, db0);
    }
    forall i | 0 <= i < |models|
      ensures InLine(db[models[i].table], models[i], dialect)
    {
      ModelInLine(db0[models[i].table], models[i], dialect);
    }
  }
}
