/** The permissions of several roles drawn as trees whose columns line up (`format_permission_trees`).
    A branch has a type, an identifier and parameters. A limit on several RSEs lists them one per
    line, between bars that take the room before and behind the identifier column, so that the names
    line up with the other identifiers. Widths are taken over all roles together. The drawing of the
    tree itself is in `Trees`, which holds each branch by its middle line. */
module PermissionTrees {
  import opened Sequences
  import opened Wrappers
  import opened Texts
  import opened Trees

  const TREE_BRACKET_OPEN := "| "
  const TREE_BRACKET_CLOSE := " |"
  const NO_PERMISSION := "(no permission assigned)"

  /** One line per permission of a role: the operations on a DID pattern, or the limits on an RSE expression. */
  datatype PermissionLine = DidLine(target: string, operations: string) | LimitLine(target: string, limits: string)

  datatype Role = Role(name: string, permissions: seq<PermissionLine>)

  /** An identifier is a list only for a limit that covers other RSEs than the one it names. */
  datatype Identifier = Single(name: string) | Rses(names: seq<string>)

  datatype Entry = Entry(kind: string, id: Identifier, parameters: string)

  predicate HasKind(e: Entry) { e.kind != "" && !Blank(e.kind[|e.kind| - 1]) && '\n' !in e.kind }

  function MakeEntry(line: PermissionLine, rseNames: Option<string -> seq<string>>): (e: Entry)
    ensures e.id.Rses? ==> e.id.names != [] && e.id.names != [line.target]
    ensures e.id.Single? ==> e.id.name == line.target
    ensures e.kind == if line.DidLine? then "DID" else "LIMIT"
    ensures line.DidLine? ==> e.id.Single? && e.parameters == line.operations
    ensures line.LimitLine? && (e.id.Rses? || rseNames.None? || rseNames.value(line.target) != []) ==> e.parameters == line.limits
    ensures line.LimitLine? && rseNames.Some? && rseNames.value(line.target) == [] ==>
              e.id.Single? && e.parameters == line.limits + " (no RSE currently matches)"
    ensures line.LimitLine? && rseNames.Some? && rseNames.value(line.target) != [] && rseNames.value(line.target) != [line.target] ==>
              e.id == Rses(rseNames.value(line.target))
    ensures HasKind(e)
  {
    match line
    case DidLine(target, operations) => Entry("DID", Single(target), operations)
    case LimitLine(target, limits) =>
      var rses := if rseNames.Some? then rseNames.value(target) else [target];
      if rses == [] then Entry("LIMIT", Single(target), limits + " (no RSE currently matches)")
      else if rses == [target] then Entry("LIMIT", Single(target), limits)
      else Entry("LIMIT", Rses(rses), limits)
  }

  // -------------------------------------------------------------------- columns

  /** The room an identifier asks for, up to the parameters. */
  function IdWidth(id: Identifier): nat {
    match id
    case Single(name) => |name| + 2
    case Rses(names) => Longest(names) + |TREE_BRACKET_CLOSE| + 2
  }

  lemma {:induction false} LongestReached(lines: seq<string>) returns (i: nat)
    requires lines != []
    ensures i < |lines| && |lines[i]| == Longest(lines)
  {
    i := |lines| - 1;
    var before := lines[..i];
    if before != [] && Longest(before) > |lines[i]| {
      i := LongestReached(before);
    }
  }

  /** An identifier asks for two columns more than it has characters, a list for four more than its longest name. */
  lemma IdWidthMeans(id: Identifier)
    ensures id.Single? ==> IdWidth(id) == |id.name| + 2
    ensures id.Rses? && id.names != [] ==>
              && (exists i :: 0 <= i < |id.names| && IdWidth(id) == |id.names[i]| + 4)
              && forall i :: 0 <= i < |id.names| ==> |id.names[i]| + 4 <= IdWidth(id)
  {
    if id.Rses? && id.names != [] {
      var longest := LongestReached(id.names);
      forall i | 0 <= i < |id.names|
        ensures |id.names[i]| + 4 <= IdWidth(id)
      {
        LongestBounds(id.names, i);
      }
    }
  }

  function KindColumn(entries: seq<Entry>): nat {
    if entries == [] then 0
    else Max(KindColumn(entries[..|entries| - 1]), |entries[|entries| - 1].kind| + |TREE_BRACKET_OPEN| + 1)
  }

  function IdColumn(entries: seq<Entry>): nat {
    if entries == [] then 0
    else Max(IdColumn(entries[..|entries| - 1]), IdWidth(entries[|entries| - 1].id))
  }

  /** The entry fits columns of these widths. */
  predicate Fits(e: Entry, kindWidth: nat, idWidth: nat) {
    |e.kind| + |TREE_BRACKET_OPEN| + 1 <= kindWidth && IdWidth(e.id) <= idWidth
  }

  ghost predicate AllFit(entries: seq<Entry>, kindWidth: nat, idWidth: nat) {
    forall e :: e in entries ==> Fits(e, kindWidth, idWidth)
  }

  lemma {:induction false} EntryFits(entries: seq<Entry>, e: Entry)
    requires e in entries
    ensures Fits(e, KindColumn(entries), IdColumn(entries))
  {
    var n := |entries| - 1;
    if e != entries[n] {
      assert e in entries[..n];
      EntryFits(entries[..n], e);
    }
  }

  lemma {:induction false} KindColumnReached(entries: seq<Entry>) returns (i: nat)
    requires entries != []
    ensures i < |entries| && |entries[i].kind| + |TREE_BRACKET_OPEN| + 1 == KindColumn(entries)
  {
    i := |entries| - 1;
    var before := entries[..i];
    if before != [] && KindColumn(before) > |entries[i].kind| + |TREE_BRACKET_OPEN| + 1 {
      i := KindColumnReached(before);
    }
  }

  lemma {:induction false} IdColumnReached(entries: seq<Entry>) returns (i: nat)
    requires entries != []
    ensures i < |entries| && IdWidth(entries[i].id) == IdColumn(entries)
  {
    i := |entries| - 1;
    var before := entries[..i];
    if before != [] && IdColumn(before) > IdWidth(entries[i].id) {
      i := IdColumnReached(before);
    }
  }

  /** The columns are no wider than some entry needs. */
  lemma ColumnsAreTight(entries: seq<Entry>)
    requires entries != []
    ensures exists i :: 0 <= i < |entries| && |entries[i].kind| + 3 == KindColumn(entries)
    ensures exists i :: 0 <= i < |entries| && IdWidth(entries[i].id) == IdColumn(entries)
  {
    var i := KindColumnReached(entries);
    var j := IdColumnReached(entries);
  }

  // ------------------------------------------------------------------- branches

  function RseText(kind: string, rse: string, tail: string): string {
    kind + (TREE_BRACKET_OPEN + rse + TREE_BRACKET_CLOSE) + tail
  }

  function RseLine(e: Entry, j: nat, kindWidth: nat, idWidth: nat): string
    requires e.id.Rses? && j < |e.id.names|
  {
    var anchor := (|e.id.names| - 1) / 2;
    RseText(LJust(if j == anchor then e.kind else "", kindWidth - |TREE_BRACKET_OPEN|),
            LJust(e.id.names[j], idWidth - |TREE_BRACKET_CLOSE| - 2),
            if j == anchor then "- " + e.parameters else "")
  }

  function RseLines(e: Entry, kindWidth: nat, idWidth: nat): (lines: seq<string>)
    requires e.id.Rses?
    ensures |lines| == |e.id.names| && forall j :: 0 <= j < |lines| ==> lines[j] == RseLine(e, j, kindWidth, idWidth)
  {
    seq(|e.id.names|, j requires 0 <= j < |e.id.names| => RseLine(e, j, kindWidth, idWidth))
  }

  function Branch(e: Entry, kindWidth: nat, idWidth: nat): string {
    match e.id
    case Single(name) => RStrip(LJust(e.kind, kindWidth) + LJust(name, idWidth) + e.parameters)
    case Rses(names) => Join(RseLines(e, kindWidth, idWidth))
  }

  function Branches(entries: seq<Entry>, kindWidth: nat, idWidth: nat): seq<string> {
    seq(|entries|, i requires 0 <= i < |entries| => Branch(entries[i], kindWidth, idWidth))
  }

  function Entries(permissions: seq<PermissionLine>, rseNames: Option<string -> seq<string>>): seq<Entry> {
    seq(|permissions|, i requires 0 <= i < |permissions| => MakeEntry(permissions[i], rseNames))
  }

  /** The entries of all roles. */
  function AllEntries(roles: seq<Role>, rseNames: Option<string -> seq<string>>): seq<Entry> {
    if roles == [] then []
    else AllEntries(roles[..|roles| - 1], rseNames) + Entries(roles[|roles| - 1].permissions, rseNames)
  }

  lemma {:induction false} EntryOfRole(roles: seq<Role>, rseNames: Option<string -> seq<string>>, i: nat, e: Entry)
    requires i < |roles| && e in Entries(roles[i].permissions, rseNames)
    ensures e in AllEntries(roles, rseNames)
  {
    if i < |roles| - 1 { EntryOfRole(roles[..|roles| - 1], rseNames, i, e); }
  }

  lemma RoleFits(roles: seq<Role>, rseNames: Option<string -> seq<string>>, i: nat)
    requires i < |roles|
    ensures var all := AllEntries(roles, rseNames);
            AllFit(Entries(roles[i].permissions, rseNames), KindColumn(all), IdColumn(all))
  {
    var all := AllEntries(roles, rseNames);
    forall e | e in Entries(roles[i].permissions, rseNames) ensures Fits(e, KindColumn(all), IdColumn(all)) {
      EntryOfRole(roles, rseNames, i, e);
      EntryFits(all, e);
    }
  }

  /** The text is the tree of one role, in columns of the given widths. (A quantifier over the one list of
      branches keeps the prover from looking into the lines where they do not matter.) */
  ghost predicate IsRoleTree(text: string, name: string, entries: seq<Entry>, kindWidth: nat, idWidth: nat) {
    forall branches {:trigger IsTree(text, name, branches, NO_PERMISSION)} ::
      branches == Branches(entries, kindWidth, idWidth) ==> IsTree(text, name, branches, NO_PERMISSION)
  }

  /** The text is the tree of one of several roles, in columns common to all of them. */
  ghost predicate IsTreeOf(text: string, roles: seq<Role>, rseNames: Option<string -> seq<string>>, i: nat)
    requires i < |roles|
  {
    var all := AllEntries(roles, rseNames);
    IsRoleTree(text, roles[i].name, Entries(roles[i].permissions, rseNames), KindColumn(all), IdColumn(all))
  }

  lemma NoEntries(roles: seq<Role>, rseNames: Option<string -> seq<string>>, i: nat)
    requires i < |roles| && AllEntries(roles, rseNames) == []
    ensures Entries(roles[i].permissions, rseNames) == []
  {
    var entries := Entries(roles[i].permissions, rseNames);
    if entries != [] {
      EntryOfRole(roles, rseNames, i, entries[0]);
    }
  }

  /** A list built by appending what `f` makes of each element. */
  method AppendAll<T, U>(s: seq<T>, f: T -> U) returns (r: seq<U>)
    ensures |r| == |s| && forall i :: 0 <= i < |s| ==> r[i] == f(s[i])
  {
    r := [];
    for k := 0 to |s|
      invariant |r| == k && forall i :: 0 <= i < k ==> r[i] == f(s[i])
    {
      r := r + [f(s[k])];
    }
  }

  method MakeEntries(permissions: seq<PermissionLine>, rseNames: Option<string -> seq<string>>)
    returns (entries: seq<Entry>)
    ensures entries == Entries(permissions, rseNames)
  {
    entries := AppendAll(permissions, line => MakeEntry(line, rseNames));
    SameElements(entries, Entries(permissions, rseNames));
  }

  method RenderBranches(entries: seq<Entry>, kindWidth: nat, idWidth: nat) returns (branches: seq<string>)
    ensures branches == Branches(entries, kindWidth, idWidth)
  {
    branches := AppendAll(entries, e => Branch(e, kindWidth, idWidth));
    SameElements(branches, Branches(entries, kindWidth, idWidth));
  }

  /** The entries of each role, and those of all roles one after the other. */
  method GatherEntries(roles: seq<Role>, rseNames: Option<string -> seq<string>>)
    returns (byRole: seq<seq<Entry>>, all: seq<Entry>)
    ensures |byRole| == |roles|
    ensures forall r :: 0 <= r < |roles| ==> byRole[r] == Entries(roles[r].permissions, rseNames)
    ensures all == AllEntries(roles, rseNames)
  {
    byRole, all := [], [];
    for i := 0 to |roles|
      invariant |byRole| == i
      invariant forall r :: 0 <= r < i ==> byRole[r] == Entries(roles[r].permissions, rseNames)
      invariant all == AllEntries(roles[..i], rseNames)
    {
      var entries := MakeEntries(roles[i].permissions, rseNames);
      byRole := byRole + [entries];
      all := all + entries;
      assert roles[..i + 1][..i] == roles[..i];
    }
    assert roles[..|roles|] == roles;
  }

  method RenderTree(name: string, entries: seq<Entry>, kindWidth: nat, idWidth: nat) returns (tree: string)
    ensures IsRoleTree(tree, name, entries, kindWidth, idWidth)
  {
    var branches := RenderBranches(entries, kindWidth, idWidth);
    tree := FormatTree(name, branches, NO_PERMISSION);
  }

  /** Without any entry in any role, the columns do not matter. */
  method RenderRole(roles: seq<Role>, rseNames: Option<string -> seq<string>>, i: nat, entries: seq<Entry>, all: seq<Entry>)
    returns (tree: string)
    requires i < |roles| && entries == Entries(roles[i].permissions, rseNames) && all == AllEntries(roles, rseNames)
    ensures IsTreeOf(tree, roles, rseNames, i)
  {
    if all == [] {
      NoEntries(roles, rseNames, i);
      tree := RenderTree(roles[i].name, [], KindColumn([]), IdColumn([]));
    } else {
      tree := RenderTree(roles[i].name, entries, KindColumn(all), IdColumn(all));
    }
  }

  method FormatPermissionTrees(roles: seq<Role>, rseNames: Option<string -> seq<string>>)
    returns (trees: seq<string>)
    ensures |trees| == |roles| && forall i :: 0 <= i < |roles| ==> IsTreeOf(trees[i], roles, rseNames, i)
  {
    var entriesByRole, all := GatherEntries(roles, rseNames);
    trees := [];
    for i := 0 to |roles|
      invariant |trees| == i && forall r :: 0 <= r < i ==> IsTreeOf(trees[r], roles, rseNames, r)
    {
      var tree := RenderRole(roles, rseNames, i, entriesByRole[i], all);
      trees := trees + [tree];
    }
  }

  // ------------------------------------------------------- where the columns start

  /** The entry has no line break in any of its texts. */
  predicate OneLine(e: Entry) {
    && '\n' !in e.kind && '\n' !in e.parameters
    && match e.id
       case Single(name) => '\n' !in name
       case Rses(names) => names != [] && forall j :: 0 <= j < |names| ==> '\n' !in names[j]
  }

  function Height(id: Identifier): nat { if id.Single? then 1 else |id.names| }

  /** The part of an identifier shown on line `j` of its branch. */
  function IdLine(id: Identifier, j: nat): string
    requires j < Height(id)
  {
    if id.Single? then id.name else id.names[j]
  }

  lemma StripKeeps(t: string, column: nat, s: string)
    requires At(t, column, s) && (s != "" ==> !Blank(s[|s| - 1]))
    ensures At(RStrip(t), column, s)
  {
    if s != "" {
      var end := column + |s| - 1;
      assert t[end] == t[column..column + |s|][|s| - 1];
    }
  }

  lemma AtMiddle(a: string, b: string, c: string, s: string)
    requires s <= b
    ensures At(a + b + c, |a|, s)
  {
    if s != "" {
      assert (a + b + c)[|a|..|a| + |s|] == s;
    }
  }

  lemma LJustWithoutNewline(s: string, width: nat)
    requires '\n' !in s
    ensures '\n' !in LJust(s, width)
  {
  }

  /** One line of a branch: its identifier at one column, its type and its parameters on the middle line only. */
  ghost predicate InColumns(line: string, e: Entry, j: nat, kindWidth: nat, idWidth: nat)
    requires j < Height(e.id)
  {
    && At(line, kindWidth, RStrip(IdLine(e.id, j)))
    && (j == (Height(e.id) - 1) / 2 ==> At(line, 0, e.kind) && At(line, kindWidth + idWidth, RStrip(e.parameters)))
    && (j != (Height(e.id) - 1) / 2 ==> |line| <= kindWidth + idWidth && !At(line, 0, e.kind))
  }

  lemma AtStart(a: string, c: string, s: string)
    requires s <= a
    ensures At(a + c, 0, s)
  {
  }

  lemma AtEnd(a: string, c: string, s: string)
    requires s <= c
    ensures At(a + c, |a|, s)
  {
    if s != "" {
      assert (a + c)[|a|..|a| + |s|] == s;
    }
  }

  lemma SingleInColumns(e: Entry, kindWidth: nat, idWidth: nat)
    requires Fits(e, kindWidth, idWidth) && e.id.Single?
    requires HasKind(e)
    ensures InColumns(Branch(e, kindWidth, idWidth), e, 0, kindWidth, idWidth)
  {
    var a, b, c := LJust(e.kind, kindWidth), LJust(e.id.name, idWidth), e.parameters;
    StripParts(a, b, c, e.kind, RStrip(e.id.name), RStrip(c));
  }

  predicate EndsVisibly(s: string) { s == "" || !Blank(s[|s| - 1]) }

  lemma StripParts(a: string, b: string, c: string, s: string, t: string, u: string)
    requires s <= a && t <= b && u <= c && EndsVisibly(s) && EndsVisibly(t) && EndsVisibly(u)
    ensures At(RStrip(a + b + c), 0, s) && At(RStrip(a + b + c), |a|, t) && At(RStrip(a + b + c), |a + b|, u)
  {
    Assoc(a, b, c);
    AtStart(a, b + c, s);
    StripKeeps(a + b + c, 0, s);
    AtMiddle(a, b, c, t);
    StripKeeps(a + b + c, |a|, t);
    AtEnd(a + b, c, u);
    StripKeeps(a + b + c, |a + b|, u);
  }

  lemma HeldParts(a: string, b: string, c: string, s: string, t: string, u: string, second: nat, third: nat)
    requires s <= a && t <= b && u <= c && second == |a| + 2 && third == |a| + |b| + 6
    ensures var line := RseText(a, b, "- " + c);
            At(line, 0, s) && At(line, second, t) && At(line, third, u)
  {
    var line := a + ("| " + b + " |") + ("- " + c);
    assert line == a + ("| " + b + " |- " + c);
    AtStart(a, "| " + b + " |- " + c, s);
    assert line == (a + "| ") + b + (" |- " + c);
    AtMiddle(a + "| ", b, " |- " + c, t);
    assert line == (a + "| " + b + " |- ") + c;
    AtEnd(a + "| " + b + " |- ", c, u);
  }

  lemma PlainParts(a: string, b: string, t: string)
    requires t <= b
    ensures At(RseText(a, b, ""), |a| + 2, t)
  {
    assert a + ("| " + b + " |") + "" == (a + "| ") + b + " |";
    AtMiddle(a + "| ", b, " |", t);
  }

  lemma RseWidths(e: Entry, j: nat, kindWidth: nat, idWidth: nat)
    requires Fits(e, kindWidth, idWidth) && e.id.Rses? && j < |e.id.names|
    ensures |e.kind| < kindWidth - 2 && |LJust(e.kind, kindWidth - 2)| == |LJust("", kindWidth - 2)| == kindWidth - 2
    ensures |LJust(e.id.names[j], idWidth - 4)| == idWidth - 4
  {
    LongestBounds(e.id.names, j);
  }

  lemma HeldInColumns(e: Entry, j: nat, kindWidth: nat, idWidth: nat)
    requires Fits(e, kindWidth, idWidth) && e.id.Rses? && j == (|e.id.names| - 1) / 2 < |e.id.names|
    requires HasKind(e)
    ensures InColumns(RseLine(e, j, kindWidth, idWidth), e, j, kindWidth, idWidth)
  {
    HeldText(e, j, kindWidth, idWidth);
    HeldColumns(e, j, kindWidth, idWidth);
  }

  lemma HeldColumns(e: Entry, j: nat, kindWidth: nat, idWidth: nat)
    requires Fits(e, kindWidth, idWidth) && e.id.Rses? && j < |e.id.names|
    ensures idWidth >= 4
    ensures var line := RseText(LJust(e.kind, kindWidth - 2), LJust(e.id.names[j], idWidth - 4), "- " + e.parameters);
            && At(line, 0, e.kind)
            && At(line, kindWidth, RStrip(e.id.names[j]))
            && At(line, kindWidth + idWidth, RStrip(e.parameters))
  {
    RseWidths(e, j, kindWidth, idWidth);
    HeldParts(LJust(e.kind, kindWidth - 2), LJust(e.id.names[j], idWidth - 4), e.parameters,
              e.kind, RStrip(e.id.names[j]), RStrip(e.parameters), kindWidth, kindWidth + idWidth);
  }

  lemma HeldText(e: Entry, j: nat, kindWidth: nat, idWidth: nat)
    requires Fits(e, kindWidth, idWidth) && e.id.Rses? && j == (|e.id.names| - 1) / 2 < |e.id.names|
    ensures idWidth >= 4
    ensures RseLine(e, j, kindWidth, idWidth)
         == RseText(LJust(e.kind, kindWidth - 2), LJust(e.id.names[j], idWidth - 4), "- " + e.parameters)
  {
  }

  lemma PlainText(e: Entry, j: nat, kindWidth: nat, idWidth: nat)
    requires Fits(e, kindWidth, idWidth) && e.id.Rses? && j < |e.id.names| && j != (|e.id.names| - 1) / 2
    ensures idWidth >= 4
    ensures RseLine(e, j, kindWidth, idWidth)
         == RseText(LJust("", kindWidth - 2), LJust(e.id.names[j], idWidth - 4), "")
  {
  }

  lemma PlainWidth(a: string, b: string)
    ensures |RseText(a, b, "")| == |a| + |b| + 4
  {
  }

  lemma PlainColumns(e: Entry, j: nat, kindWidth: nat, idWidth: nat)
    requires Fits(e, kindWidth, idWidth) && e.id.Rses? && j < |e.id.names| && HasKind(e)
    ensures idWidth >= 4
    ensures var line := RseText(LJust("", kindWidth - 2), LJust(e.id.names[j], idWidth - 4), "");
            At(line, kindWidth, RStrip(e.id.names[j])) && |line| <= kindWidth + idWidth && !At(line, 0, e.kind)
  {
    RseWidths(e, j, kindWidth, idWidth);
    var a, b := LJust("", kindWidth - 2), LJust(e.id.names[j], idWidth - 4);
    PlainParts(a, b, RStrip(e.id.names[j]));
    PlainWidth(a, b);
    BlankStart(a, b, e.kind);
  }

  lemma PlainInColumns(e: Entry, j: nat, kindWidth: nat, idWidth: nat)
    requires Fits(e, kindWidth, idWidth) && e.id.Rses? && j < |e.id.names| && j != (|e.id.names| - 1) / 2
    requires HasKind(e)
    ensures InColumns(RseLine(e, j, kindWidth, idWidth), e, j, kindWidth, idWidth)
  {
    PlainText(e, j, kindWidth, idWidth);
    PlainColumns(e, j, kindWidth, idWidth);
  }

  lemma RseInColumns(e: Entry, j: nat, kindWidth: nat, idWidth: nat)
    requires Fits(e, kindWidth, idWidth) && e.id.Rses? && j < |e.id.names|
    requires HasKind(e)
    ensures InColumns(RseLine(e, j, kindWidth, idWidth), e, j, kindWidth, idWidth)
  {
    if j == (|e.id.names| - 1) / 2 {
      HeldInColumns(e, j, kindWidth, idWidth);
    } else {
      PlainInColumns(e, j, kindWidth, idWidth);
    }
  }

  /** The bars of a list of RSEs take the two columns before the identifiers and the last two but two of theirs; on the
      line that carries the parameters a dash follows. */
  lemma BarsShown(e: Entry, j: nat, kindWidth: nat, idWidth: nat)
    requires Fits(e, kindWidth, idWidth) && e.id.Rses? && j < |e.id.names|
    ensures kindWidth >= 2 && idWidth >= 4
    ensures var line := RseLine(e, j, kindWidth, idWidth);
            && At(line, kindWidth - 2, "| ") && At(line, kindWidth + idWidth - 4, " |")
            && if j == (|e.id.names| - 1) / 2 then At(line, kindWidth + idWidth - 2, "- " + e.parameters)
               else |line| == kindWidth + idWidth - 2
  {
    RseWidths(e, j, kindWidth, idWidth);
    var name := LJust(e.id.names[j], idWidth - 4);
    if j == (|e.id.names| - 1) / 2 {
      HeldText(e, j, kindWidth, idWidth);
      HeldBars(RseLine(e, j, kindWidth, idWidth), LJust(e.kind, kindWidth - 2), name, "- " + e.parameters, kindWidth, idWidth);
    } else {
      PlainText(e, j, kindWidth, idWidth);
      HeldBars(RseLine(e, j, kindWidth, idWidth), LJust("", kindWidth - 2), name, "", kindWidth, idWidth);
    }
  }

  lemma HeldBars(line: string, a: string, b: string, c: string, kindWidth: nat, idWidth: nat)
    requires line == RseText(a, b, c) && kindWidth == |a| + 2 && idWidth == |b| + 4
    ensures At(line, kindWidth - 2, "| ") && At(line, kindWidth + idWidth - 4, " |") && At(line, kindWidth + idWidth - 2, c)
    ensures |line| == kindWidth + idWidth - 2 + |c|
  {
    BarsOf(a, b, c);
  }

  lemma OpeningBar(a: string, b: string, c: string)
    ensures At(RseText(a, b, c), |a|, "| ")
  {
    assert RseText(a, b, c) == a + "| " + (b + " |" + c);
    AtMiddle(a, "| ", b + " |" + c, "| ");
  }

  lemma ClosingBar(a: string, b: string, c: string)
    ensures At(RseText(a, b, c), |a| + 2 + |b|, " |")
  {
    assert RseText(a, b, c) == (a + "| " + b) + " |" + c;
    AtMiddle(a + "| " + b, " |", c, " |");
  }

  lemma BarsOf(a: string, b: string, c: string)
    ensures var line := RseText(a, b, c);
            && At(line, |a|, "| ") && At(line, |a| + 2 + |b|, " |") && At(line, |a| + |b| + 4, c)
            && |line| == |a| + |b| + 4 + |c|
  {
    OpeningBar(a, b, c);
    ClosingBar(a, b, c);
    AtEnd(a + ("| " + b + " |"), c, c);
  }

  /** Text does not stand where there are only blanks. */
  lemma BlankStart(a: string, b: string, s: string)
    requires 0 < |s| <= |a| && !Blank(s[|s| - 1])
    requires forall i :: 0 <= i < |a| ==> a[i] == ' '
    ensures !At(RseText(a, b, ""), 0, s)
  {
    var line := RseText(a, b, "");
    assert line == a + ("| " + b + " |");
    assert line[0..|s|][|s| - 1] == a[|s| - 1] == ' ';
  }

  lemma RseLineWithoutNewline(e: Entry, j: nat, kindWidth: nat, idWidth: nat)
    requires Fits(e, kindWidth, idWidth) && e.id.Rses? && j < |e.id.names| && OneLine(e)
    ensures '\n' !in RseLine(e, j, kindWidth, idWidth)
  {
  }

  /** A branch has one line per RSE it lists, each in the columns given. */
  lemma BranchInColumns(e: Entry, j: nat, kindWidth: nat, idWidth: nat)
    requires Fits(e, kindWidth, idWidth) && OneLine(e) && j < Height(e.id)
    requires HasKind(e)
    ensures |Split(Branch(e, kindWidth, idWidth))| == Height(e.id)
    ensures InColumns(Split(Branch(e, kindWidth, idWidth))[j], e, j, kindWidth, idWidth)
  {
    var b := Branch(e, kindWidth, idWidth);
    match e.id
    case Single(name) =>
      LJustWithoutNewline(e.kind, kindWidth);
      LJustWithoutNewline(name, idWidth);
      SplitOneLine(b);
      SingleInColumns(e, kindWidth, idWidth);
    case Rses(names) =>
      RseBranchLines(e, kindWidth, idWidth);
      RseInColumns(e, j, kindWidth, idWidth);
  }

  /** Every line of a branch that lists RSEs has its bars. */
  lemma BranchBars(e: Entry, j: nat, kindWidth: nat, idWidth: nat)
    requires Fits(e, kindWidth, idWidth) && OneLine(e) && e.id.Rses? && j < |e.id.names|
    ensures kindWidth >= 2 && idWidth >= 4 && |Split(Branch(e, kindWidth, idWidth))| == |e.id.names|
    ensures var line := Split(Branch(e, kindWidth, idWidth))[j];
            && At(line, kindWidth - 2, "| ") && At(line, kindWidth + idWidth - 4, " |")
            && if j == (|e.id.names| - 1) / 2 then At(line, kindWidth + idWidth - 2, "- " + e.parameters)
               else |line| == kindWidth + idWidth - 2
  {
    RseBranchLines(e, kindWidth, idWidth);
    BarsShown(e, j, kindWidth, idWidth);
  }

  lemma RseBranchLines(e: Entry, kindWidth: nat, idWidth: nat)
    requires Fits(e, kindWidth, idWidth) && OneLine(e) && e.id.Rses?
    ensures |Split(Branch(e, kindWidth, idWidth))| == |e.id.names|
    ensures forall j :: 0 <= j < |e.id.names| ==> Split(Branch(e, kindWidth, idWidth))[j] == RseLine(e, j, kindWidth, idWidth)
  {
    var lines := RseLines(e, kindWidth, idWidth);
    forall i | 0 <= i < |lines| ensures '\n' !in lines[i] {
      RseLineWithoutNewline(e, i, kindWidth, idWidth);
    }
    SplitJoinLines(lines);
  }

  lemma AtBelowPrefix(line: string, column: nat, t: string)
    requires |line| >= 4
    ensures At(line[4..], column, t) <==> At(line, 4 + column, t)
  {
    if t != "" && 4 + column + |t| <= |line| {
      assert line[4..][column..column + |t|] == line[4 + column..4 + column + |t|];
    }
  }

  /** Line `j` of branch `b` in the tree of role `i`. */
  ghost predicate LinesUp(lines: seq<string>, n: nat, e: Entry, j: nat, kindWidth: nat, idWidth: nat)
    requires j < Height(e.id)
  {
    && n < |lines|
    && var held := "|-- " <= lines[n] || "`-- " <= lines[n];
       && (held <==> j == (Height(e.id) - 1) / 2)
       && (held <==> At(lines[n], 4, e.kind))
       && At(lines[n], 4 + kindWidth, RStrip(IdLine(e.id, j)))
       && (held ==> At(lines[n], 4 + kindWidth + idWidth, RStrip(e.parameters)))
       && (!held ==> |lines[n]| <= 4 + kindWidth + idWidth)
  }

  lemma FourLong(line: string)
    requires |line| >= 4
    ensures "|-- " <= line <==> line[..4] == "|-- "
    ensures "`-- " <= line <==> line[..4] == "`-- "
    ensures "|   "[1] != "|-- "[1] && "|   "[0] != "`-- "[0] && "    "[0] != "|-- "[0] && "    "[0] != "`-- "[0]
  {
  }

  lemma PrefixedLinesUp(lines: seq<string>, n: nat, text: string, last: bool, e: Entry, j: nat, kindWidth: nat, idWidth: nat)
    requires j < Height(e.id) && Shows(lines, n, text, j == (Height(e.id) - 1) / 2, j > (Height(e.id) - 1) / 2, last)
    requires InColumns(text, e, j, kindWidth, idWidth)
    ensures LinesUp(lines, n, e, j, kindWidth, idWidth)
  {
    var line := lines[n];
    FourLong(line);
    AtBelowPrefix(line, kindWidth, RStrip(IdLine(e.id, j)));
    AtBelowPrefix(line, 0, e.kind);
    AtBelowPrefix(line, kindWidth + idWidth, RStrip(e.parameters));
  }

  function HeightsBefore(entries: seq<Entry>, b: nat): nat
    requires b <= |entries|
  {
    if b == 0 then 0 else HeightsBefore(entries, b - 1) + Height(entries[b - 1].id)
  }

  ghost predicate AllOneLine(entries: seq<Entry>) { forall b :: 0 <= b < |entries| ==> HasKind(entries[b]) && OneLine(entries[b]) }

  ghost predicate Heights(entries: seq<Entry>, branches: seq<string>) {
    |branches| == |entries| && forall i :: 0 <= i < |entries| ==> |Split(branches[i])| == Height(entries[i].id)
  }

  lemma {:induction false} HeightsAreLines(entries: seq<Entry>, branches: seq<string>, b: nat)
    requires Heights(entries, branches) && b <= |entries|
    ensures LinesBefore(branches, b) == HeightsBefore(entries, b)
  {
    if b > 0 { HeightsAreLines(entries, branches, b - 1); }
  }

  lemma BranchesHaveHeights(entries: seq<Entry>, kindWidth: nat, idWidth: nat)
    requires AllFit(entries, kindWidth, idWidth) && AllOneLine(entries)
    ensures Heights(entries, Branches(entries, kindWidth, idWidth))
  {
    forall i | 0 <= i < |entries|
      ensures |Split(Branch(entries[i], kindWidth, idWidth))| == Height(entries[i].id)
    {
      assert entries[i] in entries;
      BranchInColumns(entries[i], 0, kindWidth, idWidth);
    }
  }

  /** Line `j` of the branch of one entry, among the lines of its role's tree. */
  lemma EntriesLineUp(lines: seq<string>, text: string, name: string, entries: seq<Entry>, b: nat, j: nat, kindWidth: nat, idWidth: nat)
    requires AllFit(entries, kindWidth, idWidth) && IsRoleTree(text, name, entries, kindWidth, idWidth) && AreLines(lines, text)
    requires '\n' !in name && AllOneLine(entries) && b < |entries| && j < Height(entries[b].id)
    ensures LinesUp(lines, 1 + HeightsBefore(entries, b) + j, entries[b], j, kindWidth, idWidth)
  {
    var branches := Branches(entries, kindWidth, idWidth);
    assert entries[b] in entries;
    BranchesHaveHeights(entries, kindWidth, idWidth);
    HeightsAreLines(entries, branches, b);
    BranchInColumns(entries[b], j, kindWidth, idWidth);
    LinesOf(branches[b]);
    assert IsTree(text, name, branches, NO_PERMISSION);
    BranchLineUp(lines, text, name, branches, entries[b], b, j, Split(branches[b]), 1 + HeightsBefore(entries, b) + j, kindWidth, idWidth);
  }

  lemma BranchLineUp(lines: seq<string>, text: string, name: string, branches: seq<string>, e: Entry, b: nat, j: nat,
                     branch: seq<string>, n: nat, kindWidth: nat, idWidth: nat)
    requires IsTree(text, name, branches, NO_PERMISSION) && AreLines(lines, text) && '\n' !in name
    requires b < |branches| && AreLines(branch, branches[b]) && |branch| == Height(e.id) && j < |branch|
    requires InColumns(branch[j], e, j, kindWidth, idWidth) && n == 1 + LinesBefore(branches, b) + j
    ensures LinesUp(lines, n, e, j, kindWidth, idWidth)
  {
    TreeLineAt(lines, text, name, branches, NO_PERMISSION, b, branch, j, n);
    PrefixedLinesUp(lines, n, branch[j], b == |branches| - 1, e, j, kindWidth, idWidth);
  }

  /** In all trees drawn together every identifier starts at one column and every parameter at another;
      type and parameters stand exactly on the line by which the tree holds the branch. */
  lemma TreesLineUp(roles: seq<Role>, rseNames: Option<string -> seq<string>>, i: nat, text: string, lines: seq<string>, b: nat, j: nat)
    requires i < |roles| && IsTreeOf(text, roles, rseNames, i) && AreLines(lines, text)
    requires var entries := Entries(roles[i].permissions, rseNames);
             '\n' !in roles[i].name && AllOneLine(entries) && b < |entries| && j < Height(entries[b].id)
    ensures var all, entries := AllEntries(roles, rseNames), Entries(roles[i].permissions, rseNames);
            LinesUp(lines, 1 + HeightsBefore(entries, b) + j, entries[b], j, KindColumn(all), IdColumn(all))
  {
    RoleFits(roles, rseNames, i);
    var all := AllEntries(roles, rseNames);
    EntriesLineUp(lines, text, roles[i].name, Entries(roles[i].permissions, rseNames), b, j, KindColumn(all), IdColumn(all));
  }

  lemma EmptyRoleTree(text: string, name: string, entries: seq<Entry>, kindWidth: nat, idWidth: nat)
    requires IsRoleTree(text, name, entries, kindWidth, idWidth) && entries == []
    ensures text == name + "\n`-- " + NO_PERMISSION
  {
    assert Branches(entries, kindWidth, idWidth) == [];
    assert IsTree(text, name, [], NO_PERMISSION);
    EmptyTree(text, name, NO_PERMISSION);
  }

  /** The tree of a role without permissions says so. */
  lemma NothingAssigned(roles: seq<Role>, rseNames: Option<string -> seq<string>>, i: nat, text: string)
    requires i < |roles| && IsTreeOf(text, roles, rseNames, i) && roles[i].permissions == []
    ensures text == roles[i].name + "\n`-- " + "(no permission assigned)"
  {
    var all := AllEntries(roles, rseNames);
    EmptyRoleTree(text, roles[i].name, Entries(roles[i].permissions, rseNames), KindColumn(all), IdColumn(all));
  }
}
