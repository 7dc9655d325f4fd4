/** Tables with the same number of columns drawn as one (`format_sections`). Cells may span several
    lines; columns have the same width in all sections; a header is set off by a border, and rows by
    a dashed line as soon as one of two neighbours is taller than a line. The table is judged by its
    outline, by where each cell stands in it, and by what is left of it without the separating lines.
    A row may have more cells than the table has columns, which then are not shown. */
module Sections {
  import opened Sequences
  import opened Texts

  datatype Section = Section(headers: seq<string>, rows: seq<seq<string>>)

  // --------------------------------------------------------------------- widths

  function CellWidth(cell: string): nat { Longest(Split(cell)) }

  /** Every row has a cell in each of the columns. */
  predicate Wide(rows: seq<seq<string>>, columns: nat) {
    forall i :: 0 <= i < |rows| ==> |rows[i]| >= columns
  }

  predicate WellFormed(sections: seq<Section>) {
    && sections != [] && sections[0].headers != []
    && forall i :: 0 <= i < |sections| ==> Wide(AllRows(sections[i]), |sections[0].headers|)
  }

  function AllRows(s: Section): seq<seq<string>> { [s.headers] + s.rows }

  function RowsWidth(rows: seq<seq<string>>, column: nat): nat
    requires Wide(rows, column + 1)
  {
    if rows == [] then 0
    else Max(RowsWidth(rows[..|rows| - 1], column), CellWidth(rows[|rows| - 1][column]))
  }

  function SectionsWidth(sections: seq<Section>, column: nat): nat
    requires forall i :: 0 <= i < |sections| ==> Wide(AllRows(sections[i]), column + 1)
  {
    if sections == [] then 0
    else Max(SectionsWidth(sections[..|sections| - 1], column), RowsWidth(AllRows(sections[|sections| - 1]), column))
  }

  function Widths(sections: seq<Section>): (widths: seq<nat>)
    requires WellFormed(sections)
    ensures |widths| == |sections[0].headers|
  {
    seq(|sections[0].headers|, c requires 0 <= c < |sections[0].headers| => SectionsWidth(sections, c))
  }

  /** The cells fit columns of these widths. */
  ghost predicate Fits(cells: seq<string>, widths: seq<nat>) {
    |cells| >= |widths| && forall c :: 0 <= c < |widths| ==> CellWidth(cells[c]) <= widths[c]
  }

  ghost predicate AllFit(rows: seq<seq<string>>, widths: seq<nat>) {
    forall i :: 0 <= i < |rows| ==> Fits(rows[i], widths)
  }

  lemma {:induction false} RowFits(rows: seq<seq<string>>, column: nat, i: nat)
    requires Wide(rows, column + 1) && i < |rows|
    ensures CellWidth(rows[i][column]) <= RowsWidth(rows, column)
  {
    if i < |rows| - 1 { RowFits(rows[..|rows| - 1], column, i); }
  }

  lemma {:induction false} SectionFits(sections: seq<Section>, column: nat, s: nat)
    requires forall i :: 0 <= i < |sections| ==> Wide(AllRows(sections[i]), column + 1)
    requires s < |sections|
    ensures RowsWidth(AllRows(sections[s]), column) <= SectionsWidth(sections, column)
  {
    if s < |sections| - 1 { SectionFits(sections[..|sections| - 1], column, s); }
  }

  lemma WidthsFit(sections: seq<Section>, s: nat)
    requires WellFormed(sections) && s < |sections|
    ensures AllFit(AllRows(sections[s]), Widths(sections))
  {
    var rows, widths := AllRows(sections[s]), Widths(sections);
    forall i, c | 0 <= i < |rows| && 0 <= c < |widths| ensures CellWidth(rows[i][c]) <= widths[c] {
      RowFits(rows, c, i);
      SectionFits(sections, c, s);
    }
  }

  lemma {:induction false} RowsWidthReached(rows: seq<seq<string>>, column: nat) returns (i: nat)
    requires Wide(rows, column + 1) && rows != []
    ensures i < |rows| && CellWidth(rows[i][column]) == RowsWidth(rows, column)
  {
    i := |rows| - 1;
    var before := rows[..i];
    if before != [] && RowsWidth(before, column) > CellWidth(rows[i][column]) {
      i := RowsWidthReached(before, column);
    }
  }

  lemma {:induction false} WidestSection(sections: seq<Section>, column: nat) returns (s: nat)
    requires forall i :: 0 <= i < |sections| ==> Wide(AllRows(sections[i]), column + 1)
    requires sections != []
    ensures s < |sections| && RowsWidth(AllRows(sections[s]), column) == SectionsWidth(sections, column)
  {
    s := |sections| - 1;
    var before := sections[..s];
    if before != [] && SectionsWidth(before, column) > RowsWidth(AllRows(sections[s]), column) {
      s := WidestSection(before, column);
    }
  }

  /** Some row of the section has a cell of exactly this width in the column. */
  ghost predicate Reaches(s: Section, column: nat, width: nat) {
    exists i :: 0 <= i < |AllRows(s)| && column < |AllRows(s)[i]| && CellWidth(AllRows(s)[i][column]) == width
  }

  /** A column is no wider than some cell of it needs. */
  lemma WidthReached(sections: seq<Section>, column: nat)
    requires forall i :: 0 <= i < |sections| ==> Wide(AllRows(sections[i]), column + 1)
    requires sections != []
    ensures exists s :: 0 <= s < |sections| && Reaches(sections[s], column, SectionsWidth(sections, column))
  {
    var s := WidestSection(sections, column);
    var i := RowsWidthReached(AllRows(sections[s]), column);
    assert Reaches(sections[s], column, SectionsWidth(sections, column));
  }

  // ---------------------------------------------------------------------- lines

  /** `joint.join(parts)`. */
  function JoinBy(joint: string, parts: seq<string>): string {
    if parts == [] then ""
    else if |parts| == 1 then parts[0]
    else JoinBy(joint, parts[..|parts| - 1]) + joint + parts[|parts| - 1]
  }

  function Rules(widths: seq<nat>): seq<string> {
    seq(|widths|, c requires 0 <= c < |widths| => Repeat('-', widths[c] + 2))
  }

  function Border(widths: seq<nat>, joint: string, edge: string): string {
    edge + JoinBy(joint, Rules(widths)) + edge
  }

  /** A rule of blanks and dashes in turn. */
  function Dashes(width: nat): string {
    seq(width + 2, i => if i % 2 == 0 then '-' else ' ')
  }

  function DashLine(widths: seq<nat>): string {
    "|" + JoinBy("|", seq(|widths|, c requires 0 <= c < |widths| => Dashes(widths[c]))) + "|"
  }

  /** Line `k` of a cell, empty below its last line. */
  function CellLine(cell: string, k: nat): string {
    if k < |Split(cell)| then Split(cell)[k] else ""
  }

  function Parts(cells: seq<string>, widths: seq<nat>, k: nat): seq<string>
    requires |cells| >= |widths|
  {
    seq(|widths|, c requires 0 <= c < |widths| => LJust(CellLine(cells[c], k), widths[c]))
  }

  function RowLine(cells: seq<string>, widths: seq<nat>, k: nat): string
    requires |cells| >= |widths|
  {
    "| " + JoinBy(" | ", Parts(cells, widths, k)) + " |"
  }

  /** The number of lines of the tallest cell. */
  function RowHeight(cells: seq<string>): nat {
    if cells == [] then 0 else Max(RowHeight(cells[..|cells| - 1]), |Split(cells[|cells| - 1])|)
  }

  function RowLines(cells: seq<string>, widths: seq<nat>): seq<string>
    requires |cells| >= |widths|
  {
    seq(RowHeight(cells), k requires 0 <= k < RowHeight(cells) => RowLine(cells, widths, k))
  }

  predicate Tall(cells: seq<string>) { exists c :: 0 <= c < |cells| && '\n' in cells[c] }

  /** The lines of the first `k` rows below a header. */
  function BodyLines(rows: seq<seq<string>>, widths: seq<nat>, k: nat): seq<string>
    requires k <= |rows| && Wide(rows, |widths|)
  {
    if k == 0 then []
    else
      BodyLines(rows, widths, k - 1)
      + (if k > 1 && (Tall(rows[k - 1]) || Tall(rows[k - 2])) then [DashLine(widths)] else [])
      + RowLines(rows[k - 1], widths)
  }

  function SectionLines(headers: seq<string>, rows: seq<seq<string>>, widths: seq<nat>): seq<string>
    requires |headers| >= |widths| && Wide(rows, |widths|)
  {
    RowLines(headers, widths) + [Border(widths, "+", "|")] + BodyLines(rows, widths, |rows|)
  }

  lemma RowsAreWide(s: Section, columns: nat)
    requires Wide(AllRows(s), columns)
    ensures |s.headers| >= columns && Wide(s.rows, columns)
  {
    assert AllRows(s)[0] == s.headers;
    assert forall i :: 0 <= i < |s.rows| ==> s.rows[i] == AllRows(s)[i + 1];
  }

  /** The lines of the first `k` sections. */
  function TableLines(sections: seq<Section>, widths: seq<nat>, k: nat): seq<string>
    requires k <= |sections|
    requires forall i :: 0 <= i < |sections| ==> Wide(AllRows(sections[i]), |widths|)
  {
    if k == 0 then []
    else
      var s := sections[k - 1];
      RowsAreWide(s, |widths|);
      TableLines(sections, widths, k - 1) + [Border(widths, "+", "+")] + SectionLines(s.headers, s.rows, widths)
  }

  method RenderBody(rows: seq<seq<string>>, widths: seq<nat>) returns (lines: seq<string>)
    requires Wide(rows, |widths|)
    ensures lines == BodyLines(rows, widths, |rows|)
  {
    lines := [];
    for k := 0 to |rows|
      invariant lines == BodyLines(rows, widths, k)
    {
      if k > 0 && (Tall(rows[k]) || Tall(rows[k - 1])) {
        lines := lines + [DashLine(widths)];
      }
      lines := lines + RowLines(rows[k], widths);
    }
  }

  method FormatSections(sections: seq<Section>) returns (table: string)
    requires WellFormed(sections)
    ensures table == Join(TableLines(sections, Widths(sections), |sections|) + [Border(Widths(sections), "+", "+")])
  {
    var widths := Widths(sections);
    var lines := [];
    for k := 0 to |sections|
      invariant lines == TableLines(sections, widths, k)
    {
      RowsAreWide(sections[k], |widths|);
      var body := RenderBody(sections[k].rows, widths);
      lines := lines + [Border(widths, "+", "+")]
             + (RowLines(sections[k].headers, widths) + [Border(widths, "+", "|")] + body);
    }
    table := Join(lines + [Border(widths, "+", "+")]);
  }

  // -------------------------------------------------------------- common columns

  /** The column at which cell `c` of every row starts; for `c` past the last one, where the next would. */
  function Start(widths: seq<nat>, c: nat): nat
    requires c <= |widths|
  {
    if c == 0 then 2 else Start(widths, c - 1) + widths[c - 1] + 3
  }

  function TableWidth(widths: seq<nat>): int { Start(widths, |widths|) - 1 }

  /** The length of joined parts that are `extra` wider than the columns. */
  lemma {:induction false} JoinedLength(joint: string, parts: seq<string>, widths: seq<nat>, extra: nat)
    requires |parts| == |widths| >= 1 && |joint| + extra == 3
    requires forall c :: 0 <= c < |widths| ==> |parts[c]| == widths[c] + extra
    ensures |JoinBy(joint, parts)| == Start(widths, |widths|) - 2 - |joint|
  {
    var n := |parts| - 1;
    if n > 0 {
      JoinedLength(joint, parts[..n], widths[..n], extra);
      StartPrefix(widths, n, n);
    }
  }

  lemma {:induction false} StartPrefix(widths: seq<nat>, n: nat, c: nat)
    requires c <= n <= |widths|
    ensures Start(widths[..n], c) == Start(widths, c)
  {
    if c > 0 { StartPrefix(widths, n, c - 1); }
  }

  /** Part `c` of joined parts, which are as wide as the columns, stands at the start of column `c`. */
  lemma {:induction false} JoinedAt(parts: seq<string>, widths: seq<nat>, c: nat)
    requires c < |parts| == |widths|
    requires forall i :: 0 <= i < |widths| ==> |parts[i]| == widths[i]
    ensures At(JoinBy(" | ", parts), Start(widths, c) - 2, parts[c])
  {
    var n := |parts| - 1;
    if n > 0 {
      var front := JoinBy(" | ", parts[..n]);
      JoinedLength(" | ", parts[..n], widths[..n], 0);
      StartPrefix(widths, n, n);
      if c < n {
        JoinedAt(parts[..n], widths[..n], c);
        StartPrefix(widths, n, c);
        AtFront(front, " | " + parts[n], Start(widths, c) - 2, parts[c]);
        Assoc(front, " | ", parts[n]);
      } else {
        AtBack(front + " | ", parts[n]);
      }
    }
  }

  lemma AtFront(a: string, b: string, column: nat, s: string)
    requires At(a, column, s)
    ensures At(a + b, column, s)
  {
    if s != "" { assert (a + b)[column..column + |s|] == a[column..column + |s|]; }
  }

  lemma AtBack(a: string, b: string)
    ensures At(a + b, |a|, b)
  {
    assert (a + b)[|a|..|a| + |b|] == b;
  }

  lemma AtShifted(a: string, b: string, column: nat, s: string)
    requires At(b, column, s)
    ensures At(a + b, |a| + column, s)
  {
    if s != "" { assert (a + b)[|a| + column..|a| + column + |s|] == b[column..column + |s|]; }
  }

  lemma PartsFit(cells: seq<string>, widths: seq<nat>, k: nat)
    requires Fits(cells, widths)
    ensures forall c :: 0 <= c < |widths| ==> |Parts(cells, widths, k)[c]| == widths[c]
  {
    forall c | 0 <= c < |widths| ensures |Parts(cells, widths, k)[c]| == widths[c] {
      if k < |Split(cells[c])| { LongestBounds(Split(cells[c]), k); }
    }
  }

  lemma FramedAt(joined: string, column: nat, s: string)
    requires At(joined, column, s)
    ensures At("| " + joined + " |", 2 + column, s)
  {
    AtFront(joined, " |", column, s);
    AtShifted("| ", joined + " |", column, s);
    Assoc("| ", joined, " |");
  }

  lemma RowWidth(cells: seq<string>, widths: seq<nat>, k: nat)
    requires Fits(cells, widths) && |widths| >= 1
    ensures |RowLine(cells, widths, k)| == TableWidth(widths)
  {
    PartsFit(cells, widths, k);
    JoinedLength(" | ", Parts(cells, widths, k), widths, 0);
  }

  /** Every line of a row shows the same line of each of its cells, padded, at the start of its column. */
  lemma RowShowsCells(cells: seq<string>, widths: seq<nat>, k: nat, c: nat)
    requires Fits(cells, widths) && k < RowHeight(cells) && c < |widths|
    ensures At(RowLines(cells, widths)[k], Start(widths, c), LJust(CellLine(cells[c], k), widths[c]))
  {
    var parts := Parts(cells, widths, k);
    PartsFit(cells, widths, k);
    JoinedAt(parts, widths, c);
    FramedAt(JoinBy(" | ", parts), Start(widths, c) - 2, parts[c]);
  }

  /** A row is tall enough for all lines of all its cells. */
  lemma {:induction false} RowIsTallEnough(cells: seq<string>, c: nat)
    requires c < |cells|
    ensures |Split(cells[c])| <= RowHeight(cells)
  {
    if c < |cells| - 1 { RowIsTallEnough(cells[..|cells| - 1], c); }
  }

  lemma {:induction false} SplitIfBroken(s: string)
    ensures |Split(s)| > 1 <==> '\n' in s
  {
    if s != "" {
      SplitIfBroken(s[1..]);
      assert s == [s[0]] + s[1..];
    }
  }

  /** A dashed line sets off just the rows that show more than one line. */
  lemma {:induction false} TallIffHigh(cells: seq<string>)
    ensures Tall(cells) <==> RowHeight(cells) > 1
  {
    if cells != [] {
      var n := |cells| - 1;
      TallIffHigh(cells[..n]);
      SplitIfBroken(cells[n]);
      if Tall(cells) {
        var c :| 0 <= c < |cells| && '\n' in cells[c];
        assert c < n ==> cells[..n][c] == cells[c];
      }
      if Tall(cells[..n]) {
        var c :| 0 <= c < n && '\n' in cells[..n][c];
        assert '\n' in cells[c];
      }
    }
  }

  /** All lines are as wide as the table, and none holds a line break. */
  ghost predicate Uniform(lines: seq<string>, width: int) {
    forall i :: 0 <= i < |lines| ==> |lines[i]| == width && '\n' !in lines[i]
  }

  lemma UniformConcat(a: seq<string>, b: seq<string>, width: int)
    requires Uniform(a, width) && Uniform(b, width)
    ensures Uniform(a + b, width)
  {
  }

  lemma {:induction false} JoinedIsLine(joint: string, parts: seq<string>)
    requires '\n' !in joint && AllLines(parts)
    ensures '\n' !in JoinBy(joint, parts)
  {
    if parts != [] { JoinedIsLine(joint, parts[..|parts| - 1]); }
  }

  lemma BorderUniform(widths: seq<nat>, joint: string, edge: string)
    requires |widths| >= 1 && |joint| == |edge| == 1 && '\n' !in joint && '\n' !in edge
    ensures Uniform([Border(widths, joint, edge)], TableWidth(widths))
  {
    JoinedLength(joint, Rules(widths), widths, 2);
    JoinedIsLine(joint, Rules(widths));
  }

  lemma DashLineUniform(widths: seq<nat>)
    requires |widths| >= 1
    ensures Uniform([DashLine(widths)], TableWidth(widths))
  {
    var parts := seq(|widths|, c requires 0 <= c < |widths| => Dashes(widths[c]));
    JoinedLength("|", parts, widths, 2);
    JoinedIsLine("|", parts);
  }

  lemma RowUniform(cells: seq<string>, widths: seq<nat>)
    requires Fits(cells, widths) && |widths| >= 1
    ensures Uniform(RowLines(cells, widths), TableWidth(widths))
  {
    var lines := RowLines(cells, widths);
    forall k | 0 <= k < |lines| ensures |lines[k]| == TableWidth(widths) && '\n' !in lines[k] {
      RowWidth(cells, widths, k);
      RowIsLine(cells, widths, k);
    }
  }

  lemma RowIsLine(cells: seq<string>, widths: seq<nat>, k: nat)
    requires |cells| >= |widths|
    ensures '\n' !in RowLine(cells, widths, k)
  {
    var parts := Parts(cells, widths, k);
    forall c | 0 <= c < |parts| ensures '\n' !in parts[c] {
      SplitIsLines(cells[c]);
    }
    JoinedIsLine(" | ", parts);
  }

  lemma {:induction false} BodyUniform(rows: seq<seq<string>>, widths: seq<nat>, k: nat)
    requires k <= |rows| && Wide(rows, |widths|) && AllFit(rows, widths) && |widths| >= 1
    ensures Uniform(BodyLines(rows, widths, k), TableWidth(widths))
  {
    if k > 0 {
      BodyUniform(rows, widths, k - 1);
      DashLineUniform(widths);
      RowUniform(rows[k - 1], widths);
    }
  }

  lemma SectionUniform(headers: seq<string>, rows: seq<seq<string>>, widths: seq<nat>)
    requires Fits(headers, widths) && Wide(rows, |widths|) && AllFit(rows, widths) && |widths| >= 1
    ensures Uniform(SectionLines(headers, rows, widths), TableWidth(widths))
  {
    RowUniform(headers, widths);
    BorderUniform(widths, "+", "|");
    BodyUniform(rows, widths, |rows|);
  }

  lemma RowsFit(s: Section, widths: seq<nat>)
    requires AllFit(AllRows(s), widths)
    ensures Fits(s.headers, widths) && AllFit(s.rows, widths)
  {
    assert AllRows(s)[0] == s.headers;
    assert forall i :: 0 <= i < |s.rows| ==> s.rows[i] == AllRows(s)[i + 1];
  }

  lemma {:induction false} TableUniform(sections: seq<Section>, widths: seq<nat>, k: nat)
    requires k <= |sections| && |widths| >= 1
    requires forall i :: 0 <= i < |sections| ==> Wide(AllRows(sections[i]), |widths|) && AllFit(AllRows(sections[i]), widths)
    ensures Uniform(TableLines(sections, widths, k), TableWidth(widths))
  {
    if k > 0 {
      TableUniform(sections, widths, k - 1);
      BorderUniform(widths, "+", "+");
      RowsAreWide(sections[k - 1], |widths|);
      RowsFit(sections[k - 1], widths);
      SectionUniform(sections[k - 1].headers, sections[k - 1].rows, widths);
    }
  }

  lemma WholeTableUniform(sections: seq<Section>)
    requires WellFormed(sections)
    ensures var widths := Widths(sections);
            Uniform(TableLines(sections, widths, |sections|) + [Border(widths, "+", "+")], TableWidth(widths))
  {
    var widths := Widths(sections);
    forall s | 0 <= s < |sections| ensures AllFit(AllRows(sections[s]), widths) { WidthsFit(sections, s); }
    TableUniform(sections, widths, |sections|);
    BorderUniform(widths, "+", "+");
    UniformConcat(TableLines(sections, widths, |sections|), [Border(widths, "+", "+")], TableWidth(widths));
  }

  lemma SplitUniform(lines: seq<string>, width: int)
    requires Uniform(lines, width) && lines != []
    ensures Split(Join(lines)) == lines
  {
    SplitJoinLines(lines);
  }

  /** Every line of the whole table has the same width, whatever the cells hold. */
  lemma TableIsRectangular(sections: seq<Section>)
    requires WellFormed(sections)
    ensures var widths := Widths(sections);
            var lines := TableLines(sections, widths, |sections|) + [Border(widths, "+", "+")];
            Split(Join(lines)) == lines && Uniform(lines, TableWidth(widths))
  {
    var widths := Widths(sections);
    WholeTableUniform(sections);
    SplitUniform(TableLines(sections, widths, |sections|) + [Border(widths, "+", "+")], TableWidth(widths));
  }

  // ------------------------------------------------------- the table holds the rows

  /** Lines that only separate. */
  predicate IsRule(line: string) { "+" <= line || "|-" <= line }

  function WithoutRules(lines: seq<string>): seq<string> {
    if lines == [] then []
    else
      var n := |lines| - 1;
      WithoutRules(lines[..n]) + (if IsRule(lines[n]) then [] else [lines[n]])
  }

  lemma {:induction false} WithoutRulesConcat(a: seq<string>, b: seq<string>)
    ensures WithoutRules(a + b) == WithoutRules(a) + WithoutRules(b)
  {
    if b == [] {
      assert a + b == a;
    } else {
      var n := |b| - 1;
      WithoutRulesConcat(a, b[..n]);
      assert (a + b)[..|a + b| - 1] == a + b[..n];
      Assoc(WithoutRules(a), WithoutRules(b[..n]), if IsRule(b[n]) then [] else [b[n]]);
    }
  }

  lemma {:induction false} NoRules(lines: seq<string>)
    requires forall i :: 0 <= i < |lines| ==> !IsRule(lines[i])
    ensures WithoutRules(lines) == lines
  {
    if lines != [] {
      NoRules(lines[..|lines| - 1]);
      assert lines == lines[..|lines| - 1] + [lines[|lines| - 1]];
    }
  }

  lemma RowIsNoRule(cells: seq<string>, widths: seq<nat>)
    requires |cells| >= |widths|
    ensures WithoutRules(RowLines(cells, widths)) == RowLines(cells, widths)
  {
    var lines := RowLines(cells, widths);
    forall k | 0 <= k < |lines| ensures !IsRule(lines[k]) {
      assert lines[k][0] == '|' && lines[k][1] == ' ';
    }
    NoRules(lines);
  }

  lemma RuleDropped(rule: string)
    requires IsRule(rule)
    ensures WithoutRules([rule]) == []
  {
    assert [rule][..0] == [];
  }

  lemma {:induction false} JoinedStart(joint: string, parts: seq<string>)
    requires parts != [] && parts[0] != ""
    ensures JoinBy(joint, parts) != "" && JoinBy(joint, parts)[0] == parts[0][0]
  {
    if |parts| > 1 { JoinedStart(joint, parts[..|parts| - 1]); }
  }

  lemma BordersAreRules(widths: seq<nat>)
    requires |widths| >= 1
    ensures IsRule(DashLine(widths)) && IsRule(Border(widths, "+", "+")) && IsRule(Border(widths, "+", "|"))
  {
    JoinedStart("|", seq(|widths|, c requires 0 <= c < |widths| => Dashes(widths[c])));
    JoinedStart("+", Rules(widths));
  }

  /** The lines of all rows of a table, one row after the other. */
  function RowsLines(rows: seq<seq<string>>, widths: seq<nat>): seq<string>
    requires Wide(rows, |widths|)
  {
    if rows == [] then []
    else RowsLines(rows[..|rows| - 1], widths) + RowLines(rows[|rows| - 1], widths)
  }

  function SectionsLines(sections: seq<Section>, widths: seq<nat>): seq<string>
    requires forall i :: 0 <= i < |sections| ==> Wide(AllRows(sections[i]), |widths|)
  {
    if sections == [] then []
    else SectionsLines(sections[..|sections| - 1], widths) + RowsLines(AllRows(sections[|sections| - 1]), widths)
  }

  lemma MiddleDropped(a: seq<string>, rules: seq<string>, b: seq<string>)
    requires WithoutRules(rules) == []
    ensures WithoutRules(a + rules + b) == WithoutRules(a) + WithoutRules(b)
  {
    WithoutRulesConcat(a + rules, b);
    WithoutRulesConcat(a, rules);
    assert WithoutRules(a) + [] == WithoutRules(a);
  }

  lemma NextRow(rows: seq<seq<string>>, widths: seq<nat>, k: nat)
    requires 0 < k <= |rows| && Wide(rows, |widths|)
    ensures RowsLines(rows[..k], widths) == RowsLines(rows[..k - 1], widths) + RowLines(rows[k - 1], widths)
  {
    assert rows[..k][..k - 1] == rows[..k - 1];
  }

  lemma NextSection(sections: seq<Section>, widths: seq<nat>, k: nat)
    requires 0 < k <= |sections|
    requires forall i :: 0 <= i < |sections| ==> Wide(AllRows(sections[i]), |widths|)
    ensures SectionsLines(sections[..k], widths)
         == SectionsLines(sections[..k - 1], widths) + RowsLines(AllRows(sections[k - 1]), widths)
  {
    assert sections[..k][..k - 1] == sections[..k - 1];
  }

  lemma {:induction false} BodyHoldsRows(rows: seq<seq<string>>, widths: seq<nat>, k: nat)
    requires k <= |rows| && Wide(rows, |widths|) && |widths| >= 1
    ensures WithoutRules(BodyLines(rows, widths, k)) == RowsLines(rows[..k], widths)
  {
    if k > 0 {
      BodyHoldsRows(rows, widths, k - 1);
      NextRow(rows, widths, k);
      RowIsNoRule(rows[k - 1], widths);
      BordersAreRules(widths);
      RuleDropped(DashLine(widths));
      var rule := if k > 1 && (Tall(rows[k - 1]) || Tall(rows[k - 2])) then [DashLine(widths)] else [];
      MiddleDropped(BodyLines(rows, widths, k - 1), rule, RowLines(rows[k - 1], widths));
    }
  }

  lemma {:induction false} RowsLinesHead(head: seq<string>, rows: seq<seq<string>>, widths: seq<nat>)
    requires |head| >= |widths| && Wide(rows, |widths|)
    ensures Wide([head] + rows, |widths|)
    ensures RowsLines([head] + rows, widths) == RowLines(head, widths) + RowsLines(rows, widths)
  {
    var all, n := [head] + rows, |rows|;
    NextRow(all, widths, n + 1);
    assert all[..n + 1] == all;
    if rows == [] {
      assert all[..n] == [] && all[n] == head;
    } else {
      var init := rows[..n - 1];
      RowsLinesHead(head, init, widths);
      assert all[..n] == [head] + init && all[n] == rows[n - 1];
      Assoc(RowLines(head, widths), RowsLines(init, widths), RowLines(rows[n - 1], widths));
    }
  }

  lemma HeadedBodyHoldsRows(head: seq<string>, rows: seq<seq<string>>, widths: seq<nat>)
    requires |head| >= |widths| >= 1 && Wide(rows, |widths|)
    ensures WithoutRules(SectionLines(head, rows, widths))
         == RowLines(head, widths) + RowsLines(rows, widths)
  {
    RowIsNoRule(head, widths);
    BordersAreRules(widths);
    RuleDropped(Border(widths, "+", "|"));
    MiddleDropped(RowLines(head, widths), [Border(widths, "+", "|")], BodyLines(rows, widths, |rows|));
    BodyHoldsRows(rows, widths, |rows|);
    assert rows[..|rows|] == rows;
  }

  lemma SectionHoldsRows(s: Section, widths: seq<nat>)
    requires Wide(AllRows(s), |widths|) && |widths| >= 1
    ensures |s.headers| >= |widths| && Wide(s.rows, |widths|)
    ensures WithoutRules(SectionLines(s.headers, s.rows, widths)) == RowsLines(AllRows(s), widths)
  {
    RowsAreWide(s, |widths|);
    HeadedBodyHoldsRows(s.headers, s.rows, widths);
    RowsLinesHead(s.headers, s.rows, widths);
  }

  lemma {:induction false} SectionsHoldRows(sections: seq<Section>, widths: seq<nat>, k: nat)
    requires k <= |sections| && |widths| >= 1
    requires forall i :: 0 <= i < |sections| ==> Wide(AllRows(sections[i]), |widths|)
    ensures WithoutRules(TableLines(sections, widths, k)) == SectionsLines(sections[..k], widths)
  {
    if k > 0 {
      SectionsHoldRows(sections, widths, k - 1);
      NextSection(sections, widths, k);
      BordersAreRules(widths);
      RuleDropped(Border(widths, "+", "+"));
      SectionHoldsRows(sections[k - 1], widths);
      MiddleDropped(TableLines(sections, widths, k - 1), [Border(widths, "+", "+")],
                    SectionLines(sections[k - 1].headers, sections[k - 1].rows, widths));
    }
  }

  /** Without its rules a table is the lines of its headers and rows, each once and in order. */
  lemma TableHoldsRows(sections: seq<Section>)
    requires WellFormed(sections)
    ensures var widths := Widths(sections);
            WithoutRules(TableLines(sections, widths, |sections|) + [Border(widths, "+", "+")]) == SectionsLines(sections, widths)
  {
    var widths := Widths(sections);
    var rule := [Border(widths, "+", "+")];
    SectionsHoldRows(sections, widths, |sections|);
    assert sections[..|sections|] == sections;
    WithoutRulesConcat(TableLines(sections, widths, |sections|), rule);
    BordersAreRules(widths);
    RuleDropped(rule[0]);
  }
}
