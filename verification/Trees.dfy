/** Nodes and their branches drawn as a tree (`format_tree`). A branch may span several lines and is
    held by its middle one: `|-- ` or, for the last branch, a backquote and `-- `. The trunk runs
    along the other lines, except below the middle of the last branch. Removing these prefixes gives
    back the branches, which is how the drawing is judged. All prefixes are four characters wide, and
    the lines of a root come first. */
module Trees {
  import opened Sequences
  import opened Texts

  const TREE_BRANCH := "|-- "
  const TREE_LAST_BRANCH := "`-- "
  const TREE_PLACEHOLDER_INDENT := "`-- "
  const TREE_TRUNK := "|   "
  const TREE_NO_TRUNK := "    "

  /** The line of a branch by which the tree holds it. */
  function Anchor(height: nat): (a: nat)
    requires height > 0
    ensures a < height
  {
    (height - 1) / 2
  }

  function Prefix(j: nat, anchor: nat, last: bool): (p: string)
    ensures |p| == 4
    ensures p == TREE_BRANCH || p == TREE_LAST_BRANCH <==> j == anchor
    ensures p == TREE_LAST_BRANCH <==> j == anchor && last
  {
    if j < anchor then TREE_TRUNK
    else if j == anchor then (if last then TREE_LAST_BRANCH else TREE_BRANCH)
    else if last then TREE_NO_TRUNK else TREE_TRUNK
  }

  /** The lines of one branch as the tree shows them. */
  function BranchLines(branch: string, last: bool): (r: seq<string>)
    ensures |r| == |Split(branch)|
  {
    var lines := Split(branch);
    seq(|lines|, j requires 0 <= j < |lines| => Prefix(j, Anchor(|lines|), last) + lines[j])
  }

  /** The lines of the first `k` branches. */
  function FirstBranches(branches: seq<string>, k: nat): seq<string>
    requires k <= |branches|
  {
    if k == 0 then []
    else FirstBranches(branches, k - 1) + BranchLines(branches[k - 1], k == |branches|)
  }

  function TreeLines(root: string, branches: seq<string>, placeholder: string): seq<string> {
    [root] + if branches == [] then [TREE_PLACEHOLDER_INDENT + placeholder]
             else FirstBranches(branches, |branches|)
  }

  /** The text is the tree of a root and its branches: `text == Join(TreeLines(root, branches, placeholder))`. */
  ghost predicate IsTree(text: string, root: string, branches: seq<string>, placeholder: string) {
    forall r {:trigger Considered(r)} :: r == root ==> text == Join(TreeLines(r, branches, placeholder))
  }

  method FormatTree(root: string, branches: seq<string>, placeholder: string) returns (tree: string)
    ensures IsTree(tree, root, branches, placeholder)
  {
    if branches == [] {
      assert TreeLines(root, branches, placeholder) == [root, TREE_PLACEHOLDER_INDENT + placeholder];
      tree := Join([root, TREE_PLACEHOLDER_INDENT + placeholder]);
      JoinedIsTree(tree, root, branches, placeholder);
      return;
    }
    var lines := [root];
    for index := 0 to |branches|
      invariant lines == [root] + FirstBranches(branches, index)
    {
      var last := index == |branches| - 1;
      var branchLines := Split(branches[index]);
      var anchor := (|branchLines| - 1) / 2;
      ghost var before := lines;
      for j := 0 to |branchLines|
        invariant lines == before + BranchLines(branches[index], last)[..j]
      {
        var prefix :=
          if j < anchor then TREE_TRUNK
          else if j == anchor then (if last then TREE_LAST_BRANCH else TREE_BRANCH)
          else if last then TREE_NO_TRUNK else TREE_TRUNK;
        lines := lines + [prefix + branchLines[j]];
        assert BranchLines(branches[index], last)[..j + 1]
            == BranchLines(branches[index], last)[..j] + [prefix + branchLines[j]];
      }
      assert BranchLines(branches[index], last)[..|branchLines|] == BranchLines(branches[index], last);
      Assoc([root], FirstBranches(branches, index), BranchLines(branches[index], last));
    }
    tree := Join(lines);
    JoinedIsTree(tree, root, branches, placeholder);
  }

  lemma JoinedIsTree(text: string, root: string, branches: seq<string>, placeholder: string)
    requires text == Join(TreeLines(root, branches, placeholder))
    ensures IsTree(text, root, branches, placeholder)
  {
  }

  // ----------------------------------------------------------- reading a tree back

  lemma {:induction false} BranchesWithoutNewline(branches: seq<string>, k: nat)
    requires k <= |branches|
    ensures AllLines(FirstBranches(branches, k))
  {
    if k > 0 {
      BranchesWithoutNewline(branches, k - 1);
      var lines := BranchLines(branches[k - 1], k == |branches|);
      SplitIsLines(branches[k - 1]);
      forall j | 0 <= j < |lines| ensures '\n' !in lines[j] {
        assert lines[j][4..] == Split(branches[k - 1])[j];
      }
    }
  }

  /** The lines of a tree, below those of its root, are the prefixed lines of its branches. */
  lemma TreeSplits(root: string, branches: seq<string>, placeholder: string)
    requires branches != []
    ensures Split(Join(TreeLines(root, branches, placeholder)))
         == Split(root) + FirstBranches(branches, |branches|)
  {
    var lines := FirstBranches(branches, |branches|);
    BranchesWithoutNewline(branches, |branches|);
    SplitHeaded(root, lines);
  }

  lemma SplitHeaded(root: string, lines: seq<string>)
    requires AllLines(lines)
    ensures Split(Join([root] + lines)) == Split(root) + lines
  {
    SplitJoin([root] + lines);
    SplitAllConcat([root], lines);
    SplitAllOne(root);
    SplitAllLines(lines);
  }

  /** A line without the prefix of the tree. */
  function Bare(line: string): string { if |line| < 4 then line else line[4..] }

  function Unprefixed(lines: seq<string>): seq<string> {
    seq(|lines|, i requires 0 <= i < |lines| => Bare(lines[i]))
  }

  lemma BranchUnprefixed(lines: seq<string>, branch: string, last: bool)
    ensures Unprefixed(lines + BranchLines(branch, last)) == Unprefixed(lines) + Split(branch)
  {
  }

  lemma {:induction false} BranchesUnprefixed(branches: seq<string>, k: nat)
    requires k <= |branches|
    ensures Unprefixed(FirstBranches(branches, k)) == SplitAll(branches[..k])
  {
    if k > 0 {
      BranchesUnprefixed(branches, k - 1);
      BranchUnprefixed(FirstBranches(branches, k - 1), branches[k - 1], k == |branches|);
      assert branches[..k] == branches[..k - 1] + [branches[k - 1]];
      SplitAllSnoc(branches[..k - 1], branches[k - 1]);
    }
  }

  /** Removing the prefixes from the lines below the root gives back the lines of all branches, in order. */
  lemma TreeReadsBack(text: string, root: string, branches: seq<string>, placeholder: string)
    requires IsTree(text, root, branches, placeholder) && branches != []
    ensures |Split(root)| <= |Split(text)| && Unprefixed(Split(text)[|Split(root)|..]) == SplitAll(branches)
  {
    assert Considered(root) && text == Join(TreeLines(root, branches, placeholder));
    TreeSplits(root, branches, placeholder);
    var body := FirstBranches(branches, |branches|);
    assert (Split(root) + body)[|Split(root)|..] == body;
    BranchesUnprefixed(branches, |branches|);
    assert branches[..|branches|] == branches;
  }

  // ------------------------------------------------------ where each branch stands

  /** The number of lines of the first `k` branches. */
  function LinesBefore(branches: seq<string>, k: nat): nat
    requires k <= |branches|
  {
    if k == 0 then 0 else LinesBefore(branches, k - 1) + |Split(branches[k - 1])|
  }

  lemma {:induction false} BranchesLength(branches: seq<string>, k: nat)
    requires k <= |branches|
    ensures |FirstBranches(branches, k)| == LinesBefore(branches, k)
  {
    if k > 0 { BranchesLength(branches, k - 1); }
  }

  lemma {:induction false} BranchesGrow(branches: seq<string>, k: nat, n: nat)
    requires k <= n <= |branches|
    ensures FirstBranches(branches, k) <= FirstBranches(branches, n)
  {
    if k < n { BranchesGrow(branches, k, n - 1); }
  }

  lemma IndexInConcat<T>(a: seq<T>, b: seq<T>, i: nat)
    requires i < |b|
    ensures (a + b)[|a| + i] == b[i]
  {
  }

  lemma NextBranch(branches: seq<string>, b: nat)
    requires b < |branches|
    ensures FirstBranches(branches, b + 1) == FirstBranches(branches, b) + BranchLines(branches[b], b == |branches| - 1)
  {
  }

  lemma IndexInPrefix<T>(a: seq<T>, b: seq<T>, i: nat)
    requires a <= b && i < |a|
    ensures i < |b| && b[i] == a[i]
  {
  }

  lemma BranchAt(branches: seq<string>, b: nat, j: nat)
    requires b < |branches| && j < |Split(branches[b])|
    ensures LinesBefore(branches, b) + j < |FirstBranches(branches, |branches|)|
    ensures FirstBranches(branches, |branches|)[LinesBefore(branches, b) + j]
         == BranchLines(branches[b], b == |branches| - 1)[j]
  {
    NextBranch(branches, b);
    BranchesLength(branches, b);
    BranchesGrow(branches, b + 1, |branches|);
    IndexInConcat(FirstBranches(branches, b), BranchLines(branches[b], b == |branches| - 1), j);
    IndexInPrefix(FirstBranches(branches, b + 1), FirstBranches(branches, |branches|), LinesBefore(branches, b) + j);
  }

  /** Line `n` shows this text behind the prefix of a line of a branch, by which the tree holds the branch or not. */
  ghost predicate Shows(lines: seq<string>, n: nat, text: string, held: bool, below: bool, last: bool) {
    && n < |lines| && |lines[n]| >= 4
    && lines[n][4..] == text
    && lines[n][..4] == if held then (if last then "`-- " else "|-- ") else if last && below then "    " else "|   "
  }

  /** Line `j` of branch `b` of a tree below a one-line root: it stands after the earlier branches, and carries
      a branch prefix exactly if it is the middle one, that of the last branch exactly in the last branch. The trunk runs
      along all other lines but those below the middle of the last branch. */
  lemma TreeLineAt(lines: seq<string>, text: string, root: string, branches: seq<string>, placeholder: string,
                   b: nat, branch: seq<string>, j: nat, n: nat)
    requires IsTree(text, root, branches, placeholder) && AreLines(lines, text)
    requires '\n' !in root && b < |branches| && AreLines(branch, branches[b]) && j < |branch|
    requires n == 1 + LinesBefore(branches, b) + j
    ensures Shows(lines, n, branch[j], j == (|branch| - 1) / 2, j > (|branch| - 1) / 2, b == |branches| - 1)
  {
    TreeLinesAre(lines, text, root, branches, placeholder);
    assert Considered(branches[b]) && branch == Split(branches[b]);
    BranchAt(branches, b, j);
    assert lines[n] == BranchLines(branches[b], b == |branches| - 1)[j];
    PrefixedLine(Prefix(j, Anchor(|branch|), b == |branches| - 1), branch[j]);
  }

  lemma TreeLinesAre(lines: seq<string>, text: string, root: string, branches: seq<string>, placeholder: string)
    requires IsTree(text, root, branches, placeholder) && AreLines(lines, text) && '\n' !in root && branches != []
    ensures lines == [root] + FirstBranches(branches, |branches|)
  {
    assert Considered(root) && text == Join(TreeLines(root, branches, placeholder));
    assert Considered(text) && lines == Split(text);
    TreeSplits(root, branches, placeholder);
    SplitOneLine(root);
  }

  lemma PrefixedLine(prefix: string, line: string)
    requires |prefix| == 4
    ensures (prefix + line)[..4] == prefix && (prefix + line)[4..] == line
  {
  }

  /** A tree without branches shows its root and, held like a last branch, the placeholder. */
  lemma EmptyTree(text: string, root: string, placeholder: string)
    requires IsTree(text, root, [], placeholder)
    ensures text == root + "\n`-- " + placeholder
  {
    assert Considered(root) && text == Join([root] + ["`-- " + placeholder]);
    assert ([root] + ["`-- " + placeholder])[1..] == ["`-- " + placeholder];
    assert root + "\n" + ("`-- " + placeholder) == root + "\n`-- " + placeholder;
  }
}
