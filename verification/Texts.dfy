/** Strings as the command line handles them: splitting into lines, joining, padding and trimming.
    Each function stands for the Python method named beside it. A text is a sequence of characters
    and a line one without line break; splitting a text with no line break gives that text alone, and
    splitting the empty text gives one empty line. Lemmas relate splitting and joining, and say what
    trimming keeps. The predicate `At` says that one text stands in another at a given column, which
    is how the layout of trees and tables is stated. */
module Texts {
  import opened Sequences

  /** `s.split('\n')`. */
  function Split(s: string): (r: seq<string>)
    ensures |r| >= 1
  {
    if s == "" then [""] else Attach(s[0], Split(s[1..]))
  }

  /** The lines of a text that has one more character in front. */
  function Attach(c: char, lines: seq<string>): (r: seq<string>)
    requires |lines| >= 1
    ensures |r| >= 1
  {
    if c == '\n' then [""] + lines else [[c] + lines[0]] + lines[1..]
  }

  /** No line holds a line break. */
  ghost predicate AllLines(lines: seq<string>) {
    forall i :: 0 <= i < |lines| ==> '\n' !in lines[i]
  }

  lemma {:induction false} SplitIsLines(s: string)
    ensures AllLines(Split(s))
  {
    if s != "" { SplitIsLines(s[1..]); }
  }

  lemma AttachConcat(c: char, a: seq<string>, b: seq<string>)
    requires |a| >= 1
    ensures Attach(c, a + b) == Attach(c, a) + b
  {
  }

  /** Always true. Predicates that quantify over texts for which it is asserted are only unfolded by the
      prover where a proof asserts it. */
  predicate Considered(text: string) { true }

  /** These are the lines of the text: `lines == Split(text)`. */
  ghost predicate AreLines(lines: seq<string>, text: string) {
    forall t {:trigger Considered(t)} :: t == text ==> lines == Split(t)
  }

  lemma LinesOf(text: string)
    ensures AreLines(Split(text), text)
  {
  }

  /** `'\n'.join(lines)`. */
  function Join(lines: seq<string>): string {
    if lines == [] then ""
    else if |lines| == 1 then lines[0]
    else lines[0] + "\n" + Join(lines[1..])
  }

  /** The lines of several texts, in order. */
  function SplitAll(texts: seq<string>): seq<string> {
    if texts == [] then [] else SplitAll(texts[..|texts| - 1]) + Split(texts[|texts| - 1])
  }

  lemma SplitStep(c: char, s: string)
    ensures Split([c] + s) == Attach(c, Split(s))
  {
    assert ([c] + s)[1..] == s;
  }

  lemma {:induction false} SplitConcat(a: string, b: string)
    ensures Split(a + "\n" + b) == Split(a) + Split(b)
  {
    if a == "" {
      assert a + "\n" + b == ['\n'] + b;
      SplitStep('\n', b);
    } else {
      var rest := a[1..];
      SplitConcat(rest, b);
      assert a + "\n" + b == [a[0]] + (rest + "\n" + b);
      SplitStep(a[0], rest + "\n" + b);
      assert a == [a[0]] + rest;
      SplitStep(a[0], rest);
      AttachConcat(a[0], Split(rest), Split(b));
    }
  }

  lemma {:induction false} SplitOneLine(s: string)
    requires '\n' !in s
    ensures Split(s) == [s]
  {
    if s != "" {
      SplitOneLine(s[1..]);
      assert [s[0]] + s[1..] == s;
    }
  }

  lemma SplitAllSnoc(texts: seq<string>, t: string)
    ensures SplitAll(texts + [t]) == SplitAll(texts) + Split(t)
  {
    assert (texts + [t])[..|texts|] == texts;
  }

  lemma SplitAllOne(t: string)
    ensures SplitAll([t]) == Split(t)
  {
    assert [t][..0] == [];
    assert [] + Split(t) == Split(t);
  }

  lemma {:induction false} SplitAllConcat(a: seq<string>, b: seq<string>)
    ensures SplitAll(a + b) == SplitAll(a) + SplitAll(b)
  {
    if b == [] {
      assert a + b == a;
    } else {
      var init, t := b[..|b| - 1], b[|b| - 1];
      SplitAllConcat(a, init);
      Assoc(a, init, [t]);
      assert b == init + [t];
      SplitAllSnoc(a + init, t);
      Assoc(SplitAll(a), SplitAll(init), Split(t));
    }
  }

  /** Splitting what was joined gives back the lines of every part, in order. */
  lemma {:induction false} SplitJoin(texts: seq<string>)
    requires texts != []
    ensures Split(Join(texts)) == SplitAll(texts)
  {
    SplitAllConcat(texts[..1], texts[1..]);
    assert texts == texts[..1] + texts[1..];
    assert texts[..1] == [texts[0]];
    SplitAllOne(texts[0]);
    if |texts| > 1 {
      SplitJoin(texts[1..]);
      SplitConcat(texts[0], Join(texts[1..]));
    }
  }

  lemma {:induction false} SplitAllLines(lines: seq<string>)
    requires AllLines(lines)
    ensures SplitAll(lines) == lines
  {
    if lines != [] {
      var n := |lines| - 1;
      SplitAllLines(lines[..n]);
      SplitOneLine(lines[n]);
      assert lines == lines[..n] + [lines[n]];
    }
  }

  /** Joined lines split into the same lines. */
  lemma SplitJoinLines(lines: seq<string>)
    requires lines != []
    requires AllLines(lines)
    ensures Split(Join(lines)) == lines
  {
    SplitJoin(lines);
    SplitAllLines(lines);
  }

  function Repeat(c: char, n: nat): (r: string)
    ensures |r| == n && forall i :: 0 <= i < n ==> r[i] == c
  {
    seq(n, i => c)
  }

  /** `s.ljust(width)`. */
  function LJust(s: string, width: int): (r: string)
    ensures s <= r && |r| == (if |s| < width then width else |s|)
    ensures forall i :: |s| <= i < |r| ==> r[i] == ' '
  {
    if |s| < width then s + Repeat(' ', width - |s|) else s
  }

  predicate Blank(c: char) {
    c == ' ' || '\t' <= c <= '\r' || '\U{1c}' <= c <= '\U{1f}'
  }

  /** `s.rstrip()`. */
  function RStrip(s: string): (r: string)
    ensures r <= s
    ensures forall i :: |r| <= i < |s| ==> Blank(s[i])
    ensures r != "" ==> !Blank(r[|r| - 1])
  {
    if s != "" && Blank(s[|s| - 1]) then RStrip(s[..|s| - 1]) else s
  }

  /** `s.rstrip(c)`. */
  function RStripChar(s: string, c: char): (r: string)
    ensures r <= s
    ensures forall i :: |r| <= i < |s| ==> s[i] == c
    ensures r != "" ==> r[|r| - 1] != c
  {
    if s != "" && s[|s| - 1] == c then RStripChar(s[..|s| - 1], c) else s
  }

  /** The text `t` stands in `line` from column `column` on. */
  predicate At(line: string, column: nat, t: string) {
    t == "" || (column + |t| <= |line| && line[column..column + |t|] == t)
  }

  function Max(a: nat, b: nat): nat { if a < b then b else a }

  /** The length of the longest line. */
  function Longest(lines: seq<string>): nat {
    if lines == [] then 0 else Max(Longest(lines[..|lines| - 1]), |lines[|lines| - 1]|)
  }

  lemma {:induction false} LongestBounds(lines: seq<string>, i: nat)
    requires i < |lines|
    ensures |lines[i]| <= Longest(lines)
  {
    if i < |lines| - 1 { LongestBounds(lines[..|lines| - 1], i); }
  }
}
