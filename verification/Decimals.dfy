/** Decimal numerals: written with a fixed number of decimals, trimmed of trailing zeros, and read back.
    Whole numbers are written by their digits, the last ones padded with leading zeros behind the
    point; trimming drops the zeros that end the decimals, and the point if none is left. Reading back
    takes the digits on both sides of the first point. The lemmas say that reading undoes writing, and
    that trimming does not change what is read. Signs are the callers' business: `Sizes` writes one in
    front, and the marks of `Percentages` are not part of the numeral either. Nothing depends on how
    many digits a number has. */
module Decimals {
  import opened Texts

  function Pow10(d: nat): (p: int)
    ensures p >= 1
  {
    if d == 0 then 1 else 10 * Pow10(d - 1)
  }

  predicate IsDigit(c: char) { '0' <= c <= '9' }

  predicate AllDigits(s: string) { forall i :: 0 <= i < |s| ==> IsDigit(s[i]) }

  function Digit(n: int): (c: char)
    requires 0 <= n < 10
    ensures IsDigit(c) && c as int - '0' as int == n
  {
    ('0' as int + n) as char
  }

  /** The digits of a whole number. */
  function Digits(n: nat): (r: string)
    ensures |r| >= 1 && AllDigits(r)
  {
    if n < 10 then [Digit(n)] else Digits(n / 10) + [Digit(n % 10)]
  }

  /** The last `d` digits of a whole number, with leading zeros. */
  function Padded(n: nat, d: nat): (r: string)
    ensures |r| == d && AllDigits(r)
  {
    if d == 0 then "" else Padded(n / 10, d - 1) + [Digit(n % 10)]
  }

  /** `n / 10**d` written with `d` decimals, as the format `.{d}f` writes it. */
  function Fixed(n: nat, d: nat): string {
    if d == 0 then Digits(n) else Digits(Whole(n, d)) + "." + Padded(n, d)
  }

  /** What is left of a whole number without its last `d` digits. */
  function Whole(n: nat, d: nat): nat {
    if d == 0 then n else Whole(n / 10, d - 1)
  }

  /** Drops the zeros that end the decimals, and the point if none is left. */
  function Trim(t: string): string {
    if '.' in t then RStripChar(RStripChar(t, '0'), '.') else t
  }

  /** The number a string of digits stands for. */
  function Value(s: string): int {
    if s == "" then 0 else 10 * Value(s[..|s| - 1]) + (s[|s| - 1] as int - '0' as int)
  }

  function Point(t: string): (i: nat)
    ensures i <= |t| && (i < |t| ==> t[i] == '.') && forall j :: 0 <= j < i ==> t[j] != '.'
  {
    if t == "" || t[0] == '.' then 0 else 1 + Point(t[1..])
  }

  /** The number a numeral stands for. */
  function Read(t: string): real {
    var i := Point(t);
    if i == |t| then Value(t) as real
    else Value(t[..i]) as real + Value(t[i + 1..]) as real / Pow10(|t| - i - 1) as real
  }

  // ---------------------------------------------------------------- reading back

  lemma ValueSnoc(s: string, c: char)
    ensures Value(s + [c]) == 10 * Value(s) + (c as int - '0' as int)
  {
    assert (s + [c])[..|s|] == s;
  }

  lemma {:induction false} DigitsValue(n: nat)
    ensures Value(Digits(n)) == n
  {
    if n < 10 {
      assert [Digit(n)] == "" + [Digit(n)];
      ValueSnoc("", Digit(n));
    } else {
      DigitsValue(n / 10);
      ValueSnoc(Digits(n / 10), Digit(n % 10));
    }
  }

  lemma Regroup(w: int, p: int)
    ensures 10 * (w * p) == w * (10 * p)
  {
  }

  lemma {:induction false} PaddedValue(n: nat, d: nat)
    ensures n == Whole(n, d) * Pow10(d) + Value(Padded(n, d))
  {
    if d > 0 {
      var m, p := n / 10, Pow10(d - 1);
      PaddedValue(m, d - 1);
      ValueSnoc(Padded(m, d - 1), Digit(n % 10));
      Regroup(Whole(m, d - 1), p);
    }
  }

  lemma ReadWhole(a: string)
    requires AllDigits(a)
    ensures Read(a) == Value(a) as real
  {
  }

  lemma PointAfter(a: string, b: string)
    requires AllDigits(a)
    ensures var t := a + "." + b; Point(t) == |a| && t[..|a|] == a && t[|a| + 1..] == b
  {
    var t := a + "." + b;
    assert t[|a|] == '.';
    assert forall j :: 0 <= j < |a| ==> t[j] == a[j];
  }

  lemma ReadParts(a: string, b: string)
    requires AllDigits(a)
    ensures Read(a + "." + b) == Value(a) as real + Value(b) as real / Pow10(|b|) as real
  {
    var t := a + "." + b;
    PointAfter(a, b);
    assert |t| - |a| - 1 == |b|;
  }

  lemma Ratio(n: int, whole: int, rest: int, p: int)
    requires p >= 1 && n == whole * p + rest
    ensures whole as real + rest as real / p as real == n as real / p as real
  {
    var r := p as real;
    assert n as real == whole as real * r + rest as real;
    assert (whole as real * r + rest as real) / r == whole as real + rest as real / r;
  }

  /** A number written with `d` decimals reads back as itself. */
  lemma FixedReads(n: nat, d: nat)
    ensures Read(Fixed(n, d)) == n as real / Pow10(d) as real
  {
    if d == 0 {
      DigitsValue(n);
      ReadWhole(Digits(n));
    } else {
      DigitsValue(Whole(n, d));
      PaddedValue(n, d);
      ReadParts(Digits(Whole(n, d)), Padded(n, d));
      Ratio(n, Whole(n, d), Value(Padded(n, d)), Pow10(d));
    }
  }

  lemma {:induction false} StripConcat(p: string, b: string, c: char)
    requires p != "" && p[|p| - 1] != c
    ensures RStripChar(p + b, c) == p + RStripChar(b, c)
  {
    if b != "" && b[|b| - 1] == c {
      StripConcat(p, b[..|b| - 1], c);
      assert (p + b)[..|p + b| - 1] == p + b[..|b| - 1];
    } else if b == "" {
      assert p + b == p;
    }
  }

  lemma {:induction false} TrailingZeros(b: string)
    ensures |RStripChar(b, '0')| <= |b|
    ensures Value(b) == Value(RStripChar(b, '0')) * Pow10(|b| - |RStripChar(b, '0')|)
  {
    if b != "" && b[|b| - 1] == '0' { TrailingZeros(b[..|b| - 1]); }
  }

  lemma {:induction false} Pow10Plus(a: nat, b: nat)
    ensures Pow10(a + b) == Pow10(a) * Pow10(b)
  {
    if a > 0 { Pow10Plus(a - 1, b); }
  }

  lemma ZerosDoNotCount(b: string)
    ensures var s := RStripChar(b, '0');
            Value(b) as real / Pow10(|b|) as real == Value(s) as real / Pow10(|s|) as real
  {
    var s := RStripChar(b, '0');
    TrailingZeros(b);
    Pow10Plus(|s|, |b| - |s|);
    Cancel(Value(s), Pow10(|s|), Pow10(|b| - |s|));
  }

  lemma Cancel(v: int, p: int, q: int)
    requires p >= 1 && q >= 1
    ensures (v * q) as real / (p * q) as real == v as real / p as real
  {
    var x, y, z := v as real, p as real, q as real;
    assert (v * q) as real == x * z && (p * q) as real == y * z;
    assert x == (x / y) * y;
    assert x * z == (x / y) * (y * z);
  }

  lemma StripPoint(a: string)
    requires a != "" && AllDigits(a)
    ensures RStripChar(a + ".", '.') == a
  {
    StripConcat(a, ".", '.');
    assert a + "" == a;
  }

  /** What trimming leaves of a numeral with decimals. */
  lemma TrimParts(a: string, b: string)
    requires a != "" && AllDigits(a) && AllDigits(b)
    ensures var s := RStripChar(b, '0');
            Trim(a + "." + b) == if s == "" then a else a + "." + s
  {
    var p, s := a + ".", RStripChar(b, '0');
    assert p[|p| - 1] == '.' && (p + b)[|a|] == '.';
    StripConcat(p, b, '0');
    if s == "" {
      assert p + s == p;
      StripPoint(a);
    } else {
      NoPoint(p, s);
    }
  }

  lemma NoPoint(p: string, s: string)
    requires s != "" && AllDigits(s)
    ensures RStripChar(p + s, '.') == p + s
  {
    var t := p + s;
    assert t[|t| - 1] == s[|s| - 1];
  }

  lemma TrimPartsReads(a: string, b: string)
    requires a != "" && AllDigits(a) && AllDigits(b)
    ensures Read(Trim(a + "." + b)) == Read(a + "." + b)
  {
    TrimParts(a, b);
    ReadParts(a, b);
    ZerosDoNotCount(b);
    ReadParts(a, RStripChar(b, '0'));
    ReadWhole(a);
  }

  predicate NothingToTrim(t: string) {
    t != "" && ('.' in t ==> IsDigit(t[|t| - 1]) && t[|t| - 1] != '0')
  }

  lemma TrimPartsShape(a: string, b: string)
    requires a != "" && AllDigits(a) && AllDigits(b)
    ensures NothingToTrim(Trim(a + "." + b))
  {
    TrimParts(a, b);
    var s := RStripChar(b, '0');
    if s == "" {
      assert '.' !in a;
    } else {
      var t := a + "." + s;
      assert t[|t| - 1] == s[|s| - 1];
    }
  }

  /** Trimming keeps the number and leaves nothing to trim. */
  lemma TrimReads(n: nat, d: nat)
    ensures Read(Trim(Fixed(n, d))) == n as real / Pow10(d) as real
    ensures NothingToTrim(Trim(Fixed(n, d)))
  {
    FixedReads(n, d);
    if d > 0 {
      TrimPartsReads(Digits(Whole(n, d)), Padded(n, d));
      TrimPartsShape(Digits(Whole(n, d)), Padded(n, d));
    } else {
      assert '.' !in Digits(n);
    }
  }
}
