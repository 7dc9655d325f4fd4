/** The share of a limit that is used, as the command line shows it (`_format_percentage`). A share
    is a number with a mark: `<` if the rounding would hide that something is used, `>` if it would
    make the limit look reached, or if it is exceeded. Texts are read back into mark and number, and
    what they claim is compared with the exact share. */
module Percentages {
  import opened Decimals
  import opened Arithmetic
  import opened Rounding

  /** What is used of the limit, in percent. */
  function Percent(used: nat, limit: nat): real
    requires limit > 0
  {
    (100 * used) as real / limit as real
  }

  function FormatPercentage(used: nat, limit: nat, decimals: nat): string
    requires limit > 0
  {
    if used > limit then ">100%"
    else
      PercentInRange(used, limit, decimals);
      var percentage := Scaled(Percent(used, limit), decimals);
      var hundred := 100 * Pow10(decimals);
      if used != 0 && percentage == 0 then "<" + Fixed(1, decimals) + "%"
      else if used < limit && percentage >= hundred then ">" + Fixed(hundred - 1, decimals) + "%"
      else Fixed(percentage, decimals) + "%"
  }

  // ------------------------------------------------------------ reading a text back

  /** A shown share says it is below, about or beyond the shown number. */
  datatype Mark = Below | About | Beyond

  function MarkOf(t: string): Mark {
    if t != "" && t[0] == '<' then Below else if t != "" && t[0] == '>' then Beyond else About
  }

  /** The number of a shown share, without its mark and its percent sign. */
  function NumberOf(t: string): real {
    if |t| < 2 then 0.0
    else if MarkOf(t) == About then Read(t[..|t| - 1])
    else Read(t[1..|t| - 1])
  }

  /** The mark and the number, in units of the last decimal, that the text of a share carries. */
  function Share(used: nat, limit: nat, d: nat): (Mark, int)
    requires limit > 0
  {
    var n := Scaled(Percent(used, limit), d);
    if used > limit then (Beyond, 100 * Pow10(d))
    else if used != 0 && n == 0 then (Below, 1)
    else if used < limit && n >= 100 * Pow10(d) then (Beyond, 100 * Pow10(d) - 1)
    else (About, n)
  }

  lemma PercentOrder(a: nat, b: nat, limit: nat)
    requires limit > 0
    ensures a <= b <==> Percent(a, limit) <= Percent(b, limit)
  {
    DivideBoth((100 * a) as real, (100 * b) as real, limit as real);
  }

  lemma PercentAtEnds(limit: nat)
    requires limit > 0
    ensures Percent(0, limit) == 0.0 && Percent(limit, limit) == 100.0
  {
    WholeProduct(100, limit);
  }

  lemma PercentInRange(used: nat, limit: nat, d: nat)
    requires limit > 0
    ensures 0 <= Scaled(Percent(used, limit), d)
    ensures used <= limit ==> Scaled(Percent(used, limit), d) <= 100 * Pow10(d)
    ensures used == 0 ==> Scaled(Percent(used, limit), d) == 0
    ensures used == limit ==> Scaled(Percent(used, limit), d) == 100 * Pow10(d)
  {
    PercentOrder(0, used, limit);
    PercentOrder(used, limit, limit);
    PercentAtEnds(limit);
    RoundedInt(0, d);
    RoundedInt(100, d);
    RoundedMonotone(0.0, Percent(used, limit), Unit(d));
    if used <= limit { RoundedMonotone(Percent(used, limit), 100.0, Unit(d)); }
  }

  lemma FixedStart(n: nat, d: nat)
    ensures |Fixed(n, d)| >= 1 && IsDigit(Fixed(n, d)[0])
  {
  }

  lemma MarkedReads(n: nat, d: nat)
    ensures var t := Fixed(n, d) + "%"; MarkOf(t) == About && NumberOf(t) == n as real / Unit(d)
    ensures var t := "<" + Fixed(n, d) + "%"; MarkOf(t) == Below && NumberOf(t) == n as real / Unit(d)
    ensures var t := ">" + Fixed(n, d) + "%"; MarkOf(t) == Beyond && NumberOf(t) == n as real / Unit(d)
  {
    var f := Fixed(n, d);
    FixedStart(n, d);
    FixedReads(n, d);
    assert (f + "%")[..|f + "%"| - 1] == f;
    assert ("<" + f + "%")[1..|"<" + f + "%"| - 1] == f;
    assert (">" + f + "%")[1..|">" + f + "%"| - 1] == f;
  }

  lemma OverLimitReads()
    ensures MarkOf(">100%") == Beyond && NumberOf(">100%") == 100.0
  {
    MarkedReads(100, 0);
    assert Digits(100) == Digits(10) + "0" && Digits(10) == Digits(1) + "0" && Digits(1) == "1";
    assert ">" + Fixed(100, 0) + "%" == ">100%";
  }

  /** The text of a share reads back as its mark and its number. */
  lemma FormatReads(used: nat, limit: nat, d: nat)
    requires limit > 0
    ensures var t := FormatPercentage(used, limit, d);
            MarkOf(t) == Share(used, limit, d).0 && NumberOf(t) == Share(used, limit, d).1 as real / Unit(d)
  {
    PercentInRange(used, limit, d);
    if used > limit {
      OverLimitReads();
      WholeProduct(100, Pow10(d));
    } else {
      MarkedReads(1, d);
      MarkedReads(100 * Pow10(d) - 1, d);
      MarkedReads(Scaled(Percent(used, limit), d), d);
    }
  }

  // ------------------------------------------------------------- what a share claims

  lemma StepsOrder(m: int, n: int, p: real)
    requires p > 0.0
    ensures m <= n <==> m as real / p <= n as real / p
  {
    DivideBoth(m as real, n as real, p);
  }

  lemma Ends(d: nat)
    ensures (0 as real) / Unit(d) == 0.0 && (100 * Pow10(d)) as real / Unit(d) == 100.0
  {
    WholeProduct(0, Pow10(d));
    WholeProduct(100, Pow10(d));
  }

  /** Only an unused limit reads as 0%, only one that is exactly reached as 100%, and only one that is
      exceeded as >100%. */
  lemma EndsAreExact(used: nat, limit: nat, d: nat)
    requires limit > 0
    ensures var t := FormatPercentage(used, limit, d);
            && (MarkOf(t) == About && NumberOf(t) == 0.0 <==> used == 0)
            && (MarkOf(t) == About && NumberOf(t) == 100.0 <==> used == limit)
            && (MarkOf(t) == Beyond && NumberOf(t) == 100.0 <==> used > limit)
            && 0.0 <= NumberOf(t) <= 100.0
  {
    FormatReads(used, limit, d);
    PercentInRange(used, limit, d);
    Ends(d);
    var n := Share(used, limit, d).1;
    StepsOrder(0, n, Unit(d));
    StepsOrder(n, 0, Unit(d));
    StepsOrder(n, 100 * Pow10(d), Unit(d));
    StepsOrder(100 * Pow10(d), n, Unit(d));
  }

  predicate Claims(mark: Mark, number: real, value: real, p: real)
    requires p > 0.0
  {
    match mark
    case About => Abs(number - value) <= 0.5 / p
    case Below => 0.0 < value < number
    case Beyond => number < value
  }

  lemma BelowOne(x: real, p: real)
    requires p >= 1.0 && Steps(x, p) == 0
    ensures x < 1.0 / p
  {
    RoundedIsNear(x, p);
    DivideBoth(0.5, 1.0, p);
    assert RoundedTo(x, p) == 0.0;
  }

  lemma AboveLastStep(x: real, m: int, p: real)
    requires p >= 1.0 && Steps(x, p) >= m
    ensures x > (m - 1) as real / p
  {
    NearestIsNear(x * p);
    DivideBoth((m - 1) as real, x * p, p);
    assert (x * p) / p == x;
  }

  lemma PercentBounds(used: nat, limit: nat)
    requires limit > 0
    ensures used > 0 ==> Percent(used, limit) > 0.0
    ensures used > limit ==> Percent(used, limit) > 100.0
  {
    PercentAtEnds(limit);
    PercentOrder(used, 0, limit);
    PercentOrder(used, limit, limit);
  }

  lemma ShareClaims(used: nat, limit: nat, d: nat)
    requires limit > 0
    ensures var s := Share(used, limit, d); Claims(s.0, s.1 as real / Unit(d), Percent(used, limit), Unit(d))
  {
    PercentBounds(used, limit);
    var x := Percent(used, limit);
    if used > limit {
      Ends(d);
    } else if used != 0 && Scaled(x, d) == 0 {
      BelowOne(x, Unit(d));
    } else if used < limit && Scaled(x, d) >= 100 * Pow10(d) {
      AboveLastStep(x, 100 * Pow10(d), Unit(d));
    } else {
      RoundedIsNear(x, Unit(d));
    }
  }

  /** What a shown share claims is true. */
  lemma ShareIsTrue(used: nat, limit: nat, d: nat)
    requires limit > 0
    ensures var t := FormatPercentage(used, limit, d);
            Claims(MarkOf(t), NumberOf(t), Percent(used, limit), Unit(d))
  {
    FormatReads(used, limit, d);
    ShareClaims(used, limit, d);
  }

  function Rank(m: Mark): int { match m case Below => -1 case About => 0 case Beyond => 1 }

  /** The order in which shares are read: by number, then below < about < beyond. */
  predicate ReadsAtMost(s: string, t: string) {
    NumberOf(s) < NumberOf(t) || (NumberOf(s) == NumberOf(t) && Rank(MarkOf(s)) <= Rank(MarkOf(t)))
  }

  lemma ShareMonotone(a: nat, b: nat, limit: nat, d: nat)
    requires limit > 0 && a <= b
    ensures var (s, t) := (Share(a, limit, d), Share(b, limit, d));
            s.1 < t.1 || (s.1 == t.1 && Rank(s.0) <= Rank(t.0))
  {
    PercentOrder(a, b, limit);
    RoundedMonotone(Percent(a, limit), Percent(b, limit), Unit(d));
    PercentInRange(a, limit, d);
    PercentInRange(b, limit, d);
  }

  /** More usage never reads as less. */
  lemma FormatMonotone(a: nat, b: nat, limit: nat, d: nat)
    requires limit > 0 && a <= b
    ensures ReadsAtMost(FormatPercentage(a, limit, d), FormatPercentage(b, limit, d))
  {
    ShareMonotone(a, b, limit, d);
    FormatReads(a, limit, d);
    FormatReads(b, limit, d);
    StepsOrder(Share(b, limit, d).1, Share(a, limit, d).1, Unit(d));
  }
}
