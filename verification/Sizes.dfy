/** Sizes as the command line shows them (`_compact_size`): the largest decimal unit they reach once
    rounded, and a number without trailing zeros. The original divides floats; the model divides
    exactly, so a last digit may differ on a tie. Texts are read back into numbers, and these are
    compared with the exact size. The number and the unit are kept apart, as the callers want them. */
module Sizes {
  import opened Decimals
  import opened Arithmetic
  import opened Rounding

  const SIZE_UNITS: seq<string> := ["B", "kB", "MB", "GB", "TB", "PB", "EB"]

  function Pow1000(k: nat): (p: real)
    ensures p >= 1.0
  {
    if k == 0 then 1.0 else 1000.0 * Pow1000(k - 1)
  }

  /** The size in the unit of index `k`. */
  function InUnit(bytes: real, k: nat): real { bytes / Pow1000(k) }

  lemma NextUnit(bytes: real, k: nat)
    ensures InUnit(bytes, k) / 1000.0 == InUnit(bytes, k + 1)
  {
    var p := Pow1000(k);
    Quotient(bytes, p);
  }

  lemma Quotient(x: real, p: real)
    requires p > 0.0
    ensures (x / p) / 1000.0 == x / (1000.0 * p)
  {
    var q := x / p;
    assert x == q * p;
    var r := x / (1000.0 * p);
    assert x == r * (1000.0 * p);
    assert (q - 1000.0 * r) * p == 0.0;
  }

  /** The size reads as less than 1000 of the unit. */
  predicate Fits(bytes: real, d: nat, k: nat) {
    Abs(Rounded(InUnit(bytes, k), d)) < 1000.0
  }

  /** The first unit in which the rounded size has at most three digits before the point, else the last one. */
  ghost predicate IsUnit(bytes: real, d: nat, k: nat) {
    && k < 7
    && (k == 6 || Fits(bytes, d, k))
    && forall j: nat :: j < k ==> !Fits(bytes, d, j)
  }

  /** A number rounded to `d` decimals, without trailing zeros. */
  function Show(x: real, d: nat): string {
    RoundedAbs(x, d);
    var number := Trim(Fixed(Scaled(Abs(x), d), d));
    if x < 0.0 then "-" + number else number
  }

  /** The number a signed numeral stands for. */
  function ReadSigned(t: string): real {
    if t != "" && t[0] == '-' then -Read(t[1..]) else Read(t)
  }

  lemma TrimFirst(n: nat, d: nat)
    ensures Trim(Fixed(n, d)) != "" && Trim(Fixed(n, d))[0] != '-'
  {
    TrimReads(n, d);
    assert Trim(Fixed(n, d)) <= Fixed(n, d);
    assert IsDigit(Fixed(n, d)[0]);
  }

  lemma SignedReads(t: string)
    requires t != "" && t[0] != '-'
    ensures ReadSigned(t) == Read(t) && ReadSigned("-" + t) == -Read(t)
  {
    assert ("-" + t)[1..] == t;
  }

  lemma SignedTrim(t: string)
    requires NothingToTrim(t)
    ensures NothingToTrim("-" + t)
  {
    var u := "-" + t;
    assert u[|u| - 1] == t[|t| - 1];
    if '.' in u {
      var i :| 0 <= i < |u| && u[i] == '.';
      assert t[i - 1] == '.';
    }
  }

  lemma ShowReads(x: real, d: nat)
    ensures ReadSigned(Show(x, d)) == Rounded(x, d)
    ensures NothingToTrim(Show(x, d))
  {
    RoundedAbs(x, d);
    var n := Scaled(Abs(x), d);
    TrimReads(n, d);
    TrimFirst(n, d);
    SignedReads(Trim(Fixed(n, d)));
    SignedTrim(Trim(Fixed(n, d)));
    assert Read(Trim(Fixed(n, d))) == Rounded(Abs(x), d);
    if x < 0.0 {
      RoundedNegated(x, Unit(d));
    }
  }

  /** At most one unit fits the description. */
  lemma UnitUnique(bytes: real, d: nat, j: nat, k: nat)
    requires IsUnit(bytes, d, j) && IsUnit(bytes, d, k)
    ensures j == k
  {
  }

  /** Renders a size with the largest decimal unit it reaches. */
  method CompactSize(bytes: real, decimals: nat) returns (number: string, unit: string)
    ensures exists k: nat :: IsUnit(bytes, decimals, k)
    ensures forall k: nat :: IsUnit(bytes, decimals, k) ==>
              unit == ["B", "kB", "MB", "GB", "TB", "PB", "EB"][k] && ReadSigned(number) == Rounded(InUnit(bytes, k), decimals)
    ensures NothingToTrim(number)
  {
    var value := bytes;
    var k := 0;
    assert value == InUnit(bytes, 0);
    while !(Abs(Rounded(value, decimals)) < 1000.0 || k == |SIZE_UNITS| - 1)
      invariant 0 <= k < |SIZE_UNITS|
      invariant value == InUnit(bytes, k)
      invariant forall j: nat :: j < k ==> !Fits(bytes, decimals, j)
      decreases |SIZE_UNITS| - k
    {
      NextUnit(bytes, k);
      value := value / 1000.0;
      k := k + 1;
    }
    number := Show(value, decimals);
    ShowReads(value, decimals);
    unit := SIZE_UNITS[k];
    assert IsUnit(bytes, decimals, k);
    forall j: nat | IsUnit(bytes, decimals, j)
      ensures j == k
    {
      UnitUnique(bytes, decimals, j, k);
    }
  }

  // ----------------------------------------------------- what a shown size means

  lemma StepsReach(x: real, r: real, p: int)
    requires p >= 1 && Steps(x, r) >= 1000 * p
    ensures Steps(x / 1000.0, r) >= p
  {
    Shift(x, r);
    NearestIsNear(x * r);
    NearestIsNear((x / 1000.0) * r);
  }

  lemma AtLeast(s: int, m: int, p: int)
    requires p >= 1
    ensures s as real / p as real >= m as real <==> s >= m * p
  {
    WholeProduct(m, p);
    DivideBoth((m * p) as real, s as real, p as real);
  }

  lemma Shift(x: real, r: real)
    ensures (x / 1000.0) * r == (x * r) / 1000.0
  {
  }

  lemma ReachesOne(x: real, p: int)
    requires p >= 1 && RoundedTo(x, p as real) >= 1000.0
    ensures RoundedTo(x / 1000.0, p as real) >= 1.0
  {
    assert RoundedTo(x, p as real) >= 1000 as real;
    AtLeast(Steps(x, p as real), 1000, p);
    StepsReach(x, p as real, p);
    AtLeast(Steps(x / 1000.0, p as real), 1, p);
  }

  lemma AbsInUnit(bytes: real, k: nat)
    ensures Abs(InUnit(bytes, k)) == InUnit(Abs(bytes), k)
  {
    NegatedQuotient(bytes, Pow1000(k));
    DivideBoth(0.0, bytes, Pow1000(k));
    DivideBoth(bytes, 0.0, Pow1000(k));
  }

  /** In the chosen unit a size reads as at least 1 unless it is in bytes, as less than 1000 unless
      the unit is the last one, and is off by at most half a last decimal. */
  lemma ShownRange(bytes: real, d: nat, k: nat)
    requires IsUnit(bytes, d, k)
    ensures k < |SIZE_UNITS| - 1 ==> Abs(Rounded(InUnit(bytes, k), d)) < 1000.0
    ensures k > 0 ==> Abs(Rounded(InUnit(bytes, k), d)) >= 1.0
    ensures Abs(Rounded(InUnit(bytes, k), d) - InUnit(bytes, k)) <= 0.5 / Unit(d)
  {
    RoundedIsNear(InUnit(bytes, k), Unit(d));
    if k > 0 {
      assert !Fits(bytes, d, k - 1);
      RoundedAbs(InUnit(bytes, k - 1), d);
      RoundedAbs(InUnit(bytes, k), d);
      AbsInUnit(bytes, k - 1);
      AbsInUnit(bytes, k);
      NextUnit(Abs(bytes), k - 1);
      ReachesOne(InUnit(Abs(bytes), k - 1), Pow10(d));
    }
  }

  /** The size a shown number and unit stand for, in bytes. */
  function Shown(bytes: real, d: nat, k: nat): real { Times(Rounded(InUnit(bytes, k), d), Pow1000(k)) }

  function Times(x: real, y: real): real { x * y }

  lemma TimesMonotone(x: real, y: real, p: real)
    requires x <= y && p > 0.0
    ensures Times(x, p) <= Times(y, p)
  {
  }

  lemma {:induction false} Pow1000Grows(j: nat, k: nat)
    requires j < k
    ensures 1000.0 * Pow1000(j) <= Pow1000(k)
  {
    if j + 1 < k { Pow1000Grows(j, k - 1); }
  }

  lemma SmallerUnit(x: real, p: real, y: real, q: real)
    requires x < 1000.0 && y >= 1.0 && p > 0.0 && 1000.0 * p <= q
    ensures Times(x, p) <= Times(y, q)
  {
    MultiplyBoth(x, 1000.0, p);
    MultiplyBoth(1.0, y, q);
  }

  lemma UnitMonotone(a: real, b: real, d: nat, j: nat, k: nat)
    requires 0.0 <= a <= b && IsUnit(a, d, j) && IsUnit(b, d, k)
    ensures j <= k
  {
    InUnitMonotone(a, b, d, k);
    assert Fits(b, d, k) ==> Fits(a, d, k);
  }

  /** A larger size is never shown smaller, nor in a smaller unit. */
  lemma ShownMonotone(a: real, b: real, d: nat, j: nat, k: nat)
    requires 0.0 <= a <= b && IsUnit(a, d, j) && IsUnit(b, d, k)
    ensures j <= k && Shown(a, d, j) <= Shown(b, d, k)
  {
    UnitMonotone(a, b, d, j, k);
    InUnitMonotone(a, b, d, j);
    if j < k {
      InUnitMonotone(a, a, d, j);
      InUnitMonotone(b, b, d, k);
      ShownRange(a, d, j);
      ShownRange(b, d, k);
      Pow1000Grows(j, k);
      SmallerUnit(Rounded(InUnit(a, j), d), Pow1000(j), Rounded(InUnit(b, k), d), Pow1000(k));
    } else {
      TimesMonotone(Rounded(InUnit(a, j), d), Rounded(InUnit(b, j), d), Pow1000(j));
    }
  }

  lemma InUnitMonotone(a: real, b: real, d: nat, k: nat)
    requires 0.0 <= a <= b
    ensures 0.0 <= Rounded(InUnit(a, k), d) <= Rounded(InUnit(b, k), d)
  {
    DivideBoth(a, b, Pow1000(k));
    DivideBoth(0.0, a, Pow1000(k));
    assert 0.0 / Pow1000(k) == 0.0;
    RoundedInt(0, d);
    RoundedMonotone(0.0, InUnit(a, k), Unit(d));
    RoundedMonotone(InUnit(a, k), InUnit(b, k), Unit(d));
  }
}
