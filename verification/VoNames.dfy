/** The values `rename_vo` works on: scope and account names that carry their VO behind an `@`,
    except for the default VO, and the rewrite of one value (`split_vo`, PostgreSQL branch). */
module VoNames {

  const DEFAULT_VO := "def"

  /** Position of the first `@`, the length of the string if there is none. */
  function FirstAt(s: string): (i: nat)
    ensures i <= |s| && '@' !in s[..i] && (i < |s| ==> s[i] == '@')
  {
    if s == "" || s[0] == '@' then 0
    else
      var i := FirstAt(s[1..]);
      assert s[..i + 1] == [s[0]] + s[1..][..i];
      1 + i
  }

  /** `split_part(s, '@', 1)`. */
  function Name(s: string): string { s[..FirstAt(s)] }

  /** What follows the first `@`. */
  function Rest(s: string): string { if FirstAt(s) < |s| then s[FirstAt(s) + 1..] else "" }

  /** `split_part(s, '@', 2)`: empty if there is no `@`. */
  function Vo(s: string): string { Name(Rest(s)) }

  /** How a VO is written behind the name; the default VO is not written at all. */
  function Suffix(vo: string): string { if vo == DEFAULT_VO then "" else vo }

  /** `CAST(... AS CHAR(4))`: longer strings are cut. */
  function Char4(s: string): string { if |s| <= 4 then s else s[..4] }

  /** The new value of a column whose old value is `s`. */
  function Rewrite(oldVo: string, newVo: string, s: string): string {
    if Vo(s) != Suffix(oldVo) then s
    else if newVo == DEFAULT_VO then Name(s)
    else Name(s) + Char4("@" + newVo)
  }

  /** A name without VO, or name@vo. */
  predicate WellFormed(s: string) {
    FirstAt(s) == |s| || (Rest(s) != "" && '@' !in Rest(s))
  }

  /** A VO name: nothing that would read as a separator, and short enough to survive the cast. */
  predicate ValidVo(vo: string) { vo != "" && '@' !in vo && |vo| <= 3 }

  lemma {:induction false} FirstAtOf(a: string, b: string)
    requires '@' !in a && (b == "" || b[0] == '@')
    ensures FirstAt(a + b) == |a|
  {
    if a == "" {
      assert a + b == b;
    } else {
      assert a[0] in a && (a + b)[1..] == a[1..] + b;
      FirstAtOf(a[1..], b);
    }
  }

  /** A well-formed value is its name followed by its VO, if any. */
  lemma Recompose(s: string)
    requires WellFormed(s)
    ensures s == Name(s) + if Vo(s) == "" then "" else "@" + Vo(s)
    ensures '@' !in Name(s) && '@' !in Vo(s)
  {
    var i := FirstAt(s);
    if i == |s| {
      assert Rest(s) == "" && s[..i] == s;
    } else {
      assert Vo(s) == Rest(s) by {
        FirstAtOf(Rest(s), "");
        assert Rest(s) + "" == Rest(s);
      }
      assert s == s[..i] + "@" + s[i + 1..];
    }
  }

  /** Composing a name and a VO gives a value with just these. */
  lemma Compose(name: string, vo: string)
    requires '@' !in name && '@' !in vo
    ensures var s := name + if vo == "" then "" else "@" + vo; WellFormed(s) && Name(s) == name && Vo(s) == vo
  {
    var tail := if vo == "" then "" else "@" + vo;
    var s := name + tail;
    FirstAtOf(name, tail);
    if vo != "" {
      assert Rest(s) == vo;
      FirstAtOf(vo, "");
      assert vo + "" == vo;
    } else {
      assert s == name && Rest(s) == "";
    }
  }

  /** Values of other VOs stay as they are; a value of the old VO keeps its name and moves to the new VO. */
  lemma RewriteMoves(oldVo: string, newVo: string, s: string)
    requires WellFormed(s) && ValidVo(newVo)
    ensures WellFormed(Rewrite(oldVo, newVo, s)) && Name(Rewrite(oldVo, newVo, s)) == Name(s)
    ensures Vo(Rewrite(oldVo, newVo, s)) == if Vo(s) == Suffix(oldVo) then Suffix(newVo) else Vo(s)
  {
    Recompose(s);
    Compose(Name(s), Suffix(newVo));
    if newVo == DEFAULT_VO {
      assert Name(s) + "" == Name(s);
    }
  }

  /** Two well-formed values with the same name and VO are the same. */
  lemma SameParts(s: string, t: string)
    requires WellFormed(s) && WellFormed(t) && Name(s) == Name(t) && Vo(s) == Vo(t)
    ensures s == t
  {
    Recompose(s);
    Recompose(t);
  }

  /** Two values become one exactly if one is of the old VO, the other already of the new one, and their names agree. */
  lemma RewriteMergesIff(oldVo: string, newVo: string, s: string, t: string)
    requires WellFormed(s) && WellFormed(t) && ValidVo(newVo) && oldVo != newVo
    requires s != t
    ensures Rewrite(oldVo, newVo, s) == Rewrite(oldVo, newVo, t) <==>
              && Name(s) == Name(t)
              && (|| (Vo(s) == Suffix(oldVo) && Vo(t) == Suffix(newVo))
                  || (Vo(t) == Suffix(oldVo) && Vo(s) == Suffix(newVo)))
  {
    RewriteMoves(oldVo, newVo, s);
    RewriteMoves(oldVo, newVo, t);
    var s1, t1 := Rewrite(oldVo, newVo, s), Rewrite(oldVo, newVo, t);
    if Name(s) == Name(t) && Vo(s) == Vo(t) {
      SameParts(s, t);
    }
    if Name(s1) == Name(t1) && Vo(s1) == Vo(t1) {
      SameParts(s1, t1);
    }
  }

  /** Renaming back restores the value, unless it was of the new VO to begin with. */
  lemma RewriteBack(oldVo: string, newVo: string, s: string)
    requires WellFormed(s) && ValidVo(oldVo) && ValidVo(newVo)
    ensures Rewrite(newVo, oldVo, Rewrite(oldVo, newVo, s)) == s <==> Vo(s) != Suffix(newVo) || oldVo == newVo
  {
    var s1 := Rewrite(oldVo, newVo, s);
    RewriteMoves(oldVo, newVo, s);
    RewriteMoves(newVo, oldVo, s1);
    var s2 := Rewrite(newVo, oldVo, s1);
    if Vo(s2) == Vo(s) {
      SameParts(s2, s);
    }
  }

  /** A new VO of more than three characters is cut, so the value does not end up in it. */
  lemma LongVoIsCut(oldVo: string, newVo: string, s: string)
    requires WellFormed(s) && Vo(s) == Suffix(oldVo) && newVo != "" && newVo != DEFAULT_VO && '@' !in newVo
    ensures Vo(Rewrite(oldVo, newVo, s)) == newVo <==> |newVo| <= 3
  {
    Recompose(s);
    var cut := if |newVo| <= 3 then newVo else newVo[..3];
    assert Char4("@" + newVo) == "@" + cut;
    Compose(Name(s), cut);
  }

  /** A name in a VO; in the default VO it stands alone. */
  function InVo(name: string, vo: string): string { if vo == "def" then name else name + "@" + vo }

  /** A name in the old VO becomes the same name in the new VO, and one in another VO stays. */
  lemma RewriteText(oldVo: string, newVo: string, name: string, vo: string)
    requires '@' !in name && vo != "" && '@' !in vo && oldVo != "" && '@' !in oldVo && ValidVo(newVo)
    ensures Rewrite(oldVo, newVo, InVo(name, vo)) == InVo(name, if vo == oldVo then newVo else vo)
  {
    Compose(name, Suffix(vo));
    assert Char4("@" + newVo) == "@" + newVo;
    assert name + ("@" + newVo) == name + "@" + newVo;
    assert name + ("@" + vo) == name + "@" + vo;
    assert name + "" == name;
  }
}
