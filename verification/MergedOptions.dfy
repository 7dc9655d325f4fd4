/** Merging the options of all input items that ask for one file (`_options_from_input_items`)
    and the transfer timeout derived from them (`_compute_actual_transfer_timeout`). */
module MergedOptions {
  import opened Wrappers
  import opened Arithmetic
  import opened Items

  /** Archives are resolved unless the item says otherwise. */
  predicate WantsArchives(i: InputItem) { i.noResolveArchives != Some(true) }

  datatype Options = Options(
    destinations: set<(string, bool)>, ignoreChecksum: bool, sizeOnly: bool, resolveArchives: bool,
    timeout: Option<int>, speed: Option<real>)

  // -------------------------------------------------------------------- merging

  ghost predicate IsMaxTimeout(items: seq<InputItem>, t: Option<int>) {
    && (t.None? <==> forall i :: i in items ==> i.timeout.None?)
    && (t.Some? ==> (exists i :: i in items && i.timeout == t)
                    && forall i :: i in items && i.timeout.Some? ==> i.timeout.value <= t.value)
  }

  ghost predicate IsMinSpeed(items: seq<InputItem>, s: Option<real>) {
    && (s.None? <==> forall i :: i in items ==> i.speed.None?)
    && (s.Some? ==> (exists i :: i in items && i.speed == s)
                    && forall i :: i in items && i.speed.Some? ==> s.value <= i.speed.value)
  }

  /** What the merge means, in terms of membership alone. */
  ghost predicate IsMerge(items: seq<InputItem>, o: Options) {
    && (forall d :: d in o.destinations <==> exists i :: i in items && d == (i.baseDir, i.noSubdir))
    && (o.ignoreChecksum <==> exists i :: i in items && i.ignoreChecksum)
    && (o.sizeOnly <==> exists i :: i in items && i.sizeOnly)
    && (o.resolveArchives <==> exists i :: i in items && i.noResolveArchives != Some(true))
    && IsMaxTimeout(items, o.timeout)
    && IsMinSpeed(items, o.speed)
  }

  function MaxTimeout(current: Option<int>, new_: Option<int>): Option<int> {
    if current.Some? && new_.Some? then (if new_.value > current.value then new_ else current)
    else if new_.Some? then new_ else current
  }

  function MinSpeed(current: Option<real>, new_: Option<real>): Option<real> {
    if current.Some? && new_.Some? then (if new_.value < current.value then new_ else current)
    else if new_.Some? then new_ else current
  }

  /** One item merged into the options so far. */
  function Step(o: Options, i: InputItem): Options {
    Options(
      o.destinations + {(i.baseDir, i.noSubdir)},
      o.ignoreChecksum || i.ignoreChecksum,
      o.sizeOnly || i.sizeOnly,
      o.resolveArchives || WantsArchives(i),
      MaxTimeout(o.timeout, i.timeout),
      MinSpeed(o.speed, i.speed))
  }

  lemma MembersSnoc<T>(s: seq<T>, x: T)
    ensures x in s + [x]
    ensures forall y :: y in s ==> y in s + [x]
    ensures forall y :: y in s + [x] ==> y in s || y == x
  {}

  lemma MaxTimeoutSnoc(items: seq<InputItem>, t: Option<int>, i: InputItem)
    requires IsMaxTimeout(items, t)
    ensures IsMaxTimeout(items + [i], MaxTimeout(t, i.timeout))
  {
    MembersSnoc(items, i);
    if t.Some? {
      var j :| j in items && j.timeout == t;
      assert j in items + [i];
    }
  }

  lemma MinSpeedSnoc(items: seq<InputItem>, s: Option<real>, i: InputItem)
    requires IsMinSpeed(items, s)
    ensures IsMinSpeed(items + [i], MinSpeed(s, i.speed))
  {
    MembersSnoc(items, i);
    if s.Some? {
      var j :| j in items && j.speed == s;
      assert j in items + [i];
    }
  }

  lemma MergeSnoc(items: seq<InputItem>, o: Options, i: InputItem)
    requires IsMerge(items, o)
    ensures IsMerge(items + [i], Step(o, i))
  {
    MembersSnoc(items, i);
    MaxTimeoutSnoc(items, o.timeout, i);
    MinSpeedSnoc(items, o.speed, i);
  }

  lemma MergeOneMore(items: seq<InputItem>, n: nat, o: Options)
    requires n < |items| && IsMerge(items[..n], o)
    ensures IsMerge(items[..n + 1], Step(o, items[n]))
  {
    assert items[..n + 1] == items[..n] + [items[n]];
    MergeSnoc(items[..n], o, items[n]);
  }

  /** The loop body, option by option. */
  method MergeItem(o0: Options, i: InputItem) returns (o: Options)
    ensures o == Step(o0, i)
  {
    o := o0.(destinations := o0.destinations + {(i.baseDir, i.noSubdir)});
    o := o.(ignoreChecksum := o.ignoreChecksum || i.ignoreChecksum, sizeOnly := o.sizeOnly || i.sizeOnly);
    o := o.(resolveArchives := o.resolveArchives || WantsArchives(i));
    if o.timeout.Some? && i.timeout.Some? {
      o := o.(timeout := Some(if o.timeout.value >= i.timeout.value then o.timeout.value else i.timeout.value));
    } else if i.timeout.Some? {
      o := o.(timeout := i.timeout);
    }
    if o.speed.Some? && i.speed.Some? {
      o := o.(speed := Some(if o.speed.value <= i.speed.value then o.speed.value else i.speed.value));
    } else if i.speed.Some? {
      o := o.(speed := i.speed);
    }
  }

  /** The merge loop. Without items there are no options at all. */
  method Merge(items: seq<InputItem>) returns (r: Option<Options>)
    ensures r.None? <==> items == []
    ensures r.Some? ==> IsMerge(items, r.value)
  {
    if items == [] {
      return None;
    }
    var o := Options({}, false, false, false, None, None);
    for n := 0 to |items|
      invariant IsMerge(items[..n], o)
    {
      ghost var before := o;
      o := MergeItem(o, items[n]);
      MergeOneMore(items, n, before);
    }
    assert items[..|items|] == items;
    r := Some(o);
  }

  /** Merged options depend only on which items ask for the file, not on their order or repetition. */
  lemma MergeDependsOnSet(items1: seq<InputItem>, o1: Options, items2: seq<InputItem>, o2: Options)
    requires IsMerge(items1, o1) && IsMerge(items2, o2)
    requires forall i :: i in items1 <==> i in items2
    ensures o1 == o2
  {
    assert o1.destinations == o2.destinations;
  }

  /** The join of two merged options. */
  function Join(a: Options, b: Options): Options {
    Options(a.destinations + b.destinations, a.ignoreChecksum || b.ignoreChecksum, a.sizeOnly || b.sizeOnly,
            a.resolveArchives || b.resolveArchives, MaxTimeout(a.timeout, b.timeout), MinSpeed(a.speed, b.speed))
  }

  /** Merging is a homomorphism: the options of two groups of items together are the join of
      the options of each, so groups may be merged apart and in any grouping. */
  lemma MergeOfConcatIsJoin(items1: seq<InputItem>, o1: Options, items2: seq<InputItem>, o2: Options, o: Options)
    requires IsMerge(items1, o1) && IsMerge(items2, o2) && IsMerge(items1 + items2, o)
    ensures o == Join(o1, o2) == Join(o2, o1)
  {
    assert forall i :: i in items1 + items2 <==> i in items1 || i in items2;
    assert o.destinations == o1.destinations + o2.destinations == o2.destinations + o1.destinations;
    JoinTimeouts(items1, o1.timeout, items2, o2.timeout, o.timeout);
    JoinSpeeds(items1, o1.speed, items2, o2.speed, o.speed);
  }

  lemma JoinTimeouts(items1: seq<InputItem>, t1: Option<int>, items2: seq<InputItem>, t2: Option<int>, t: Option<int>)
    requires IsMaxTimeout(items1, t1) && IsMaxTimeout(items2, t2) && IsMaxTimeout(items1 + items2, t)
    ensures t == MaxTimeout(t1, t2) == MaxTimeout(t2, t1)
  {
    assert forall i :: i in items1 + items2 <==> i in items1 || i in items2;
  }

  lemma JoinSpeeds(items1: seq<InputItem>, s1: Option<real>, items2: seq<InputItem>, s2: Option<real>, s: Option<real>)
    requires IsMinSpeed(items1, s1) && IsMinSpeed(items2, s2) && IsMinSpeed(items1 + items2, s)
    ensures s == MinSpeed(s1, s2) == MinSpeed(s2, s1)
  {
    assert forall i :: i in items1 + items2 <==> i in items1 || i in items2;
  }

  // -------------------------------------------------------------------- timeout

  const DEFAULT_TIMEOUT := 360
  const DEFAULT_SPEED := 500.0
  const STATIC_INCREMENT := 60

  /** `bytes // (kBps * 1000)`. */
  function TransferSeconds(bytes: nat, kBps: real): int
    requires kBps > 0.0
  {
    (bytes as real / (kBps * 1000.0)).Floor
  }

  function ActualTimeout(timeout: Option<int>, speed: Option<real>, bytes: Option<nat>): int {
    if timeout.Some? then timeout.value
    else if bytes.None? || bytes.value == 0 || speed.None? then DEFAULT_TIMEOUT
    else TransferSeconds(bytes.value, Effective(speed.value)) + STATIC_INCREMENT
  }

  /** The speed a timeout is computed with. */
  function Effective(speed: real): (s: real)
    ensures s > 0.0
  {
    if speed > 0.0 then speed else DEFAULT_SPEED
  }

  /** The timeout asked for; without the size or a speed six minutes; otherwise the whole seconds the transfer takes at
      the speed, which is 500 kB/s if it is not positive, and a minute. */
  lemma TimeoutMeans(timeout: Option<int>, speed: Option<real>, bytes: Option<nat>)
    ensures timeout.Some? ==> ActualTimeout(timeout, speed, bytes) == timeout.value
    ensures timeout.None? && (speed.None? || bytes.None? || bytes.value == 0) ==> ActualTimeout(timeout, speed, bytes) == 360
    ensures timeout.None? && speed.Some? && bytes.Some? && bytes.value > 0 ==>
              var perSecond := (if speed.value > 0.0 then speed.value else 500.0) * 1000.0;
              var seconds := ActualTimeout(timeout, speed, bytes) - 60;
              seconds as real * perSecond <= bytes.value as real < (seconds + 1) as real * perSecond
  {
    if timeout.None? && speed.Some? && bytes.Some? && bytes.value > 0 {
      WholeSeconds(bytes.value as real, Effective(speed.value) * 1000.0);
    }
  }

  lemma WholeSeconds(b: real, perSecond: real)
    requires perSecond > 0.0
    ensures var seconds := (b / perSecond).Floor;
            seconds as real * perSecond <= b < (seconds + 1) as real * perSecond
  {
    var q := b / perSecond;
    assert q * perSecond == b;
    Between(q.Floor as real, q, (q.Floor + 1) as real, perSecond, b);
  }

  lemma Between(low: real, q: real, high: real, x: real, b: real)
    requires low <= q < high && x > 0.0 && q * x == b
    ensures low * x <= b < high * x
  {
    MultiplyBoth(low, q, x);
    assert (high - q) * x > 0.0;
    assert high * x == (high - q) * x + q * x;
  }

  lemma SlowerTakesLonger(bytes: nat, slow: real, fast: real)
    requires 0.0 < slow <= fast
    ensures TransferSeconds(bytes, slow) >= TransferSeconds(bytes, fast)
  {
    DivideByMore(bytes as real, slow * 1000.0, fast * 1000.0);
  }

  // ------------------------------------------------- when merging shortens a timeout

  /** The timeout of the item is covered by the merged options, read off the options alone. A fixed merged
      timeout covers fixed ones, and an item that gets the default if it is no shorter than that; a merged
      speed covers items that are no slower, and those that get the default if even the smallest file takes long. */
  predicate Covered(i: InputItem, o: Options) {
    if o.timeout.Some? then i.timeout.Some? || (i.speed.None? && o.timeout.value >= DEFAULT_TIMEOUT)
    else if o.speed.None? then true
    else if i.speed.None? then TransferSeconds(1, Effective(o.speed.value)) + STATIC_INCREMENT >= DEFAULT_TIMEOUT
    else Effective(i.speed.value) >= Effective(o.speed.value)
  }

  function Own(i: InputItem, bytes: Option<nat>): int { ActualTimeout(i.timeout, i.speed, bytes) }

  function Merged(o: Options, bytes: Option<nat>): int { ActualTimeout(o.timeout, o.speed, bytes) }

  /** Whatever the file, the merged timeout is no shorter than the item's own. */
  ghost predicate NeverShorter(i: InputItem, o: Options) {
    forall bytes :: Merged(o, bytes) >= Own(i, bytes)
  }

  /** What is left of the merged options for one of the items. */
  lemma MergedBounds(items: seq<InputItem>, o: Options, i: InputItem)
    requires IsMerge(items, o) && i in items
    ensures i.timeout.Some? ==> o.timeout.Some? && i.timeout.value <= o.timeout.value
    ensures i.speed.Some? ==> o.speed.Some? && o.speed.value <= i.speed.value
  {
  }

  /** More bytes take longer. */
  lemma MoreTakesLonger(a: nat, b: nat, kBps: real)
    requires a <= b && kBps > 0.0
    ensures TransferSeconds(a, kBps) <= TransferSeconds(b, kBps)
  {
    DivideBoth(a as real, b as real, kBps * 1000.0);
  }

  /** A speed is slow enough for any number of seconds. */
  lemma SlowSpeedIsSlow(kBps: real, seconds: nat) returns (bytes: nat)
    requires kBps > 0.0
    ensures bytes > 0 && TransferSeconds(bytes, kBps) >= seconds
  {
    var x := kBps * 1000.0;
    bytes := (seconds as real * x).Floor + 1;
    DivideBoth(seconds as real * x, bytes as real, x);
    assert (seconds as real * x) / x == seconds as real;
  }

  /** For two different speeds there is a file whose times differ. */
  lemma SlowerIsSlower(slow: real, fast: real) returns (bytes: nat)
    requires 0.0 < slow < fast
    ensures bytes > 0 && TransferSeconds(bytes, slow) > TransferSeconds(bytes, fast)
  {
    var x, y := slow * 1000.0, fast * 1000.0;
    var b := x * y / (y - x);
    DivideBoth(0.0, x * y, y - x);
    bytes := b.Floor + 1;
    QuotientsApart(bytes as real, x, y);
  }

  lemma QuotientsApart(b: real, x: real, y: real)
    requires 0.0 < x < y && b >= x * y / (y - x)
    ensures b / x >= b / y + 1.0
  {
    var p, q, g := b / x, b / y, x * y / (y - x);
    assert g * (y - x) == x * y;
    assert p * x == b && q * y == b;
    MultiplyBoth(g, b, y - x);
    assert b * (y - x) >= x * y;
    Product(p, x, b, y);
    Product(q, y, b, x);
    assert (p - q) * (x * y) == p * (x * y) - q * (y * x) == b * y - b * x == b * (y - x);
    Descale(p - q, 1.0, x * y);
  }

  lemma Product(p: real, x: real, b: real, y: real)
    requires p * x == b
    ensures p * (x * y) == b * y
  {
  }

  lemma Descale(a: real, b: real, x: real)
    requires x > 0.0 && a * x >= b * x
    ensures a >= b
  {
    DivideBoth(b * x, a * x, x);
    assert (a * x) / x == a && (b * x) / x == b;
  }

  lemma CoveredSuffices(items: seq<InputItem>, o: Options, i: InputItem, bytes: Option<nat>)
    requires IsMerge(items, o) && i in items && Covered(i, o)
    ensures Merged(o, bytes) >= Own(i, bytes)
  {
    MergedBounds(items, o, i);
    if o.timeout.None? && o.speed.Some? && bytes.Some? && bytes.value > 0 {
      if i.speed.None? {
        MoreTakesLonger(1, bytes.value, Effective(o.speed.value));
      } else {
        SlowerTakesLonger(bytes.value, Effective(o.speed.value), Effective(i.speed.value));
      }
    }
  }

  /** A file for which the merged timeout of an item that is not covered is too short. */
  lemma UncoveredFile(items: seq<InputItem>, o: Options, i: InputItem) returns (bytes: Option<nat>)
    requires IsMerge(items, o) && i in items && !Covered(i, o)
    ensures Merged(o, bytes) < Own(i, bytes)
  {
    MergedBounds(items, o, i);
    if o.timeout.Some? {
      if i.speed.None? {
        bytes := None;
      } else {
        var b := SlowSpeedIsSlow(Effective(i.speed.value), if o.timeout.value > 0 then o.timeout.value else 0);
        bytes := Some(b);
      }
    } else if i.speed.None? {
      bytes := Some(1);
    } else {
      var b := SlowerIsSlower(Effective(i.speed.value), Effective(o.speed.value));
      bytes := Some(b);
    }
  }

  /** For given items, the merged timeout is never shorter than the one any of them would get alone if
      and only if each is covered. */
  lemma NeverShorterIffCovered(items: seq<InputItem>, o: Options)
    requires IsMerge(items, o)
    ensures (forall i :: i in items ==> Covered(i, o)) <==> (forall i :: i in items ==> NeverShorter(i, o))
  {
    forall i | i in items
      ensures Covered(i, o) <==> NeverShorter(i, o)
    {
      if Covered(i, o) {
        forall bytes
          ensures Merged(o, bytes) >= Own(i, bytes)
        {
          CoveredSuffices(items, o, i, bytes);
        }
      } else {
        var bytes := UncoveredFile(items, o, i);
      }
    }
  }

  /** What an item asks for, as far as its timeout goes. */
  datatype Kind = Fixed | Unset | Positive | NonPositive

  function KindOf(i: InputItem): Kind {
    if i.timeout.Some? then Fixed
    else if i.speed.None? then Unset
    else if i.speed.value > 0.0 then Positive
    else NonPositive
  }

  /** Items that all ask in the same way are covered. In particular, if none fixes a timeout and all
      give a positive minimum speed, the merged timeout is never shorter than any single one's. */
  lemma MergedNeverShorter(items: seq<InputItem>, o: Options, i: InputItem)
    requires IsMerge(items, o) && i in items
    requires forall j :: j in items ==> KindOf(j) == KindOf(i)
    ensures NeverShorter(i, o)
  {
    MergedBounds(items, o, i);
    if o.timeout.Some? {
      var j :| j in items && j.timeout == o.timeout;
      assert KindOf(j) == KindOf(i);
    } else if o.speed.Some? {
      var j :| j in items && j.speed == o.speed;
      assert KindOf(j) == KindOf(i);
    }
    assert Covered(i, o);
    forall bytes
      ensures Merged(o, bytes) >= Own(i, bytes)
    {
      CoveredSuffices(items, o, i, bytes);
    }
  }

  function ItemOf(timeout: Option<int>, speed: Option<real>): InputItem {
    InputItem(".", false, false, false, None, None, None, timeout, speed, 0, [])
  }

  /** An item of each kind that gets a short timeout, and one that gets a long one. */
  function ShortItem(k: Kind): InputItem {
    match k
    case Fixed => ItemOf(Some(1), None)
    case Unset => ItemOf(None, None)
    case Positive => ItemOf(None, Some(500.0))
    case NonPositive => ItemOf(None, Some(0.0))
  }

  function LongItem(k: Kind): InputItem {
    match k
    case Fixed => ItemOf(Some(1000), None)
    case Unset => ItemOf(None, None)
    case Positive => ItemOf(None, Some(1.0))
    case NonPositive => ItemOf(None, Some(0.0))
  }

  lemma PairMerge(a: InputItem, b: InputItem)
    ensures IsMerge([a, b], Step(Step(Options({}, false, false, false, None, None), a), b))
  {
    var o := Options({}, false, false, false, None, None);
    assert IsMerge([], o);
    MergeSnoc([], o, a);
    assert [] + [a] == [a] && [a] + [b] == [a, b];
    MergeSnoc([a], Step(o, a), b);
  }

  /** The merged timeout of `a` and `b` is shorter than what one of the two would get alone. */
  ghost predicate Shortened(a: InputItem, b: InputItem, o: Options, bytes: Option<nat>) {
    IsMerge([a, b], o) && (Merged(o, bytes) < Own(a, bytes) || Merged(o, bytes) < Own(b, bytes))
  }

  /** For each two different kinds there are items that are not covered, and a file for which it shows. */
  lemma MixedKindsFail(k: Kind, l: Kind)
    requires k != l
    ensures exists a, b, o, bytes :: KindOf(a) == k && KindOf(b) == l && Shortened(a, b, o, bytes)
  {
    var a := if k != Fixed && (l == Fixed || l == NonPositive) then LongItem(k) else ShortItem(k);
    var b := if l != Fixed && (k == Fixed || k == NonPositive) then LongItem(l) else ShortItem(l);
    var o := Step(Step(Options({}, false, false, false, None, None), a), b);
    PairMerge(a, b);
    assert TransferSeconds(1, 500.0) == 0;
    assert !(Covered(a, o) && Covered(b, o));
    var bytes := UncoveredFile([a, b], o, if Covered(a, o) then b else a);
    assert Shortened(a, b, o, bytes);
  }
}
