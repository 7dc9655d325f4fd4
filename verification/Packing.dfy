/** The last two loops of `_prepare_items_for_download`, which drop the sources a file will
    not use and gather the files of one archive into one pack, and the whole planner. */
module Packing {
  import opened Wrappers
  import opened Sequences
  import opened Items
  import opened ArchiveIndex
  import opened Planner

  // ----------------------------------------------------------------- filtering

  /** A file taken from an archive keeps its archive sources, one that could have been keeps the others. */
  function FinalSources(sources: seq<Source>, pure: bool, mixed: bool): seq<Source> {
    if pure then Keep(sources, (s: Source) => s.clientExtract)
    else if mixed then Keep(sources, (s: Source) => !s.clientExtract)
    else sources
  }

  method FilterSources(sources0: seq<seq<Source>>, pure: Index, mixed: Index) returns (sources: seq<seq<Source>>)
    ensures |sources| == |sources0|
    ensures forall f: Fiid :: f < |sources| ==>
              sources[f] == FinalSources(sources0[f], f in pure.archives, f in mixed.archives)
  {
    sources := sources0;
    for f := 0 to |sources0|
      invariant |sources| == |sources0|
      invariant forall g: Fiid :: g < |sources| ==>
                  sources[g] == if g < f then FinalSources(sources0[g], g in pure.archives, g in mixed.archives)
                                else sources0[g]
    {
      if f in pure.archives {
        sources := sources[f := Keep(sources[f], (s: Source) => s.clientExtract)];
      } else if f in mixed.archives {
        sources := sources[f := Keep(sources[f], (s: Source) => !s.clientExtract)];
      }
    }
  }

  // ------------------------------------------------------------------- packing

  function Members(e: Entry): seq<Fiid> {
    match e
    case Single(f, _) => [f]
    case Pack(_, _, members) => members
  }

  /** All files the entries carry, counted with repetition. */
  ghost function Carried(entries: seq<Entry>): multiset<Fiid> {
    if entries == [] then multiset{}
    else Carried(entries[..|entries| - 1]) + multiset(Members(entries[|entries| - 1]))
  }

  lemma {:induction false} CarriedUpdate(entries: seq<Entry>, k: nat, e: Entry, f: Fiid)
    requires k < |entries| && Members(e) == Members(entries[k]) + [f]
    ensures Carried(entries[k := e]) == Carried(entries) + multiset{f}
  {
    var last, entries1 := |entries| - 1, entries[k := e];
    assert Carried(entries) == Carried(entries[..last]) + multiset(Members(entries[last]));
    assert Carried(entries1) == Carried(entries1[..last]) + multiset(Members(entries1[last]));
    if k == last {
      assert entries1[..last] == entries[..last];
      assert multiset(Members(e)) == multiset(Members(entries[k])) + multiset{f};
    } else {
      CarriedUpdate(entries[..last], k, e, f);
      assert entries1[..last] == entries[..last][k := e];
    }
  }

  lemma {:induction false} CarriedSomewhere(entries: seq<Entry>, f: Fiid)
    requires f in Carried(entries)
    ensures exists e :: e in entries && f in Members(e)
  {
    var last := |entries| - 1;
    if f in Members(entries[last]) {
      assert entries[last] in entries;
    } else {
      CarriedSomewhere(entries[..last], f);
      var e :| e in entries[..last] && f in Members(e);
      assert e in entries;
    }
  }

  /** The first `n` file items, each once. */
  ghost function Everything(n: nat): multiset<Fiid> {
    if n == 0 then multiset{} else Everything(n - 1) + multiset{n - 1}
  }

  lemma {:induction false} EverythingOnce(n: nat, f: Fiid)
    ensures Everything(n)[f] == if f < n then 1 else 0
  {
    if n > 0 {
      EverythingOnce(n - 1, f);
    }
  }

  /** How many of the first `n` files are downloaded on their own. */
  function Singles(ix: Index, n: nat): nat {
    if n == 0 then 0 else Singles(ix, n - 1) + if n - 1 in ix.archives then 0 else 1
  }

  /** What one entry promises, for an index that assigns each file to at most one archive. */
  ghost predicate EntryOk(n: nat, sources: seq<seq<Source>>, ix: Index, e: Entry)
    requires n <= |sources|
  {
    match e
    case Single(f, s) => f < n && f !in ix.archives && s == sources[f]
    case Pack(a, s, members) =>
      && members != [] && members[0] < n && s == sources[members[0]]
      && (forall m :: m in members ==> m < n && m in ix.archives && ix.archives[m] == {a})
      && (forall i, j :: 0 <= i < j < |members| ==> members[i] < members[j])
  }

  /** Entries stand in the order of their first file; no archive has two packs; `packs` finds them. */
  ghost predicate PackIndex(entries: seq<Entry>, packs: map<Archive, nat>) {
    && (forall a :: a in packs ==> packs[a] < |entries| && entries[packs[a]].Pack? && entries[packs[a]].archive == a)
    && (forall j: nat :: j < |entries| && entries[j].Pack? ==> entries[j].archive in packs && packs[entries[j].archive] == j)
  }

  ghost predicate EntriesOk(n: nat, sources: seq<seq<Source>>, ix: Index, entries: seq<Entry>)
    requires n <= |sources|
  {
    && (forall j: nat :: j < |entries| ==> EntryOk(n, sources, ix, entries[j]))
    && (forall i: nat, j: nat :: i < j < |entries| ==> Members(entries[i])[0] < Members(entries[j])[0])
  }

  /** The entries are a packing of the first `n` files. */
  ghost predicate Packed(n: nat, sources: seq<seq<Source>>, ix: Index, entries: seq<Entry>, packs: map<Archive, nat>)
    requires n <= |sources|
  {
    EntriesOk(n, sources, ix, entries) && PackIndex(entries, packs) && AllCarried(n, ix, entries, packs)
  }

  /** Each of the first `n` files is carried once; there is an entry per single file and per archive. */
  ghost predicate AllCarried(n: nat, ix: Index, entries: seq<Entry>, packs: map<Archive, nat>) {
    Carried(entries) == Everything(n) && |entries| == Singles(ix, n) + |packs| && AllPacked(n, ix, packs)
  }

  /** Every file so far with an archive has a pack. */
  ghost predicate AllPacked(n: nat, ix: Index, packs: map<Archive, nat>) {
    forall f: Fiid, a {:trigger a in ix.archives[f]} :: f < n && f in ix.archives && a in ix.archives[f] ==> a in packs
  }

  /** An entry for file `n` may follow the entries for the files before it. */
  lemma EntriesOkSnoc(n: nat, sources: seq<seq<Source>>, ix: Index, entries: seq<Entry>, e: Entry)
    requires n < |sources| && EntriesOk(n, sources, ix, entries)
    requires EntryOk(n + 1, sources, ix, e) && Members(e)[0] == n
    ensures EntriesOk(n + 1, sources, ix, entries + [e])
  {
    assert forall j: nat :: j < |entries| ==> EntryOk(n, sources, ix, entries[j]);
  }

  lemma PackExtended(n: nat, sources: seq<seq<Source>>, ix: Index, e: Entry)
    requires n < |sources| && e.Pack? && EntryOk(n, sources, ix, e)
    requires n in ix.archives && ix.archives[n] == {e.archive}
    ensures EntryOk(n + 1, sources, ix, e.(members := e.members + [n]))
  {
    assert forall i :: 0 <= i < |e.members| ==> e.members[i] in e.members;
  }

  lemma EntriesOkExtend(n: nat, sources: seq<seq<Source>>, ix: Index, entries: seq<Entry>, k: nat)
    requires n < |sources| && EntriesOk(n, sources, ix, entries) && k < |entries|
    requires entries[k].Pack? && n in ix.archives && ix.archives[n] == {entries[k].archive}
    ensures EntriesOk(n + 1, sources, ix, entries[k := entries[k].(members := entries[k].members + [n])])
  {
    assert EntryOk(n, sources, ix, entries[k]);
    PackExtended(n, sources, ix, entries[k]);
    assert forall j: nat :: j < |entries| ==> EntryOk(n, sources, ix, entries[j]);
  }

  lemma CarriedSnoc(entries: seq<Entry>, e: Entry, f: Fiid)
    requires Members(e) == [f] && Carried(entries) == Everything(f)
    ensures Carried(entries + [e]) == Everything(f + 1)
  {
    assert (entries + [e])[..|entries|] == entries;
  }

  lemma PackedSingle(n: nat, sources: seq<seq<Source>>, ix: Index, entries: seq<Entry>, packs: map<Archive, nat>)
    requires n < |sources| && Packed(n, sources, ix, entries, packs) && n !in ix.archives
    ensures Packed(n + 1, sources, ix, entries + [Single(n, sources[n])], packs)
  {
    var e := Single(n, sources[n]);
    assert EntriesOk(n + 1, sources, ix, entries + [e]) by { EntriesOkSnoc(n, sources, ix, entries, e); }
    assert Carried(entries + [e]) == Everything(n + 1) by { CarriedSnoc(entries, e, n); }
    assert Singles(ix, n + 1) == Singles(ix, n) + 1;
    assert PackIndex(entries + [e], packs) by { PackIndexSingle(entries, packs, e); }
    assert AllPacked(n + 1, ix, packs);
  }

  lemma PackIndexSingle(entries: seq<Entry>, packs: map<Archive, nat>, e: Entry)
    requires PackIndex(entries, packs) && e.Single?
    ensures PackIndex(entries + [e], packs)
  {}

  lemma PackIndexNew(entries: seq<Entry>, packs: map<Archive, nat>, e: Entry)
    requires PackIndex(entries, packs) && e.Pack? && e.archive !in packs
    ensures PackIndex(entries + [e], packs[e.archive := |entries|])
    ensures |packs[e.archive := |entries|]| == |packs| + 1
  {}

  lemma PackIndexUpdate(entries: seq<Entry>, packs: map<Archive, nat>, a: Archive, e: Entry)
    requires PackIndex(entries, packs) && a in packs && e.Pack? && e.archive == a
    ensures PackIndex(entries[packs[a] := e], packs)
  {}

  lemma PackedNew(n: nat, sources: seq<seq<Source>>, ix: Index, entries: seq<Entry>, packs: map<Archive, nat>, a: Archive)
    requires n < |sources| && Packed(n, sources, ix, entries, packs)
    requires n in ix.archives && ix.archives[n] == {a} && a !in packs
    ensures Packed(n + 1, sources, ix, entries + [Pack(a, sources[n], [n])], packs[a := |entries|])
  {
    var e := Pack(a, sources[n], [n]);
    assert EntriesOk(n + 1, sources, ix, entries + [e]) by { EntriesOkSnoc(n, sources, ix, entries, e); }
    assert PackIndex(entries + [e], packs[a := |entries|]) by { PackIndexNew(entries, packs, e); }
    assert Carried(entries + [e]) == Everything(n + 1) by { CarriedSnoc(entries, e, n); }
    assert |packs[a := |entries|]| == |packs| + 1 by { PackIndexNew(entries, packs, e); }
    assert Singles(ix, n + 1) == Singles(ix, n);
  }

  lemma AllCarriedMore(n: nat, ix: Index, entries: seq<Entry>, packs: map<Archive, nat>, k: nat, e: Entry, a: Archive)
    requires AllCarried(n, ix, entries, packs) && k < |entries| && Members(e) == Members(entries[k]) + [n]
    requires n in ix.archives && ix.archives[n] == {a} && a in packs
    ensures AllCarried(n + 1, ix, entries[k := e], packs)
  {
    CarriedUpdate(entries, k, e, n);
  }

  lemma PackedMore(n: nat, sources: seq<seq<Source>>, ix: Index, entries: seq<Entry>, packs: map<Archive, nat>, a: Archive)
    requires n < |sources| && Packed(n, sources, ix, entries, packs)
    requires n in ix.archives && ix.archives[n] == {a} && a in packs
    ensures var e := entries[packs[a]];
            Packed(n + 1, sources, ix, entries[packs[a] := e.(members := e.members + [n])], packs)
  {
    var k, e := packs[a], entries[packs[a]];
    var e1 := e.(members := e.members + [n]);
    EntriesOkExtend(n, sources, ix, entries, k);
    AllCarriedMore(n, ix, entries, packs, k, e1, a);
    PackIndexUpdate(entries, packs, a, e1);
  }

  /** Body of the last loop: file `f` joins the pack of its archive, opens it, or stays alone. */
  method PackFile(f: Fiid, sources: seq<seq<Source>>, ix: Index, entries0: seq<Entry>, packs0: map<Archive, nat>)
    returns (entries: seq<Entry>, packs: map<Archive, nat>)
    requires forall f :: f in ix.archives ==> |ix.archives[f]| == 1
    requires f < |sources| && Packed(f, sources, ix, entries0, packs0)
    ensures Packed(f + 1, sources, ix, entries, packs)
  {
    if f !in ix.archives {
      PackedSingle(f, sources, ix, entries0, packs0);
      return entries0 + [Single(f, sources[f])], packs0;
    }
    var a :| a in ix.archives[f];
    assert ix.archives[f] == {a} by { SingleElement(ix.archives[f], a); }
    if a in packs0 {
      var k := packs0[a];
      PackedMore(f, sources, ix, entries0, packs0, a);
      return entries0[k := entries0[k].(members := entries0[k].members + [f])], packs0;
    }
    PackedNew(f, sources, ix, entries0, packs0, a);
    return entries0 + [Pack(a, sources[f], [f])], packs0[a := |entries0|];
  }

  /** Last loop: one entry per file without an archive, one pack per archive. */
  method PackAll(sources: seq<seq<Source>>, ix: Index) returns (entries: seq<Entry>, ghost packs: map<Archive, nat>)
    requires forall f :: f in ix.archives ==> |ix.archives[f]| == 1
    ensures Packed(|sources|, sources, ix, entries, packs)
  {
    entries := [];
    var found: map<Archive, nat> := map[];
    for f := 0 to |sources|
      invariant Packed(f, sources, ix, entries, found)
    {
      entries, found := PackFile(f, sources, ix, entries, found);
    }
    packs := found;
  }

  lemma ArchivesHavePacks(n: nat, ix: Index, packs: map<Archive, nat>)
    requires Inverse(ix) && NoneEmpty(ix) && AllPacked(n, ix, packs)
    requires forall f :: f in ix.archives ==> f < n
    ensures ix.files.Keys <= packs.Keys
  {
    forall a | a in ix.files
      ensures a in packs
    {
      assert HasFile(ix, a);
      var f :| f in ix.files[a];
      assert a in ix.archives[f];
    }
  }

  lemma PacksHaveArchives(n: nat, sources: seq<seq<Source>>, ix: Index, entries: seq<Entry>, packs: map<Archive, nat>)
    requires n <= |sources| && Inverse(ix) && PackIndex(entries, packs)
    requires forall j: nat :: j < |entries| ==> EntryOk(n, sources, ix, entries[j])
    ensures packs.Keys <= ix.files.Keys
  {
    forall a | a in packs
      ensures a in ix.files
    {
      var e := entries[packs[a]];
      assert e.members[0] in e.members;
      assert a in ix.archives[e.members[0]];
    }
  }

  /** Packs are exactly the archives left in the index, so entries number single files plus archives. */
  lemma PackCount(sources: seq<seq<Source>>, ix: Index, entries: seq<Entry>, packs: map<Archive, nat>)
    requires Inverse(ix) && NoneEmpty(ix) && (forall f :: f in ix.archives ==> f < |sources|)
    requires Packed(|sources|, sources, ix, entries, packs)
    ensures |entries| == Singles(ix, |sources|) + |ix.files|
  {
    assert packs.Keys == ix.files.Keys by {
      ArchivesHavePacks(|sources|, ix, packs);
      PacksHaveArchives(|sources|, sources, ix, entries, packs);
    }
    assert |packs| == |packs.Keys| && |ix.files| == |ix.files.Keys|;
  }

  // --------------------------------------------------------------- whole planner

  /** Archive `a` is worth downloading: some file must come from it, or enough files may. */
  ghost predicate WorthIt(items: seq<PlanItem>, tool: bool, threshold: int, a: Archive) {
    || (exists f: Fiid :: f < |items| && MustExtract(items[f], tool) && a in Archives(items[f], tool))
    || (exists fs: set<Fiid> :: |fs| >= threshold && forall f :: f in fs ==> f < |items| && a in Archives(items[f], tool))
  }

  /** An entry of the plan, in terms of the items the planner was given. */
  ghost predicate EntryPlanned(items: seq<PlanItem>, tool: bool, threshold: int, e: Entry) {
    match e
    case Single(f, sources) =>
      && f < |items| && !MustExtract(items[f], tool)
      && sources == (if Archives(items[f], tool) == {} then UsableSources(items[f], tool)
                     else Keep(UsableSources(items[f], tool), (s: Source) => !s.clientExtract))
    case Pack(a, sources, members) =>
      && WorthIt(items, tool, threshold, a)
      && members != [] && members[0] < |items|
      && sources == Keep(UsableSources(items[members[0]], tool), (s: Source) => s.clientExtract)
      && (forall m :: m in members ==> m < |items| && a in Archives(items[m], tool))
      && (forall i, j :: 0 <= i < j < |members| ==> members[i] < members[j])
  }

  /** No file is fetched directly while an archive holding it is fetched too. */
  ghost predicate NoDetour(items: seq<PlanItem>, tool: bool, entries: seq<Entry>) {
    forall i, j :: 0 <= i < |entries| && 0 <= j < |entries| && entries[i].Single? && entries[j].Pack?
                   && entries[i].fiid < |items| ==>
                     entries[j].archive !in Archives(items[entries[i].fiid], tool)
  }

  /** The pack cannot be spared: it carries a file that was free to use it, or that no other pack holds. */
  ghost predicate Needed(items: seq<PlanItem>, tool: bool, entries: seq<Entry>, e: Entry) {
    e.Pack? ==> exists m :: m in e.members && m < |items| && NoOtherPack(items[m], tool, entries, e.archive)
  }

  ghost predicate NoOtherPack(item: PlanItem, tool: bool, entries: seq<Entry>, a: Archive) {
    MustExtract(item, tool) ==>
      forall k :: 0 <= k < |entries| && entries[k].Pack? && entries[k].archive in Archives(item, tool) ==> entries[k].archive == a
  }

  /** All these files are fetched directly, although each could come out of archive `a`. */
  ghost predicate LeftAlone(items: seq<PlanItem>, tool: bool, entries: seq<Entry>, fs: set<Fiid>, a: Archive) {
    forall f :: f in fs ==> f < |items| && a in Archives(items[f], tool) && FetchedAlone(entries, f)
  }

  ghost predicate FetchedAlone(entries: seq<Entry>, f: Fiid) {
    exists i :: 0 <= i < |entries| && entries[i].Single? && entries[i].fiid == f
  }

  /** As soon as `threshold` files could come out of one archive, they are not all fetched directly. */
  ghost predicate NoCrowd(items: seq<PlanItem>, tool: bool, threshold: int, entries: seq<Entry>) {
    forall fs, a :: LeftAlone(items, tool, entries, fs, a) && fs != {} ==> |fs| < threshold
  }

  /** The planner's promise. Entries stand in the order of their first file. */
  ghost predicate Planned(items: seq<PlanItem>, tool: bool, threshold: int, entries: seq<Entry>) {
    && Carried(entries) == Everything(|items|)
    && (forall i :: 0 <= i < |entries| ==> EntryPlanned(items, tool, threshold, entries[i]))
    && (forall i, j :: 0 <= i < j < |entries| ==> Members(entries[i])[0] < Members(entries[j])[0])
    && (forall i, j :: 0 <= i < j < |entries| && entries[i].Pack? && entries[j].Pack? ==> entries[i].archive != entries[j].archive)
    && NoDetour(items, tool, entries)
    && NoCrowd(items, tool, threshold, entries)
    && (forall i :: 0 <= i < |entries| ==> Needed(items, tool, entries, entries[i]))
  }

  /** A file that had a usable source is carried by an entry with sources, and a pack has one naming its archive. */
  lemma EntryHasSources(items: seq<PlanItem>, tool: bool, threshold: int, e: Entry)
    requires EntryPlanned(items, tool, threshold, e)
    ensures e.Single? && UsableSources(items[e.fiid], tool) != [] ==> e.sources != []
    ensures e.Pack? ==> exists s :: s in e.sources && NamesArchive(s, tool, e.archive)
  {
    match e
    case Single(f, sources) =>
      if Archives(items[f], tool) != {} {
        assert !(forall s :: s in items[f].sources ==> s.clientExtract);
        var s :| s in items[f].sources && !s.clientExtract;
        assert s in sources;
      }
    case Pack(a, sources, members) =>
      assert a in Archives(items[members[0]], tool);
      var s :| s in items[members[0]].sources && IsArchiveSource(s, tool) && s.pfn != "" && ArchiveId(s.pfn).value == a;
      assert s in sources && NamesArchive(s, tool, a);
  }

  /** The planner loses and duplicates no file: each file item is carried by exactly one entry, once. */
  lemma EachFileOnce(n: nat, entries: seq<Entry>, f: Fiid)
    requires Carried(entries) == Everything(n) && f < n
    ensures exists i :: 0 <= i < |entries| && f in Members(entries[i])
    ensures forall i, j :: 0 <= i < j < |entries| && f in Members(entries[i]) ==> f !in Members(entries[j])
    ensures forall i :: 0 <= i < |entries| && f in Members(entries[i]) ==> multiset(Members(entries[i]))[f] == 1
  {
    EverythingOnce(n, f);
    CarriedSomewhere(entries, f);
    forall i | 0 <= i < |entries| && f in Members(entries[i])
      ensures multiset(Members(entries[i]))[f] == 1
      ensures forall j :: i < j < |entries| ==> f !in Members(entries[j])
    {
      CarriedCounts(entries, i, i, f);
      forall j | i < j < |entries|
        ensures f !in Members(entries[j])
      {
        CarriedCounts(entries, i, j, f);
      }
    }
  }

  lemma {:induction false} CarriedCounts(entries: seq<Entry>, i: nat, j: nat, f: Fiid)
    requires i <= j < |entries|
    ensures Carried(entries)[f] >= multiset(Members(entries[j]))[f]
    ensures i < j ==> Carried(entries)[f] >= multiset(Members(entries[i]))[f] + multiset(Members(entries[j]))[f]
  {
    var last := |entries| - 1;
    if j < last {
      CarriedCounts(entries[..last], i, j, f);
    } else if i < j {
      CarriedCounts(entries[..last], i, i, f);
    }
  }

  /** What the passes leave: `pure0`, `mixed0` after the first loop, `pure1`, `mixed1` after promotion,
      `cover` after pruning, `ix` after assignment. */
  datatype Passes = Passes(pure0: Index, mixed0: Index, pure1: Index, mixed1: Index, cover: Index, ix: Index)

  ghost predicate Ran(items: seq<PlanItem>, tool: bool, threshold: int, p: Passes) {
    && RanPromotion(items, tool, threshold, p)
    && Restriction(p.pure1, p.cover) && Irredundant(p.cover, p.cover.files.Keys)
    && Inverse(p.ix) && Assigned(p.cover, p.ix)
  }

  ghost predicate RanPromotion(items: seq<PlanItem>, tool: bool, threshold: int, p: Passes) {
    && Indexed(items, tool, |items|, true, p.pure0) && Indexed(items, tool, |items|, false, p.mixed0)
    && Inverse(p.pure1) && Inverse(p.mixed1)
    && Justified(p.pure0, p.pure1, threshold) && FilesPromoted(p.pure0, p.mixed0, p.pure1, p.mixed1)
    && NothingToPromote(p.pure1, p.mixed1, threshold, p.mixed1.files.Keys)
  }

  /** A pure file can be extracted from any archive it is held under, and each is worth downloading. */
  lemma PureFile(items: seq<PlanItem>, tool: bool, threshold: int, p: Passes, f: Fiid, a: Archive)
    requires RanPromotion(items, tool, threshold, p) && f in p.pure1.archives && a in p.pure1.archives[f]
    ensures f < |items| && a in Archives(items[f], tool) && a in p.pure1.files
  {
    if f in p.mixed0.archives {
      assert OneOf(p.pure1.archives[f], p.mixed0.archives[f]);
    }
  }

  lemma WorthItWhenPure(items: seq<PlanItem>, tool: bool, threshold: int, p: Passes, a: Archive)
    requires RanPromotion(items, tool, threshold, p) && a in p.pure1.files
    ensures WorthIt(items, tool, threshold, a)
  {
    if a in p.pure0.files {
      assert HasFile(p.pure0, a);
      var f :| f in p.pure0.files[a];
      assert a in p.pure0.archives[f];
    } else {
      forall f | f in p.pure1.files[a]
        ensures f < |items| && a in Archives(items[f], tool)
      {
        PureFile(items, tool, threshold, p, f, a);
      }
    }
  }

  /** A file assigned to an archive can be extracted from it. */
  lemma AssignedFile(items: seq<PlanItem>, tool: bool, threshold: int, p: Passes, f: Fiid, a: Archive)
    requires Ran(items, tool, threshold, p) && f in p.ix.archives && a in p.ix.archives[f]
    ensures f < |items| && f in p.pure1.archives && a in Archives(items[f], tool) && a in p.pure1.files && a in p.cover.files
    ensures WorthIt(items, tool, threshold, a)
  {
    assert OneOf(p.ix.archives[f], p.cover.archives[f]);
    PureFile(items, tool, threshold, p, f, a);
    WorthItWhenPure(items, tool, threshold, p, a);
  }

  /** A file left alone need not be extracted, and no archive holding it is downloaded. */
  lemma LoneFile(items: seq<PlanItem>, tool: bool, threshold: int, p: Passes, f: Fiid)
    requires RanPromotion(items, tool, threshold, p) && f < |items| && f !in p.pure1.archives
    ensures !MustExtract(items[f], tool)
    ensures f in p.mixed1.archives <==> Archives(items[f], tool) != {}
    ensures Archives(items[f], tool) !! p.pure1.files.Keys
  {
    assert f !in p.pure0.archives;
    if f in p.mixed1.archives {
      forall a | a in Archives(items[f], tool)
        ensures a !in p.pure1.files
      {
        assert a in p.mixed1.archives[f];
        assert a in p.mixed1.files;
      }
    }
  }

  lemma PlannedEntry(items: seq<PlanItem>, tool: bool, threshold: int, p: Passes,
                     sources0: seq<seq<Source>>, sources: seq<seq<Source>>, e: Entry)
    requires Ran(items, tool, threshold, p) && |sources0| == |sources| == |items|
    requires forall f: Fiid :: f < |items| ==> sources0[f] == UsableSources(items[f], tool)
    requires forall f: Fiid :: f < |items| ==>
               sources[f] == FinalSources(sources0[f], f in p.pure1.archives, f in p.mixed1.archives)
    requires EntryOk(|items|, sources, p.ix, e)
    ensures EntryPlanned(items, tool, threshold, e)
    ensures e.Pack? ==> e.archive in p.cover.files && e.archive in p.pure1.files
  {
    match e
    case Single(f, _) =>
      LoneFile(items, tool, threshold, p, f);
    case Pack(a, _, members) =>
      assert members[0] in members;
      forall m | m in members
        ensures m < |items| && m in p.pure1.archives && a in Archives(items[m], tool)
        ensures WorthIt(items, tool, threshold, a) && a in p.cover.files && a in p.pure1.files
      {
        AssignedFile(items, tool, threshold, p, m, a);
      }
  }

  lemma PrivateFileAssigned(cover: Index, ix: Index, m: Fiid, a: Archive)
    requires Assigned(cover, ix) && OnlyIn(cover, m, a)
    ensures m in ix.archives && ix.archives[m] == {a}
  {
    assert OneOf(ix.archives[m], {a});
    var b :| b in ix.archives[m];
    SingleElement(ix.archives[m], b);
  }

  /** Every archive of the plan is assigned a file which, if it must be extracted, is in no other one. */
  lemma PrivateFile(items: seq<PlanItem>, tool: bool, threshold: int, p: Passes, a: Archive) returns (m: Fiid)
    requires Ran(items, tool, threshold, p) && a in p.cover.files
    ensures m < |items| && m in p.ix.archives && p.ix.archives[m] == {a}
    ensures MustExtract(items[m], tool) ==>
              forall b :: b in Archives(items[m], tool) && b in p.cover.files ==> b == a
  {
    assert HasPrivate(p.cover, a);
    m :| OnlyIn(p.cover, m, a);
    PrivateFileAssigned(p.cover, p.ix, m, a);
    AssignedFile(items, tool, threshold, p, m, a);
    if MustExtract(items[m], tool) {
      MustExtractKeepsArchives(items, tool, threshold, p, m);
      forall b | b in Archives(items[m], tool) && b in p.cover.files
        ensures b == a
      {
        assert b in p.cover.archives[m];
      }
    }
  }

  lemma MustExtractKeepsArchives(items: seq<PlanItem>, tool: bool, threshold: int, p: Passes, f: Fiid)
    requires RanPromotion(items, tool, threshold, p) && Restriction(p.pure1, p.cover)
    requires f < |items| && MustExtract(items[f], tool)
    ensures f in p.cover.archives && p.cover.archives[f] == Archives(items[f], tool) * p.cover.files.Keys
  {
    assert f in p.pure0.archives;
  }

  lemma PackNeeded(items: seq<PlanItem>, tool: bool, threshold: int, p: Passes, entries: seq<Entry>, e: Entry)
    requires Ran(items, tool, threshold, p) && e.Pack? && e.archive in p.cover.files
    requires forall k :: 0 <= k < |entries| && entries[k].Pack? ==> entries[k].archive in p.cover.files
    requires forall f :: f in p.ix.archives && p.ix.archives[f] == {e.archive} ==> f in e.members
    ensures Needed(items, tool, entries, e)
  {
    var m := PrivateFile(items, tool, threshold, p, e.archive);
    assert NoOtherPack(items[m], tool, entries, e.archive);
  }

  /** Every file assigned to a pack's archive is in the pack. */
  lemma PackHasAll(n: nat, sources: seq<seq<Source>>, ix: Index, entries: seq<Entry>, packs: map<Archive, nat>, i: nat, f: Fiid)
    requires n <= |sources| && Packed(n, sources, ix, entries, packs) && i < |entries| && entries[i].Pack?
    requires f < n && f in ix.archives && ix.archives[f] == {entries[i].archive}
    ensures f in entries[i].members
  {
    EverythingOnce(n, f);
    CarriedSomewhere(entries, f);
    var e :| e in entries && f in Members(e);
    var j: nat :| j < |entries| && entries[j] == e;
    assert EntryOk(n, sources, ix, e);
    CarrierIsPack(n, sources, ix, e, f, entries[i].archive);
  }

  lemma CarrierIsPack(n: nat, sources: seq<seq<Source>>, ix: Index, e: Entry, f: Fiid, a: Archive)
    requires n <= |sources| && EntryOk(n, sources, ix, e) && f in Members(e)
    requires f in ix.archives && ix.archives[f] == {a}
    ensures e.Pack? && e.archive == a
  {
    if e.Pack? {
      assert f in e.members;
      assert {e.archive} == {a};
      assert e.archive in {a};
    }
  }

  /** A file fetched directly is still mixed after promotion, under all its archives. */
  lemma LoneFileIsMixed(items: seq<PlanItem>, tool: bool, threshold: int, p: Passes, f: Fiid, a: Archive)
    requires RanPromotion(items, tool, threshold, p) && f < |items| && f !in p.pure1.archives && a in Archives(items[f], tool)
    ensures a in p.mixed1.files && f in p.mixed1.files[a]
  {
    LoneFile(items, tool, threshold, p, f);
    assert p.mixed1.archives[f] == Archives(items[f], tool);
  }

  lemma CrowdsArePromoted(items: seq<PlanItem>, tool: bool, threshold: int, p: Passes, entries: seq<Entry>)
    requires RanPromotion(items, tool, threshold, p)
    requires forall i :: 0 <= i < |entries| && entries[i].Single? ==> entries[i].fiid !in p.pure1.archives
    ensures NoCrowd(items, tool, threshold, entries)
  {
    forall fs, a | LeftAlone(items, tool, entries, fs, a) && fs != {}
      ensures |fs| < threshold
    {
      forall f | f in fs
        ensures a in p.mixed1.files && f in p.mixed1.files[a]
      {
        LoneFileIsMixed(items, tool, threshold, p, f, a);
      }
      var f :| f in fs;
      SubsetSize(fs, p.mixed1.files[a]);
    }
  }

  /** An assigned file was pure before pruning, and the other way round. */
  lemma SingleIsNotPure(sources: seq<seq<Source>>, p: Passes, e: Entry)
    requires Restriction(p.pure1, p.cover) && Assigned(p.cover, p.ix) && EntryOk(|sources|, sources, p.ix, e) && e.Single?
    ensures e.fiid !in p.pure1.archives
  {
  }

  lemma PlannedFromPasses(items: seq<PlanItem>, tool: bool, threshold: int, p: Passes, sources0: seq<seq<Source>>,
                          sources: seq<seq<Source>>, entries: seq<Entry>, packs: map<Archive, nat>)
    requires Ran(items, tool, threshold, p) && |sources0| == |sources| == |items|
    requires forall f: Fiid :: f < |items| ==> sources0[f] == UsableSources(items[f], tool)
    requires forall f: Fiid :: f < |items| ==>
               sources[f] == FinalSources(sources0[f], f in p.pure1.archives, f in p.mixed1.archives)
    requires Packed(|items|, sources, p.ix, entries, packs)
    ensures Planned(items, tool, threshold, entries)
  {
    forall i | 0 <= i < |entries|
      ensures EntryPlanned(items, tool, threshold, entries[i])
      ensures entries[i].Pack? ==> entries[i].archive in p.cover.files && entries[i].archive in p.pure1.files
      ensures entries[i].Single? ==> Archives(items[entries[i].fiid], tool) !! p.pure1.files.Keys
    {
      assert EntryOk(|items|, sources, p.ix, entries[i]);
      PlannedEntry(items, tool, threshold, p, sources0, sources, entries[i]);
      if entries[i].Single? {
        LoneFile(items, tool, threshold, p, entries[i].fiid);
      }
    }
    forall i | 0 <= i < |entries| && entries[i].Single?
      ensures entries[i].fiid !in p.pure1.archives
    {
      assert EntryOk(|items|, sources, p.ix, entries[i]);
      SingleIsNotPure(sources, p, entries[i]);
    }
    CrowdsArePromoted(items, tool, threshold, p, entries);
    forall i | 0 <= i < |entries|
      ensures Needed(items, tool, entries, entries[i])
    {
      if entries[i].Pack? {
        forall f | f in p.ix.archives && p.ix.archives[f] == {entries[i].archive}
          ensures f in entries[i].members
        {
          AssignedFile(items, tool, threshold, p, f, entries[i].archive);
          PackHasAll(|items|, sources, p.ix, entries, packs, i, f);
        }
        PackNeeded(items, tool, threshold, p, entries, entries[i]);
      }
    }
  }

  /** The archive part of `_prepare_items_for_download`: it fails exactly on an archive source
      without a name, and otherwise keeps its promise whatever order the passes use. */
  method Plan(items: seq<PlanItem>, tool: bool, threshold: int) returns (r: Result<seq<Entry>, Error>)
    ensures r.Ok? <==> forall f :: 0 <= f < |items| && items[f].resolve ==> Named(items[f].sources, tool)
    ensures r.Ok? ==> Planned(items, tool, threshold, r.value)
  {
    var classified := Classify(items, tool);
    if classified.Err? {
      return Err(classified.error);
    }
    var (sources0, pure0, mixed0) := classified.value;
    var pure1, mixed1 := Promote(pure0, mixed0, threshold);
    var sources := FilterSources(sources0, pure1, mixed1);
    var cover := Prune(pure1);
    var ix := Assign(cover);
    var entries, packs := PackAll(sources, ix);
    PlannedFromPasses(items, tool, threshold, Passes(pure0, mixed0, pure1, mixed1, cover, ix), sources0, sources, entries, packs);
    r := Ok(entries);
  }
}
