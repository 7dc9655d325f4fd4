/** The first loop of the archive planner. */
module Planner {
  // The archive part of `_prepare_items_for_download`: scanning the sources of each file and filling
  // the two indexes. `ArchiveIndex` has the three passes over them, `Packing` the rest.

  import opened Wrappers
  import opened Sequences
  import opened Items
  import opened Paths
  import opened ArchiveIndex

  /** A file item as the planner sees it. `resolve` is the merged `resolve_archives` option;
      it is false for an item without options, which the planner passes through. */
  datatype PlanItem = PlanItem(sources: seq<Source>, resolve: bool)

  /** One element of the returned list: a file on its own, or an archive with the files to extract. */
  datatype Entry =
    | Single(fiid: Fiid, sources: seq<Source>)
    | Pack(archive: Archive, sources: seq<Source>, members: seq<Fiid>)

  /** The PFN of an archive source has no last part: indexing its parts fails. */
  datatype Error = NoArchiveName

  // ------------------------------------------------------------ archive names

  /** The part of the PFN behind the last slash or, if that is empty, the part before it. */
  function ArchiveId(pfn: string): (id: Option<Archive>)
    ensures id.None? <==> pfn == ""
  {
    if pfn == "" then None
    else if Tail(pfn) != "" then Some(Tail(pfn))
    else Some(Tail(pfn[..|pfn| - 1]))
  }

  /** `id` is the last component of `pfn`, whatever one trailing slash says: a part without slashes behind a
      slash or nothing, at the end of `pfn` unless it is empty, or before one last slash. */
  ghost predicate LastComponent(pfn: string, head: string, id: Archive) {
    && (head == "" || head[|head| - 1] == '/')
    && '/' !in id
    && ((id != "" && pfn == head + id) || pfn == head + id + "/")
  }

  lemma LastPartIsTail(head: string, id: string)
    requires (head == "" || head[|head| - 1] == '/') && '/' !in id
    ensures Tail(head + id) == id
  {
    TailConcat(head, id);
    assert Tail(head) == "";
    assert "" + id == id;
  }

  lemma ArchiveIdExists(pfn: string)
    requires pfn != ""
    ensures exists head :: LastComponent(pfn, head, ArchiveId(pfn).value)
  {
    var end := if Tail(pfn) != "" then "" else "/";
    var s := pfn[..|pfn| - |end|];
    var head := TailIsLast(s);
    assert pfn == s + end;
    assert s + "" == s;
    assert LastComponent(pfn, head, ArchiveId(pfn).value);
  }

  lemma LastComponentIsArchiveId(pfn: string, head: string, id: Archive)
    requires LastComponent(pfn, head, id)
    ensures ArchiveId(pfn) == Some(id)
  {
    LastPartIsTail(head, id);
    if pfn == head + id + "/" {
      assert pfn[|pfn| - 1] == '/' && pfn[..|pfn| - 1] == head + id;
    }
  }

  /** The id is the last component of the PFN, and nothing else is. */
  lemma ArchiveIdIsLastComponent(pfn: string, id: Archive)
    requires pfn != ""
    ensures ArchiveId(pfn) == Some(id) <==> exists head :: LastComponent(pfn, head, id)
  {
    ArchiveIdExists(pfn);
    if head :| LastComponent(pfn, head, id) {
      LastComponentIsArchiveId(pfn, head, id);
    }
  }

  // ----------------------------------------------------------------- scanning

  /** A source from which the file can only be had by unpacking an archive, and can be here. */
  predicate IsArchiveSource(s: Source, tool: bool) { s.clientExtract && tool }

  predicate IsUsable(s: Source, tool: bool) { !s.clientExtract || tool }

  /** The sources an item has left once scanned. */
  function UsableSources(item: PlanItem, tool: bool): seq<Source> {
    if item.resolve then Keep(item.sources, s => IsUsable(s, tool)) else item.sources
  }

  predicate Named(sources: seq<Source>, tool: bool) {
    forall s :: s in sources && IsArchiveSource(s, tool) ==> s.pfn != ""
  }

  /** The archives an item can be extracted from. */
  function Archives(item: PlanItem, tool: bool): set<Archive> {
    if item.resolve
    then set s | s in item.sources && IsArchiveSource(s, tool) && s.pfn != "" :: ArchiveId(s.pfn).value
    else {}
  }

  /** An archive source is the best one, priorities counting from 1. */
  predicate BestIsArchive(sources: seq<Source>) {
    && (exists s :: s in sources && s.clientExtract && s.priority == 1)
    && (forall s :: s in sources && s.clientExtract ==> s.priority >= 1)
  }

  /** The item must come from an archive: it has no other source, or none that is better. */
  predicate MustExtract(item: PlanItem, tool: bool) {
    && Archives(item, tool) != {}
    && ((forall s :: s in item.sources ==> s.clientExtract) || BestIsArchive(item.sources))
  }

  /** What one pass over the sources of a file gathers. */
  datatype Scan = Scan(sources: seq<Source>, archives: seq<Archive>, minPriority: Option<int>, others: nat)

  ghost predicate GathersArchives(sources: seq<Source>, tool: bool, archives: seq<Archive>) {
    && (forall s :: s in sources && IsArchiveSource(s, tool) ==> s.pfn != "" && ArchiveId(s.pfn).value in archives)
    && (forall a :: a in archives ==> exists s :: s in sources && NamesArchive(s, tool, a))
  }

  predicate NamesArchive(s: Source, tool: bool, a: Archive) {
    IsArchiveSource(s, tool) && ArchiveId(s.pfn) == Some(a)
  }

  ghost predicate IsMinPriority(sources: seq<Source>, tool: bool, m: Option<int>) {
    && (m.None? ==> forall s :: s in sources ==> !IsArchiveSource(s, tool))
    && (m.Some? ==> (exists s :: s in sources && IsArchiveSource(s, tool) && s.priority == m.value)
                    && forall s :: s in sources && IsArchiveSource(s, tool) ==> s.priority >= m.value)
  }

  ghost predicate ScanOf(sources: seq<Source>, tool: bool, scan: Scan) {
    && scan.sources == Keep(sources, s => IsUsable(s, tool))
    && GathersArchives(sources, tool, scan.archives)
    && IsMinPriority(sources, tool, scan.minPriority)
    && (scan.others == 0 <==> forall s :: s in sources ==> s.clientExtract)
  }

  lemma GatherOneMore(sources: seq<Source>, tool: bool, s: Source, archives: seq<Archive>)
    requires GathersArchives(sources, tool, archives)
    requires IsArchiveSource(s, tool) ==> s.pfn != ""
    ensures GathersArchives(sources + [s], tool,
                            if IsArchiveSource(s, tool) then archives + [ArchiveId(s.pfn).value] else archives)
  {
    forall a | a in archives
      ensures exists x :: x in sources + [s] && NamesArchive(x, tool, a)
    {
      var x :| x in sources && NamesArchive(x, tool, a);
      assert x in sources + [s];
    }
    assert s in sources + [s];
    if IsArchiveSource(s, tool) {
      assert NamesArchive(s, tool, ArchiveId(s.pfn).value);
    }
  }

  lemma MinOneMore(sources: seq<Source>, tool: bool, s: Source, m: Option<int>)
    requires IsMinPriority(sources, tool, m)
    ensures IsMinPriority(sources + [s], tool,
                          if !IsArchiveSource(s, tool) then m
                          else if m.None? || s.priority < m.value then Some(s.priority) else m)
  {
    assert s in sources + [s];
    if m.Some? {
      var x :| x in sources && IsArchiveSource(x, tool) && x.priority == m.value;
      assert x in sources + [s];
    }
  }

  /** One pass over the sources of a file. It fails exactly on an archive source without a name. */
  method ScanSources(sources: seq<Source>, tool: bool) returns (r: Option<Scan>)
    ensures r.Some? <==> Named(sources, tool)
    ensures r.Some? ==> ScanOf(sources, tool, r.value)
  {
    var kept, archives, minPriority, others := [], [], None, 0;
    for i := 0 to |sources|
      invariant kept == Keep(sources[..i], s => IsUsable(s, tool))
      invariant GathersArchives(sources[..i], tool, archives)
      invariant IsMinPriority(sources[..i], tool, minPriority)
      invariant others >= 0 && (others == 0 <==> forall s :: s in sources[..i] ==> s.clientExtract)
    {
      var s := sources[i];
      assert sources[..i + 1] == sources[..i] + [s];
      KeepSnoc(sources[..i], s, x => IsUsable(x, tool));
      MinOneMore(sources[..i], tool, s, minPriority);
      if s.clientExtract && tool && s.pfn == "" {
        assert s in sources;
        return None;
      }
      GatherOneMore(sources[..i], tool, s, archives);
      if s.clientExtract && tool {
        if minPriority.None? || s.priority < minPriority.value {
          minPriority := Some(s.priority);
        }
        archives := archives + [ArchiveId(s.pfn).value];
        kept := kept + [s];
      } else if !s.clientExtract {
        others := others + 1;
        kept := kept + [s];
      }
    }
    assert sources[..|sources|] == sources;
    r := Some(Scan(kept, archives, minPriority, others));
  }

  lemma AddKeepsNoneEmpty(ix0: Index, a: Archive, f: Fiid, ix: Index)
    requires NoneEmpty(ix0) && ix.files == AddTo(ix0.files, a, f)
    ensures NoneEmpty(ix)
  {
    forall b | b in ix.files
      ensures HasFile(ix, b)
    {
      assert b in ix0.files ==> HasFile(ix0, b);
    }
  }

  /** Enters file `f` under each of the archives `ids`. */
  method Enter(ix0: Index, f: Fiid, ids: seq<Archive>) returns (ix: Index)
    requires Inverse(ix0) && NoneEmpty(ix0) && f !in ix0.archives
    ensures Inverse(ix) && NoneEmpty(ix)
    ensures forall g :: g in ix.archives <==> g in ix0.archives || (g == f && ids != [])
    ensures forall g :: g in ix0.archives ==> ix.archives[g] == ix0.archives[g]
    ensures ids != [] ==> ix.archives[f] == set a | a in ids
  {
    ix := ix0;
    for i := 0 to |ids|
      invariant Inverse(ix) && NoneEmpty(ix)
      invariant forall g :: g in ix.archives <==> g in ix0.archives || (g == f && i > 0)
      invariant forall g :: g in ix0.archives ==> ix.archives[g] == ix0.archives[g]
      invariant i > 0 ==> ix.archives[f] == set a | a in ids[..i]
    {
      var ix1 := Index(AddTo(ix.files, ids[i], f), AddTo(ix.archives, f, ids[i]));
      AddKeepsInverse(ix, ids[i], f, ix1);
      AddKeepsNoneEmpty(ix, ids[i], f, ix1);
      ix := ix1;
      assert ids[..i + 1] == ids[..i] + [ids[i]];
    }
    assert ids[..|ids|] == ids;
  }

  lemma AddKeepsInverse(ix0: Index, a: Archive, f: Fiid, ix: Index)
    requires Inverse(ix0)
    requires ix == Index(AddTo(ix0.files, a, f), AddTo(ix0.archives, f, a))
    ensures Inverse(ix)
  {}

  /** `ix` holds the extractable items below `n` that must be extracted (or those that need
      not be), each under all its archives. */
  ghost predicate Indexed(items: seq<PlanItem>, tool: bool, n: nat, must: bool, ix: Index)
    requires n <= |items|
  {
    && Inverse(ix) && NoneEmpty(ix)
    && (forall f: Fiid :: f in ix.archives <==> f < n && Archives(items[f], tool) != {} && MustExtract(items[f], tool) == must)
    && (forall f: Fiid :: f in ix.archives ==> f < n && ix.archives[f] == Archives(items[f], tool))
  }

  lemma ScanFindsArchives(item: PlanItem, tool: bool, scan: Scan)
    requires item.resolve
    requires GathersArchives(item.sources, tool, scan.archives) && IsMinPriority(item.sources, tool, scan.minPriority)
    ensures Archives(item, tool) == set a | a in scan.archives
    ensures scan.minPriority.None? <==> scan.archives == []
  {
    forall a | a in scan.archives
      ensures a in Archives(item, tool) && scan.minPriority.Some?
    {
      var s :| s in item.sources && NamesArchive(s, tool, a);
    }
    if scan.archives != [] {
      assert scan.archives[0] in scan.archives;
    }
  }

  lemma ScanDecides(sources: seq<Source>, tool: bool, minPriority: Option<int>)
    requires IsMinPriority(sources, tool, minPriority) && minPriority.Some?
    ensures minPriority == Some(1) <==> BestIsArchive(sources)
  {
    var s :| s in sources && IsArchiveSource(s, tool) && s.priority == minPriority.value;
  }

  /** Scans one item and decides: no archive, or archives it must or may be taken from. */
  method Decide(item: PlanItem, tool: bool) returns (r: Option<(seq<Source>, seq<Archive>, bool)>)
    ensures r.Some? <==> item.resolve ==> Named(item.sources, tool)
    ensures r.Some? ==> r.value.0 == UsableSources(item, tool)
    ensures r.Some? ==> Archives(item, tool) == set a | a in r.value.1
    ensures r.Some? ==> r.value.2 == MustExtract(item, tool)
  {
    if !item.resolve {
      return Some((item.sources, [], false));
    }
    var scanned := ScanSources(item.sources, tool);
    if scanned.None? {
      return None;
    }
    var scan := scanned.value;
    ScanFindsArchives(item, tool, scan);
    if scan.minPriority.None? {
      return Some((scan.sources, [], false));
    }
    ScanDecides(item.sources, tool, scan.minPriority);
    assert scan.archives[0] in Archives(item, tool);
    r := Some((scan.sources, scan.archives, scan.others == 0 || scan.minPriority.value == 1));
  }

  lemma IndexOneMore(items: seq<PlanItem>, tool: bool, n: nat, must: bool, ix0: Index, entered: bool, ix: Index)
    requires n < |items| && Indexed(items, tool, n, must, ix0)
    requires entered <==> Archives(items[n], tool) != {} && MustExtract(items[n], tool) == must
    requires Inverse(ix) && NoneEmpty(ix)
    requires forall f :: f in ix.archives <==> f in ix0.archives || (f == n && entered)
    requires forall f :: f in ix0.archives ==> ix.archives[f] == ix0.archives[f]
    requires entered ==> ix.archives[n] == Archives(items[n], tool)
    ensures Indexed(items, tool, n + 1, must, ix)
  {}

  ghost predicate Classified(items: seq<PlanItem>, tool: bool, n: nat, sources: seq<seq<Source>>, pure: Index, mixed: Index)
    requires n <= |items|
  {
    && |sources| == n
    && (forall f :: 0 <= f < n ==> sources[f] == UsableSources(items[f], tool))
    && Indexed(items, tool, n, true, pure)
    && Indexed(items, tool, n, false, mixed)
  }

  /** First loop: every file goes to the pure index, to the mixed index, or to neither. */
  method Classify(items: seq<PlanItem>, tool: bool)
    returns (r: Result<(seq<seq<Source>>, Index, Index), Error>)
    ensures r.Ok? <==> forall f :: 0 <= f < |items| && items[f].resolve ==> Named(items[f].sources, tool)
    ensures r.Ok? ==> Classified(items, tool, |items|, r.value.0, r.value.1, r.value.2)
  {
    var sources, pure, mixed := [], Index(map[], map[]), Index(map[], map[]);
    for f := 0 to |items|
      invariant Classified(items, tool, f, sources, pure, mixed)
      invariant forall g :: 0 <= g < f && items[g].resolve ==> Named(items[g].sources, tool)
    {
      var decided := Decide(items[f], tool);
      if decided.None? {
        return Err(NoArchiveName);
      }
      var (kept, archives, must) := decided.value;
      sources := sources + [kept];
      var pure1 := Enter(pure, f, if must then archives else []);
      var mixed1 := Enter(mixed, f, if must then [] else archives);
      if archives != [] {
        assert archives[0] in Archives(items[f], tool);
      }
      IndexOneMore(items, tool, f, true, pure, must && archives != [], pure1);
      IndexOneMore(items, tool, f, false, mixed, !must && archives != [], mixed1);
      pure, mixed := pure1, mixed1;
    }
    r := Ok((sources, pure, mixed));
  }
}
