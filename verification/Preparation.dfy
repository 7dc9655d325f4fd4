/** The whole of `_prepare_items_for_download`: destinations, merged options, the archive plan, and
    the paths the archives are downloaded to. */
module Preparation {
  import opened Wrappers
  import opened Items
  import opened Paths
  import opened DownloadItem
  import opened Destinations
  import opened Isolation
  import opened MergedOptions
  import opened ArchiveIndex
  import opened Planner
  import opened Packing
  import Grouping

  datatype PrepareError = BadDestination(Destinations.Error) | BadArchive(Planner.Error)

  /** What the items carry afterwards, the list of downloads, and where each pack among them goes. */
  datatype Preparation = Preparation(dests: seq<seq<Path>>, options: seq<Option<Options>>,
                                     entries: seq<Entry>, packPaths: seq<Option<Path>>)

  /** The input items asking for a file through its first `n` input DIDs. */
  function AskersUpTo(req: Request, file: FileItem, n: nat): seq<InputItem>
    requires n <= |file.inputDids|
  {
    if n == 0 then [] else AskersUpTo(req, file, n - 1) + ItemsFor(req.requests, file.inputDids[n - 1])
  }

  function Askers(req: Request, file: FileItem): seq<InputItem> { AskersUpTo(req, file, |file.inputDids|) }

  lemma {:induction false} AskersAsk(req: Request, file: FileItem, n: nat, t: InputItem)
    requires n <= |file.inputDids|
    ensures t in AskersUpTo(req, file, n) <==>
            exists m :: 0 <= m < n && file.inputDids[m] in req.requests && t in req.requests[file.inputDids[m]]
  {
    if n > 0 {
      AskersAsk(req, file, n - 1, t);
    }
  }

  /** The options of a file are merged from just the items that ask for one of its input DIDs. */
  lemma OptionsFromAskers(req: Request, file: FileItem, o: Option<Options>, t: InputItem)
    requires OptionsFor(req, file, o)
    requires exists m :: 0 <= m < |file.inputDids| && file.inputDids[m] in req.requests && t in req.requests[file.inputDids[m]]
    ensures o.Some? && (t.baseDir, t.noSubdir) in o.value.destinations
    ensures (t.ignoreChecksum ==> o.value.ignoreChecksum) && (t.sizeOnly ==> o.value.sizeOnly)
    ensures t.noResolveArchives != Some(true) ==> o.value.resolveArchives
  {
    AskersAsk(req, file, |file.inputDids|, t);
    assert t in Askers(req, file);
  }

  /** Some input item asking for the file wants archives resolved. */
  predicate ResolvesArchives(req: Request, file: FileItem) {
    exists i :: i in Askers(req, file) && WantsArchives(i)
  }

  function PlanItems(req: Request, files: seq<FileItem>): (items: seq<PlanItem>)
    ensures |items| == |files|
    ensures forall i :: 0 <= i < |files| ==> items[i] == PlanItem(files[i].sources, ResolvesArchives(req, files[i]))
  {
    seq(|files|, i requires 0 <= i < |files| => PlanItem(files[i].sources, ResolvesArchives(req, files[i])))
  }

  lemma {:induction false} AskersHavePaths(req: Request, file: FileItem, n: nat)
    requires n <= |file.inputDids|
    ensures |AskersUpTo(req, file, n)| == |PathsUpTo(req, file, n)|
  {
    if n > 0 {
      AskersHavePaths(req, file, n - 1);
    }
  }

  ghost predicate OptionsFor(req: Request, file: FileItem, o: Option<Options>) {
    && (o.None? <==> Askers(req, file) == [])
    && (o.Some? ==> IsMerge(Askers(req, file), o.value))
  }

  ghost predicate OptionsForAll(req: Request, files: seq<FileItem>, options: seq<Option<Options>>) {
    |options| == |files| && forall i :: 0 <= i < |files| ==> OptionsFor(req, files[i], options[i])
  }

  method MergeForFile(req: Request, file: FileItem) returns (o: Option<Options>)
    ensures OptionsFor(req, file, o)
  {
    var askers: seq<InputItem> := [];
    for n := 0 to |file.inputDids|
      invariant askers == AskersUpTo(req, file, n)
    {
      askers := askers + ItemsFor(req.requests, file.inputDids[n]);
    }
    o := Merge(askers);
  }

  lemma OptionsResolve(req: Request, file: FileItem, o: Option<Options>)
    requires OptionsFor(req, file, o)
    ensures ResolvesArchives(req, file) <==> o.Some? && o.value.resolveArchives
  {}

  // ------------------------------------------------------------------- pack paths

  /** The path of a pack: one destination of its first file, and the name of the archive. */
  function PackPath(req: Request, file: FileItem, destination: (string, bool), a: Archive): Path {
    JoinPath(DestDir(req, destination.0, destination.1, file.did.scope), a)
  }

  ghost predicate PackPlaced(req: Request, files: seq<FileItem>, options: seq<Option<Options>>, e: Entry, path: Option<Path>)
    requires |options| == |files|
  {
    match e
    case Single(_, _) => path.None?
    case Pack(a, _, members) =>
      && members != [] && members[0] < |files| && options[members[0]].Some? && path.Some?
      && exists d :: d in options[members[0]].value.destinations && path.value == PackPath(req, files[members[0]], d, a)
  }

  ghost predicate PacksPlaced(req: Request, files: seq<FileItem>, options: seq<Option<Options>>, entries: seq<Entry>, paths: seq<Option<Path>>)
    requires |options| == |files|
  {
    |paths| == |entries| && forall k :: 0 <= k < |entries| ==> PackPlaced(req, files, options, entries[k], paths[k])
  }

  lemma PlacedSnoc(req: Request, files: seq<FileItem>, options: seq<Option<Options>>, entries: seq<Entry>, paths: seq<Option<Path>>, e: Entry, path: Option<Path>)
    requires |options| == |files| && PacksPlaced(req, files, options, entries, paths) && PackPlaced(req, files, options, e, path)
    ensures PacksPlaced(req, files, options, entries + [e], paths + [path])
  {
  }

  lemma ResolvingHasDestination(req: Request, file: FileItem, o: Option<Options>)
    requires ResolvesArchives(req, file) && OptionsFor(req, file, o)
    ensures o.Some? && o.value.destinations != {}
  {
    var i :| i in Askers(req, file) && WantsArchives(i);
    assert (i.baseDir, i.noSubdir) in o.value.destinations;
  }

  /** The first file of a pack has options, with a destination in them. */
  lemma PackHasDestination(req: Request, files: seq<FileItem>, options: seq<Option<Options>>, tool: bool, threshold: int, e: Entry)
    requires OptionsForAll(req, files, options)
    requires e.Pack? && EntryPlanned(PlanItems(req, files), tool, threshold, e)
    ensures options[e.members[0]].Some? && options[e.members[0]].value.destinations != {}
  {
    var m := e.members[0];
    assert m in e.members;
    assert e.archive in Archives(PlanItems(req, files)[m], tool);
    ResolvingHasDestination(req, files[m], options[m]);
  }

  method PlacePack(req: Request, files: seq<FileItem>, options: seq<Option<Options>>, tool: bool, threshold: int, e: Entry)
    returns (path: Option<Path>)
    requires OptionsForAll(req, files, options)
    requires EntryPlanned(PlanItems(req, files), tool, threshold, e)
    ensures PackPlaced(req, files, options, e, path)
  {
    match e
    case Single(_, _) => path := None;
    case Pack(a, _, members) =>
      PackHasDestination(req, files, options, tool, threshold, e);
      var d :| d in options[members[0]].value.destinations;
      path := Some(PackPath(req, files[members[0]], d, a));
  }

  method PlacePacks(req: Request, files: seq<FileItem>, options: seq<Option<Options>>, tool: bool, threshold: int, entries: seq<Entry>)
    returns (paths: seq<Option<Path>>)
    requires OptionsForAll(req, files, options)
    requires forall k :: 0 <= k < |entries| ==> EntryPlanned(PlanItems(req, files), tool, threshold, entries[k])
    ensures PacksPlaced(req, files, options, entries, paths)
  {
    paths := [];
    for k := 0 to |entries|
      invariant PacksPlaced(req, files, options, entries[..k], paths)
    {
      var path := PlacePack(req, files, options, tool, threshold, entries[k]);
      PlacedSnoc(req, files, options, entries[..k], paths, entries[k], path);
      assert entries[..k + 1] == entries[..k] + [entries[k]];
      paths := paths + [path];
    }
    assert entries[..|entries|] == entries;
  }

  // ------------------------------------------------------------------- everything

  ghost predicate PreparedFully(req: Request, files: seq<FileItem>, tool: bool, threshold: int, p: Preparation) {
    && Prepared(req, files, p.dests)
    && OptionsForAll(req, files, p.options)
    && Planned(PlanItems(req, files), tool, threshold, p.entries)
    && PacksPlaced(req, files, p.options, p.entries, p.packPaths)
  }

  /** The options of every file, and whether the plan looks for archives. */
  method MergeAll(req: Request, files: seq<FileItem>) returns (options: seq<Option<Options>>, items: seq<PlanItem>)
    ensures OptionsForAll(req, files, options)
    ensures items == PlanItems(req, files)
  {
    options, items := [], [];
    for n := 0 to |files|
      invariant |options| == |items| == n
      invariant forall i :: 0 <= i < n ==> OptionsFor(req, files[i], options[i])
      invariant forall i :: 0 <= i < n ==> items[i] == PlanItems(req, files)[i]
    {
      var o := MergeForFile(req, files[n]);
      OptionsResolve(req, files[n], o);
      options := options + [o];
      items := items + [PlanItem(files[n].sources, o.Some? && o.value.resolveArchives)];
    }
  }

  method PrepareItems(req: Request, files: seq<FileItem>, tool: bool, threshold: int) returns (r: Result<Preparation, PrepareError>)
    ensures r.Ok? <==>
              && AllKnown(req, files) && NoRepeats(AllPaths(req, files))
              && forall i :: 0 <= i < |files| && ResolvesArchives(req, files[i]) ==> Named(files[i].sources, tool)
    ensures r == Err(BadDestination(UnknownDid)) ==> !AllKnown(req, files)
    ensures r == Err(BadDestination(SameDestination)) ==> !NoRepeats(AllPaths(req, files))
    ensures r.Err? && r.error.BadArchive? ==> AllKnown(req, files) && NoRepeats(AllPaths(req, files))
    ensures r.Ok? ==> PreparedFully(req, files, tool, threshold, r.value)
  {
    var destinations := PrepareDestinations(req, files);
    if destinations.Err? {
      return Err(BadDestination(destinations.error));
    }
    var options, items := MergeAll(req, files);
    var plan := Plan(items, tool, threshold);
    if plan.Err? {
      return Err(BadArchive(plan.error));
    }
    var paths := PlacePacks(req, files, options, tool, threshold, plan.value);
    r := Ok(Preparation(destinations.value, options, plan.value, paths));
  }

  /** An item has options exactly if it has a destination. */
  lemma OptionsIffDestination(req: Request, files: seq<FileItem>, tool: bool, threshold: int, p: Preparation, i: nat)
    requires PreparedFully(req, files, tool, threshold, p) && i < |files|
    ensures p.options[i].Some? <==> p.dests[i] != []
  {
    AskersHavePaths(req, files[i], |files[i].inputDids|);
    var paths := FilePaths(req, files[i]);
    assert PreparedFile(req, files[i], p.dests[i]);
    if p.dests[i] != [] {
      assert p.dests[i][0] in paths;
    }
    if paths != [] {
      assert paths[0] in p.dests[i];
    }
  }

  /** Every file item is downloaded exactly once, on its own or out of one archive, and one with
      a usable source is carried by an entry that has sources. */
  lemma EveryFileIsCarried(req: Request, files: seq<FileItem>, tool: bool, threshold: int, p: Preparation, f: Fiid)
    requires PreparedFully(req, files, tool, threshold, p) && f < |files|
    ensures exists k :: 0 <= k < |p.entries| && f in Members(p.entries[k])
    ensures forall j, k :: 0 <= j < k < |p.entries| && f in Members(p.entries[j]) ==> f !in Members(p.entries[k])
    ensures UsableSources(PlanItems(req, files)[f], tool) != [] ==>
              forall k :: 0 <= k < |p.entries| && f in Members(p.entries[k]) ==> p.entries[k].sources != []
  {
    EachFileOnce(|files|, p.entries, f);
    forall k | 0 <= k < |p.entries| && f in Members(p.entries[k]) && UsableSources(PlanItems(req, files)[f], tool) != []
      ensures p.entries[k].sources != []
    {
      EntryHasSources(PlanItems(req, files), tool, threshold, p.entries[k]);
    }
  }

  /** After the resolution no requested DID is unknown. */
  lemma ResolvedIsKnown(items: seq<InputItem>, req: Request, files: seq<FileItem>)
    requires Grouping.Indexes(items, req.requests) && Grouping.OnlyAsked(items, files)
    ensures AllKnown(req, files)
  {
    forall i, n | 0 <= i < |files| && 0 <= n < |files[i].inputDids|
      ensures files[i].inputDids[n] in req.requests
    {
      assert files[i].inputDids[n] in files[i].inputDids;
    }
  }

  lemma ArchiveHasNoSlash(item: PlanItem, tool: bool, a: Archive)
    requires a in Archives(item, tool)
    ensures '/' !in a
  {
    var s :| s in item.sources && IsArchiveSource(s, tool) && s.pfn != "" && ArchiveId(s.pfn).value == a;
    ArchiveIdExists(s.pfn);
  }

  /** The last component of a pack's path is the name of its archive. */
  lemma PackPathTail(req: Request, files: seq<FileItem>, tool: bool, threshold: int, p: Preparation, k: nat)
    requires PreparedFully(req, files, tool, threshold, p) && k < |p.entries| && p.entries[k].Pack?
    ensures p.packPaths[k].Some? && Tail(p.packPaths[k].value) == p.entries[k].archive
  {
    var e := p.entries[k];
    assert PackPlaced(req, files, p.options, e, p.packPaths[k]);
    var file := files[e.members[0]];
    var d :| d in p.options[e.members[0]].value.destinations && p.packPaths[k].value == PackPath(req, file, d, e.archive);
    assert EntryPlanned(PlanItems(req, files), tool, threshold, e) && e.members[0] in e.members;
    ArchiveHasNoSlash(PlanItems(req, files)[e.members[0]], tool, e.archive);
    TailOfJoin(DestDir(req, d.0, d.1, file.did.scope), e.archive);
    var head := TailIsLast(e.archive);
    assert head == "";
  }

  /** No two packs are downloaded to the same path, nor through the same temporary path. */
  lemma PacksApart(req: Request, files: seq<FileItem>, tool: bool, threshold: int, p: Preparation, j: nat, k: nat)
    requires PreparedFully(req, files, tool, threshold, p) && j < k < |p.entries|
    requires p.entries[j].Pack? && p.entries[k].Pack?
    ensures p.packPaths[j].Some? && p.packPaths[k].Some? && p.packPaths[j] != p.packPaths[k]
    ensures TempPath(p.packPaths[j].value) != TempPath(p.packPaths[k].value)
  {
    PackPathTail(req, files, tool, threshold, p, j);
    PackPathTail(req, files, tool, threshold, p, k);
    TempPathInjective(p.packPaths[j].value, p.packPaths[k].value);
  }

  /** A pack's path is no file's destination as long as no requested file is named like the archive. */
  lemma PackOffDestinations(req: Request, files: seq<FileItem>, tool: bool, threshold: int, p: Preparation, k: nat, i: nat)
    requires PreparedFully(req, files, tool, threshold, p) && k < |p.entries| && p.entries[k].Pack? && i < |files|
    requires Tail(files[i].did.name) != p.entries[k].archive
    ensures p.packPaths[k].Some? && p.packPaths[k].value !in p.dests[i]
  {
    PackPathTail(req, files, tool, threshold, p, k);
    assert PreparedFile(req, files[i], p.dests[i]);
    if p.packPaths[k].value in p.dests[i] {
      FilePathTail(req, files[i], |files[i].inputDids|, p.packPaths[k].value);
    }
  }

  /** File `f` has to come out of archive `z`, and goes to the path where the pack would go: `g`'s. */
  ghost predicate Clash(req: Request, f: FileItem, g: FileItem) {
    && AllKnown(req, [f, g]) && NoRepeats(AllPaths(req, [f, g]))
    && MustExtract(PlanItems(req, [f, g])[0], true) && Archives(PlanItems(req, [f, g])[0], true) == {"z"}
    && SamePlace(req, f, g)
  }

  ghost predicate SamePlace(req: Request, f: FileItem, g: FileItem) {
    forall t :: t in Askers(req, f) ==> PackPath(req, f, (t.baseDir, t.noSubdir), "z") in FilePaths(req, g)
  }

  /** Asking for a file and for the archive it is packed in sends both to one path: the check for
      equal destinations does not look at packs. */
  lemma PackClashExample() returns (req: Request, f: FileItem, g: FileItem)
    ensures Clash(req, f, g)
  {
    var x, z := Did("s", "x"), Did("s", "z");
    f, g := FileItem(x, [x], [Source("/z", "R", true, 1)]), FileItem(z, [z], []);
    req := Request(map[x := [PlainRequest()], z := [PlainRequest()]], _ => "/d");
    ClashFrom(req, f, g);
  }

  lemma ClashFrom(req: Request, f: FileItem, g: FileItem)
    requires f.did == Did("s", "x") && f.inputDids == [f.did] && f.sources == [Source("/z", "R", true, 1)]
    requires g.did == Did("s", "z") && g.inputDids == [g.did]
    requires f.did in req.requests && req.requests[f.did] == [PlainRequest()]
    requires g.did in req.requests && req.requests[g.did] == [PlainRequest()]
    requires req.abs(".") == "/d"
    ensures Clash(req, f, g)
  {
    TwoPaths(req, f, g);
    FirstMustExtract(req, f, g);
    SamePath(req, f, g);
  }

  lemma FirstMustExtract(req: Request, f: FileItem, g: FileItem)
    requires f.sources == [Source("/z", "R", true, 1)] && f.inputDids == [f.did]
    requires f.did in req.requests && req.requests[f.did] == [PlainRequest()]
    ensures MustExtract(PlanItems(req, [f, g])[0], true) && Archives(PlanItems(req, [f, g])[0], true) == {"z"}
  {
    OnlyAsker(req, f);
    OnlyArchive(f.sources[0]);
    assert PlanItems(req, [f, g])[0] == PlanItem(f.sources, true);
  }

  lemma SamePath(req: Request, f: FileItem, g: FileItem)
    requires f.did == Did("s", "x") && f.inputDids == [f.did] && g.did == Did("s", "z") && g.inputDids == [g.did]
    requires f.did in req.requests && req.requests[f.did] == [PlainRequest()]
    requires g.did in req.requests && req.requests[g.did] == [PlainRequest()] && req.abs(".") == "/d"
    ensures SamePlace(req, f, g)
  {
    OnlyAsker(req, f);
    DirectPath(req, g);
    assert DestDir(req, ".", true, "s") == "/d" + "/" + "" == "/d/";
    assert FilePaths(req, g)[0] == "/d/" + "z" == PackPath(req, f, (".", true), "z");
  }

  lemma TwoPaths(req: Request, f: FileItem, g: FileItem)
    requires f.did == Did("s", "x") && f.inputDids == [f.did] && g.did == Did("s", "z") && g.inputDids == [g.did]
    requires f.did in req.requests && req.requests[f.did] == [PlainRequest()]
    requires g.did in req.requests && req.requests[g.did] == [PlainRequest()] && req.abs(".") == "/d"
    ensures AllKnown(req, [f, g]) && NoRepeats(AllPaths(req, [f, g]))
  {
    DirectPath(req, f);
    DirectPath(req, g);
    PairPaths(req, f, g, "/d/" + "x", "/d/" + "z");
    assert ("/d/" + "x")[3] != ("/d/" + "z")[3];
  }

  lemma PairPaths(req: Request, f: FileItem, g: FileItem, p: Path, q: Path)
    requires FilePaths(req, f) == [p] && FilePaths(req, g) == [q]
    ensures AllPaths(req, [f, g]) == [p, q]
  {
    assert [f, g][..1] == [f] && [f][..0] == [];
    assert AllPaths(req, [f]) == AllPaths(req, []) + FilePaths(req, f);
  }

  lemma OnlyAsker(req: Request, f: FileItem)
    requires f.inputDids == [f.did] && f.did in req.requests && req.requests[f.did] == [PlainRequest()]
    ensures Askers(req, f) == [PlainRequest()] && ResolvesArchives(req, f)
  {
    assert Askers(req, f) == AskersUpTo(req, f, 0) + ItemsFor(req.requests, f.did);
    assert PlainRequest() in Askers(req, f) && WantsArchives(PlainRequest());
  }

  lemma OnlyArchive(source: Source)
    requires source.pfn == "/z" && source.clientExtract
    ensures Archives(PlanItem([source], true), true) == {"z"} && MustExtract(PlanItem([source], true), true)
  {
    var item := PlanItem([source], true);
    assert ArchiveId(source.pfn) == Some("z") by { LastPart(); }
    assert source in item.sources && IsArchiveSource(source, true) && source.pfn != "";
    assert "z" in Archives(item, true);
    forall a | a in Archives(item, true)
      ensures a == "z"
    {
    }
  }

  lemma LastPart()
    ensures ArchiveId("/z") == Some("z")
  {
    assert "/z"[..1] == "/";
    assert Tail("/z") == Tail("/") + "z" == "z";
  }
}
