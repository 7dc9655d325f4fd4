/** The entries of a plan as downloads: which paths they touch, and when they touch none in common. */
module PlannedDownloads {
  // A file may list its destinations in any order, and a pack may go to any destination of its first file.
  // What can go wrong therefore depends on the choices made, and the conditions here say exactly when
  // nothing goes wrong whatever is chosen. They speak of requested paths and pack paths only.

  import opened Wrappers
  import opened Items
  import opened Paths
  import opened ArchiveIndex
  import opened Planner
  import opened Packing
  import opened DownloadItem
  import opened Destinations
  import opened MergedOptions
  import opened Isolation
  import opened Interleaving
  import opened Preparation

  /** The destinations of one entry. */
  function Dests(p: Preparation, k: nat): seq<Path>
    requires k < |p.entries|
  {
    match p.entries[k]
    case Single(f, _) => if f < |p.dests| then p.dests[f] else []
    case Pack(_, _, _) => if k < |p.packPaths| && p.packPaths[k].Some? then [p.packPaths[k].value] else []
  }

  /** The entry may end up with this path as its first destination. */
  ghost predicate MayUse(req: Request, files: seq<FileItem>, e: Entry, x: Path) {
    match e
    case Single(f, _) => f < |files| && x in FilePaths(req, files[f])
    case Pack(a, _, members) =>
      && members != [] && members[0] < |files|
      && exists t :: t in Askers(req, files[members[0]]) && x == PackPath(req, files[members[0]], (t.baseDir, t.noSubdir), a)
  }

  predicate Touched(dests: seq<Path>, x: Path) { dests != [] && (x in dests || x == TempPath(dests[0])) }

  ghost predicate NoneInCommon(a: seq<Path>, b: seq<Path>) { forall x :: Touched(a, x) ==> !Touched(b, x) }

  // ------------------------------------------------------------------- arrangements

  /** Entries stand for files, and no two of them for the same single file. */
  ghost predicate EntriesFit(files: seq<FileItem>, entries: seq<Entry>) {
    && (forall k: nat :: k < |entries| ==>
          match entries[k]
          case Single(f, _) => f < |files|
          case Pack(_, _, members) => members != [] && members[0] < |files|)
    && (forall j: nat, k: nat :: j < k < |entries| && entries[j].Single? && entries[k].Single? ==> entries[j].fiid != entries[k].fiid)
  }

  /** Everything about a prepared plan but that its entries are planned well. */
  ghost predicate Arranged(req: Request, files: seq<FileItem>, p: Preparation) {
    && Prepared(req, files, p.dests) && OptionsForAll(req, files, p.options)
    && PacksPlaced(req, files, p.options, p.entries, p.packPaths) && EntriesFit(files, p.entries)
  }

  lemma FullyIsArranged(req: Request, files: seq<FileItem>, tool: bool, threshold: int, p: Preparation)
    requires PreparedFully(req, files, tool, threshold, p)
    ensures Arranged(req, files, p)
  {
    forall k: nat | k < |p.entries|
      ensures match p.entries[k]
              case Single(f, _) => f < |files|
              case Pack(_, _, members) => members != [] && members[0] < |files|
    {
      assert EntryPlanned(PlanItems(req, files), tool, threshold, p.entries[k]);
    }
    forall j: nat, k: nat | j < k < |p.entries| && p.entries[j].Single? && p.entries[k].Single?
      ensures p.entries[j].fiid != p.entries[k].fiid
    {
      assert Members(p.entries[j])[0] < Members(p.entries[k])[0];
    }
  }

  /** Another arrangement of a prepared plan is as good. */
  lemma ArrangedIsFully(req: Request, files: seq<FileItem>, tool: bool, threshold: int, p0: Preparation, p: Preparation)
    requires PreparedFully(req, files, tool, threshold, p0) && Arranged(req, files, p) && p.entries == p0.entries
    ensures PreparedFully(req, files, tool, threshold, p)
  {
  }

  /** What an entry uses is one of its choices. */
  lemma DestsMayBeUsed(req: Request, files: seq<FileItem>, p: Preparation, k: nat, x: Path)
    requires Arranged(req, files, p) && k < |p.entries| && x in Dests(p, k)
    ensures MayUse(req, files, p.entries[k], x)
  {
    match p.entries[k]
    case Single(f, _) =>
      assert PreparedFile(req, files[f], p.dests[f]);
    case Pack(a, _, members) =>
      var file := files[members[0]];
      assert PackPlaced(req, files, p.options, p.entries[k], p.packPaths[k]);
      assert OptionsFor(req, file, p.options[members[0]]);
      var d :| d in p.options[members[0]].value.destinations && p.packPaths[k].value == PackPath(req, file, d, a);
      var t :| t in Askers(req, file) && d == (t.baseDir, t.noSubdir);
  }

  lemma PathOfFile(req: Request, files: seq<FileItem>, p: Preparation, i: nat, x: Path)
    requires Prepared(req, files, p.dests) && i < |p.dests| && x in p.dests[i]
    ensures x in AllPaths(req, files)
  {
    assert PreparedFile(req, files[i], p.dests[i]);
    FilePathInAll(req, files, i, x);
  }

  lemma FileOfPath(req: Request, files: seq<FileItem>, p: Preparation, x: Path) returns (i: nat)
    requires Prepared(req, files, p.dests) && x in AllPaths(req, files)
    ensures i < |p.dests| && x in p.dests[i]
  {
    i := AllPathsSomewhere(req, files, x);
    assert PreparedFile(req, files[i], p.dests[i]);
  }

  /** What the paths of an arrangement have to do with its choices. */
  ghost predicate UsesChoices(req: Request, files: seq<FileItem>, p: Preparation) {
    && (forall k: nat, x :: k < |p.entries| && x in Dests(p, k) ==> MayUse(req, files, p.entries[k], x))
    && (forall k: nat :: k < |p.entries| && p.entries[k].Pack? ==> |Dests(p, k)| == 1)
    && (forall i: nat, x :: i < |p.dests| && x in p.dests[i] ==> x in AllPaths(req, files))
  }

  lemma ArrangedUsesChoices(req: Request, files: seq<FileItem>, p: Preparation)
    requires Arranged(req, files, p)
    ensures UsesChoices(req, files, p)
  {
    forall k: nat, x | k < |p.entries| && x in Dests(p, k)
      ensures MayUse(req, files, p.entries[k], x)
    {
      DestsMayBeUsed(req, files, p, k, x);
    }
    forall k: nat | k < |p.entries| && p.entries[k].Pack?
      ensures |Dests(p, k)| == 1
    {
      assert PackPlaced(req, files, p.options, p.entries[k], p.packPaths[k]);
    }
    forall i: nat, x | i < |p.dests| && x in p.dests[i]
      ensures x in AllPaths(req, files)
    {
      PathOfFile(req, files, p, i, x);
    }
  }

  /** Lists whose paths differ, also with `.part` appended on either side, have nothing in common. */
  lemma DifferentPathsApart(a: seq<Path>, b: seq<Path>)
    requires forall u, v :: u in a && v in b ==> u != v && u != TempPath(v) && v != TempPath(u)
    ensures NoneInCommon(a, b)
  {
    forall x | Touched(a, x)
      ensures !Touched(b, x)
    {
      if a != [] && b != [] {
        assert a[0] in a && b[0] in b;
        TempPathInjective(a[0], b[0]);
      }
    }
  }

  // ------------------------------------------------------------------- other choices

  /** A file lists this path first. */
  function FileFirst(p: Preparation, i: nat, y: Path): Preparation
    requires i < |p.dests| && y in p.dests[i]
  {
    p.(dests := p.dests[i := ToFront(p.dests[i], y)])
  }

  lemma FileFirstArranged(req: Request, files: seq<FileItem>, p: Preparation, i: nat, y: Path)
    requires Arranged(req, files, p) && i < |p.dests| && y in p.dests[i]
    ensures Arranged(req, files, FileFirst(p, i, y))
  {
    assert PreparedFile(req, files[i], p.dests[i]);
    ToFrontSame(p.dests[i], y);
    var dests := FileFirst(p, i, y).dests;
    forall j | 0 <= j < |files|
      ensures PreparedFile(req, files[j], dests[j])
    {
      assert PreparedFile(req, files[j], p.dests[j]);
    }
  }

  /** A pack goes to this path. */
  function PackAt(p: Preparation, k: nat, y: Path): Preparation
    requires k < |p.packPaths|
  {
    p.(packPaths := p.packPaths[k := Some(y)])
  }

  lemma PackAtArranged(req: Request, files: seq<FileItem>, p: Preparation, k: nat, y: Path)
    requires Arranged(req, files, p) && k < |p.entries| && p.entries[k].Pack? && MayUse(req, files, p.entries[k], y)
    ensures k < |p.packPaths| && Arranged(req, files, PackAt(p, k, y))
  {
    var e, q := p.entries[k], PackAt(p, k, y);
    var file := files[e.members[0]];
    assert PackPlaced(req, files, p.options, e, p.packPaths[k]) && OptionsFor(req, file, p.options[e.members[0]]);
    var t :| t in Askers(req, file) && y == PackPath(req, file, (t.baseDir, t.noSubdir), e.archive);
    assert (t.baseDir, t.noSubdir) in p.options[e.members[0]].value.destinations;
    forall j | 0 <= j < |q.entries|
      ensures PackPlaced(req, files, q.options, q.entries[j], q.packPaths[j])
    {
      assert PackPlaced(req, files, p.options, p.entries[j], p.packPaths[j]);
    }
  }

  ghost predicate OthersStay(p: Preparation, q: Preparation, k: nat) {
    q.entries == p.entries && forall j: nat :: j < |p.entries| && j != k ==> Dests(q, j) == Dests(p, j)
  }

  /** Every choice can be made, the other entries staying as they are. */
  lemma ChoiceCanBeMade(req: Request, files: seq<FileItem>, p: Preparation, k: nat, y: Path) returns (q: Preparation)
    requires Arranged(req, files, p) && k < |p.entries| && MayUse(req, files, p.entries[k], y)
    ensures Arranged(req, files, q) && OthersStay(p, q, k)
    ensures Dests(q, k) != [] && Dests(q, k)[0] == y
  {
    if p.entries[k].Single? {
      var f := p.entries[k].fiid;
      assert PreparedFile(req, files[f], p.dests[f]);
      q := FileFirst(p, f, y);
      FileFirstArranged(req, files, p, f, y);
    } else {
      PackAtArranged(req, files, p, k, y);
      q := PackAt(p, k, y);
    }
  }

  // -------------------------------------------------------------------- entries apart

  /** No two entries touch a path in common. */
  ghost predicate EntriesApart(p: Preparation) {
    forall j: nat, k: nat :: j < |p.entries| && k < |p.entries| && j != k ==> NoneInCommon(Dests(p, j), Dests(p, k))
  }

  /** No path one entry may use is a path another may use, nor one with `.part` appended. */
  ghost predicate Clear(req: Request, files: seq<FileItem>, entries: seq<Entry>) {
    forall j: nat, k: nat, x, y :: !Clashing(req, files, entries, j, k, x, y)
  }

  /** Entry `j` may use `x` and another entry `k` may use `y`, which is `x` or has it as its temporary path. */
  ghost predicate Clashing(req: Request, files: seq<FileItem>, entries: seq<Entry>, j: nat, k: nat, x: Path, y: Path) {
    && j < |entries| && k < |entries| && j != k
    && MayUse(req, files, entries[j], x) && MayUse(req, files, entries[k], y)
    && (x == y || x == TempPath(y))
  }

  lemma ClearSuffices(req: Request, files: seq<FileItem>, p: Preparation)
    requires UsesChoices(req, files, p) && Clear(req, files, p.entries)
    ensures EntriesApart(p)
  {
    forall j: nat, k: nat | j < |p.entries| && k < |p.entries| && j != k
      ensures NoneInCommon(Dests(p, j), Dests(p, k))
    {
      forall u, v | u in Dests(p, j) && v in Dests(p, k)
        ensures u != v && u != TempPath(v) && v != TempPath(u)
      {
        assert !Clashing(req, files, p.entries, j, k, u, v) && !Clashing(req, files, p.entries, k, j, v, u);
      }
      DifferentPathsApart(Dests(p, j), Dests(p, k));
    }
  }

  lemma ClashShows(p: Preparation, j: nat, k: nat, x: Path, y: Path)
    requires j < |p.entries| && k < |p.entries| && j != k && (x == y || x == TempPath(y))
    requires Dests(p, j) != [] && Dests(p, j)[0] == x && Dests(p, k) != [] && Dests(p, k)[0] == y
    ensures !EntriesApart(p)
  {
    assert Dests(p, j)[0] in Dests(p, j) && Dests(p, k)[0] in Dests(p, k);
    assert Touched(Dests(p, j), x) && Touched(Dests(p, k), x);
    assert !NoneInCommon(Dests(p, j), Dests(p, k));
  }

  lemma ClashCanHappen(req: Request, files: seq<FileItem>, p0: Preparation, j: nat, k: nat, x: Path, y: Path) returns (p: Preparation)
    requires Arranged(req, files, p0) && Clashing(req, files, p0.entries, j, k, x, y)
    ensures Arranged(req, files, p) && p.entries == p0.entries && !EntriesApart(p)
  {
    var q := ChoiceCanBeMade(req, files, p0, k, y);
    p := ChoiceCanBeMade(req, files, q, j, x);
    ClashShows(p, j, k, x, y);
  }

  lemma UnclearFails(req: Request, files: seq<FileItem>, p0: Preparation) returns (p: Preparation)
    requires Arranged(req, files, p0) && !Clear(req, files, p0.entries)
    ensures Arranged(req, files, p) && p.entries == p0.entries && !EntriesApart(p)
  {
    var j: nat, k: nat, x, y :| Clashing(req, files, p0.entries, j, k, x, y);
    p := ClashCanHappen(req, files, p0, j, k, x, y);
  }

  /** The entries of a plan touch no path in common, whatever is chosen, if and only if they are clear. */
  lemma EntriesApartIffClear(req: Request, files: seq<FileItem>, tool: bool, threshold: int, p0: Preparation)
    requires PreparedFully(req, files, tool, threshold, p0)
    ensures Clear(req, files, p0.entries) <==>
              forall p :: PreparedFully(req, files, tool, threshold, p) && p.entries == p0.entries ==> EntriesApart(p)
  {
    if Clear(req, files, p0.entries) {
      forall p | PreparedFully(req, files, tool, threshold, p) && p.entries == p0.entries
        ensures EntriesApart(p)
      {
        FullyIsArranged(req, files, tool, threshold, p);
        ArrangedUsesChoices(req, files, p);
        ClearSuffices(req, files, p);
      }
    } else {
      FullyIsArranged(req, files, tool, threshold, p0);
      var p := UnclearFails(req, files, p0);
      ArrangedIsFully(req, files, tool, threshold, p0, p);
    }
  }

  // ------------------------------------------------------------- packs and requested paths

  /** No pack goes to a requested path. */
  ghost predicate PacksOff(p: Preparation) {
    forall k: nat, i: nat, x :: k < |p.entries| && p.entries[k].Pack? && x in Dests(p, k) && i < |p.dests| ==> x !in p.dests[i]
  }

  /** The pack numbered `k` may go to this path. */
  ghost predicate PackChoice(req: Request, files: seq<FileItem>, entries: seq<Entry>, k: nat, y: Path) {
    k < |entries| && entries[k].Pack? && MayUse(req, files, entries[k], y)
  }

  ghost predicate PackChoicesOff(req: Request, files: seq<FileItem>, entries: seq<Entry>) {
    forall k: nat, y :: PackChoice(req, files, entries, k, y) ==> y !in AllPaths(req, files)
  }

  lemma PackChoicesOffSuffices(req: Request, files: seq<FileItem>, p: Preparation)
    requires UsesChoices(req, files, p) && PackChoicesOff(req, files, p.entries)
    ensures PacksOff(p)
  {
    forall k: nat, i: nat, x | k < |p.entries| && p.entries[k].Pack? && x in Dests(p, k) && i < |p.dests|
      ensures x !in p.dests[i]
    {
      assert PackChoice(req, files, p.entries, k, x);
    }
  }

  lemma RequestedChoiceFails(req: Request, files: seq<FileItem>, p0: Preparation) returns (p: Preparation)
    requires Arranged(req, files, p0) && !PackChoicesOff(req, files, p0.entries)
    ensures Arranged(req, files, p) && p.entries == p0.entries && !PacksOff(p)
  {
    var k: nat, y :| PackChoice(req, files, p0.entries, k, y) && y in AllPaths(req, files);
    PackAtArranged(req, files, p0, k, y);
    p := PackAt(p0, k, y);
    var i := FileOfPath(req, files, p, y);
    assert Dests(p, k) == [y] && y in Dests(p, k);
  }

  /** No pack goes to a requested path, whatever is chosen, if and only if no path it may go to is requested. */
  lemma PacksOffIff(req: Request, files: seq<FileItem>, tool: bool, threshold: int, p0: Preparation)
    requires PreparedFully(req, files, tool, threshold, p0)
    ensures PackChoicesOff(req, files, p0.entries) <==>
              forall p :: PreparedFully(req, files, tool, threshold, p) && p.entries == p0.entries ==> PacksOff(p)
  {
    if PackChoicesOff(req, files, p0.entries) {
      forall p | PreparedFully(req, files, tool, threshold, p) && p.entries == p0.entries
        ensures PacksOff(p)
      {
        FullyIsArranged(req, files, tool, threshold, p);
        ArrangedUsesChoices(req, files, p);
        PackChoicesOffSuffices(req, files, p);
      }
    } else {
      FullyIsArranged(req, files, tool, threshold, p0);
      var p := RequestedChoiceFails(req, files, p0);
      ArrangedIsFully(req, files, tool, threshold, p0, p);
    }
  }

  /** No pack touches a path, temporary ones included, that some file touches, whether or not it is downloaded by itself. */
  ghost predicate PacksIsolated(p: Preparation) {
    forall k: nat, i: nat :: k < |p.entries| && p.entries[k].Pack? && i < |p.dests| ==> NoneInCommon(Dests(p, k), p.dests[i])
  }

  /** One path is the other, with or without `.part` appended. */
  predicate SameButPart(y: Path, q: Path) { y == q || TempPath(y) == q || y == TempPath(q) }

  ghost predicate PackChoicesIsolated(req: Request, files: seq<FileItem>, entries: seq<Entry>) {
    forall k: nat, y, q :: PackChoice(req, files, entries, k, y) && q in AllPaths(req, files) ==> !SameButPart(y, q)
  }

  lemma PackChoicesIsolatedSuffices(req: Request, files: seq<FileItem>, p: Preparation)
    requires UsesChoices(req, files, p) && PackChoicesIsolated(req, files, p.entries)
    ensures PacksIsolated(p)
  {
    forall k: nat, i: nat | k < |p.entries| && p.entries[k].Pack? && i < |p.dests|
      ensures NoneInCommon(Dests(p, k), p.dests[i])
    {
      forall u, v | u in Dests(p, k) && v in p.dests[i]
        ensures u != v && u != TempPath(v) && v != TempPath(u)
      {
        assert PackChoice(req, files, p.entries, k, u) && v in AllPaths(req, files);
        assert !SameButPart(u, v);
      }
      DifferentPathsApart(Dests(p, k), p.dests[i]);
    }
  }

  lemma SharedPathShows(p: Preparation, k: nat, i: nat, y: Path, q: Path)
    requires k < |p.entries| && p.entries[k].Pack? && Dests(p, k) == [y]
    requires i < |p.dests| && p.dests[i] != [] && p.dests[i][0] == q && SameButPart(y, q)
    ensures !PacksIsolated(p)
  {
    var x := if y == TempPath(q) then y else q;
    assert p.dests[i][0] in p.dests[i];
    assert Touched([y], x) && Touched(p.dests[i], x);
    assert !NoneInCommon(Dests(p, k), p.dests[i]);
  }

  lemma SharedChoiceFails(req: Request, files: seq<FileItem>, p0: Preparation) returns (p: Preparation)
    requires Arranged(req, files, p0) && !PackChoicesIsolated(req, files, p0.entries)
    ensures Arranged(req, files, p) && p.entries == p0.entries && !PacksIsolated(p)
  {
    var k: nat, y, q :| PackChoice(req, files, p0.entries, k, y) && q in AllPaths(req, files) && SameButPart(y, q);
    PackAtArranged(req, files, p0, k, y);
    var p1 := PackAt(p0, k, y);
    var i := FileOfPath(req, files, p1, q);
    FileFirstArranged(req, files, p1, i, q);
    p := FileFirst(p1, i, q);
    SharedPathShows(p, k, i, y, q);
  }

  /** The same with temporary paths: a pack touches no path that a file touches, whatever is chosen, if and only if
      no path it may go to is a requested one, with or without `.part` appended on either side. */
  lemma PacksIsolatedIff(req: Request, files: seq<FileItem>, tool: bool, threshold: int, p0: Preparation)
    requires PreparedFully(req, files, tool, threshold, p0)
    ensures PackChoicesIsolated(req, files, p0.entries) <==>
              forall p :: PreparedFully(req, files, tool, threshold, p) && p.entries == p0.entries ==> PacksIsolated(p)
  {
    if PackChoicesIsolated(req, files, p0.entries) {
      forall p | PreparedFully(req, files, tool, threshold, p) && p.entries == p0.entries
        ensures PacksIsolated(p)
      {
        FullyIsArranged(req, files, tool, threshold, p);
        ArrangedUsesChoices(req, files, p);
        PackChoicesIsolatedSuffices(req, files, p);
      }
    } else {
      FullyIsArranged(req, files, tool, threshold, p0);
      var p := SharedChoiceFails(req, files, p0);
      ArrangedIsFully(req, files, tool, threshold, p0, p);
    }
  }

  // ---------------------------------------------------------------- running the plan

  /** The downloads of a plan. What they find on storage is up to the environment. */
  ghost predicate DownloadsOf(p: Preparation, items: seq<Item>) {
    |items| == |p.entries| && forall k: nat :: k < |items| ==> items[k].dests == Dests(p, k)
  }

  lemma DownloadsAreApart(req: Request, files: seq<FileItem>, p: Preparation, items: seq<Item>)
    requires Arranged(req, files, p) && EntriesApart(p) && DownloadsOf(p, items)
    ensures Apart(items) && forall k :: 0 <= k < |items| ==> WellPrepared(items[k])
  {
    forall i, j, x | 0 <= i < |items| && 0 <= j < |items| && i != j && Touches(items[i], x)
      ensures !Touches(items[j], x)
    {
      assert NoneInCommon(Dests(p, i), Dests(p, j));
      assert Touched(Dests(p, i), x);
    }
    forall k: nat | k < |items|
      ensures WellPrepared(items[k])
    {
      if p.entries[k].Single? {
        var f := p.entries[k].fiid;
        assert PreparedFile(req, files[f], p.dests[f]);
        if items[k].dests != [] { OwnTempIsFree(req, files, p.dests, f); }
      }
    }
  }

  /** A plan whose entries are clear is carried out in any interleaving of its downloads, packs included: each one
      that has finished has delivered what it reports, and each one that gets enough turns does finish. */
  lemma ClearPlanDelivers(req: Request, files: seq<FileItem>, tool: bool, threshold: int, p: Preparation,
                          items: seq<Item>, envs: seq<Env>, fs0: FileSystem, schedule: seq<nat>, k: nat)
    requires PreparedFully(req, files, tool, threshold, p) && Clear(req, files, p.entries) && DownloadsOf(p, items)
    requires |envs| == |items| && Schedule(items, schedule) && k < |items|
    ensures var s := Run(items, envs, fs0, schedule);
            s.points[k].Finished? ==> Delivered(fs0, s.fs, items[k], envs[k], s.points[k].outcome)
    ensures Turns(schedule, k) >= Bound(items[k]) ==> Run(items, envs, fs0, schedule).points[k].Finished?
  {
    FullyIsArranged(req, files, tool, threshold, p);
    ArrangedUsesChoices(req, files, p);
    ClearSuffices(req, files, p);
    DownloadsAreApart(req, files, p, items);
    InterleavingDelivers(items, envs, fs0, schedule, k);
  }
}
