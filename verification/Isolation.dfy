/** What the prepared destinations guarantee to the downloads that use them: files do not get
    into each other's way, except through the temporary path, and exactly when. */
module Isolation {
  import opened Wrappers
  import opened Items
  import opened ClientStates
  import opened Paths
  import opened DownloadItem
  import opened Destinations

  // ------------------------------------------------------- disjoint destinations

  lemma {:induction false} FilePathInAll(req: Request, files: seq<FileItem>, i: nat, p: Path)
    requires i < |files| && p in FilePaths(req, files[i])
    ensures p in AllPaths(req, files)
  {
    if i < |files| - 1 {
      FilePathInAll(req, files[..|files| - 1], i, p);
    }
  }

  lemma {:induction false} FilesDisjoint(req: Request, files: seq<FileItem>, i: nat, j: nat, p: Path)
    requires Distinct(AllPaths(req, files)) && i < j < |files|
    requires p in FilePaths(req, files[i])
    ensures p !in FilePaths(req, files[j])
  {
    var init, last := files[..|files| - 1], files[|files| - 1];
    if j == |files| - 1 {
      FilePathInAll(req, init, i, p);
      DistinctConcat(AllPaths(req, init), FilePaths(req, last), p);
    } else {
      DistinctPrefix(AllPaths(req, init), FilePaths(req, last));
      FilesDisjoint(req, init, i, j, p);
    }
  }

  /** Destination sets of distinct file items are pairwise disjoint. */
  lemma DestinationsDisjoint(req: Request, files: seq<FileItem>, dests: seq<seq<Path>>, i: nat, j: nat)
    requires Prepared(req, files, dests) && NoRepeats(AllPaths(req, files))
    requires i < |files| && j < |files| && i != j
    ensures forall p :: p in dests[i] ==> p !in dests[j]
  {
    DistinctIsNoRepeats(AllPaths(req, files));
    assert PreparedFile(req, files[i], dests[i]) && PreparedFile(req, files[j], dests[j]);
    forall p | p in dests[i] && p in dests[j]
      ensures false
    {
      FilesDisjoint(req, files, if i < j then i else j, if i < j then j else i, p);
    }
  }

  lemma TempPathInjective(p: Path, q: Path)
    requires p != q
    ensures TempPath(p) != TempPath(q)
  {
    if |p| == |q| {
      var i :| 0 <= i < |p| && p[i] != q[i];
      assert TempPath(p)[i] != TempPath(q)[i];
    }
  }

  /** So are the temporary paths of any two items that have destinations. */
  lemma TempPathsDistinct(req: Request, files: seq<FileItem>, dests: seq<seq<Path>>, i: nat, j: nat)
    requires Prepared(req, files, dests) && NoRepeats(AllPaths(req, files))
    requires i < |files| && j < |files| && i != j && dests[i] != [] && dests[j] != []
    ensures TempPath(dests[i][0]) != TempPath(dests[j][0])
  {
    assert dests[i][0] in dests[i] && dests[j][0] in dests[j];
    DestinationsDisjoint(req, files, dests, i, j);
    TempPathInjective(dests[i][0], dests[j][0]);
  }

  lemma {:induction false} PathsUpToEmpty(req: Request, file: FileItem, n: nat)
    requires n <= |file.inputDids|
    ensures |PathsUpTo(req, file, n)| == 0 <==> forall k :: 0 <= k < n ==> |ItemsFor(req.requests, file.inputDids[k])| == 0
  {
    if n > 0 {
      PathsUpToEmpty(req, file, n - 1);
    }
  }

  /** An item has a destination exactly if some input item asks for it, that is if it has options. */
  lemma OptionsMeanDestination(req: Request, files: seq<FileItem>, dests: seq<seq<Path>>, i: nat)
    requires Prepared(req, files, dests) && i < |files|
    ensures dests[i] != [] <==>
              exists k :: 0 <= k < |files[i].inputDids| && ItemsFor(req.requests, files[i].inputDids[k]) != []
  {
    assert PreparedFile(req, files[i], dests[i]);
    PathsUpToEmpty(req, files[i], |files[i].inputDids|);
    var paths := FilePaths(req, files[i]);
    if dests[i] != [] {
      assert dests[i][0] in paths;
    }
    if paths != [] {
      assert paths[0] in dests[i];
    }
  }

  // ------------------------------------------- own destinations and own temporary

  lemma {:induction false} TailOfTail(s: string)
    ensures '/' !in Tail(s) && Tail(Tail(s)) == Tail(s)
  {
    if s != "" && s[|s| - 1] != '/' {
      TailOfTail(s[..|s| - 1]);
      assert Tail(s)[..|Tail(s)| - 1] == Tail(s[..|s| - 1]);
    }
  }

  lemma TailOfJoin(a: string, b: string)
    ensures Tail(JoinPath(a, b)) == Tail(b)
  {
    if !StartsWithSlash(b) {
      var dir := if a == "" || a[|a| - 1] == '/' then a else a + "/";
      assert JoinPath(a, b) == dir + b;
      assert Tail(dir) == "";
      TailConcat(dir, b);
      if '/' !in b {
        TailConcat("", b);
        assert "" + b == b;
      }
    }
  }

  /** All destinations of a file end in the last component of its name. */
  lemma DestPathTail(req: Request, file: Did, input: Did, t: InputItem)
    ensures Tail(DestPath(req, file, input, t)) == Tail(file.name)
  {
    if input != file {
      TailOfJoin(DestDir(req, t.baseDir, t.noSubdir, input.name), if StartsWithSlash(file.name) then Tail(file.name) else file.name);
      TailOfTail(file.name);
    } else {
      TailOfJoin(DestDir(req, t.baseDir, t.noSubdir, file.scope), DropSlash(file.name));
      if StartsWithSlash(file.name) {
        TailConcat("/", file.name[1..]);
        assert "/" + file.name[1..] == file.name;
        if '/' !in file.name[1..] {
          TailConcat("", file.name[1..]);
          assert "" + file.name[1..] == file.name[1..];
        }
      }
    }
  }

  lemma {:induction false} FilePathTail(req: Request, file: FileItem, n: nat, p: Path)
    requires n <= |file.inputDids| && p in PathsUpTo(req, file, n)
    ensures Tail(p) == Tail(file.did.name)
  {
    if n > 0 {
      var input := file.inputDids[n - 1];
      var ts := ItemsFor(req.requests, input);
      if p in RequestPaths(req, file.did, input, ts) {
        var k :| 0 <= k < |ts| && p == RequestPaths(req, file.did, input, ts)[k];
        DestPathTail(req, file.did, input, ts[k]);
      } else {
        FilePathTail(req, file, n - 1, p);
      }
    }
  }

  lemma TempTail(p: Path)
    ensures Tail(TempPath(p)) != Tail(p)
  {
    TailConcat(p, ".part");
    assert |Tail(TempPath(p))| == |Tail(p)| + 5;
  }

  /** The temporary path of an item is never one of its own destinations. */
  lemma OwnTempIsFree(req: Request, files: seq<FileItem>, dests: seq<seq<Path>>, i: nat)
    requires Prepared(req, files, dests) && i < |files| && dests[i] != []
    ensures TempPath(dests[i][0]) !in dests[i]
  {
    var p := dests[i][0];
    assert PreparedFile(req, files[i], dests[i]) && p in dests[i];
    FilePathTail(req, files[i], |files[i].inputDids|, p);
    TempTail(p);
    if TempPath(p) in dests[i] {
      FilePathTail(req, files[i], |files[i].inputDids|, TempPath(p));
    }
  }

  // --------------------------------------------- temporaries and other destinations

  /** No item's temporary path is a destination of any item. */
  ghost predicate TempsClear(dests: seq<seq<Path>>) {
    forall i, j :: 0 <= i < |dests| && 0 <= j < |dests| && dests[i] != [] ==> TempPath(dests[i][0]) !in dests[j]
  }

  /** No requested path is another requested path with `.part` appended. */
  ghost predicate PartFree(paths: seq<Path>) {
    forall p, q :: p in paths && q in paths ==> q != TempPath(p)
  }

  lemma {:induction false} AllPathsSomewhere(req: Request, files: seq<FileItem>, p: Path) returns (i: nat)
    requires p in AllPaths(req, files)
    ensures i < |files| && p in FilePaths(req, files[i])
  {
    var last := |files| - 1;
    if p in FilePaths(req, files[last]) {
      i := last;
    } else {
      i := AllPathsSomewhere(req, files[..last], p);
    }
  }

  /** `p` moved to the front: the set of a file's paths may be listed in this order too. */
  function ToFront(s: seq<Path>, p: Path): (r: seq<Path>)
    requires p in s
    ensures r != [] && r[0] == p
  {
    var k := IndexOf(s, p);
    [p] + s[..k] + s[k + 1..]
  }

  function IndexOf(s: seq<Path>, p: Path): (k: nat)
    requires p in s
    ensures k < |s| && s[k] == p
  {
    if s[0] == p then 0 else 1 + IndexOf(s[1..], p)
  }

  lemma ToFrontSame(s: seq<Path>, p: Path)
    requires p in s && NoRepeats(s)
    ensures NoRepeats(ToFront(s, p))
    ensures forall q :: q in ToFront(s, p) <==> q in s
  {
    var k := IndexOf(s, p);
    var r := ToFront(s, p);
    assert forall i :: 0 <= i < |r| ==> r[i] == (if i == 0 then s[k] else if i <= k then s[i - 1] else s[i]);
    forall q | q in s
      ensures q in r
    {
      var i :| 0 <= i < |s| && s[i] == q;
      assert r[if i == k then 0 else if i < k then i + 1 else i] == q;
    }
  }

  lemma {:induction false} DistinctSuffix(a: seq<Path>, b: seq<Path>)
    requires Distinct(a + b)
    ensures Distinct(b)
  {
    if b != [] {
      var init := b[..|b| - 1];
      assert (a + b)[..|a + b| - 1] == a + init;
      DistinctSuffix(a, init);
      assert forall x :: x in init ==> x in a + init;
    }
  }

  lemma {:induction false} FilePathsDistinct(req: Request, files: seq<FileItem>, i: nat)
    requires Distinct(AllPaths(req, files)) && i < |files|
    ensures NoRepeats(FilePaths(req, files[i]))
  {
    var init, last := files[..|files| - 1], files[|files| - 1];
    if i == |files| - 1 {
      DistinctSuffix(AllPaths(req, init), FilePaths(req, last));
      DistinctIsNoRepeats(FilePaths(req, last));
    } else {
      DistinctPrefix(AllPaths(req, init), FilePaths(req, last));
      FilePathsDistinct(req, init, i);
    }
  }

  /** The lists a run may end up with when file `i` happens to list `p` first. */
  ghost function ListWithFirst(req: Request, files: seq<FileItem>, i: nat, p: Path): (dests: seq<seq<Path>>)
    requires i < |files| && p in FilePaths(req, files[i])
    ensures |dests| == |files|
  {
    seq(|files|, k requires 0 <= k < |files| =>
      if k == i then ToFront(FilePaths(req, files[i]), p) else FilePaths(req, files[k]))
  }

  lemma ListWithFirstPrepared(req: Request, files: seq<FileItem>, i: nat, p: Path)
    requires NoRepeats(AllPaths(req, files)) && i < |files| && p in FilePaths(req, files[i])
    ensures Prepared(req, files, ListWithFirst(req, files, i, p))
  {
    DistinctIsNoRepeats(AllPaths(req, files));
    var dests := ListWithFirst(req, files, i, p);
    forall k | 0 <= k < |files|
      ensures PreparedFile(req, files[k], dests[k])
    {
      FilePathsDistinct(req, files, k);
      if k == i {
        ToFrontSame(FilePaths(req, files[i]), p);
      }
    }
  }

  /** Temporary paths stay clear of all destinations in every order a set may be listed in if and
      only if no requested path is another one with `.part` appended. */
  lemma TempsClearIffPartFree(req: Request, files: seq<FileItem>)
    requires NoRepeats(AllPaths(req, files))
    ensures PartFree(AllPaths(req, files)) <==> forall dests :: Prepared(req, files, dests) ==> TempsClear(dests)
  {
    if PartFree(AllPaths(req, files)) {
      forall dests | Prepared(req, files, dests)
        ensures TempsClear(dests)
      {
        PartFreeSuffices(req, files, dests);
      }
    } else {
      var p, q :| p in AllPaths(req, files) && q in AllPaths(req, files) && q == TempPath(p);
      var i := AllPathsSomewhere(req, files, p);
      var j := AllPathsSomewhere(req, files, q);
      ListWithFirstPrepared(req, files, i, p);
      var dests := ListWithFirst(req, files, i, p);
      assert PreparedFile(req, files[j], dests[j]);
      assert q in dests[j] && dests[i][0] == p;
      assert !TempsClear(dests);
    }
  }

  lemma PartFreeSuffices(req: Request, files: seq<FileItem>, dests: seq<seq<Path>>)
    requires PartFree(AllPaths(req, files)) && Prepared(req, files, dests)
    ensures TempsClear(dests)
  {
    forall i, j | 0 <= i < |dests| && 0 <= j < |dests| && dests[i] != []
      ensures TempPath(dests[i][0]) !in dests[j]
    {
      assert PreparedFile(req, files[i], dests[i]) && PreparedFile(req, files[j], dests[j]);
      assert dests[i][0] in dests[i];
      FilePathInAll(req, files, i, dests[i][0]);
      if TempPath(dests[i][0]) in dests[j] {
        FilePathInAll(req, files, j, TempPath(dests[i][0]));
      }
    }
  }

  /** A request for files of base directory `.`, without sub-directories. */
  function PlainRequest(): InputItem {
    InputItem(".", true, false, false, None, None, None, None, None, 0, [])
  }

  /** A file asked for directly, without a sub-directory, under base directory `/d`. */
  lemma DirectPath(req: Request, file: FileItem)
    requires file.inputDids == [file.did] && file.did in req.requests && req.requests[file.did] == [PlainRequest()]
    requires req.abs(".") == "/d" && !StartsWithSlash(file.did.name)
    ensures FilePaths(req, file) == ["/d/" + file.did.name]
  {
    var t := PlainRequest();
    assert DestDir(req, t.baseDir, t.noSubdir, file.did.scope) == "/d" + "/" + "" == "/d/";
    assert FilePaths(req, file) == PathsUpTo(req, file, 0) + RequestPaths(req, file.did, file.did, [t]);
  }

  /** Two files `x` and `x.part` of one scope: accepted, and yet one's temporary path is the other's destination. */
  lemma TempClashExample()
    ensures exists req: Request, files ::
              && AllKnown(req, files) && NoRepeats(AllPaths(req, files)) && !PartFree(AllPaths(req, files))
  {
    var x, y := Did("s", "x"), Did("s", "x.part");
    var here := [PlainRequest()];
    var req := Request(map[x := here, y := here], _ => "/d");
    var f, g := FileItem(x, [x], []), FileItem(y, [y], []);
    DirectPath(req, f);
    DirectPath(req, g);
    var files, p, q := [f, g], "/d/" + "x", "/d/" + "x.part";
    assert AllPaths(req, files) == [p, q] by {
      assert files[..1] == [f] && [f][..0] == [];
      assert AllPaths(req, [f]) == AllPaths(req, []) + FilePaths(req, f);
    }
    assert |p| != |q| && q == TempPath(p);
    assert p in AllPaths(req, files) && q in AllPaths(req, files);
    assert AllKnown(req, files) && NoRepeats(AllPaths(req, files)) && !PartFree(AllPaths(req, files));
  }

  // ----------------------------------------------------------- all items in turn

  /** The paths a download may write. */
  ghost predicate Touches(item: Item, p: Path) {
    item.dests != [] && (p in item.dests || p == TempPath(item.dests[0]))
  }

  /** What the final file system says about one item, judged against the initial one. */
  ghost predicate Delivered(fs0: FileSystem, fs: FileSystem, item: Item, env: Env, outcome: Outcome) {
    match outcome
    case Returned(Done) =>
      exists k: nat :: EndsWith(fs0, item, env, k) && env.transfer(k).content.Some? && AllHold(fs, item.dests, env.transfer(k).content.value)
    case Returned(AlreadyDone) =>
      exists d :: d in item.dests && Accepted(fs0, item, env, d) && MissingFilled(fs0, fs, item.dests, fs0[d])
    case Returned(FileNotFound) =>
      DestsUnchanged(fs0, fs, item.dests) && !HasLocalCopy(fs0, item, env) && item.sources == 0
    case Returned(Failed) =>
      && DestsUnchanged(fs0, fs, item.dests) && !HasLocalCopy(fs0, item, env)
      && forall k: nat :: k < RETRIES * item.sources ==> !Ends(item, env, k)
    case Returned(_) => false
    case Raised => DestsUnchanged(fs0, fs, item.dests)
  }

  ghost predicate AllHold(fs: FileSystem, dests: seq<Path>, c: Content) {
    forall d :: d in dests ==> d in fs && fs[d] == c
  }

  ghost predicate MissingFilled(fs0: FileSystem, fs: FileSystem, dests: seq<Path>, c: Content) {
    forall d :: d in dests ==> d in fs && fs[d] == if d in fs0 then fs0[d] else c
  }

  /** The verdict on an item looks at its destinations only. */
  lemma DeliveredIsLocal(fs0: FileSystem, fs: FileSystem, fs0': FileSystem, fs': FileSystem, item: Item, env: Env, outcome: Outcome)
    requires Delivered(fs0, fs, item, env, outcome)
    requires DestsUnchanged(fs0, fs0', item.dests) && DestsUnchanged(fs, fs', item.dests)
    ensures Delivered(fs0', fs', item, env, outcome)
  {
    SameView(fs0, fs0', item, env);
    match outcome
    case Returned(Done) =>
      var k: nat :| EndsWith(fs0, item, env, k) && env.transfer(k).content.Some? && AllHold(fs, item.dests, env.transfer(k).content.value);
      assert EndsWith(fs0', item, env, k) && AllHold(fs', item.dests, env.transfer(k).content.value);
    case Returned(AlreadyDone) =>
      var d :| d in item.dests && Accepted(fs0, item, env, d) && MissingFilled(fs0, fs, item.dests, fs0[d]);
      assert Accepted(fs0', item, env, d) && MissingFilled(fs0', fs', item.dests, fs0'[d]);
    case _ =>
  }

  lemma SameView(fs: FileSystem, fs': FileSystem, item: Item, env: Env)
    requires DestsUnchanged(fs, fs', item.dests)
    ensures forall d :: d in item.dests ==> (Accepted(fs, item, env, d) <==> Accepted(fs', item, env, d))
    ensures HasLocalCopy(fs, item, env) <==> HasLocalCopy(fs', item, env)
    ensures HasSizeUnknown(fs, item) <==> HasSizeUnknown(fs', item)
  {
    forall d | d in item.dests
      ensures Accepted(fs, item, env, d) <==> Accepted(fs', item, env, d)
      ensures SizeUnknown(fs, item, d) <==> SizeUnknown(fs', item, d)
    {
    }
  }

  /** Items whose destinations are listed without repetition and do not include their temporary path. */
  ghost predicate WellPrepared(item: Item) {
    NoRepeats(item.dests) && (item.dests != [] ==> TempPath(item.dests[0]) !in item.dests)
  }

  method DownloadOne(fs0: FileSystem, item: Item, env: Env) returns (fs: FileSystem, outcome: Outcome)
    requires WellPrepared(item)
    ensures Delivered(fs0, fs, item, env, outcome)
    ensures forall p :: !Touches(item, p) ==> (p in fs <==> p in fs0) && (p in fs ==> fs[p] == fs0[p])
  {
    var log;
    fs, outcome, log := Download(fs0, item, env);
    if item.dests != [] {
      match outcome
      case Returned(Done) =>
        ghost var k: nat :| DoneBy(fs0, fs, item, env, log, k);
        assert AllHold(fs, item.dests, env.transfer(k).content.value);
      case Returned(AlreadyDone) =>
        ghost var d :| d in item.dests && Accepted(fs0, item, env, d) && FillsMissing(fs0, item.dests, fs0[d], fs);
        assert MissingFilled(fs0, fs, item.dests, fs0[d]);
      case Returned(FileNotFound) =>
      case Returned(Failed) =>
      case Raised =>
    }
  }

  /** No item writes to a destination of another one. */
  ghost predicate Isolated(items: seq<Item>) {
    forall i, j, p :: 0 <= i < |items| && 0 <= j < |items| && i != j && p in items[j].dests ==> !Touches(items[i], p)
  }

  /** Downloading all items, in whatever order they are listed, delivers each of them as if it
      had been alone: the verdict on every item compares the final with the initial files. */
  method DownloadAll(fs0: FileSystem, items: seq<Item>, envs: seq<Env>) returns (fs: FileSystem, outcomes: seq<Outcome>)
    requires |envs| == |items| && Isolated(items)
    requires forall i :: 0 <= i < |items| ==> WellPrepared(items[i])
    ensures |outcomes| == |items|
    ensures forall i :: 0 <= i < |items| ==> Delivered(fs0, fs, items[i], envs[i], outcomes[i])
  {
    fs, outcomes := fs0, [];
    for n := 0 to |items|
      invariant |outcomes| == n
      invariant forall i :: 0 <= i < n ==> Delivered(fs0, fs, items[i], envs[i], outcomes[i])
      invariant forall i :: n <= i < |items| ==> DestsUnchanged(fs0, fs, items[i].dests)
    {
      var fs1, outcome := DownloadOne(fs, items[n], envs[n]);
      assert forall i :: 0 <= i < |items| && i != n ==> DestsUnchanged(fs, fs1, items[i].dests);
      assert Delivered(fs0, fs1, items[n], envs[n], outcome) by {
        DeliveredIsLocal(fs, fs1, fs0, fs1, items[n], envs[n], outcome);
      }
      forall i | 0 <= i < n
        ensures Delivered(fs0, fs1, items[i], envs[i], outcomes[i])
      {
        DeliveredIsLocal(fs0, fs, fs0, fs1, items[i], envs[i], outcomes[i]);
      }
      fs, outcomes := fs1, outcomes + [outcome];
    }
  }

  /** What the planner prepares is well prepared, and isolated if no requested path is
      another one with `.part` appended. */
  lemma PreparedItemsAreIsolated(req: Request, files: seq<FileItem>, items: seq<Item>)
    requires |items| == |files|
    requires Prepared(req, files, seq(|items|, i requires 0 <= i < |items| => items[i].dests))
    requires NoRepeats(AllPaths(req, files)) && PartFree(AllPaths(req, files))
    ensures Isolated(items) && forall i :: 0 <= i < |items| ==> WellPrepared(items[i])
  {
    var dests := seq(|items|, i requires 0 <= i < |items| => items[i].dests);
    PartFreeSuffices(req, files, dests);
    forall i | 0 <= i < |items|
      ensures WellPrepared(items[i])
    {
      assert PreparedFile(req, files[i], dests[i]);
      if items[i].dests != [] {
        OwnTempIsFree(req, files, dests, i);
      }
    }
    forall i, j, p | 0 <= i < |items| && 0 <= j < |items| && i != j && p in items[j].dests
      ensures !Touches(items[i], p)
    {
      DestinationsDisjoint(req, files, dests, i, j);
      assert p in dests[j] && dests[i] == items[i].dests;
    }
  }
}
