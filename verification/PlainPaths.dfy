/** Where files and packs go, in plain strings. */
module PlainPaths {
  import opened Sequences
  import opened Wrappers
  import opened Items
  import opened Paths
  import opened DownloadItem
  import opened Destinations
  import opened Preparation

  /** The name without a leading slash is `plain`, which has no slash of its own at either end. */
  ghost predicate Named(name: string, plain: string) {
    && plain != "" && plain[0] != '/' && plain[|plain| - 1] != '/'
    && (name == plain || name == "/" + plain)
  }

  /** The file's own name in a directory of a dataset: all of it, or the last part of one that starts with a slash. */
  ghost predicate NameInDataset(name: string, plain: string) {
    || (name == plain && (name == "" || name[0] != '/'))
    || ('/' !in plain && exists dir: string :: name == "/" + dir + "/" + plain || name == "/" + plain)
  }

  /** A directory that does not end with a slash. */
  ghost predicate Directory(base: string) { base != "" && base[|base| - 1] != '/' }

  /** A file asked for through a dataset goes into a directory named after the dataset. */
  lemma PathThroughDataset(req: Request, file: Did, input: Did, t: InputItem, dataset: string, name: string)
    requires input != file && Directory(req.abs(t.baseDir))
    requires Named(input.name, dataset) && NameInDataset(file.name, name)
    ensures DestPath(req, file, input, t) == req.abs(t.baseDir) + "/" + (if t.noSubdir then "" else dataset + "/") + name
  {
    TailOfName(file.name, name);
  }

  lemma TailOfName(name: string, plain: string)
    requires NameInDataset(name, plain)
    ensures (if name != "" && name[0] == '/' then Tail(name) else name) == plain
  {
    if name != "" && name[0] == '/' {
      TailConcat("/", plain);
      forall dir: string | name == "/" + dir + "/" + plain
        ensures Tail(name) == plain
      {
        TailConcat("/" + dir + "/", plain);
      }
    }
  }

  /** A file asked for directly goes into a directory named after its scope. */
  lemma PathOfFile(req: Request, file: Did, t: InputItem, name: string)
    requires Directory(req.abs(t.baseDir)) && Named(file.scope, file.scope) && Named(file.name, name)
    ensures DestPath(req, file, file, t) == req.abs(t.baseDir) + "/" + (if t.noSubdir then "" else file.scope + "/") + name
  {
  }

  /** A pack goes into a directory named after the scope of its first file, under the archive's name. */
  lemma PathOfPack(req: Request, file: FileItem, destination: (string, bool), archive: string)
    requires Directory(req.abs(destination.0)) && Named(file.did.scope, file.did.scope) && '/' !in archive
    ensures PackPath(req, file, destination, archive) ==
            req.abs(destination.0) + "/" + (if destination.1 then "" else file.did.scope + "/") + archive
  {
  }

  lemma SameBetween(a: string, x: string, y: string, b: string)
    requires a + x + b == a + y + b
    ensures x == y
  {
    assert |x| == |y|;
    forall i | 0 <= i < |x|
      ensures x[i] == y[i]
    {
      assert (a + x + b)[|a| + i] == x[i] && (a + y + b)[|a| + i] == y[i];
    }
  }

  /** Whether the file is asked for through a dataset of this name, or directly with this scope. */
  ghost predicate GoesUnder(file: Did, input: Did, t: InputItem, directory: string, name: string) {
    && !t.noSubdir
    && if input != file then Named(input.name, directory) && NameInDataset(file.name, name)
       else directory == file.scope && Named(file.scope, file.scope) && Named(file.name, name)
  }

  lemma PathUnder(req: Request, file: Did, input: Did, t: InputItem, directory: string, name: string)
    requires GoesUnder(file, input, t, directory, name) && Directory(req.abs(t.baseDir))
    ensures DestPath(req, file, input, t) == (req.abs(t.baseDir) + "/") + directory + ("/" + name)
  {
    if input != file {
      PathThroughDataset(req, file, input, t, directory, name);
    } else {
      PathOfFile(req, file, t, name);
    }
    Rebracket(req.abs(t.baseDir), directory, name);
  }

  lemma Rebracket(base: string, directory: string, name: string)
    ensures base + "/" + (directory + "/") + name == (base + "/") + directory + ("/" + name)
  {
  }

  /** Below one base directory a file goes to one path twice only if it is asked for under one name: through two datasets
      of the same name, or through one named like the scope and directly. */
  lemma DatasetsApart(req: Request, file: Did, input1: Did, t1: InputItem, directory1: string,
                      input2: Did, t2: InputItem, directory2: string, name: string)
    requires req.abs(t1.baseDir) == req.abs(t2.baseDir) && Directory(req.abs(t1.baseDir))
    requires GoesUnder(file, input1, t1, directory1, name) && GoesUnder(file, input2, t2, directory2, name)
    ensures DestPath(req, file, input1, t1) == DestPath(req, file, input2, t2) <==> directory1 == directory2
  {
    PathUnder(req, file, input1, t1, directory1, name);
    PathUnder(req, file, input2, t2, directory2, name);
    if DestPath(req, file, input1, t1) == DestPath(req, file, input2, t2) {
      SameBetween(req.abs(t1.baseDir) + "/", directory1, directory2, "/" + name);
    }
  }

  // ------------------------------------------------------- one path for each request

  /** `lists[a][m][i]` is where file `a` goes for item `i` of those asking for its input DID number `m`. */
  ghost predicate Asked(req: Request, files: seq<FileItem>, lists: seq<seq<seq<Path>>>) {
    |lists| == |files| && forall a :: 0 <= a < |files| ==> AskedForFile(req, files[a], lists[a])
  }

  ghost predicate AskedForFile(req: Request, file: FileItem, lists: seq<seq<Path>>) {
    |lists| == |file.inputDids| && forall m :: 0 <= m < |lists| ==> AskedThrough(req, file, file.inputDids[m], lists[m])
  }

  ghost predicate AskedThrough(req: Request, file: FileItem, input: Did, list: seq<Path>) {
    && input in req.requests && |list| == |req.requests[input]|
    && forall i :: 0 <= i < |list| ==> list[i] == DestPath(req, file.did, input, req.requests[input][i])
  }

  function Flat<T>(lists: seq<seq<T>>): seq<T> {
    if lists == [] then [] else Flat(lists[..|lists| - 1]) + lists[|lists| - 1]
  }

  ghost predicate At<T(!new)>(lists: seq<seq<T>>, m: int, i: int, e: T) { 0 <= m < |lists| && 0 <= i < |lists[m]| && lists[m][i] == e }

  /** No element is in two places. */
  ghost predicate Once<T(!new)>(lists: seq<seq<T>>) {
    forall m, i, k, j, e :: At(lists, m, i, e) && At(lists, k, j, e) ==> m == k && i == j
  }

  lemma {:induction false} FlatHas<T(!new)>(lists: seq<seq<T>>, e: T)
    ensures e in Flat(lists) <==> exists m, i :: At(lists, m, i, e)
  {
    if lists != [] {
      var n := |lists| - 1;
      var init := lists[..n];
      FlatHas(init, e);
      if e in lists[n] {
        var i :| 0 <= i < |lists[n]| && lists[n][i] == e;
        assert At(lists, n, i, e);
      }
      if m, i :| At(init, m, i, e) {
        assert At(lists, m, i, e);
      }
      if m, i :| At(lists, m, i, e) {
        assert m < n ==> At(init, m, i, e);
      }
    }
  }

  ghost predicate Apart<T(!new)>(x: seq<T>, y: seq<T>) { forall e :: e in x ==> e !in y }

  lemma NoRepeatsConcat<T(!new)>(x: seq<T>, y: seq<T>)
    ensures NoRepeats(x + y) <==> NoRepeats(x) && NoRepeats(y) && Apart(x, y)
  {
    var s := x + y;
    assert forall i :: 0 <= i < |x| ==> s[i] == x[i];
    assert forall i :: 0 <= i < |y| ==> s[|x| + i] == y[i];
    if NoRepeats(s) {
      forall i, j | 0 <= i < |x| && 0 <= j < |y|
        ensures x[i] != y[j]
      {
        assert s[i] != s[|x| + j];
      }
    }
    if NoRepeats(x) && NoRepeats(y) && Apart(x, y) {
      forall i, j | 0 <= i < j < |s|
        ensures s[i] != s[j]
      {
        assert i < |x| ==> s[i] in x;
        assert j >= |x| ==> s[j] in y && s[j] == y[j - |x|];
        assert i >= |x| ==> s[i] == y[i - |x|];
      }
    }
  }

  lemma OnceSnoc<T(!new)>(lists: seq<seq<T>>, list: seq<T>)
    ensures Once(lists + [list]) <==> Once(lists) && NoRepeats(list) && Apart(Flat(lists), list)
  {
    var more, n := lists + [list], |lists|;
    assert forall m, i, e :: At(lists, m, i, e) <==> m < n && At(more, m, i, e);
    assert more[n] == list;
    assert forall m, i, e :: At(more, m, i, e) ==> m <= n;
    forall e { FlatHas(lists, e); }
    if Once(more) {
      OnceBefore(lists, list);
    } else {
      var m, i, k, j, e :| At(more, m, i, e) && At(more, k, j, e) && !(m == k && i == j);
      assert m == n ==> e in list;
      assert k == n ==> e in list;
      assert m < n ==> At(lists, m, i, e);
      assert k < n ==> At(lists, k, j, e);
    }
  }

  lemma OnceBefore<T(!new)>(lists: seq<seq<T>>, list: seq<T>)
    requires Once(lists + [list])
    ensures Once(lists) && NoRepeats(list) && Apart(Flat(lists), list)
  {
    var more, n := lists + [list], |lists|;
    assert forall m, i, e :: At(lists, m, i, e) ==> At(more, m, i, e);
    forall i, j | 0 <= i < j < |list|
      ensures list[i] != list[j]
    {
      assert At(more, n, i, list[i]) && At(more, n, j, list[j]);
    }
    forall e | e in Flat(lists)
      ensures e !in list
    {
      FlatHas(lists, e);
      var m, i :| At(lists, m, i, e);
      assert forall j :: 0 <= j < |list| && list[j] == e ==> At(more, n, j, e);
    }
  }

  /** A list made of lists repeats nothing exactly if no element is in two places. */
  lemma {:induction false} FlatOnce<T(!new)>(lists: seq<seq<T>>)
    ensures NoRepeats(Flat(lists)) <==> Once(lists)
  {
    if lists != [] {
      var n := |lists| - 1;
      FlatOnce(lists[..n]);
      NoRepeatsConcat(Flat(lists[..n]), lists[n]);
      OnceSnoc(lists[..n], lists[n]);
      assert lists[..n] + [lists[n]] == lists;
    }
  }

  lemma {:induction false} FilePathsAreFlat(req: Request, file: FileItem, lists: seq<seq<Path>>, n: nat)
    requires AskedForFile(req, file, lists) && n <= |lists|
    ensures PathsUpTo(req, file, n) == Flat(lists[..n])
  {
    if n > 0 {
      FilePathsAreFlat(req, file, lists, n - 1);
      assert AskedThrough(req, file, file.inputDids[n - 1], lists[n - 1]);
      assert lists[..n][..n - 1] == lists[..n - 1];
      SameElements(lists[n - 1], RequestPaths(req, file.did, file.inputDids[n - 1], ItemsFor(req.requests, file.inputDids[n - 1])));
    }
  }

  /** All lists one after the other, and in each of them all of its own. */
  function FlatTwice<T>(lists: seq<seq<seq<T>>>): (r: seq<seq<T>>)
    ensures |r| == |lists| && forall a :: 0 <= a < |lists| ==> r[a] == Flat(lists[a])
  {
    seq(|lists|, a requires 0 <= a < |lists| => Flat(lists[a]))
  }

  lemma {:induction false} AllPathsAreFlat(req: Request, files: seq<FileItem>, lists: seq<seq<seq<Path>>>)
    requires Asked(req, files, lists)
    ensures AllPaths(req, files) == Flat(FlatTwice(lists))
  {
    if files != [] {
      var n := |files| - 1;
      AllPathsAreFlat(req, files[..n], lists[..n]);
      assert AskedForFile(req, files[n], lists[n]);
      FilePathsAreFlat(req, files[n], lists[n], |lists[n]|);
      assert lists[n][..|lists[n]|] == lists[n];
      SameElements(FlatTwice(lists)[..n], FlatTwice(lists[..n]));
    }
  }

  /** The destinations of a file are just the paths asked for. */
  lemma FilePathsAreAsked(req: Request, file: FileItem, lists: seq<seq<Path>>, p: Path)
    requires AskedForFile(req, file, lists)
    ensures p in FilePaths(req, file) <==> exists m, i :: At(lists, m, i, p)
  {
    FilePathsAreFlat(req, file, lists, |lists|);
    assert lists[..|lists|] == lists;
    FlatHas(lists, p);
  }

  /** No path is asked for twice: not by two items or through two DIDs for one file, and not for two files. */
  ghost predicate AskedOnce<T(!new)>(lists: seq<seq<seq<T>>>) {
    && (forall a :: 0 <= a < |lists| ==> Once(lists[a]))
    && (forall a, b, m, i, k, j, e :: 0 <= a < |lists| && 0 <= b < |lists| && At(lists[a], m, i, e) && At(lists[b], k, j, e) ==> a == b)
  }

  /** The preparation finds a repeated path exactly if some path is asked for twice. */
  lemma RepeatsIffAskedTwice(req: Request, files: seq<FileItem>, lists: seq<seq<seq<Path>>>)
    requires Asked(req, files, lists)
    ensures NoRepeats(AllPaths(req, files)) <==> AskedOnce(lists)
  {
    AllPathsAreFlat(req, files, lists);
    FlatOnce(FlatTwice(lists));
    OnceTwice(lists);
  }

  lemma OnceTwice<T(!new)>(lists: seq<seq<seq<T>>>)
    ensures Once(FlatTwice(lists)) <==> AskedOnce(lists)
  {
    var flat := FlatTwice(lists);
    forall a | 0 <= a < |lists|
      ensures NoRepeats(flat[a]) <==> Once(lists[a])
    {
      FlatOnce(lists[a]);
    }
    forall a, e | 0 <= a < |lists|
      ensures e in flat[a] <==> exists m, i :: At(lists[a], m, i, e)
    {
      FlatHas(lists[a], e);
    }
    OnceIff(flat);
    if AskedOnce(lists) {
      forall a, b, e | 0 <= a < |flat| && 0 <= b < |flat| && e in flat[a] && e in flat[b]
        ensures a == b
      {
        var m, i :| At(lists[a], m, i, e);
        var k, j :| At(lists[b], k, j, e);
      }
    }
    if Once(flat) {
      forall a, b, m, i, k, j, e | 0 <= a < |lists| && 0 <= b < |lists| && At(lists[a], m, i, e) && At(lists[b], k, j, e)
        ensures a == b
      {
        FlatHas(lists[a], e);
        FlatHas(lists[b], e);
      }
    }
  }

  ghost predicate ListsApart<T(!new)>(lists: seq<seq<T>>) {
    forall a, b, e :: 0 <= a < |lists| && 0 <= b < |lists| && e in lists[a] && e in lists[b] ==> a == b
  }

  lemma OnceIff<T(!new)>(lists: seq<seq<T>>)
    ensures Once(lists) <==> (forall a :: 0 <= a < |lists| ==> NoRepeats(lists[a])) && ListsApart(lists)
  {
    if Once(lists) {
      forall a, i, j | 0 <= a < |lists| && 0 <= i < j < |lists[a]|
        ensures lists[a][i] != lists[a][j]
      {
        assert At(lists, a, i, lists[a][i]) && At(lists, a, j, lists[a][j]);
      }
      forall a, b, e | 0 <= a < |lists| && 0 <= b < |lists| && e in lists[a] && e in lists[b]
        ensures a == b
      {
        var i :| 0 <= i < |lists[a]| && lists[a][i] == e;
        var j :| 0 <= j < |lists[b]| && lists[b][j] == e;
        assert At(lists, a, i, e) && At(lists, b, j, e);
      }
    } else {
      var m, i, k, j, e :| At(lists, m, i, e) && At(lists, k, j, e) && !(m == k && i == j);
      assert e in lists[m] && e in lists[k];
    }
  }
}
