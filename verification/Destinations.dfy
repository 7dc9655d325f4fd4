/** The destination part of `_prepare_items_for_download`: one path for each input item asking
    for a file, an error if any path comes up twice, and the `.part` temporary path. */
module Destinations {
  import opened Sequences
  import opened Wrappers
  import opened Items
  import opened Paths
  import opened DownloadItem

  /** `requests` maps a requested DID to the input items asking for it; `abs` is `os.path.abspath`. */
  datatype Request = Request(requests: map<Did, seq<InputItem>>, abs: string -> string)

  datatype Error = UnknownDid | SameDestination

  // ---------------------------------------------------------------------- paths

  /** `_prepare_dest_dir`. */
  function DestDir(req: Request, baseDir: string, noSubdir: bool, name: string): string {
    JoinPath(req.abs(baseDir), if noSubdir then "" else DropSlash(name))
  }

  /** A file asked for through a dataset goes into a directory named after it, one asked for
      directly into a directory named after its scope. */
  function DestPath(req: Request, file: Did, input: Did, t: InputItem): Path {
    if input != file then
      JoinPath(DestDir(req, t.baseDir, t.noSubdir, input.name), if StartsWithSlash(file.name) then Tail(file.name) else file.name)
    else
      JoinPath(DestDir(req, t.baseDir, t.noSubdir, file.scope), DropSlash(file.name))
  }

  function RequestPaths(req: Request, file: Did, input: Did, ts: seq<InputItem>): (r: seq<Path>)
    ensures |r| == |ts|
    ensures forall i :: 0 <= i < |ts| ==> r[i] == DestPath(req, file, input, ts[i])
  {
    seq(|ts|, i requires 0 <= i < |ts| => DestPath(req, file, input, ts[i]))
  }

  /** All paths asked for by the first `n` input DIDs of a file, in the order they are computed. */
  function PathsUpTo(req: Request, file: FileItem, n: nat): seq<Path>
    requires n <= |file.inputDids|
  {
    if n == 0 then []
    else PathsUpTo(req, file, n - 1)
         + RequestPaths(req, file.did, file.inputDids[n - 1], ItemsFor(req.requests, file.inputDids[n - 1]))
  }

  function FilePaths(req: Request, file: FileItem): seq<Path> { PathsUpTo(req, file, |file.inputDids|) }

  /** All paths asked for by a list of files. */
  function AllPaths(req: Request, files: seq<FileItem>): seq<Path> {
    if files == [] then [] else AllPaths(req, files[..|files| - 1]) + FilePaths(req, files[|files| - 1])
  }

  predicate KnownUpTo(req: Request, file: FileItem, n: nat)
    requires n <= |file.inputDids|
  {
    forall i :: 0 <= i < n ==> file.inputDids[i] in req.requests
  }

  predicate AllKnown(req: Request, files: seq<FileItem>) {
    forall i :: 0 <= i < |files| ==> KnownUpTo(req, files[i], |files[i].inputDids|)
  }

  lemma TakeOneMore<T>(head: seq<T>, s: seq<T>, i: nat)
    requires i < |s|
    ensures head + s[..i + 1] == head + s[..i] + [s[i]]
    ensures head + s == head + s[..i] + [s[i]] + s[i + 1..]
  {}

  // ----------------------------------------------------------------- collecting

  /** `seen` is `all_dest_file_paths`, the set of the paths so far. */
  ghost predicate IsSetOf(seen: set<Path>, paths: seq<Path>) {
    forall p :: p in seen <==> p in paths
  }

  /** The innermost loop: the paths of all items asking for one input DID. */
  method CollectRequests(req: Request, file: Did, input: Did, ts: seq<InputItem>, seen0: set<Path>, mine0: set<Path>,
                        ghost before: seq<Path>, ghost own: seq<Path>)
    returns (ok: bool, seen: set<Path>, mine: set<Path>)
    requires Distinct(before) && IsSetOf(seen0, before) && IsSetOf(mine0, own)
    ensures ok <==> Distinct(before + RequestPaths(req, file, input, ts))
    ensures ok ==> IsSetOf(seen, before + RequestPaths(req, file, input, ts))
    ensures ok ==> IsSetOf(mine, own + RequestPaths(req, file, input, ts))
  {
    ghost var paths := RequestPaths(req, file, input, ts);
    ghost var all, ours := before, own;
    seen, mine := seen0, mine0;
    for i := 0 to |ts|
      invariant all == before + paths[..i] && ours == own + paths[..i]
      invariant Distinct(all) && IsSetOf(seen, all) && IsSetOf(mine, ours)
    {
      var path := DestPath(req, file, input, ts[i]);
      DistinctSnoc(all, path);
      TakeOneMore(before, paths, i);
      TakeOneMore(own, paths, i);
      if path in seen {
        if Distinct(before + paths) {
          DistinctPrefix(all + [path], paths[i + 1..]);
        }
        return false, seen, mine;
      }
      seen, mine := seen + {path}, mine + {path};
      all, ours := all + [path], ours + [path];
    }
    assert paths[..|ts|] == paths;
    ok := true;
  }

  /** The set of all paths and the set of this file's paths after `n` of its input DIDs. */
  ghost predicate CollectedUpTo(req: Request, file: FileItem, n: nat, before: seq<Path>, seen: set<Path>, mine: set<Path>)
    requires n <= |file.inputDids|
  {
    && Distinct(before + PathsUpTo(req, file, n))
    && IsSetOf(seen, before + PathsUpTo(req, file, n)) && IsSetOf(mine, PathsUpTo(req, file, n))
  }

  /** The first `n` input DIDs of a file can be served after `before`. */
  ghost predicate Collectable(req: Request, file: FileItem, n: nat, before: seq<Path>)
    requires n <= |file.inputDids|
  {
    KnownUpTo(req, file, n) && Distinct(before + PathsUpTo(req, file, n))
  }

  lemma CollectableNext(req: Request, file: FileItem, n: nat, before: seq<Path>)
    requires n < |file.inputDids|
    ensures Collectable(req, file, n + 1, before) ==> Collectable(req, file, n, before) && file.inputDids[n] in req.requests
  {
    if Distinct(before + PathsUpTo(req, file, n + 1)) {
      OneMoreRepeats(req, file, before, n);
    }
  }

  /** One input DID of a file. */
  method CollectInput(req: Request, file: FileItem, n: nat, seen0: set<Path>, mine0: set<Path>, ghost before: seq<Path>)
    returns (r: Result<(set<Path>, set<Path>), Error>)
    requires n < |file.inputDids| && KnownUpTo(req, file, n)
    requires CollectedUpTo(req, file, n, before, seen0, mine0)
    ensures r.Ok? <==> Collectable(req, file, n + 1, before)
    ensures r.Ok? ==> CollectedUpTo(req, file, n + 1, before, r.value.0, r.value.1)
    ensures r == Err(UnknownDid) ==> file.inputDids[n] !in req.requests
    ensures r == Err(SameDestination) ==> !Distinct(before + PathsUpTo(req, file, n + 1))
  {
    var input := file.inputDids[n];
    CollectableNext(req, file, n, before);
    if input !in req.requests {
      return Err(UnknownDid);
    }
    ghost var ours := PathsUpTo(req, file, n);
    Assoc(before, ours, RequestPaths(req, file.did, input, req.requests[input]));
    var ok, seen, mine := CollectRequests(req, file.did, input, req.requests[input], seen0, mine0, before + ours, ours);
    r := if ok then Ok((seen, mine)) else Err(SameDestination);
  }

  lemma NothingCollected(req: Request, file: FileItem, before: seq<Path>, seen: set<Path>)
    requires Distinct(before) && IsSetOf(seen, before)
    ensures Collectable(req, file, 0, before) && CollectedUpTo(req, file, 0, before, seen, {})
  {
    assert before + PathsUpTo(req, file, 0) == before;
  }

  /** The loop over the input DIDs of one file. */
  method CollectFile(req: Request, file: FileItem, seen0: set<Path>, ghost before: seq<Path>)
    returns (r: Result<(set<Path>, set<Path>), Error>)
    requires Distinct(before) && IsSetOf(seen0, before)
    ensures r.Ok? <==> Collectable(req, file, |file.inputDids|, before)
    ensures r.Ok? ==> CollectedUpTo(req, file, |file.inputDids|, before, r.value.0, r.value.1)
    ensures r == Err(UnknownDid) ==> !KnownUpTo(req, file, |file.inputDids|)
    ensures r == Err(SameDestination) ==> !Distinct(before + FilePaths(req, file))
  {
    NothingCollected(req, file, before, seen0);
    r := Ok((seen0, {}));
    var n := 0;
    while n < |file.inputDids| && r.Ok?
      invariant n <= |file.inputDids|
      invariant r.Ok? ==> CollectedUpTo(req, file, n, before, r.value.0, r.value.1)
      invariant r.Ok? <==> Collectable(req, file, n, before)
      invariant r == Err(UnknownDid) ==> !KnownUpTo(req, file, |file.inputDids|)
      invariant r == Err(SameDestination) ==> !Distinct(before + PathsUpTo(req, file, n))
    {
      r := CollectInput(req, file, n, r.value.0, r.value.1, before);
      n := n + 1;
    }
    CollectedOrNever(req, file, before, n);
    if r == Err(SameDestination) {
      RepeatsForGood(req, file, before, n);
    }
  }

  lemma CollectedOrNever(req: Request, file: FileItem, before: seq<Path>, n: nat)
    requires n <= |file.inputDids| && (n == |file.inputDids| || !Collectable(req, file, n, before))
    ensures Collectable(req, file, n, before) <==> Collectable(req, file, |file.inputDids|, before)
    ensures Collectable(req, file, n, before) ==> n == |file.inputDids|
  {
    if n < |file.inputDids| {
      NeverCollectable(req, file, before, n);
    }
  }

  /** A list of paths that repeats itself still does with the paths of one more input DID. */
  lemma OneMoreRepeats(req: Request, file: FileItem, before: seq<Path>, n: nat)
    requires n < |file.inputDids| && Distinct(before + PathsUpTo(req, file, n + 1))
    ensures Distinct(before + PathsUpTo(req, file, n))
  {
    var paths := RequestPaths(req, file.did, file.inputDids[n], ItemsFor(req.requests, file.inputDids[n]));
    Assoc(before, PathsUpTo(req, file, n), paths);
    DistinctPrefix(before + PathsUpTo(req, file, n), paths);
  }

  lemma {:induction false} RepeatsForGood(req: Request, file: FileItem, before: seq<Path>, n: nat)
    requires n <= |file.inputDids| && !Distinct(before + PathsUpTo(req, file, n))
    ensures !Distinct(before + FilePaths(req, file))
    decreases |file.inputDids| - n
  {
    if n < |file.inputDids| {
      if Distinct(before + PathsUpTo(req, file, n + 1)) {
        OneMoreRepeats(req, file, before, n);
      }
      RepeatsForGood(req, file, before, n + 1);
    }
  }

  lemma {:induction false} NeverCollectable(req: Request, file: FileItem, before: seq<Path>, n: nat)
    requires n <= |file.inputDids| && !Collectable(req, file, n, before)
    ensures !Collectable(req, file, |file.inputDids|, before)
    decreases |file.inputDids| - n
  {
    if n < |file.inputDids| {
      CollectableNext(req, file, n, before);
      NeverCollectable(req, file, before, n + 1);
    }
  }

  /** A file has exactly the destinations asked for, each once. */
  ghost predicate PreparedFile(req: Request, file: FileItem, dests: seq<Path>) {
    NoRepeats(dests) && forall p :: p in dests <==> p in FilePaths(req, file)
  }

  ghost predicate PreparedUpTo(req: Request, files: seq<FileItem>, n: nat, dests: seq<seq<Path>>) {
    |dests| == n <= |files| && forall i :: 0 <= i < n ==> PreparedFile(req, files[i], dests[i])
  }

  lemma PreparedSnoc(req: Request, files: seq<FileItem>, dests: seq<seq<Path>>, list: seq<Path>)
    requires PreparedUpTo(req, files, |dests|, dests) && |dests| < |files|
    requires PreparedFile(req, files[|dests|], list)
    ensures PreparedUpTo(req, files, |dests| + 1, dests + [list])
  {
    forall i | 0 <= i < |dests| + 1
      ensures PreparedFile(req, files[i], (dests + [list])[i])
    {
      assert i < |dests| ==> PreparedFile(req, files[i], dests[i]);
    }
  }

  ghost predicate Prepared(req: Request, files: seq<FileItem>, dests: seq<seq<Path>>) {
    PreparedUpTo(req, files, |files|, dests)
  }

  /** What the first `n` files ask for can be prepared. */
  ghost predicate Acceptable(req: Request, files: seq<FileItem>, n: nat)
    requires n <= |files|
  {
    && (forall i :: 0 <= i < n ==> KnownUpTo(req, files[i], |files[i].inputDids|))
    && Distinct(AllPaths(req, files[..n]))
  }

  lemma AllPathsSnoc(req: Request, files: seq<FileItem>, n: nat)
    requires n < |files|
    ensures AllPaths(req, files[..n + 1]) == AllPaths(req, files[..n]) + FilePaths(req, files[n])
  {
    assert files[..n + 1][..n] == files[..n];
  }

  lemma AcceptableSnoc(req: Request, files: seq<FileItem>, n: nat)
    requires n < |files|
    ensures Acceptable(req, files, n + 1) <==>
              && Acceptable(req, files, n) && KnownUpTo(req, files[n], |files[n].inputDids|)
              && Distinct(AllPaths(req, files[..n]) + FilePaths(req, files[n]))
  {
    AllPathsSnoc(req, files, n);
    if Distinct(AllPaths(req, files[..n + 1])) {
      DistinctPrefix(AllPaths(req, files[..n]), FilePaths(req, files[n]));
    }
  }

  lemma {:induction false} LongerListFails(req: Request, files: seq<FileItem>, n: nat)
    requires n <= |files| && !Acceptable(req, files, n)
    ensures !Acceptable(req, files, |files|)
    decreases |files| - n
  {
    if n < |files| {
      AcceptableSnoc(req, files, n);
      LongerListFails(req, files, n + 1);
    }
  }

  lemma {:induction false} AllPathsRepeat(req: Request, files: seq<FileItem>, n: nat)
    requires n <= |files| && !Distinct(AllPaths(req, files[..n]))
    ensures !NoRepeats(AllPaths(req, files))
    decreases |files| - n
  {
    if n < |files| {
      AllPathsSnoc(req, files, n);
      if Distinct(AllPaths(req, files[..n + 1])) {
        DistinctPrefix(AllPaths(req, files[..n]), FilePaths(req, files[n]));
      }
      AllPathsRepeat(req, files, n + 1);
    } else {
      assert files[..n] == files;
      DistinctIsNoRepeats(AllPaths(req, files));
    }
  }

  lemma AllAcceptable(req: Request, files: seq<FileItem>)
    ensures Acceptable(req, files, |files|) <==> AllKnown(req, files) && NoRepeats(AllPaths(req, files))
  {
    assert files[..|files|] == files;
    DistinctIsNoRepeats(AllPaths(req, files));
  }

  /** One file: collect its paths and put them in a list. */
  method PrepareFile(req: Request, files: seq<FileItem>, i: nat, seen: set<Path>)
    returns (r: Result<(set<Path>, seq<Path>), Error>)
    requires i < |files| && Acceptable(req, files, i) && IsSetOf(seen, AllPaths(req, files[..i]))
    ensures r.Ok? <==> Acceptable(req, files, i + 1)
    ensures r.Ok? ==> IsSetOf(r.value.0, AllPaths(req, files[..i + 1])) && PreparedFile(req, files[i], r.value.1)
    ensures r == Err(UnknownDid) ==> !KnownUpTo(req, files[i], |files[i].inputDids|)
    ensures r == Err(SameDestination) ==> !Distinct(AllPaths(req, files[..i + 1]))
  {
    AllPathsSnoc(req, files, i);
    AcceptableSnoc(req, files, i);
    var collected := CollectFile(req, files[i], seen, AllPaths(req, files[..i]));
    if collected.Err? {
      return Err(collected.error);
    }
    var list := Enumerate(collected.value.1);
    r := Ok((collected.value.0, list));
  }

  /** The outer loop. It succeeds exactly when every input DID is known and no path is asked for twice. */
  method PrepareDestinations(req: Request, files: seq<FileItem>) returns (r: Result<seq<seq<Path>>, Error>)
    ensures r.Ok? <==> AllKnown(req, files) && NoRepeats(AllPaths(req, files))
    ensures r.Ok? ==> Prepared(req, files, r.value)
    ensures r == Err(UnknownDid) ==> !AllKnown(req, files)
    ensures r == Err(SameDestination) ==> !NoRepeats(AllPaths(req, files))
  {
    var seen: set<Path>, dests := {}, [];
    for i := 0 to |files|
      invariant Acceptable(req, files, i) && IsSetOf(seen, AllPaths(req, files[..i]))
      invariant PreparedUpTo(req, files, i, dests)
    {
      var prepared := PrepareFile(req, files, i, seen);
      if prepared.Err? {
        LongerListFails(req, files, i + 1);
        AllAcceptable(req, files);
        if prepared.error == SameDestination {
          AllPathsRepeat(req, files, i + 1);
        }
        return Err(prepared.error);
      }
      PreparedSnoc(req, files, dests, prepared.value.1);
      seen, dests := prepared.value.0, dests + [prepared.value.1];
    }
    AllAcceptable(req, files);
    r := Ok(dests);
  }
}
