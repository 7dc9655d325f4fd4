/** `_download_item` of the download client, for one item. */
module DownloadItem {
  // One item without archive contents and without pcache: look for a local copy, try each source
  // twice, verify, move into place. The file system is a map; what storage, protocols and checksums
  // answer is an arbitrary environment.

  import opened Sequences
  import opened Wrappers
  import opened Items
  import opened ClientStates

  type Path = string
  type Content = seq<char>
  type FileSystem = map<Path, Content>

  /** `dests` is empty for an item whose destinations were never prepared. */
  datatype Item = Item(dests: seq<Path>, sources: nat, bytes: Option<nat>, sizeOnly: bool, ignoreChecksum: bool)

  /** What `protocol.get` does to the temporary file: it may fail and leave something behind,
      and it may claim success without having written anything. */
  datatype Transfer = Success(content: Option<Content>) | Error(left: Option<Content>)

  /** `reachable`: the RSE of a source is known and its protocol connects. `transfer`: one attempt,
      counted 2 * source + attempt from 0. `verify`: the local checksum is the expected one. */
  datatype Env = Env(reachable: nat -> bool, transfer: nat -> Transfer, verify: Content -> bool)

  /** One call of `protocol.get`, and whether the temporary file was absent when it started. */
  datatype Attempt = Attempt(number: nat, cleanStart: bool)

  datatype Outcome = Returned(state: ClientState) | Raised

  const RETRIES := 2

  function TempPath(dest: Path): Path { dest + ".part" }

  // ----------------------------------------------------------------- local copy

  /** An existing destination file that is taken for the wanted one. */
  predicate Accepted(fs: FileSystem, item: Item, env: Env, d: Path) {
    d in fs && if item.sizeOnly then item.bytes == Some(|fs[d]|) else item.ignoreChecksum || env.verify(fs[d])
  }

  /** Reporting a size mismatch fails if no size is expected. */
  predicate SizeUnknown(fs: FileSystem, item: Item, d: Path) {
    d in fs && item.sizeOnly && item.bytes.None?
  }

  ghost predicate FillsMissing(fs0: FileSystem, dests: seq<Path>, content: Content, fs: FileSystem) {
    && (forall p :: p in fs <==> p in fs0 || p in dests)
    && (forall p :: p in fs ==> fs[p] == if p in fs0 then fs0[p] else content)
  }

  method CopyToMissing(fs0: FileSystem, dests: seq<Path>, from: Path) returns (fs: FileSystem)
    requires from in fs0
    ensures FillsMissing(fs0, dests, fs0[from], fs)
  {
    fs := fs0;
    for i := 0 to |dests|
      invariant from in fs && fs[from] == fs0[from]
      invariant forall p :: p in fs <==> p in fs0 || p in dests[..i]
      invariant forall p :: p in fs ==> fs[p] == if p in fs0 then fs0[p] else fs0[from]
    {
      if dests[i] !in fs {
        fs := fs[dests[i] := fs[from]];
      }
      assert dests[..i + 1] == dests[..i] + [dests[i]];
    }
    assert dests[..|dests|] == dests;
  }

  /** None: no destination is accepted and the download goes on. */
  method UseLocalCopy(fs0: FileSystem, item: Item, env: Env) returns (fs: FileSystem, r: Option<Outcome>)
    ensures r == Some(Returned(AlreadyDone)) <==> exists d :: d in item.dests && Accepted(fs0, item, env, d)
    ensures r == Some(Raised) <==> exists d :: d in item.dests && SizeUnknown(fs0, item, d)
    ensures r.Some? ==> r.value in {Returned(AlreadyDone), Raised}
    ensures r == Some(Returned(AlreadyDone)) ==>
              exists d :: d in item.dests && Accepted(fs0, item, env, d) && FillsMissing(fs0, item.dests, fs0[d], fs)
    ensures r != Some(Returned(AlreadyDone)) ==> fs == fs0
  {
    fs := fs0;
    for i := 0 to |item.dests|
      invariant forall k :: 0 <= k < i ==> !Accepted(fs0, item, env, item.dests[k]) && !SizeUnknown(fs0, item, item.dests[k])
    {
      var d := item.dests[i];
      assert d in item.dests;
      if d in fs {
        if item.sizeOnly {
          if item.bytes != Some(|fs[d]|) {
            if item.bytes.None? {
              return fs, Some(Raised);
            }
            continue;
          }
        } else if !item.ignoreChecksum {
          if !env.verify(fs[d]) {
            continue;
          }
        }
        fs := CopyToMissing(fs, item.dests, d);
        return fs, Some(Returned(AlreadyDone));
      }
    }
    r := None;
  }

  // ------------------------------------------------------------------- transfer

  /** Attempt `k` ends the search: it claims success and no check contradicts it. */
  predicate Ends(item: Item, env: Env, k: nat) {
    && env.reachable(k / 2) && env.transfer(k).Success?
    && var c := env.transfer(k).content; c.None? || item.ignoreChecksum || env.verify(c.value)
  }

  /** Attempt `k` is the first one to end the search. */
  ghost predicate FirstEnd(item: Item, env: Env, k: nat) {
    Ends(item, env, k) && forall j: nat :: j < k ==> !Ends(item, env, j)
  }

  ghost predicate SameExcept(fs0: FileSystem, fs: FileSystem, q: Path) {
    && (forall p :: p != q ==> (p in fs <==> p in fs0))
    && (forall p :: p != q && p in fs ==> fs[p] == fs0[p])
  }

  function WriteTemp(fs: FileSystem, temp: Path, c: Option<Content>): FileSystem {
    if c.Some? then fs[temp := c.value] else fs - {temp}
  }

  /** One `protocol.get`: what is at `temp` afterwards is up to the environment. */
  method RunTransfer(fs0: FileSystem, temp: Path, env: Env, k: nat) returns (fs: FileSystem, ok: bool)
    ensures ok == env.transfer(k).Success?
    ensures fs == WriteTemp(fs0 - {temp}, temp, if ok then env.transfer(k).content else env.transfer(k).left)
  {
    match env.transfer(k)
    case Success(c) => fs, ok := WriteTemp(fs0 - {temp}, temp, c), true;
    case Error(left) => fs, ok := WriteTemp(fs0 - {temp}, temp, left), false;
  }

  /** One attempt of the inner loop. `raised`: the checksum of a file that is not there was asked for. */
  method TryOnce(fs0: FileSystem, temp: Path, item: Item, env: Env, k: nat)
    returns (fs: FileSystem, success: bool, raised: bool, attempt: Attempt)
    requires env.reachable(k / 2)
    ensures attempt == Attempt(k, true)
    ensures success || raised <==> Ends(item, env, k)
    ensures !(success && raised)
    ensures raised ==> env.transfer(k).content.None?
    ensures SameExcept(fs0, fs, temp)
    ensures success ==> if env.transfer(k).content.None? then temp !in fs else temp in fs && fs[temp] == env.transfer(k).content.value
  {
    fs := fs0;
    if temp in fs {
      fs := fs - {temp};
    }
    attempt := Attempt(k, temp !in fs);
    fs, success := RunTransfer(fs, temp, env, k);
    raised := false;
    if success && !item.ignoreChecksum {
      if temp !in fs {
        return fs, false, true, attempt;
      }
      if !env.verify(fs[temp]) {
        success := false;
        fs := fs - {temp};
      }
    }
  }

  /** All attempts are below `n`, in increasing order, on reachable sources, each with a clean start. */
  ghost predicate AttemptsBelow(log: seq<Attempt>, env: Env, n: nat) {
    && (forall i :: 0 <= i < |log| ==> log[i].number < n && log[i].cleanStart && env.reachable(log[i].number / 2))
    && (forall i, j :: 0 <= i < j < |log| ==> log[i].number < log[j].number)
    && (forall k: nat :: k < n && env.reachable(k / 2) ==> exists i :: 0 <= i < |log| && log[i].number == k)
  }

  lemma LogGrows(log: seq<Attempt>, env: Env, k: nat)
    requires AttemptsBelow(log, env, k) && env.reachable(k / 2)
    ensures AttemptsBelow(log + [Attempt(k, true)], env, k + 1)
  {
    var log1 := log + [Attempt(k, true)];
    forall j: nat | j < k + 1 && env.reachable(j / 2)
      ensures exists i :: 0 <= i < |log1| && log1[i].number == j
    {
      if j == k {
        assert log1[|log|].number == j;
      } else {
        var i :| 0 <= i < |log| && log[i].number == j;
        assert log1[i].number == j;
      }
    }
  }

  lemma LogSkips(log: seq<Attempt>, env: Env, i: nat)
    requires AttemptsBelow(log, env, 2 * i) && !env.reachable(i)
    ensures AttemptsBelow(log, env, 2 * (i + 1))
  {}

  /** Where the search stands before attempt `stop`: nothing found and nothing but the temporary
      file touched, or `stop - 1` was the first attempt to end it. */
  ghost predicate Searched(fs0: FileSystem, temp: Path, item: Item, env: Env,
                           fs: FileSystem, found: bool, log: seq<Attempt>, stop: nat) {
    && SameExcept(fs0, fs, temp)
    && AttemptsBelow(log, env, stop)
    && (!found ==> forall k: nat :: k < stop ==> !Ends(item, env, k))
    && (found ==> stop > 0 && FirstEnd(item, env, stop - 1))
  }

  lemma SearchStep(fs00: FileSystem, temp: Path, item: Item, env: Env, fs0: FileSystem, log: seq<Attempt>, k: nat,
                   fs: FileSystem, found: bool)
    requires Searched(fs00, temp, item, env, fs0, false, log, k)
    requires env.reachable(k / 2) && SameExcept(fs0, fs, temp) && (found <==> Ends(item, env, k))
    ensures Searched(fs00, temp, item, env, fs, found, log + [Attempt(k, true)], k + 1)
  {
    LogGrows(log, env, k);
  }

  /** What the temporary file holds after attempt `k` claimed success. */
  ghost predicate TempHolds(fs: FileSystem, temp: Path, env: Env, k: nat) {
    env.transfer(k).Success? &&
    match env.transfer(k).content
    case None => temp !in fs
    case Some(c) => temp in fs && fs[temp] == c
  }

  /** The retry loop on one source. */
  method TrySource(fs0: FileSystem, temp: Path, item: Item, env: Env, source: nat,
                   ghost fs00: FileSystem, log0: seq<Attempt>)
    returns (fs: FileSystem, success: bool, raised: bool, log: seq<Attempt>, ghost stop: nat)
    requires env.reachable(source)
    requires Searched(fs00, temp, item, env, fs0, false, log0, 2 * source)
    ensures Searched(fs00, temp, item, env, fs, success || raised, log, stop)
    ensures 2 * source < stop <= 2 * (source + 1)
    ensures !success && !raised ==> stop == 2 * (source + 1)
    ensures !(success && raised)
    ensures success ==> TempHolds(fs, temp, env, stop - 1)
    ensures raised ==> env.transfer(stop - 1) == Success(None)
  {
    fs, success, raised, log := fs0, false, false, log0;
    var attempt := 0;
    stop := 2 * source;
    while !success && attempt < RETRIES
      invariant attempt <= 2 && !raised && stop == 2 * source + attempt
      invariant Searched(fs00, temp, item, env, fs, success, log, stop)
      invariant success ==> attempt > 0 && TempHolds(fs, temp, env, stop - 1)
    {
      var tried;
      ghost var before := fs;
      assert stop / 2 == source;
      fs, success, raised, tried := TryOnce(fs, temp, item, env, RETRIES * source + attempt);
      SearchStep(fs00, temp, item, env, before, log, stop, fs, success || raised);
      log := log + [tried];
      attempt := attempt + 1;
      stop := stop + 1;
      if raised {
        return;
      }
    }
  }

  /** The loop over the sources. */
  method Fetch(fs0: FileSystem, temp: Path, item: Item, env: Env)
    returns (fs: FileSystem, success: bool, raised: bool, log: seq<Attempt>, ghost stop: nat)
    ensures Searched(fs0, temp, item, env, fs, success || raised, log, stop)
    ensures stop <= 2 * item.sources
    ensures !success && !raised ==> stop == 2 * item.sources
    ensures !(success && raised)
    ensures success ==> TempHolds(fs, temp, env, stop - 1)
    ensures raised ==> env.transfer(stop - 1) == Success(None)
  {
    fs, success, raised, log := fs0, false, false, [];
    var i := 0;
    stop := 0;
    while !success && i < item.sources
      invariant i <= item.sources && !raised
      invariant Searched(fs0, temp, item, env, fs, success, log, stop)
      invariant stop <= 2 * i && (!success ==> stop == 2 * i)
      invariant success ==> TempHolds(fs, temp, env, stop - 1)
    {
      var source := i;
      i := i + 1;
      if !env.reachable(source) {
        LogSkips(log, env, source);
        stop := 2 * i;
        continue;
      }
      fs, success, raised, log, stop := TrySource(fs, temp, item, env, source, fs0, log);
      if raised {
        return;
      }
    }
  }

  lemma FewAttempts(log: seq<Attempt>, n: nat)
    requires forall i :: 0 <= i < |log| ==> log[i].number < n
    requires forall i, j :: 0 <= i < j < |log| ==> log[i].number < log[j].number
    ensures |log| <= n
  {
    IncreasingIsShort(seq(|log|, i requires 0 <= i < |log| => log[i].number), n);
  }

  // ----------------------------------------------------------------- publishing

  /** Renames the temporary file to the first destination and copies it to the others.
      Raises if there is no temporary file, or on a copy of the first destination to itself. */
  method Publish(fs0: FileSystem, temp: Path, dests: seq<Path>) returns (fs: FileSystem, raised: bool)
    requires dests != [] && temp == TempPath(dests[0])
    ensures raised <==> temp !in fs0 || dests[0] in dests[1..]
    ensures temp !in fs0 ==> fs == fs0
    ensures !raised ==> (forall p :: p in fs <==> p in dests || (p in fs0 && p != temp))
    ensures !raised ==> (forall p :: p in fs ==> fs[p] == if p in dests then fs0[temp] else fs0[p])
  {
    fs := fs0;
    if temp !in fs {
      return fs, true;
    }
    assert |temp| == |dests[0]| + 5;
    var first := dests[0];
    fs := fs[first := fs[temp]] - {temp};
    for i := 1 to |dests|
      invariant first in fs && fs[first] == fs0[temp] && first !in dests[1..i]
      invariant forall p :: p in fs <==> p in dests[..i] || (p in fs0 && p != temp)
      invariant forall p :: p in fs ==> fs[p] == if p in dests[..i] then fs0[temp] else fs0[p]
    {
      assert dests[1..][i - 1] == dests[i];
      if dests[i] == first {
        return fs, true;
      }
      fs := fs[dests[i] := fs[first]];
      assert dests[..i + 1] == dests[..i] + [dests[i]];
      assert dests[1..i + 1] == dests[1..i] + [dests[i]];
    }
    assert dests[..|dests|] == dests && dests[1..|dests|] == dests[1..];
    raised := false;
  }

  // ----------------------------------------------------------------- whole item

  ghost predicate HasLocalCopy(fs: FileSystem, item: Item, env: Env) {
    exists d :: d in item.dests && Accepted(fs, item, env, d)
  }

  ghost predicate HasSizeUnknown(fs: FileSystem, item: Item) {
    exists d :: d in item.dests && SizeUnknown(fs, item, d)
  }

  /** The search is reached and ends with attempt `k`. */
  ghost predicate EndsWith(fs: FileSystem, item: Item, env: Env, k: nat) {
    && !HasLocalCopy(fs, item, env) && !HasSizeUnknown(fs, item)
    && k < 2 * item.sources && FirstEnd(item, env, k)
  }

  ghost predicate DestsUnchanged(fs0: FileSystem, fs: FileSystem, dests: seq<Path>) {
    forall d :: d in dests ==> (d in fs <==> d in fs0) && (d in fs ==> fs[d] == fs0[d])
  }

  /** Every destination holds exactly `c`, and no other path but the temporary one has changed. */
  ghost predicate Placed(fs0: FileSystem, fs: FileSystem, dests: seq<Path>, temp: Path, c: Content) {
    && (forall d :: d in dests ==> d in fs && fs[d] == c)
    && (forall p :: p !in dests && p != temp ==> (p in fs <==> p in fs0) && (p in fs ==> fs[p] == fs0[p]))
    && (temp !in dests ==> temp !in fs)
  }

  /** Attempt `k` ended the search, was the last one made, and its content is at every destination. */
  ghost predicate DoneBy(fs0: FileSystem, fs: FileSystem, item: Item, env: Env, log: seq<Attempt>, k: nat) {
    && item.dests != [] && EndsWith(fs0, item, env, k) && env.transfer(k).content.Some?
    && log != [] && log[|log| - 1].number == k
    && Placed(fs0, fs, item.dests, TempPath(item.dests[0]), env.transfer(k).content.value)
  }

  /** The attempts never outnumber twice the sources, and each starts without a temporary file. */
  ghost predicate FewCleanAttempts(log: seq<Attempt>, item: Item) {
    && |log| <= 2 * item.sources
    && forall i :: 0 <= i < |log| ==> log[i].cleanStart && log[i].number < 2 * item.sources
  }

  /** What follows once no local copy was found: search, and put the file in its places. */
  method FetchAndPublish(fs0: FileSystem, item: Item, env: Env)
    returns (fs: FileSystem, outcome: Outcome, log: seq<Attempt>)
    requires item.dests != [] && !HasLocalCopy(fs0, item, env) && !HasSizeUnknown(fs0, item)
    ensures FewCleanAttempts(log, item)
    ensures outcome in {Returned(Failed), Returned(Done), Raised}
    ensures outcome == Returned(Failed) <==> forall k: nat :: k < 2 * item.sources ==> !Ends(item, env, k)
    ensures NoRepeats(item.dests) ==>
              (outcome == Returned(Done) <==> exists k: nat :: EndsWith(fs0, item, env, k) && env.transfer(k).content.Some?)
    ensures outcome == Returned(Done) ==> exists k: nat :: DoneBy(fs0, fs, item, env, log, k)
    ensures outcome == Returned(Failed) || (outcome == Raised && NoRepeats(item.dests)) ==> SameExcept(fs0, fs, TempPath(item.dests[0]))
  {
    var temp := TempPath(item.dests[0]);
    var success, raised;
    ghost var stop;
    fs, success, raised, log, stop := Fetch(fs0, temp, item, env);
    FewAttempts(log, stop);
    if !success && !raised {
      return fs, Returned(Failed), log;
    }
    UniqueEnd(fs0, item, env, stop - 1);
    if raised {
      return fs, Raised, log;
    }
    fs, raised := Publish(fs, temp, item.dests);
    LastAttempt(log, env, stop);
    if raised {
      return fs, Raised, log;
    }
    outcome := Returned(Done);
    assert DoneBy(fs0, fs, item, env, log, stop - 1);
  }

  method Download(fs0: FileSystem, item: Item, env: Env)
    returns (fs: FileSystem, outcome: Outcome, log: seq<Attempt>)
    // how often, and from what
    ensures FewCleanAttempts(log, item)
    // when each state is reported
    ensures outcome == Returned(AlreadyDone) <==> HasLocalCopy(fs0, item, env)
    ensures outcome == Returned(FileNotFound) <==>
              item.dests != [] && !HasLocalCopy(fs0, item, env) && !HasSizeUnknown(fs0, item) && item.sources == 0
    ensures outcome == Returned(Failed) <==>
              && item.dests != [] && !HasLocalCopy(fs0, item, env) && !HasSizeUnknown(fs0, item) && item.sources > 0
              && forall k: nat :: k < 2 * item.sources ==> !Ends(item, env, k)
    ensures NoRepeats(item.dests) && item.dests != [] ==>
              (outcome == Returned(Done) <==> exists k: nat :: EndsWith(fs0, item, env, k) && env.transfer(k).content.Some?)
    ensures outcome.Returned? ==> outcome.state in {AlreadyDone, FileNotFound, Failed, Done}
    // what it did to the files
    ensures outcome == Returned(AlreadyDone) ==>
              exists d :: d in item.dests && Accepted(fs0, item, env, d) && FillsMissing(fs0, item.dests, fs0[d], fs)
    ensures outcome == Returned(FileNotFound) ==> fs == fs0
    ensures outcome == Returned(Failed) ==> SameExcept(fs0, fs, TempPath(item.dests[0]))
    ensures outcome == Returned(Done) ==> exists k: nat :: DoneBy(fs0, fs, item, env, log, k)
    ensures outcome == Raised && NoRepeats(item.dests) && item.dests != [] ==> SameExcept(fs0, fs, TempPath(item.dests[0]))
    ensures outcome.Returned? && outcome.state in {Failed, FileNotFound} && TempPath(item.dests[0]) !in item.dests ==>
              DestsUnchanged(fs0, fs, item.dests)
    ensures item.dests == [] ==> outcome == Raised && fs == fs0
  {
    fs, log := fs0, [];
    if item.dests == [] {
      return fs, Raised, log;
    }
    var early;
    fs, early := UseLocalCopy(fs0, item, env);
    if early.Some? {
      return fs, early.value, log;
    }
    if item.sources == 0 {
      return fs, Returned(FileNotFound), log;
    }
    fs, outcome, log := FetchAndPublish(fs0, item, env);
  }

  lemma UniqueEnd(fs: FileSystem, item: Item, env: Env, k: nat)
    requires EndsWith(fs, item, env, k)
    ensures forall j: nat :: EndsWith(fs, item, env, j) ==> j == k
  {}

  lemma LastAttempt(log: seq<Attempt>, env: Env, stop: nat)
    requires stop > 0 && AttemptsBelow(log, env, stop) && env.reachable((stop - 1) / 2)
    ensures log != [] && log[|log| - 1].number == stop - 1
  {
    var i :| 0 <= i < |log| && log[i].number == stop - 1;
  }

  // --------------------------------------------------------- what the states mean

  /** A file that was downloaded is what some source gave, checked unless that is switched off, at the first attempt
      that gave anything of the kind; and none of the destinations had held a file that would have done. */
  lemma DoneMeans(fs0: FileSystem, fs: FileSystem, item: Item, env: Env, log: seq<Attempt>, k: nat)
    requires DoneBy(fs0, fs, item, env, log, k)
    ensures k / 2 < item.sources && env.reachable(k / 2) && env.transfer(k).Success? && env.transfer(k).content.Some?
    ensures var c := env.transfer(k).content.value;
            && (item.ignoreChecksum || env.verify(c))
            && (forall d :: d in item.dests ==> d in fs && fs[d] == c)
            && (item.dests[0] + ".part" !in item.dests ==> item.dests[0] + ".part" !in fs)
    ensures forall j: nat :: j < k && env.reachable(j / 2) && env.transfer(j).Success? ==>
              !item.ignoreChecksum && env.transfer(j).content.Some? && !env.verify(env.transfer(j).content.value)
    ensures forall d :: d in item.dests && d in fs0 ==>
              if item.sizeOnly then item.bytes.Some? && item.bytes.value != |fs0[d]| else !item.ignoreChecksum && !env.verify(fs0[d])
  {
    forall d | d in item.dests && d in fs0
      ensures !Accepted(fs0, item, env, d) && !SizeUnknown(fs0, item, d)
    {
    }
    forall j: nat | j < k && env.reachable(j / 2) && env.transfer(j).Success?
      ensures !item.ignoreChecksum && env.transfer(j).content.Some? && !env.verify(env.transfer(j).content.value)
    {
      assert !Ends(item, env, j);
    }
  }

  /** A file counts as there already exactly if one of its destinations holds it, going by the size alone if so
      configured, and otherwise by the checksum unless that is switched off. */
  lemma LocalCopyMeans(fs: FileSystem, item: Item, env: Env)
    ensures HasLocalCopy(fs, item, env) <==>
              exists d :: d in item.dests && d in fs
                          && (item.sizeOnly ==> item.bytes == Some(|fs[d]|))
                          && (!item.sizeOnly && !item.ignoreChecksum ==> env.verify(fs[d]))
  {
    if d :| d in item.dests && d in fs && (item.sizeOnly ==> item.bytes == Some(|fs[d]|))
            && (!item.sizeOnly && !item.ignoreChecksum ==> env.verify(fs[d])) {
      assert Accepted(fs, item, env, d);
    }
  }
}
