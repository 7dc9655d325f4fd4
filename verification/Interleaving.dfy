/** Downloads run by several workers at once: every access to the file system is one step. */
module Interleaving {
  // A download is a process that looks at its destinations, tries its sources, and puts the file in its
  // places, one access at a time. A run is any order in which the processes take their steps. What
  // `DownloadItem` does in one go is spread over the steps here, and each process is judged by the same
  // verdict, `Isolation.Delivered`.

  import opened Wrappers
  import opened Items
  import opened ClientStates
  import opened DownloadItem
  import opened Isolation

  /** Where a download stands: looking at destination `i`; filling destination `i` from a local copy; about to
      make attempt `k`; having removed the old temporary file; having written a new one; about to remove a
      rejected one; about to rename it; about to copy it to destination `i`. */
  datatype Point =
    | Looking(i: nat)
    | Filling(from: Path, i: nat)
    | Trying(k: nat)
    | Getting(k: nat)
    | Checking(k: nat)
    | Rejecting(k: nat)
    | Renaming(k: nat)
    | Copying(k: nat, i: nat)
    | Finished(outcome: Outcome)

  datatype Local = Local(point: Point, fs: FileSystem)

  /** One step of a download that is not finished. */
  function Step(item: Item, env: Env, s: Local): Local
    requires item.dests != []
  {
    var temp, fs := TempPath(item.dests[0]), s.fs;
    match s.point
    case Looking(i) => Local(Look(item, env, fs, i), fs)
    case Filling(from, i) =>
      if i >= |item.dests| then Local(Finished(Returned(AlreadyDone)), fs)
      else Local(Filling(from, i + 1), if item.dests[i] !in fs && from in fs then fs[item.dests[i] := fs[from]] else fs)
    case Trying(k) =>
      if k >= RETRIES * item.sources then Local(Finished(Returned(Failed)), fs)
      else if !env.reachable(k / RETRIES) then Local(Trying(k + 1), fs)
      else Local(Getting(k), fs - {temp})
    case Getting(k) =>
      match env.transfer(k) {
        case Success(content) => Local(Checking(k), WriteTemp(fs, temp, content))
        case Error(left) => Local(Trying(k + 1), WriteTemp(fs, temp, left))
      }
    case Checking(k) =>
      Local(if item.ignoreChecksum then Renaming(k)
            else if temp !in fs then Finished(Raised)
            else if env.verify(fs[temp]) then Renaming(k) else Rejecting(k), fs)
    case Rejecting(k) => Local(Trying(k + 1), fs - {temp})
    case Renaming(k) =>
      if temp !in fs then Local(Finished(Raised), fs)
      else Local(Copying(k, 1), fs[item.dests[0] := fs[temp]] - {temp})
    case Copying(k, i) =>
      if i >= |item.dests| then Local(Finished(Returned(Done)), fs)
      else if item.dests[i] == item.dests[0] || item.dests[0] !in fs then Local(Finished(Raised), fs)
      else Local(Copying(k, i + 1), fs[item.dests[i] := fs[item.dests[0]]])
    case Finished(_) => s
  }

  /** Looking at one destination, or at the sources once all destinations have been looked at. */
  function Look(item: Item, env: Env, fs: FileSystem, i: nat): Point {
    if i >= |item.dests| then (if item.sources == 0 then Finished(Returned(FileNotFound)) else Trying(0))
    else if SizeUnknown(fs, item, item.dests[i]) then Finished(Raised)
    else if Accepted(fs, item, env, item.dests[i]) then Filling(item.dests[i], 0)
    else Looking(i + 1)
  }

  /** An item without destinations fails right away. */
  function Begin(item: Item): Point { if item.dests == [] then Finished(Raised) else Looking(0) }

  function StepOf(item: Item, env: Env, s: Local): Local {
    if item.dests == [] then s else Step(item, env, s)
  }

  // ---------------------------------------------------------------- one download alone

  /** `n` steps of one download with the file system to itself. */
  function Alone(item: Item, env: Env, fs0: FileSystem, n: nat): Local {
    if n == 0 then Local(Begin(item), fs0) else StepOf(item, env, Alone(item, env, fs0, n - 1))
  }

  ghost predicate NothingUsable(fs0: FileSystem, item: Item, env: Env, i: nat) {
    forall d: nat :: d < i && d < |item.dests| ==> !Accepted(fs0, item, env, item.dests[d]) && !SizeUnknown(fs0, item, item.dests[d])
  }

  /** The search has come to attempt `k`, with nothing but the temporary file changed. */
  ghost predicate SearchedTo(fs0: FileSystem, item: Item, env: Env, k: nat, fs: FileSystem)
    requires item.dests != []
  {
    && NothingUsable(fs0, item, env, |item.dests|)
    && SameExcept(fs0, fs, TempPath(item.dests[0]))
    && forall j: nat :: j < k ==> !Ends(item, env, j)
  }

  ghost predicate AtAttempt(fs0: FileSystem, item: Item, env: Env, k: nat, fs: FileSystem)
    requires item.dests != []
  {
    SearchedTo(fs0, item, env, k, fs) && k < RETRIES * item.sources && env.reachable(k / RETRIES)
  }

  /** The first `i` destinations hold the content `c`, the others are as they were. */
  ghost predicate CopiedTo(fs0: FileSystem, dests: seq<Path>, i: nat, c: Content, fs: FileSystem) {
    && (forall d: nat :: d < i && d < |dests| ==> dests[d] in fs && fs[dests[d]] == c)
  }

  ghost predicate FilledTo(fs0: FileSystem, dests: seq<Path>, i: nat, c: Content, fs: FileSystem) {
    && (forall d :: d in dests && d in fs0 ==> d in fs && fs[d] == fs0[d])
    && (forall d :: d in dests && d !in fs0 && d in fs ==> fs[d] == c)
    && (forall d: nat :: d < i && d < |dests| ==> dests[d] in fs)
  }

  /** What is known at each point. */
  ghost predicate Known(fs0: FileSystem, item: Item, env: Env, s: Local)
    requires item.dests != []
  {
    var temp, fs := TempPath(item.dests[0]), s.fs;
    match s.point
    case Looking(i) => fs == fs0 && NothingUsable(fs0, item, env, i)
    case Filling(from, i) => from in item.dests && Accepted(fs0, item, env, from) && FilledTo(fs0, item.dests, i, fs0[from], fs)
    case Trying(k) => SearchedTo(fs0, item, env, k, fs)
    case Getting(k) => AtAttempt(fs0, item, env, k, fs) && temp !in fs
    case Checking(k) => AtAttempt(fs0, item, env, k, fs) && TempHolds(fs, temp, env, k)
    case Rejecting(k) => AtAttempt(fs0, item, env, k, fs) && !Ends(item, env, k)
    case Renaming(k) => AtAttempt(fs0, item, env, k, fs) && TempHolds(fs, temp, env, k) && Ends(item, env, k)
    case Copying(k, i) =>
      && i >= 1 && EndsWith(fs0, item, env, k) && env.transfer(k).Success? && env.transfer(k).content.Some?
      && CopiedTo(fs0, item.dests, i, env.transfer(k).content.value, fs)
    case Finished(outcome) => Delivered(fs0, fs, item, env, outcome)
  }

  lemma LookKnown(fs0: FileSystem, item: Item, env: Env, s: Local)
    requires item.dests != [] && WellPrepared(item) && s.point.Looking? && Known(fs0, item, env, s)
    ensures Known(fs0, item, env, Step(item, env, s))
  {
    var i := s.point.i;
    if i < |item.dests| {
      assert item.dests[i] in item.dests;
    }
  }

  lemma FillKnown(fs0: FileSystem, item: Item, env: Env, s: Local)
    requires item.dests != [] && WellPrepared(item) && s.point.Filling? && Known(fs0, item, env, s)
    ensures Known(fs0, item, env, Step(item, env, s))
  {
    var from, i := s.point.from, s.point.i;
    assert s.fs[from] == fs0[from];
    if i >= |item.dests| {
      forall d | d in item.dests
        ensures d in s.fs
      {
        var j: nat :| j < |item.dests| && item.dests[j] == d;
      }
      assert MissingFilled(fs0, s.fs, item.dests, fs0[from]);
    } else {
      assert item.dests[i] in item.dests;
    }
  }

  lemma SearchKnown(fs0: FileSystem, item: Item, env: Env, s: Local)
    requires item.dests != [] && WellPrepared(item) && Known(fs0, item, env, s)
    requires s.point.Trying? || s.point.Getting? || s.point.Checking? || s.point.Rejecting?
    ensures Known(fs0, item, env, Step(item, env, s))
  {
  }

  lemma NothingFound(fs0: FileSystem, item: Item, env: Env)
    requires NothingUsable(fs0, item, env, |item.dests|)
    ensures !HasLocalCopy(fs0, item, env) && !HasSizeUnknown(fs0, item)
  {
    forall d | d in item.dests
      ensures !Accepted(fs0, item, env, d) && !SizeUnknown(fs0, item, d)
    {
      var j: nat :| j < |item.dests| && item.dests[j] == d;
    }
  }

  lemma RenameKnown(fs0: FileSystem, item: Item, env: Env, s: Local)
    requires item.dests != [] && WellPrepared(item) && s.point.Renaming? && Known(fs0, item, env, s)
    ensures Known(fs0, item, env, Step(item, env, s))
  {
    NothingFound(fs0, item, env);
    assert item.dests[0] in item.dests;
  }

  lemma CopyKnown(fs0: FileSystem, item: Item, env: Env, s: Local)
    requires item.dests != [] && WellPrepared(item) && s.point.Copying? && Known(fs0, item, env, s)
    ensures Known(fs0, item, env, Step(item, env, s))
  {
    var k, i := s.point.k, s.point.i;
    if i >= |item.dests| {
      forall d | d in item.dests
        ensures d in s.fs && s.fs[d] == env.transfer(k).content.value
      {
        var j: nat :| j < |item.dests| && item.dests[j] == d;
      }
      assert AllHold(s.fs, item.dests, env.transfer(k).content.value);
    }
  }

  lemma StepKnown(fs0: FileSystem, item: Item, env: Env, s: Local)
    requires item.dests != [] && WellPrepared(item) && Known(fs0, item, env, s)
    ensures Known(fs0, item, env, Step(item, env, s))
  {
    match s.point
    case Looking(_) => LookKnown(fs0, item, env, s);
    case Filling(_, _) => FillKnown(fs0, item, env, s);
    case Renaming(_) => RenameKnown(fs0, item, env, s);
    case Copying(_, _) => CopyKnown(fs0, item, env, s);
    case Finished(_) =>
    case _ => SearchKnown(fs0, item, env, s);
  }

  /** A download that finishes alone has delivered what it reports. */
  lemma {:induction false} AloneDelivers(item: Item, env: Env, fs0: FileSystem, n: nat)
    requires WellPrepared(item)
    ensures item.dests != [] ==> Known(fs0, item, env, Alone(item, env, fs0, n))
    ensures item.dests == [] ==> Alone(item, env, fs0, n) == Local(Finished(Raised), fs0)
    ensures var s := Alone(item, env, fs0, n); s.point.Finished? ==> Delivered(fs0, s.fs, item, env, s.point.outcome)
  {
    if n > 0 {
      AloneDelivers(item, env, fs0, n - 1);
      if item.dests != [] {
        StepKnown(fs0, item, env, Alone(item, env, fs0, n - 1));
      }
    }
  }

  // ------------------------------------------------------------------- how long it takes

  /** The attempts left before attempt `k`. */
  function Left(item: Item, k: nat): nat { if k < RETRIES * item.sources then RETRIES * item.sources - k else 0 }

  function Rest(item: Item, i: nat): nat { if i < |item.dests| then |item.dests| - i else 0 }

  function Rank(item: Item, point: Point): nat {
    match point
    case Looking(i) => Rest(item, i) + 4 * Left(item, 0) + |item.dests| + 6
    case Filling(_, i) => Rest(item, i) + 1
    case Trying(k) => 4 * Left(item, k) + |item.dests| + 5
    case Getting(k) => 4 * Left(item, k) + |item.dests| + 4
    case Checking(k) => 4 * Left(item, k) + |item.dests| + 3
    case Rejecting(k) => 4 * Left(item, k) + |item.dests| + 2
    case Renaming(_) => |item.dests| + 2
    case Copying(_, i) => Rest(item, i) + 1
    case Finished(_) => 0
  }

  /** No download takes more steps than this. */
  function Bound(item: Item): nat { Rank(item, Looking(0)) }

  lemma StepLowersRank(fs0: FileSystem, item: Item, env: Env, s: Local)
    requires item.dests != [] && Known(fs0, item, env, s) && !s.point.Finished?
    ensures Rank(item, Step(item, env, s).point) < Rank(item, s.point)
  {
  }

  lemma {:induction false} AloneFinishes(item: Item, env: Env, fs0: FileSystem, n: nat)
    requires WellPrepared(item)
    ensures var s := Alone(item, env, fs0, n); s.point.Finished? || Rank(item, s.point) + n <= Bound(item)
  {
    if n > 0 {
      AloneFinishes(item, env, fs0, n - 1);
      AloneDelivers(item, env, fs0, n - 1);
      var s := Alone(item, env, fs0, n - 1);
      if item.dests != [] && !s.point.Finished? {
        StepLowersRank(fs0, item, env, s);
      }
    }
  }

  // ------------------------------------------------------------------ several at once

  datatype System = System(fs: FileSystem, points: seq<Point>)

  /** No path is touched by two downloads. */
  ghost predicate Apart(items: seq<Item>) {
    forall i, j, p :: 0 <= i < |items| && 0 <= j < |items| && i != j && Touches(items[i], p) ==> !Touches(items[j], p)
  }

  /** Each entry names the download that takes its next step. */
  predicate Schedule(items: seq<Item>, schedule: seq<nat>) { forall k :: 0 <= k < |schedule| ==> schedule[k] < |items| }

  function Run(items: seq<Item>, envs: seq<Env>, fs0: FileSystem, schedule: seq<nat>): (s: System)
    requires |envs| == |items| && Schedule(items, schedule)
    ensures |s.points| == |items|
  {
    if schedule == [] then System(fs0, seq(|items|, i requires 0 <= i < |items| => Begin(items[i])))
    else
      var s, w := Run(items, envs, fs0, schedule[..|schedule| - 1]), schedule[|schedule| - 1];
      var next := StepOf(items[w], envs[w], Local(s.points[w], s.fs));
      System(next.fs, s.points[w := next.point])
  }

  /** How often a download has its turn. */
  function Turns(schedule: seq<nat>, w: nat): nat {
    if schedule == [] then 0
    else Turns(schedule[..|schedule| - 1], w) + if schedule[|schedule| - 1] == w then 1 else 0
  }

  /** The two file systems look the same to the download. */
  ghost predicate Agree(item: Item, fs: FileSystem, fs': FileSystem) {
    forall p :: Touches(item, p) ==> (p in fs <==> p in fs') && (p in fs ==> fs[p] == fs'[p])
  }

  predicate CopiesOwn(item: Item, point: Point) { point.Filling? ==> point.from in item.dests }

  /** A step writes only what the download touches. */
  lemma StepStaysInside(item: Item, env: Env, s: Local, p: Path)
    requires !Touches(item, p)
    ensures var t := StepOf(item, env, s); (p in t.fs <==> p in s.fs) && (p in t.fs ==> t.fs[p] == s.fs[p])
  {
    if item.dests != [] {
      assert item.dests[0] in item.dests && p != TempPath(item.dests[0]);
    }
  }

  /** A step depends only on what the download touches. */
  lemma StepDependsOnOwn(item: Item, env: Env, s: Local, s': Local)
    requires s.point == s'.point && CopiesOwn(item, s.point) && Agree(item, s.fs, s'.fs)
    ensures StepOf(item, env, s).point == StepOf(item, env, s').point
    ensures Agree(item, StepOf(item, env, s).fs, StepOf(item, env, s').fs)
  {
    if item.dests != [] {
      assert forall d :: d in item.dests ==> Touches(item, d);
      assert Touches(item, TempPath(item.dests[0]));
      forall i: nat | i < |item.dests|
        ensures item.dests[i] in item.dests
      {
      }
    }
  }

  /** Whatever the order, each download stands where it would stand alone after as many steps of its own,
      and finds the files it touches as it would find them alone. */
  lemma {:induction false} RunProjects(items: seq<Item>, envs: seq<Env>, fs0: FileSystem, schedule: seq<nat>, w: nat)
    requires |envs| == |items| && Schedule(items, schedule) && Apart(items) && w < |items| && WellPrepared(items[w])
    ensures Projects(items, envs, fs0, schedule, w)
  {
    if schedule != [] {
      var before, v := schedule[..|schedule| - 1], schedule[|schedule| - 1];
      RunProjects(items, envs, fs0, before, w);
      if v == w {
        OwnTurn(items, envs, fs0, schedule);
      } else {
        OtherTurn(items, envs, fs0, schedule, w);
      }
    }
  }

  ghost predicate Projects(items: seq<Item>, envs: seq<Env>, fs0: FileSystem, schedule: seq<nat>, w: nat)
    requires |envs| == |items| && Schedule(items, schedule) && w < |items|
  {
    var s, alone := Run(items, envs, fs0, schedule), Alone(items[w], envs[w], fs0, Turns(schedule, w));
    s.points[w] == alone.point && Agree(items[w], s.fs, alone.fs)
  }

  lemma OwnTurn(items: seq<Item>, envs: seq<Env>, fs0: FileSystem, schedule: seq<nat>)
    requires |envs| == |items| && Schedule(items, schedule) && schedule != []
    requires var w := schedule[|schedule| - 1];
             WellPrepared(items[w]) && Projects(items, envs, fs0, schedule[..|schedule| - 1], w)
    ensures Projects(items, envs, fs0, schedule, schedule[|schedule| - 1])
  {
    var before, w := schedule[..|schedule| - 1], schedule[|schedule| - 1];
    var s, n := Run(items, envs, fs0, before), Turns(before, w);
    AloneDelivers(items[w], envs[w], fs0, n);
    StepDependsOnOwn(items[w], envs[w], Local(s.points[w], s.fs), Alone(items[w], envs[w], fs0, n));
    assert Turns(schedule, w) == n + 1;
  }

  lemma OtherTurn(items: seq<Item>, envs: seq<Env>, fs0: FileSystem, schedule: seq<nat>, w: nat)
    requires |envs| == |items| && Schedule(items, schedule) && schedule != [] && Apart(items) && w < |items|
    requires w != schedule[|schedule| - 1] && Projects(items, envs, fs0, schedule[..|schedule| - 1], w)
    ensures Projects(items, envs, fs0, schedule, w)
  {
    var before, v := schedule[..|schedule| - 1], schedule[|schedule| - 1];
    var s := Run(items, envs, fs0, before);
    var next := StepOf(items[v], envs[v], Local(s.points[v], s.fs));
    assert Turns(schedule, w) == Turns(before, w);
    forall p | Touches(items[w], p)
      ensures (p in next.fs <==> p in s.fs) && (p in next.fs ==> next.fs[p] == s.fs[p])
    {
      StepStaysInside(items[v], envs[v], Local(s.points[v], s.fs), p);
    }
  }

  /** In every interleaving of downloads that touch no path in common, each one that has finished has delivered
      what it reports, as if it had been alone, judged between the first and the present files. */
  lemma InterleavingDelivers(items: seq<Item>, envs: seq<Env>, fs0: FileSystem, schedule: seq<nat>, w: nat)
    requires |envs| == |items| && Schedule(items, schedule) && Apart(items) && w < |items| && WellPrepared(items[w])
    ensures var s := Run(items, envs, fs0, schedule);
            s.points[w].Finished? ==> Delivered(fs0, s.fs, items[w], envs[w], s.points[w].outcome)
    ensures Turns(schedule, w) >= Bound(items[w]) ==> Run(items, envs, fs0, schedule).points[w].Finished?
  {
    var s, n := Run(items, envs, fs0, schedule), Turns(schedule, w);
    var alone := Alone(items[w], envs[w], fs0, n);
    RunProjects(items, envs, fs0, schedule, w);
    AloneDelivers(items[w], envs[w], fs0, n);
    AloneFinishes(items[w], envs[w], fs0, n);
    if s.points[w].Finished? {
      assert forall d :: d in items[w].dests ==> Touches(items[w], d);
      DeliveredIsLocal(fs0, alone.fs, fs0, s.fs, items[w], envs[w], s.points[w].outcome);
    }
  }
}
