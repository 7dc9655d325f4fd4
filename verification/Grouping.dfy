/** `_resolve_and_merge_input_items` of the download client. */
module Grouping {
  // Input items are grouped so that each group needs one `list_replicas` call, the answer is completed
  // and filtered, and every file is matched back to the DIDs that were asked for. What the server
  // answers is arbitrary.

  import opened Sequences
  import opened Wrappers
  import opened Items
  import opened Planner

  /** The three options compared by `distinct_keys`, exactly as given: a missing option is not the same as `False`. */
  datatype Key = Key(rse: Option<string>, scheme: Option<string>, noResolveArchives: Option<bool>)

  function KeyOf(i: InputItem): Key { Key(i.rse, i.scheme, i.noResolveArchives) }

  /** Items share their key exactly if all three options are the same. */
  lemma KeysAgree(a: InputItem, b: InputItem)
    ensures KeyOf(a) == KeyOf(b) <==> a.rse == b.rse && a.scheme == b.scheme && a.noResolveArchives == b.noResolveArchives
  {
  }

  // -------------------------------------------------------- who asked for a DID

  /** Some item asks for the DID. */
  ghost predicate Asked(items: seq<InputItem>, d: Did) { exists i :: 0 <= i < |items| && d in items[i].dids }

  /** Each requested DID leads to the items asking for it, and to nothing else. */
  ghost predicate Indexes(items: seq<InputItem>, requests: map<Did, seq<InputItem>>) {
    && (forall d :: d in requests <==> Asked(items, d))
    && (forall d, t :: t in ItemsFor(requests, d) <==> t in items && d in t.dids)
  }

  /** One item: it is appended under each of its DIDs. */
  method IndexItem(requests0: map<Did, seq<InputItem>>, t: InputItem) returns (requests: map<Did, seq<InputItem>>)
    ensures forall d :: d in requests <==> d in requests0 || d in t.dids
    ensures forall d, u :: u in ItemsFor(requests, d) <==> u in ItemsFor(requests0, d) || (u == t && d in t.dids)
  {
    requests := requests0;
    for m := 0 to |t.dids|
      invariant forall d :: d in requests <==> d in requests0 || d in t.dids[..m]
      invariant forall d, u :: u in ItemsFor(requests, d) <==> u in ItemsFor(requests0, d) || (u == t && d in t.dids[..m])
    {
      var d := t.dids[m];
      requests := requests[d := ItemsFor(requests, d) + [t]];
      assert t.dids[..m + 1] == t.dids[..m] + [d];
    }
    assert t.dids[..|t.dids|] == t.dids;
  }

  /** `did_to_input_items`. */
  method IndexRequests(items: seq<InputItem>) returns (requests: map<Did, seq<InputItem>>)
    ensures Indexes(items, requests)
  {
    requests := map[];
    for n := 0 to |items|
      invariant Indexes(items[..n], requests)
    {
      var t := items[n];
      assert items[..n + 1] == items[..n] + [t];
      ghost var before := requests;
      requests := IndexItem(requests, t);
      IndexedOneMore(items[..n], before, t, requests);
    }
    assert items[..|items|] == items;
  }

  lemma IndexedOneMore(items: seq<InputItem>, before: map<Did, seq<InputItem>>, t: InputItem, requests: map<Did, seq<InputItem>>)
    requires Indexes(items, before)
    requires forall d :: d in requests <==> d in before || d in t.dids
    requires forall d, u :: u in ItemsFor(requests, d) <==> u in ItemsFor(before, d) || (u == t && d in t.dids)
    ensures Indexes(items + [t], requests)
  {
    forall d
      ensures Asked(items + [t], d) <==> Asked(items, d) || d in t.dids
    {
      if Asked(items, d) {
        var i :| 0 <= i < |items| && d in items[i].dids;
        assert (items + [t])[i] == items[i];
      }
      assert (items + [t])[|items|] == t;
    }
  }

  // -------------------------------------------------------------------- grouping

  /** A group is the list of its items' positions; the first one is its head. */
  ghost predicate GroupOk(items: seq<InputItem>, n: nat, g: seq<nat>)
    requires n <= |items|
  {
    && g != [] && g[0] < n
    && (forall k :: 0 <= k < |g| ==> g[k] < n && KeyOf(items[g[k]]) == KeyOf(items[g[0]]))
    && (forall k :: 1 <= k < |g| ==> items[g[k]].nrandom == 0)
    && (forall j, k :: 0 <= j < k < |g| ==> g[j] < g[k])
  }

  ghost predicate InSome(i: nat, groups: seq<seq<nat>>) { exists a :: 0 <= a < |groups| && i in groups[a] }

  /** Each of the first `n` items is in exactly one group. */
  ghost predicate PartitionOf(n: nat, groups: seq<seq<nat>>) {
    && (forall i: nat :: i < n <==> InSome(i, groups))
    && (forall a, b, i :: 0 <= a < b < |groups| && i in groups[a] ==> i !in groups[b])
  }

  /** Groups stand in the order of their heads; of two with the same keys, the later one is headed by
      an `nrandom` item. */
  ghost predicate HeadsDiffer(items: seq<InputItem>, groups: seq<seq<nat>>)
    requires forall a :: 0 <= a < |groups| ==> groups[a] != [] && groups[a][0] < |items|
  {
    && (forall a, b :: 0 <= a < b < |groups| ==> groups[a][0] < groups[b][0])
    && forall a, b :: 0 <= a < b < |groups| && KeyOf(items[groups[a][0]]) == KeyOf(items[groups[b][0]]) ==> items[groups[b][0]].nrandom != 0
  }

  ghost predicate Grouped(items: seq<InputItem>, n: nat, groups: seq<seq<nat>>)
    requires n <= |items|
  {
    && (forall a :: 0 <= a < |groups| ==> GroupOk(items, n, groups[a]))
    && PartitionOf(n, groups)
    && HeadsDiffer(items, groups)
  }

  lemma PartitionNew(n: nat, groups: seq<seq<nat>>)
    requires PartitionOf(n, groups)
    ensures PartitionOf(n + 1, groups + [[n]])
  {
    var groups1 := groups + [[n]];
    assert !InSome(n, groups);
    forall i: nat
      ensures i < n + 1 <==> InSome(i, groups1)
    {
      if InSome(i, groups) {
        var a :| 0 <= a < |groups| && i in groups[a];
        assert i in groups1[a];
      }
      assert n in groups1[|groups|];
      if InSome(i, groups1) && i != n {
        var a :| 0 <= a < |groups1| && i in groups1[a];
        assert i in groups[a];
      }
    }
  }

  lemma PartitionJoin(n: nat, groups: seq<seq<nat>>, a: nat)
    requires PartitionOf(n, groups) && a < |groups|
    ensures PartitionOf(n + 1, groups[a := groups[a] + [n]])
  {
    var groups1 := groups[a := groups[a] + [n]];
    assert !InSome(n, groups);
    forall i: nat
      ensures i < n + 1 <==> InSome(i, groups1)
    {
      if InSome(i, groups) {
        var b :| 0 <= b < |groups| && i in groups[b];
        assert i in groups1[b];
      }
      assert n in groups1[a];
      if InSome(i, groups1) && i != n {
        var b :| 0 <= b < |groups1| && i in groups1[b];
        assert i in groups[b];
      }
    }
  }

  lemma NewGroup(items: seq<InputItem>, n: nat, groups: seq<seq<nat>>)
    requires n < |items| && Grouped(items, n, groups)
    requires items[n].nrandom != 0 || forall a :: 0 <= a < |groups| ==> KeyOf(items[groups[a][0]]) != KeyOf(items[n])
    ensures Grouped(items, n + 1, groups + [[n]])
  {
    PartitionNew(n, groups);
    assert forall a :: 0 <= a < |groups| ==> GroupOk(items, n, groups[a]);
  }

  lemma JoinGroup(items: seq<InputItem>, n: nat, groups: seq<seq<nat>>, a: nat)
    requires n < |items| && Grouped(items, n, groups)
    requires items[n].nrandom == 0 && a < |groups| && KeyOf(items[groups[a][0]]) == KeyOf(items[n])
    ensures Grouped(items, n + 1, groups[a := groups[a] + [n]])
  {
    PartitionJoin(n, groups, a);
    assert forall b :: 0 <= b < |groups| ==> GroupOk(items, n, groups[b]);
    assert GroupOk(items, n + 1, groups[a] + [n]);
  }

  /** The grouping loop. */
  method GroupItems(items: seq<InputItem>) returns (groups: seq<seq<nat>>)
    ensures Grouped(items, |items|, groups)
  {
    groups := [];
    for n := 0 to |items|
      invariant Grouped(items, n, groups)
    {
      var a, found := 0, false;
      if items[n].nrandom == 0 {
        while a < |groups|
          invariant a <= |groups|
          invariant forall b :: 0 <= b < a ==> KeyOf(items[groups[b][0]]) != KeyOf(items[n])
        {
          if KeyOf(items[n]) == KeyOf(items[groups[a][0]]) {
            found := true;
            break;
          }
          a := a + 1;
        }
      }
      if found {
        JoinGroup(items, n, groups, a);
        groups := groups[a := groups[a] + [n]];
      } else {
        NewGroup(items, n, groups);
        groups := groups + [[n]];
      }
    }
  }

  /** Two groups headed by items without `nrandom` never share their keys. */
  lemma PlainHeadsHaveDistinctKeys(items: seq<InputItem>, groups: seq<seq<nat>>, a: nat, b: nat)
    requires Grouped(items, |items|, groups) && a < b < |groups|
    requires items[groups[a][0]].nrandom == 0 && items[groups[b][0]].nrandom == 0
    ensures KeyOf(items[groups[a][0]]) != KeyOf(items[groups[b][0]])
  {}

  // ---------------------------------------------------------------- tape sources

  /** Removes the first element equal to `x`, as `list.remove` does. */
  function RemoveFirst(s: seq<Source>, x: Source): seq<Source>
    requires x in s
  {
    if s[0] == x then s[1..] else [s[0]] + RemoveFirst(s[1..], x)
  }

  lemma {:induction false} RemoveFirstSkips(a: seq<Source>, x: Source, b: seq<Source>)
    requires x !in a
    ensures x in a + [x] + b && RemoveFirst(a + [x] + b, x) == a + b
  {
    var s := a + [x] + b;
    if a == [] {
      assert s[0] == x && s[1..] == b && a + b == b;
    } else {
      assert s[0] == a[0] && s[1..] == a[1..] + [x] + b;
      RemoveFirstSkips(a[1..], x, b);
      assert [a[0]] + (a[1..] + b) == a + b;
    }
  }

  /** What is left are the sources not on tape, each where it was. */
  ghost predicate TapesDropped(sources0: seq<Source>, sources: seq<Source>, tapes: set<string>) {
    exists positions: seq<nat> :: Picks(sources0, sources, positions)
      && forall j: nat :: j < |sources0| ==> (j in positions <==> sources0[j].rse !in tapes)
  }

  /** Walking over a copy and removing by value is an order-preserving filter, and every removal succeeds. */
  method DropTapeSources(sources0: seq<Source>, tapes: set<string>) returns (sources: seq<Source>)
    ensures TapesDropped(sources0, sources, tapes)
  {
    sources := sources0;
    ghost var keep := (s: Source) => s.rse !in tapes;
    for i := 0 to |sources0|
      invariant sources == Keep(sources0[..i], keep) + sources0[i..]
    {
      DropStep(sources0, i, keep);
      if sources0[i].rse in tapes {
        sources := RemoveFirst(sources, sources0[i]);
      }
    }
    assert sources0[..|sources0|] == sources0 && sources0[|sources0|..] == [];
    assert sources == Keep(sources0, keep);
    KeptAreDropped(sources0, tapes, keep);
  }

  lemma DropStep(sources0: seq<Source>, i: nat, keep: Source -> bool)
    requires i < |sources0|
    ensures var all := Keep(sources0[..i], keep) + sources0[i..];
            var next := Keep(sources0[..i + 1], keep) + sources0[i + 1..];
            if keep(sources0[i]) then next == all
            else sources0[i] in all && RemoveFirst(all, sources0[i]) == next
  {
    var kept, src := Keep(sources0[..i], keep), sources0[i];
    assert sources0[..i + 1] == sources0[..i] + [src] && sources0[i..] == [src] + sources0[i + 1..];
    KeepSnoc(sources0[..i], src, keep);
    assert kept + sources0[i..] == kept + [src] + sources0[i + 1..];
    if !keep(src) {
      assert src !in kept;
      RemoveFirstSkips(kept, src, sources0[i + 1..]);
    }
  }

  lemma KeptAreDropped(sources0: seq<Source>, tapes: set<string>, keep: Source -> bool)
    requires forall s :: keep(s) <==> s.rse !in tapes
    ensures TapesDropped(sources0, Keep(sources0, keep), tapes)
  {
    var positions := KeepAt(sources0, keep);
    assert Picks(sources0, Keep(sources0, keep), positions);
  }

  // ------------------------------------------------------------------- matching

  /** A file as the server reports it. */
  datatype ServerFile = ServerFile(did: Did, parents: set<Did>, sources: seq<Source>)

  predicate Resolves(f: ServerFile, did: Did) { did == f.did || did in f.parents }

  /** A requested DID without sources, standing for "not found". */
  ghost predicate PassedThrough(answer: seq<ServerFile>, inputs: seq<Did>, f: ServerFile) {
    && f.did in inputs && f.sources == [] && f.parents == {}
    && forall k :: 0 <= k < |answer| ==> f.did != answer[k].did && f.did !in answer[k].parents
  }

  ghost predicate Resolved(files: seq<ServerFile>, d: Did) { exists k :: 0 <= k < |files| && Resolves(files[k], d) }

  lemma ResolvedByMore(files: seq<ServerFile>, more: seq<ServerFile>, d: Did)
    requires files <= more && Resolved(files, d)
    ensures Resolved(more, d)
  {
    var k :| 0 <= k < |files| && Resolves(files[k], d);
    assert Resolves(more[k], d);
  }

  /** DIDs the server returned no file for are passed through as files without sources. */
  method PassThrough(answer: seq<ServerFile>, inputs: seq<Did>) returns (files: seq<ServerFile>)
    ensures answer <= files
    ensures forall d :: d in inputs ==> Resolved(files, d)
    ensures forall k :: |answer| <= k < |files| ==> PassedThrough(answer, inputs, files[k])
    ensures forall j, k :: |answer| <= j < k < |files| ==> files[j].did != files[k].did
  {
    files := answer;
    for i := 0 to |inputs|
      invariant answer <= files
      invariant forall j :: 0 <= j < i ==> Resolved(files, inputs[j])
      invariant forall k :: |answer| <= k < |files| ==> PassedThrough(answer, inputs, files[k])
      invariant forall j, k :: |answer| <= j < k < |files| ==> files[j].did != files[k].did
    {
      var d := inputs[i];
      if !exists k :: 0 <= k < |files| && Resolves(files[k], d) {
        var longer := files + [ServerFile(d, {}, [])];
        forall j | 0 <= j < i
          ensures Resolved(longer, inputs[j])
        {
          ResolvedByMore(files, longer, inputs[j]);
        }
        assert Resolves(longer[|files|], d);
        assert PassedThrough(answer, inputs, longer[|files|]) by {
          assert forall k :: 0 <= k < |answer| ==> answer[k] == files[k];
          assert forall k :: 0 <= k < |files| ==> !Resolves(files[k], d);
        }
        files := longer;
      }
    }
  }

  /** The file item made of a file: its DIDs are those of the group it answers. */
  ghost predicate ItemFor(f: ServerFile, inputs: seq<Did>, tapes: set<string>, tapeExcluded: bool, item: FileItem) {
    && item.did == f.did
    && NoRepeats(item.inputDids) && (forall d :: d in item.inputDids <==> d in inputs && (d == f.did || d in f.parents))
    && (if tapeExcluded then TapesDropped(f.sources, item.sources, tapes) else item.sources == f.sources)
  }

  lemma NothingDropped(sources: seq<Source>, tapes: set<string>)
    requires TapesDropped([], sources, tapes)
    ensures sources == []
  {
    var positions: seq<nat> :| Picks([], sources, positions);
    IncreasingIsShort(positions, 0);
  }

  method MakeItem(f: ServerFile, inputs: seq<Did>, tapes: set<string>, tapeExcluded: bool) returns (item: FileItem)
    ensures ItemFor(f, inputs, tapes, tapeExcluded, item)
  {
    var sources := f.sources;
    if tapeExcluded {
      sources := DropTapeSources(sources, tapes);
    }
    var matched := set d | d in inputs && Resolves(f, d);
    var listed := Enumerate(matched);
    item := FileItem(f.did, listed, sources);
  }

  /** Some file item stands for the requested DID. */
  ghost predicate Answered(items: seq<FileItem>, d: Did) { exists k :: 0 <= k < |items| && d in items[k].inputDids }

  /** The file items of one group: one for each file of the answer, in order, and then, unless exactly the random
      number asked for came back, one for each requested DID that no file of the answer resolves. */
  ghost predicate PartFor(answer: seq<ServerFile>, inputs: seq<Did>, nrandom: nat, tapes: set<string>, tapeExcluded: bool, part: seq<FileItem>) {
    && |part| >= |answer|
    && (forall k :: 0 <= k < |answer| ==> ItemFor(answer[k], inputs, tapes, tapeExcluded, part[k]))
    && (forall k :: |answer| <= k < |part| ==> PassedOn(answer, inputs, part[k]))
    && (forall j, k :: |answer| <= j < k < |part| ==> part[j].did != part[k].did)
    && (nrandom != 0 && nrandom == |answer| ==> |part| == |answer|)
  }

  /** A requested DID that is passed on: it has no sources, and stands for itself. */
  ghost predicate PassedOn(answer: seq<ServerFile>, inputs: seq<Did>, item: FileItem) {
    && item.did in inputs && item.sources == [] && item.inputDids == [item.did]
    && forall k :: 0 <= k < |answer| ==> item.did != answer[k].did && item.did !in answer[k].parents
  }

  /** One group: complete the answer, drop tape sources, match each file to the DIDs it answers. Every DID then
      ends up with some file item. */
  method ResolveGroup(answer: seq<ServerFile>, inputs: seq<Did>, nrandom: nat, tapes: set<string>, tapeExcluded: bool)
    returns (items: seq<FileItem>)
    ensures PartFor(answer, inputs, nrandom, tapes, tapeExcluded, items)
    ensures forall d :: d in inputs ==>
              (Answered(items, d) <==> nrandom == 0 || nrandom != |answer| || Resolved(answer, d))
  {
    var files := answer;
    if nrandom == 0 || nrandom != |answer| {
      files := PassThrough(answer, inputs);
    }
    items := [];
    for n := 0 to |files|
      invariant |items| == n
      invariant forall k :: 0 <= k < n ==> ItemFor(files[k], inputs, tapes, tapeExcluded, items[k])
    {
      var item := MakeItem(files[n], inputs, tapes, tapeExcluded);
      items := items + [item];
    }
    forall k | |answer| <= k < |items|
      ensures PassedOn(answer, inputs, items[k])
    {
      PassedThroughIsPassedOn(answer, inputs, files[k], tapes, tapeExcluded, items[k]);
    }
    forall d | d in inputs
      ensures Answered(items, d) <==> Resolved(files, d)
    {
      if k :| 0 <= k < |files| && Resolves(files[k], d) {
        assert d in items[k].inputDids;
      }
    }
  }

  lemma PassedThroughIsPassedOn(answer: seq<ServerFile>, inputs: seq<Did>, f: ServerFile, tapes: set<string>, tapeExcluded: bool, item: FileItem)
    requires PassedThrough(answer, inputs, f) && ItemFor(f, inputs, tapes, tapeExcluded, item)
    ensures PassedOn(answer, inputs, item)
  {
    if tapeExcluded { NothingDropped(item.sources, tapes); }
    OneElement(item.inputDids, f.did);
  }

  lemma OneElement(s: seq<Did>, x: Did)
    requires NoRepeats(s) && forall d :: d in s <==> d == x
    ensures s == [x]
  {
    assert x in s;
    assert forall i :: 0 <= i < |s| ==> s[i] in s;
    assert s[0] == s[|s| - 1];
  }

  // ------------------------------------------------------------------ all groups

  /** Some item of the group asks for the DID. */
  ghost predicate AskedBy(items: seq<InputItem>, g: seq<nat>, d: Did) {
    exists k :: 0 <= k < |g| && g[k] < |items| && d in items[g[k]].dids
  }

  /** The DIDs of a group come from all its items. */
  method GatherDids(items: seq<InputItem>, g: seq<nat>) returns (inputs: seq<Did>)
    requires forall k :: 0 <= k < |g| ==> g[k] < |items|
    ensures forall d :: d in inputs <==> AskedBy(items, g, d)
  {
    inputs := [];
    for n := 0 to |g|
      invariant forall d :: d in inputs <==> exists k :: 0 <= k < n && d in items[g[k]].dids
    {
      inputs := inputs + items[g[n]].dids;
    }
  }

  /** The server answered group `a` with exactly the number of files its head asked for at random. */
  predicate CutShort(items: seq<InputItem>, groups: seq<seq<nat>>, server: nat -> seq<ServerFile>, a: nat) {
    && a < |groups| && groups[a] != [] && groups[a][0] < |items|
    && items[groups[a][0]].nrandom != 0 && items[groups[a][0]].nrandom == |server(a)|
  }

  lemma AnsweredConcat(files: seq<FileItem>, more: seq<FileItem>, d: Did)
    ensures Answered(files + more, d) <==> Answered(files, d) || Answered(more, d)
  {
    if Answered(files, d) {
      var k :| 0 <= k < |files| && d in files[k].inputDids;
      assert (files + more)[k] == files[k];
    }
    if Answered(more, d) {
      var k :| 0 <= k < |more| && d in more[k].inputDids;
      assert (files + more)[|files| + k] == more[k];
    }
    if Answered(files + more, d) {
      var k :| 0 <= k < |files + more| && d in (files + more)[k].inputDids;
      assert k < |files| ==> d in files[k].inputDids;
      assert k >= |files| ==> d in more[k - |files|].inputDids;
    }
  }

  /** Group `a` gives the DID a file item: some item of it asks for it, and the answer was completed or has it. */
  ghost predicate Serves(items: seq<InputItem>, groups: seq<seq<nat>>, server: nat -> seq<ServerFile>, a: nat, d: Did) {
    && a < |groups| && AskedBy(items, groups[a], d)
    && (!CutShort(items, groups, server, a) || Resolved(server(a), d))
  }

  /** The DIDs with a file item are just those the first `n` groups serve. */
  ghost predicate GroupsAnswered(items: seq<InputItem>, groups: seq<seq<nat>>, server: nat -> seq<ServerFile>, n: nat, files: seq<FileItem>)
    requires n <= |groups|
  {
    forall d :: Answered(files, d) <==> exists a: nat :: a < n && Serves(items, groups, server, a, d)
  }

  /** File items stand for requested DIDs only. */
  ghost predicate OnlyAsked(items: seq<InputItem>, files: seq<FileItem>) {
    forall k, d :: 0 <= k < |files| && d in files[k].inputDids ==> Asked(items, d)
  }

  lemma AskedInGroup(items: seq<InputItem>, groups: seq<seq<nat>>, a: nat, d: Did)
    requires a < |groups| && GroupOk(items, |items|, groups[a]) && AskedBy(items, groups[a], d)
    ensures Asked(items, d)
  {
    var k :| 0 <= k < |groups[a]| && d in items[groups[a][k]].dids;
  }

  /** The file items of one group, whose DIDs come from all its items and whose `nrandom` is that of its head. */
  ghost predicate GroupPart(items: seq<InputItem>, g: seq<nat>, answer: seq<ServerFile>, tapes: set<string>, tapeExcluded: bool, part: seq<FileItem>) {
    && g != [] && g[0] < |items|
    && exists inputs: seq<Did> :: PartFor(answer, inputs, items[g[0]].nrandom, tapes, tapeExcluded, part)
                                  && forall d :: d in inputs <==> AskedBy(items, g, d)
  }

  /** The file items of the first `n` groups, one group after the other. */
  ghost predicate Parts(items: seq<InputItem>, groups: seq<seq<nat>>, server: nat -> seq<ServerFile>,
                        tapes: set<string>, tapeExcluded: bool, n: nat, files: seq<FileItem>)
    requires n <= |groups|
  {
    if n == 0 then files == []
    else exists m: nat :: m <= |files|
           && Parts(items, groups, server, tapes, tapeExcluded, n - 1, files[..m])
           && GroupPart(items, groups[n - 1], server(n - 1), tapes, tapeExcluded, files[m..])
  }

  lemma PartsMore(items: seq<InputItem>, groups: seq<seq<nat>>, server: nat -> seq<ServerFile>, tapes: set<string>, tapeExcluded: bool,
                  n: nat, files: seq<FileItem>, inputs: seq<Did>, part: seq<FileItem>)
    requires n < |groups| && Parts(items, groups, server, tapes, tapeExcluded, n, files)
    requires groups[n] != [] && groups[n][0] < |items|
    requires PartFor(server(n), inputs, items[groups[n][0]].nrandom, tapes, tapeExcluded, part)
    requires forall d :: d in inputs <==> AskedBy(items, groups[n], d)
    ensures Parts(items, groups, server, tapes, tapeExcluded, n + 1, files + part)
  {
    assert (files + part)[..|files|] == files && (files + part)[|files|..] == part;
    assert GroupPart(items, groups[n], server(n), tapes, tapeExcluded, part);
  }

  /** The whole resolution: `server(a)` is what the server answers for the group numbered `a`. */
  method ResolveAll(items: seq<InputItem>, server: nat -> seq<ServerFile>, tapes: set<string>, tapeExcluded: bool)
    returns (groups: seq<seq<nat>>, files: seq<FileItem>)
    ensures Grouped(items, |items|, groups)
    ensures GroupsAnswered(items, groups, server, |groups|, files)
    ensures OnlyAsked(items, files)
    ensures Parts(items, groups, server, tapes, tapeExcluded, |groups|, files)
  {
    groups := GroupItems(items);
    files := [];
    for a := 0 to |groups|
      invariant GroupsAnswered(items, groups, server, a, files)
      invariant OnlyAsked(items, files)
      invariant Parts(items, groups, server, tapes, tapeExcluded, a, files)
    {
      assert GroupOk(items, |items|, groups[a]);
      var inputs := GatherDids(items, groups[a]);
      var more := ResolveGroup(server(a), inputs, items[groups[a][0]].nrandom, tapes, tapeExcluded);
      PartInputs(server(a), inputs, items[groups[a][0]].nrandom, tapes, tapeExcluded, more);
      GroupAdded(items, groups, server, a, files, inputs, more);
      PartsMore(items, groups, server, tapes, tapeExcluded, a, files, inputs, more);
      files := files + more;
    }
  }

  lemma PartInputs(answer: seq<ServerFile>, inputs: seq<Did>, nrandom: nat, tapes: set<string>, tapeExcluded: bool, part: seq<FileItem>)
    requires PartFor(answer, inputs, nrandom, tapes, tapeExcluded, part)
    ensures forall k, d :: 0 <= k < |part| && d in part[k].inputDids ==> d in inputs
  {
    forall k, d | 0 <= k < |part| && d in part[k].inputDids
      ensures d in inputs
    {
      if k < |answer| {
        assert ItemFor(answer[k], inputs, tapes, tapeExcluded, part[k]);
      } else {
        assert PassedOn(answer, inputs, part[k]);
      }
    }
  }

  lemma GroupAdded(items: seq<InputItem>, groups: seq<seq<nat>>, server: nat -> seq<ServerFile>, a: nat,
                   files: seq<FileItem>, inputs: seq<Did>, more: seq<FileItem>)
    requires a < |groups| && GroupOk(items, |items|, groups[a])
    requires GroupsAnswered(items, groups, server, a, files) && OnlyAsked(items, files)
    requires forall d :: d in inputs <==> AskedBy(items, groups[a], d)
    requires forall d :: d in inputs ==> (Answered(more, d) <==> Serves(items, groups, server, a, d))
    requires forall k, d :: 0 <= k < |more| && d in more[k].inputDids ==> d in inputs
    ensures GroupsAnswered(items, groups, server, a + 1, files + more) && OnlyAsked(items, files + more)
  {
    forall d
      ensures Answered(files + more, d) <==> exists b: nat :: b < a + 1 && Serves(items, groups, server, b, d)
    {
      AnsweredConcat(files, more, d);
      if b: nat :| b < a + 1 && Serves(items, groups, server, b, d) {
        assert b < a ==> Answered(files, d);
        assert b == a ==> d in inputs;
      }
    }
    forall k, d | 0 <= k < |files + more| && d in (files + more)[k].inputDids
      ensures Asked(items, d)
    {
      if k >= |files| {
        assert d in more[k - |files|].inputDids;
        AskedInGroup(items, groups, a, d);
      }
    }
  }

  /** Without `nrandom`, every requested DID ends up with a file item. */
  lemma PlainRequestsAreAnswered(items: seq<InputItem>, groups: seq<seq<nat>>, server: nat -> seq<ServerFile>, files: seq<FileItem>, d: Did)
    requires Grouped(items, |items|, groups) && GroupsAnswered(items, groups, server, |groups|, files)
    requires forall i :: 0 <= i < |items| ==> items[i].nrandom == 0
    ensures Asked(items, d) ==> Answered(files, d)
  {
    if Asked(items, d) {
      var i: nat :| i < |items| && d in items[i].dids;
      assert InSome(i, groups);
      var a: nat :| a < |groups| && i in groups[a];
      var k: nat :| k < |groups[a]| && groups[a][k] == i;
      assert AskedBy(items, groups[a], d);
      assert GroupOk(items, |items|, groups[a]) && !CutShort(items, groups, server, a);
      assert Serves(items, groups, server, a, d);
    }
  }

  /** One item with `nrandom` is enough to lose another item's DID: an item without it that comes later with
      the same keys joins its group, and an answer of just the random number of files is not completed. */
  lemma LaterItemMayBeLost(a: InputItem, b: InputItem, groups: seq<seq<nat>>, answer: seq<ServerFile>, d: Did,
                           inputs: seq<Did>, tapes: set<string>, tapeExcluded: bool, files: seq<FileItem>)
    requires a.nrandom == |answer| != 0 && b.nrandom == 0 && KeyOf(a) == KeyOf(b)
    requires d in b.dids && !Resolved(answer, d)
    requires Grouped([a, b], 2, groups)
    requires |files| == |answer| && forall k :: 0 <= k < |answer| ==> ItemFor(answer[k], inputs, tapes, tapeExcluded, files[k])
    ensures groups == [[0, 1]] && CutShort([a, b], groups, _ => answer, 0)
    ensures !Answered(files, d)
  {
    OnlyOneGroup(a, b, groups);
  }

  lemma OnlyOneGroup(a: InputItem, b: InputItem, groups: seq<seq<nat>>)
    requires b.nrandom == 0 && KeyOf(a) == KeyOf(b) && Grouped([a, b], 2, groups)
    ensures groups == [[0, 1]]
  {
    var items := [a, b];
    assert InSome(0, groups) && InSome(1, groups);
    var x: nat :| x < |groups| && 0 in groups[x];
    var y: nat :| y < |groups| && 1 in groups[y];
    assert GroupOk(items, 2, groups[x]) && GroupOk(items, 2, groups[y]);
    assert x == y;
    PairSorted(groups[x]);
    HeadIn([a, b], groups, x, 0);
    HeadIn([a, b], groups, x, |groups| - 1);
  }

  /** A group that has all the items is the only one. */
  lemma HeadIn(items: seq<InputItem>, groups: seq<seq<nat>>, x: nat, z: nat)
    requires Grouped(items, |items|, groups) && x < |groups| && z < |groups|
    requires forall i: nat :: i < |items| ==> i in groups[x]
    ensures z == x
  {
    assert GroupOk(items, |items|, groups[z]);
    var h: nat := groups[z][0];
    assert h in groups[z] && h in groups[x];
  }

  lemma PairSorted(g: seq<nat>)
    requires (forall k :: 0 <= k < |g| ==> g[k] < 2) && 0 in g && 1 in g
    requires forall j, k :: 0 <= j < k < |g| ==> g[j] < g[k]
    ensures g == [0, 1]
  {
    IncreasingIsShort(g, 2);
  }
}
