/** The polling loop of `_download_items_aria2c`. */
module Aria {
  // A state machine. What aria2c answers is arbitrary, except that a new download gets an unused id and
  // that only downloads the client has not removed yet are reported as stopped, each once.

  import opened ClientStates

  /** Identity of an item in the input list. */
  type Item = nat
  type Gid = string

  const ROUND_LIMIT := 100

  datatype Phase = Queueing | Polling | Returned

  /** What the client finds when it takes an item from the queue. */
  datatype Finding = Exists | NoSource | Downloadable

  /** `waiting` is `items_to_queue`, `live` is `gid_to_item`, `log` lists the final states in the
      order they are set, `traced` are the items that carry a trace, `submitted` is `num_queued`. */
  datatype State = State(
    phase: Phase, waiting: seq<Item>, live: map<Gid, Item>, log: seq<(Item, ClientState)>,
    traced: set<Item>, submitted: nat, found: Item -> Finding)

  /** `Settle`: the next item exists already or has no source. `Submit`: aria2c takes it under a
      new id. `Poll`: the round is full or nothing waits. `Stop`: a download is reported as
      stopped, `complete` if aria2c says so and its temporary file is there. `NextRound`: back to the head of the outer loop, and out of it if nothing is left. */
  datatype Step = Settle | Submit(gid: Gid) | Poll | Stop(gid: Gid, complete: bool, matches: bool) | NextRound

  function Init(n: nat, found: Item -> Finding): State {
    State(if n == 0 then Returned else Queueing, seq(n, i => i), map[], [], {}, 0, found)
  }

  predicate MayQueue(s: State) { s.phase == Queueing && s.submitted < ROUND_LIMIT && s.waiting != [] }

  /** `items_to_queue.pop()`. */
  function Next(s: State): Item
    requires s.waiting != []
  {
    s.waiting[|s.waiting| - 1]
  }

  predicate Enabled(s: State, step: Step) {
    match step
    case Settle => MayQueue(s) && s.found(Next(s)) != Downloadable
    case Submit(gid) => MayQueue(s) && s.found(Next(s)) == Downloadable && gid !in s.live
    case Poll => s.phase == Queueing && !MayQueue(s)
    case Stop(gid, _, _) => s.phase == Polling && gid in s.live
    case NextRound => s.phase == Polling
  }

  /** The state reported for a stopped download. */
  function StopState(complete: bool, matches: bool): ClientState {
    if complete then (if matches then Done else FailValidate) else Failed
  }

  function Apply(s: State, step: Step): State
    requires Enabled(s, step)
  {
    match step
    case Settle =>
      s.(waiting := s.waiting[..|s.waiting| - 1],
         log := s.log + [(Next(s), if s.found(Next(s)) == Exists then AlreadyDone else FileNotFound)])
    case Submit(gid) =>
      s.(waiting := s.waiting[..|s.waiting| - 1], live := s.live[gid := Next(s)],
         traced := s.traced + {Next(s)}, submitted := s.submitted + 1)
    case Poll => s.(phase := Polling)
    case Stop(gid, complete, matches) =>
      var item := s.live[gid];
      s.(log := s.log + [(item, StopState(complete, matches))],
         traced := s.traced - {item}, live := s.live - {gid})
    case NextRound =>
      if |s.live| > 0 || |s.waiting| > 0 then s.(phase := Queueing, submitted := 0) else s.(phase := Returned)
  }

  ghost predicate Leads(s: State, run: seq<Step>, t: State)
    decreases |run|
  {
    if run == [] then s == t
    else Enabled(s, run[0]) && Leads(Apply(s, run[0]), run[1..], t)
  }

  // ------------------------------------------------------------------- invariant

  ghost predicate IsWaiting(s: State, i: Item) { exists k :: 0 <= k < |s.waiting| && s.waiting[k] == i }
  ghost predicate IsLive(s: State, i: Item) { exists g :: g in s.live && s.live[g] == i }
  ghost predicate IsFinal(s: State, i: Item) { exists k :: 0 <= k < |s.log| && s.log[k].0 == i }

  /** Each item is in one of the three places, and nothing else is. */
  ghost predicate Everywhere(s: State, n: nat) {
    forall i: Item :: i < n <==> IsWaiting(s, i) || IsLive(s, i) || IsFinal(s, i)
  }

  /** No item is in two of them. */
  ghost predicate OnePlaceOnly(s: State) {
    forall i: Item {:trigger IsWaiting(s, i)} {:trigger IsLive(s, i)} {:trigger IsFinal(s, i)} ::
      !(IsWaiting(s, i) && IsLive(s, i)) && !(IsWaiting(s, i) && IsFinal(s, i)) && !(IsLive(s, i) && IsFinal(s, i))
  }

  /** Nor twice in one of them: in particular no final state is ever set twice. */
  ghost predicate NoDuplicates(s: State) {
    && (forall j, k :: 0 <= j < k < |s.waiting| ==> s.waiting[j] != s.waiting[k])
    && (forall g, h :: g in s.live && h in s.live && g != h ==> s.live[g] != s.live[h])
    && (forall j, k :: 0 <= j < k < |s.log| ==> s.log[j].0 != s.log[k].0)
  }

  ghost predicate Partition(s: State, n: nat) { Everywhere(s, n) && OnePlaceOnly(s) && NoDuplicates(s) }

  /** A final state fits what was found: only downloads end as done or failed, and only they were live. */
  ghost predicate Fits(found: Finding, state: ClientState) {
    match found
    case Exists => state == AlreadyDone
    case NoSource => state == FileNotFound
    case Downloadable => state in {Done, FailValidate, Failed}
  }

  ghost predicate AllFit(s: State) {
    && (forall g :: g in s.live ==> s.found(s.live[g]) == Downloadable)
    && (forall k :: 0 <= k < |s.log| ==> Fits(s.found(s.log[k].0), s.log[k].1))
  }

  lemma {:induction false} RunKeepsFit(s: State, run: seq<Step>, t: State)
    requires Leads(s, run, t) && AllFit(s)
    ensures AllFit(t) && t.found == s.found
    decreases |run|
  {
    if run != [] {
      var s1 := Apply(s, run[0]);
      assert AllFit(s1);
      RunKeepsFit(s1, run[1..], t);
    }
  }

  /** Traces hang on live items only, a round never submits more than it may, and the client
      returns only once nothing waits and nothing is live. */
  ghost predicate Tidy(s: State) {
    && (forall i :: i in s.traced <==> IsLive(s, i))
    && s.submitted <= ROUND_LIMIT
    && (s.phase == Returned ==> s.waiting == [] && s.live == map[])
  }

  lemma PopWaiting(s: State, t: State, item: Item)
    requires s.waiting != [] && NoDuplicates(s)
    requires item == s.waiting[|s.waiting| - 1] && t.waiting == s.waiting[..|s.waiting| - 1]
    ensures forall i :: IsWaiting(t, i) <==> IsWaiting(s, i) && i != item
    ensures IsWaiting(s, item)
  {
    forall i
      ensures IsWaiting(t, i) <==> IsWaiting(s, i) && i != item
    {
      if IsWaiting(t, i) {
        var k :| 0 <= k < |t.waiting| && t.waiting[k] == i;
        assert s.waiting[k] == i;
      }
      if IsWaiting(s, i) && i != item {
        var k :| 0 <= k < |s.waiting| && s.waiting[k] == i;
        assert t.waiting[k] == i;
      }
    }
  }

  lemma LogMore(s: State, t: State, item: Item, state: ClientState)
    requires t.log == s.log + [(item, state)]
    ensures forall i :: IsFinal(t, i) <==> IsFinal(s, i) || i == item
  {
    assert t.log[|s.log|].0 == item;
    forall i | IsFinal(s, i)
      ensures IsFinal(t, i)
    {
      var k :| 0 <= k < |s.log| && s.log[k].0 == i;
      assert t.log[k].0 == i;
    }
  }

  lemma LiveMore(s: State, t: State, gid: Gid, item: Item)
    requires gid !in s.live && t.live == s.live[gid := item]
    ensures forall i :: IsLive(t, i) <==> IsLive(s, i) || i == item
  {
    assert gid in t.live && t.live[gid] == item;
    forall i | IsLive(s, i)
      ensures IsLive(t, i)
    {
      var g :| g in s.live && s.live[g] == i;
      assert g in t.live && t.live[g] == i;
    }
  }

  lemma LiveLess(s: State, t: State, gid: Gid)
    requires gid in s.live && t.live == s.live - {gid} && NoDuplicates(s)
    ensures forall i :: IsLive(t, i) <==> IsLive(s, i) && i != s.live[gid]
    ensures IsLive(s, s.live[gid])
  {
    forall i | IsLive(s, i) && i != s.live[gid]
      ensures IsLive(t, i)
    {
      var g :| g in s.live && s.live[g] == i;
      assert g in t.live && t.live[g] == i;
    }
  }

  lemma SettleKeeps(s: State, step: Step, n: nat)
    requires step.Settle? && Enabled(s, step) && Partition(s, n) && Tidy(s)
    ensures Partition(Apply(s, step), n) && Tidy(Apply(s, step))
  {
    var t, item := Apply(s, step), s.waiting[|s.waiting| - 1];
    PopWaiting(s, t, item);
    LogMore(s, t, item, t.log[|s.log|].1);
    assert forall i :: IsLive(t, i) <==> IsLive(s, i);
    assert !IsFinal(s, item);
  }

  lemma SubmitKeeps(s: State, step: Step, n: nat)
    requires step.Submit? && Enabled(s, step) && Partition(s, n) && Tidy(s)
    ensures Partition(Apply(s, step), n) && Tidy(Apply(s, step))
  {
    var t, item := Apply(s, step), s.waiting[|s.waiting| - 1];
    PopWaiting(s, t, item);
    LiveMore(s, t, step.gid, item);
    assert forall i :: IsFinal(t, i) <==> IsFinal(s, i);
    assert !IsLive(s, item);
  }

  lemma StopKeeps(s: State, step: Step, n: nat)
    requires step.Stop? && Enabled(s, step) && Partition(s, n) && Tidy(s)
    ensures Partition(Apply(s, step), n) && Tidy(Apply(s, step))
  {
    var t, item := Apply(s, step), s.live[step.gid];
    LiveLess(s, t, step.gid);
    LogMore(s, t, item, t.log[|s.log|].1);
    assert forall i :: IsWaiting(t, i) <==> IsWaiting(s, i);
    assert !IsFinal(s, item);
  }

  lemma RoundKeeps(s: State, step: Step, n: nat)
    requires (step.Poll? || step.NextRound?) && Enabled(s, step) && Partition(s, n) && Tidy(s)
    ensures Partition(Apply(s, step), n) && Tidy(Apply(s, step))
  {
    var t := Apply(s, step);
    assert forall i :: IsWaiting(t, i) <==> IsWaiting(s, i);
    assert forall i :: IsLive(t, i) <==> IsLive(s, i);
    assert forall i :: IsFinal(t, i) <==> IsFinal(s, i);
  }

  /** In every run, waiting, live and final items partition the input. */
  lemma {:induction false} RunKeepsPartition(s: State, run: seq<Step>, t: State, n: nat)
    requires Leads(s, run, t) && Partition(s, n) && Tidy(s)
    ensures Partition(t, n) && Tidy(t)
    decreases |run|
  {
    if run != [] {
      match run[0] {
        case Settle => SettleKeeps(s, run[0], n);
        case Submit(_) => SubmitKeeps(s, run[0], n);
        case Stop(_, _, _) => StopKeeps(s, run[0], n);
        case _ => RoundKeeps(s, run[0], n);
      }
      RunKeepsPartition(Apply(s, run[0]), run[1..], t, n);
    }
  }

  lemma InitPartition(n: nat, found: Item -> Finding)
    ensures Partition(Init(n, found), n) && Tidy(Init(n, found))
  {
    var s := Init(n, found);
    forall i: Item | i < n
      ensures IsWaiting(s, i)
    {
      assert s.waiting[i] == i;
    }
  }

  /** When the loop returns every item has been given exactly one final state, one that fits what was found
      for it, and no trace is left. */
  lemma ReturnedMeansAllFinal(n: nat, found: Item -> Finding, run: seq<Step>, t: State)
    requires Leads(Init(n, found), run, t) && t.phase == Returned
    ensures forall i: Item :: i < n <==> IsFinal(t, i)
    ensures forall j, k :: 0 <= j < k < |t.log| ==> t.log[j].0 != t.log[k].0
    ensures forall k :: 0 <= k < |t.log| ==> Fits(found(t.log[k].0), t.log[k].1)
    ensures t.traced == {}
  {
    InitPartition(n, found);
    RunKeepsPartition(Init(n, found), run, t, n);
    RunKeepsFit(Init(n, found), run, t);
    forall i: Item
      ensures i < n <==> IsFinal(t, i)
    {
      assert !IsWaiting(t, i) && !IsLive(t, i);
    }
  }

  /** Final states are only ever added: once set, an item's state stays. */
  lemma {:induction false} FinalStaysFinal(s: State, run: seq<Step>, t: State)
    requires Leads(s, run, t)
    ensures s.log <= t.log
    decreases |run|
  {
    if run != [] {
      FinalStaysFinal(Apply(s, run[0]), run[1..], t);
    }
  }

  // --------------------------------------------------------- which state is final

  /** At some point of the run aria2c reports as stopped, like this, a download of the item. */
  ghost predicate StoppedAs(s: State, run: seq<Step>, i: Item, complete: bool, matches: bool) {
    exists k: nat, u: State :: StopAt(s, run, k, u, i, complete, matches)
  }

  /** The first `k` steps lead to `u`, and the next one is the report. */
  ghost predicate StopAt(s: State, run: seq<Step>, k: nat, u: State, i: Item, complete: bool, matches: bool) {
    && k < |run| && Leads(s, run[..k], u)
    && run[k].Stop? && run[k].complete == complete && run[k].matches == matches
    && run[k].gid in u.live && u.live[run[k].gid] == i
  }

  /** From the entry `from` of the log on, the item gets this state. */
  ghost predicate FinalSince(t: State, from: nat, i: Item, state: ClientState) {
    exists k :: from <= k < |t.log| && t.log[k] == (i, state)
  }

  lemma StopAtFirst(s: State, run: seq<Step>, i: Item, complete: bool, matches: bool)
    requires run != [] && Enabled(s, run[0])
    ensures StoppedAs(s, run, i, complete, matches) <==>
            || (run[0].Stop? && run[0].complete == complete && run[0].matches == matches && s.live[run[0].gid] == i)
            || StoppedAs(Apply(s, run[0]), run[1..], i, complete, matches)
  {
    if k: nat, u: State :| StopAt(s, run, k, u, i, complete, matches) {
      if k > 0 {
        assert run[..k][0] == run[0] && run[..k][1..] == run[1..][..k - 1];
        assert StopAt(Apply(s, run[0]), run[1..], k - 1, u, i, complete, matches);
      }
    }
    if run[0].Stop? && run[0].complete == complete && run[0].matches == matches && s.live[run[0].gid] == i {
      assert StopAt(s, run, 0, s, i, complete, matches);
    }
    if k: nat, u: State :| StopAt(Apply(s, run[0]), run[1..], k, u, i, complete, matches) {
      assert run[..k + 1][0] == run[0] && run[..k + 1][1..] == run[1..][..k];
      assert StopAt(s, run, k + 1, u, i, complete, matches);
    }
  }

  /** The log after a step: what it adds, and then what the rest of the run adds. */
  lemma FinalAtFirst(s: State, s1: State, t: State, i: Item, state: ClientState)
    requires s.log <= s1.log <= t.log && |s1.log| <= |s.log| + 1
    ensures FinalSince(t, |s.log|, i, state) <==>
            (|s1.log| > |s.log| && s1.log[|s.log|] == (i, state)) || FinalSince(t, |s1.log|, i, state)
  {
    if |s1.log| > |s.log| && s1.log[|s.log|] == (i, state) {
      assert t.log[|s.log|] == (i, state);
    }
  }

  lemma {:induction false} StatesSince(s: State, run: seq<Step>, t: State, i: Item)
    requires Leads(s, run, t)
    ensures FinalSince(t, |s.log|, i, Done) <==> StoppedAs(s, run, i, true, true)
    ensures FinalSince(t, |s.log|, i, FailValidate) <==> StoppedAs(s, run, i, true, false)
    ensures FinalSince(t, |s.log|, i, Failed) <==> StoppedAs(s, run, i, false, true) || StoppedAs(s, run, i, false, false)
    decreases |run|
  {
    if run != [] {
      var s1 := Apply(s, run[0]);
      FinalStaysFinal(s1, run[1..], t);
      StatesSince(s1, run[1..], t, i);
      forall complete, matches { StopAtFirst(s, run, i, complete, matches); }
      FinalAtFirst(s, s1, t, i, Done);
      FinalAtFirst(s, s1, t, i, FailValidate);
      FinalAtFirst(s, s1, t, i, Failed);
    }
  }

  /** The state reported for a download is the one its outcome asks for: done exactly if aria2c reported it as complete
      and the checksum was right, invalid exactly if the checksum was wrong, failed exactly if it was not complete. */
  lemma StatesAreTrue(n: nat, found: Item -> Finding, run: seq<Step>, t: State, i: Item)
    requires Leads(Init(n, found), run, t)
    ensures (i, Done) in t.log <==> StoppedAs(Init(n, found), run, i, true, true)
    ensures (i, FailValidate) in t.log <==> StoppedAs(Init(n, found), run, i, true, false)
    ensures (i, Failed) in t.log <==> StoppedAs(Init(n, found), run, i, false, true) || StoppedAs(Init(n, found), run, i, false, false)
  {
    StatesSince(Init(n, found), run, t, i);
    assert forall state :: (i, state) in t.log <==> FinalSince(t, 0, i, state);
  }

  /** The items are taken from the end of the list. */
  lemma {:induction false} TakenFromTheEnd(s: State, run: seq<Step>, t: State)
    requires Leads(s, run, t)
    ensures t.waiting <= s.waiting
    decreases |run|
  {
    if run != [] {
      TakenFromTheEnd(Apply(s, run[0]), run[1..], t);
    }
  }

  /** The number of items submitted in a stretch of a run. */
  ghost function Submissions(run: seq<Step>): nat {
    if run == [] then 0 else (if run[0].Submit? then 1 else 0) + Submissions(run[1..])
  }

  lemma {:induction false} SubmissionsAddUp(s: State, run: seq<Step>, t: State)
    requires Leads(s, run, t) && s.submitted <= 100
    requires forall i :: 0 <= i < |run| ==> !run[i].NextRound?
    ensures s.submitted + Submissions(run) == t.submitted <= 100
    decreases |run|
  {
    if run != [] {
      assert forall i :: 0 <= i < |run[1..]| ==> run[1..][i] == run[i + 1];
      SubmissionsAddUp(Apply(s, run[0]), run[1..], t);
    }
  }

  /** At most 100 items are submitted per round, and the client polls as soon as it has submitted 100 or nothing waits. */
  lemma RoundIsBounded(s: State, run: seq<Step>, t: State)
    requires Leads(s, run, t) && s.submitted == 0
    requires forall i :: 0 <= i < |run| ==> !run[i].NextRound?
    ensures Submissions(run) <= 100
    ensures Enabled(t, Poll) <==> t.phase == Queueing && (Submissions(run) == 100 || t.waiting == [])
  {
    SubmissionsAddUp(s, run, t);
  }

  lemma {:induction false} LongGid(gids: set<Gid>) returns (gid: Gid)
    ensures forall g :: g in gids ==> |g| < |gid|
  {
    gid := "0";
    if gids != {} {
      var g :| g in gids;
      gid := LongGid(gids - {g});
      if |g| >= |gid| {
        gid := g + "0";
      }
      assert forall h :: h in gids ==> h == g || h in gids - {g};
    }
  }

  /** The loop is never stuck: until it returns it has a step to take that does not depend on a download having
      stopped. If the next item is to be downloaded, that step is to submit it. */
  lemma AlwaysAStep(s: State)
    requires s.phase != Returned
    ensures exists step :: Enabled(s, step) && !step.Stop?
    ensures MayQueue(s) ==> forall step :: Enabled(s, step) && !step.Stop? ==> (step.Submit? <==> s.found(Next(s)) == Downloadable)
  {
    var gid := LongGid(s.live.Keys);
    assert gid !in s.live;
    var step := if s.phase == Polling then NextRound
                else if !MayQueue(s) then Poll
                else if s.found(Next(s)) == Downloadable then Submit(gid) else Settle;
    assert Enabled(s, step) && !step.Stop?;
  }
}
