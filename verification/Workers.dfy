/** The worker protocol of `_download_multithreaded`. */
module Workers {
  // Workers take items from one queue and put results into another, in any interleaving, until the
  // input queue is empty. A run is any sequence of enabled steps; whatever one download does is one
  // nondeterministic result.

  import opened Wrappers
  import opened ClientStates

  /** Identity of an item in the input list. */
  type Item = nat

  datatype Worker = Idle | Holding(item: Item) | Stopped

  datatype State = State(queue: seq<Item>, workers: seq<Worker>, output: seq<(Item, ClientState)>, lost: multiset<Item>)

  /** `Finish` covers both a result of `_download_item` and the state set when it raises;
      `Interrupt` is a keyboard interrupt reaching the worker during a download. */
  datatype Step = Take(w: nat) | Finish(w: nat, result: ClientState) | Exit(w: nat) | Interrupt(w: nat)

  const THREAD_LIMIT := 5

  /** How many workers run: the least of the files, the number asked for and the limit, or else the calling
      thread alone. */
  function WorkersWanted(files: nat, requested: int): (n: nat)
    ensures files < 2 || requested < 2 ==> n == 1
    ensures files >= 2 && requested >= 2 ==>
              && 2 <= n <= files && n <= requested && n <= 5
              && (n == files || n == requested || n == 5)
  {
    var atLeastOne := if requested > 1 then requested else 1;
    var n := if files < atLeastOne then files else atLeastOne;
    var m := if n < THREAD_LIMIT then n else THREAD_LIMIT;
    if m < 2 then 1 else m
  }

  function Init(items: seq<Item>, n: nat): State {
    State(items, seq(n, _ => Idle), [], multiset{})
  }

  predicate Enabled(s: State, step: Step) {
    && step.w < |s.workers|
    && match step
       case Take(w) => s.workers[w].Idle? && s.queue != []
       case Exit(w) => s.workers[w].Idle? && s.queue == []
       case Finish(w, _) => s.workers[w].Holding?
       case Interrupt(w) => s.workers[w].Holding?
  }

  function Apply(s: State, step: Step): State
    requires Enabled(s, step)
  {
    match step
    case Take(w) => s.(queue := s.queue[1..], workers := s.workers[w := Holding(s.queue[0])])
    case Exit(w) => s.(workers := s.workers[w := Stopped])
    case Finish(w, result) =>
      s.(output := s.output + [(s.workers[w].item, result)], workers := s.workers[w := Idle])
    case Interrupt(w) =>
      s.(lost := s.lost + multiset{s.workers[w].item}, workers := s.workers[w := Stopped])
  }

  /** `run` leads from `s` to `t`. */
  ghost predicate Leads(s: State, run: seq<Step>, t: State)
    decreases |run|
  {
    if run == [] then s == t
    else Enabled(s, run[0]) && Leads(Apply(s, run[0]), run[1..], t)
  }

  ghost predicate NoInterrupt(run: seq<Step>) { forall i :: 0 <= i < |run| ==> !run[i].Interrupt? }

  // --------------------------------------------------------------- conservation

  ghost function HeldBy(w: Worker): multiset<Item> {
    if w.Holding? then multiset{w.item} else multiset{}
  }

  ghost function Held(ws: seq<Worker>): multiset<Item> {
    if ws == [] then multiset{} else Held(ws[..|ws| - 1]) + HeldBy(ws[|ws| - 1])
  }

  lemma {:induction false} HeldUpdate(ws: seq<Worker>, k: nat, w: Worker, x: Item)
    requires k < |ws|
    ensures Held(ws[k := w])[x] + HeldBy(ws[k])[x] == Held(ws)[x] + HeldBy(w)[x]
  {
    var last, ws1 := |ws| - 1, ws[k := w];
    assert Held(ws) == Held(ws[..last]) + HeldBy(ws[last]);
    assert Held(ws1) == Held(ws1[..last]) + HeldBy(ws1[last]);
    if k == last {
      assert ws1[..last] == ws[..last];
    } else {
      HeldUpdate(ws[..last], k, w, x);
      assert ws1[..last] == ws[..last][k := w];
    }
  }

  function Items(output: seq<(Item, ClientState)>): (items: seq<Item>)
    ensures |items| == |output|
    ensures forall i :: 0 <= i < |output| ==> items[i] == output[i].0
  {
    if output == [] then [] else Items(output[..|output| - 1]) + [output[|output| - 1].0]
  }

  /** Everything there is: queued, in a worker's hands, in the output, or lost to an interrupt. */
  ghost function Total(s: State): multiset<Item> {
    multiset(s.queue) + Held(s.workers) + multiset(Items(s.output)) + s.lost
  }

  lemma HeadCount(q: seq<Item>, x: Item)
    requires q != []
    ensures multiset(q)[x] == multiset(q[1..])[x] + multiset{q[0]}[x]
  {
    assert q == [q[0]] + q[1..];
  }

  lemma OutputCount(output: seq<(Item, ClientState)>, r: (Item, ClientState), x: Item)
    ensures multiset(Items(output + [r]))[x] == multiset(Items(output))[x] + multiset{r.0}[x]
  {
    assert (output + [r])[..|output|] == output;
  }

  ghost function Count(s: State, x: Item): nat {
    multiset(s.queue)[x] + Held(s.workers)[x] + multiset(Items(s.output))[x] + s.lost[x]
  }

  lemma StepConserves(s: State, step: Step, x: Item)
    requires Enabled(s, step)
    ensures Count(Apply(s, step), x) == Count(s, x)
  {
    var t := Apply(s, step);
    HeldUpdate(s.workers, step.w, t.workers[step.w], x);
    assert Held(t.workers)[x] + HeldBy(s.workers[step.w])[x] == Held(s.workers)[x] + HeldBy(t.workers[step.w])[x];
    match step
    case Take(w) => HeadCount(s.queue, x);
    case Finish(w, result) => OutputCount(s.output, (s.workers[w].item, result), x);
    case Exit(w) =>
    case Interrupt(w) =>
  }

  lemma {:induction false} RunKeepsCount(s: State, run: seq<Step>, t: State, x: Item)
    requires Leads(s, run, t)
    ensures Count(t, x) == Count(s, x)
    decreases |run|
  {
    if run != [] {
      StepConserves(s, run[0], x);
      RunKeepsCount(Apply(s, run[0]), run[1..], t, x);
    }
  }

  /** In every interleaving, nothing is lost or duplicated. */
  lemma RunConserves(s: State, run: seq<Step>, t: State)
    requires Leads(s, run, t)
    ensures Total(t) == Total(s)
  {
    forall x
      ensures Total(t)[x] == Total(s)[x]
    {
      RunKeepsCount(s, run, t, x);
    }
  }

  lemma {:induction false} NothingLost(s: State, run: seq<Step>, t: State)
    requires Leads(s, run, t) && NoInterrupt(run)
    ensures t.lost == s.lost && |t.workers| == |s.workers|
    decreases |run|
  {
    if run != [] {
      assert !run[0].Interrupt?;
      NothingLost(Apply(s, run[0]), run[1..], t);
    }
  }

  lemma {:induction false} NoneHeld(ws: seq<Worker>)
    requires forall i :: 0 <= i < |ws| ==> !ws[i].Holding?
    ensures Held(ws) == multiset{}
  {
    if ws != [] {
      NoneHeld(ws[..|ws| - 1]);
    }
  }

  lemma InitTotal(items: seq<Item>, n: nat)
    ensures Total(Init(items, n)) == multiset(items)
  {
    NoneHeld(Init(items, n).workers);
  }

  // ------------------------------------------------------------ which state is reported

  /** At some point of the run a worker that holds the item finishes it with this result. */
  ghost predicate FinishedAs(s: State, run: seq<Step>, x: Item, result: ClientState) {
    exists k: nat, u: State :: FinishAt(s, run, k, u, x, result)
  }

  /** The first `k` steps lead to `u`, and the next one finishes the item. */
  ghost predicate FinishAt(s: State, run: seq<Step>, k: nat, u: State, x: Item, result: ClientState) {
    && k < |run| && Leads(s, run[..k], u)
    && run[k].Finish? && run[k].result == result
    && run[k].w < |u.workers| && u.workers[run[k].w] == Holding(x)
  }

  /** From the entry `from` of the output on, the item is reported like this. */
  ghost predicate ReportedSince(t: State, from: nat, x: Item, result: ClientState) {
    exists k :: from <= k < |t.output| && t.output[k] == (x, result)
  }

  lemma FinishAtFirst(s: State, run: seq<Step>, x: Item, result: ClientState)
    requires run != [] && Enabled(s, run[0])
    ensures FinishedAs(s, run, x, result) <==>
            || (run[0].Finish? && run[0].result == result && s.workers[run[0].w] == Holding(x))
            || FinishedAs(Apply(s, run[0]), run[1..], x, result)
  {
    if k: nat, u: State :| FinishAt(s, run, k, u, x, result) {
      if k > 0 {
        assert run[..k][0] == run[0] && run[..k][1..] == run[1..][..k - 1];
        assert FinishAt(Apply(s, run[0]), run[1..], k - 1, u, x, result);
      }
    }
    if run[0].Finish? && run[0].result == result && s.workers[run[0].w] == Holding(x) {
      assert FinishAt(s, run, 0, s, x, result);
    }
    if k: nat, u: State :| FinishAt(Apply(s, run[0]), run[1..], k, u, x, result) {
      assert run[..k + 1][0] == run[0] && run[..k + 1][1..] == run[1..][..k];
      assert FinishAt(s, run, k + 1, u, x, result);
    }
  }

  lemma {:induction false} OutputGrows(s: State, run: seq<Step>, t: State)
    requires Leads(s, run, t)
    ensures s.output <= t.output
    decreases |run|
  {
    if run != [] {
      OutputGrows(Apply(s, run[0]), run[1..], t);
    }
  }

  lemma {:induction false} ReportsSince(s: State, run: seq<Step>, t: State, x: Item, result: ClientState)
    requires Leads(s, run, t)
    ensures ReportedSince(t, |s.output|, x, result) <==> FinishedAs(s, run, x, result)
    decreases |run|
  {
    if run != [] {
      var s1 := Apply(s, run[0]);
      OutputGrows(s1, run[1..], t);
      ReportsSince(s1, run[1..], t, x, result);
      FinishAtFirst(s, run, x, result);
      if |s1.output| > |s.output| {
        assert t.output[|s.output|] == s1.output[|s.output|];
      }
    }
  }

  /** An item is reported with a state exactly if some worker's download of it ended with that state. */
  lemma ReportsAreTrue(items: seq<Item>, n: nat, run: seq<Step>, t: State, x: Item, result: ClientState)
    requires Leads(Init(items, n), run, t)
    ensures (x, result) in t.output <==> FinishedAs(Init(items, n), run, x, result)
  {
    ReportsSince(Init(items, n), run, t, x, result);
  }

  // ------------------------------------------------------- termination, progress

  function Weight(w: Worker): nat {
    match w
    case Idle => 1
    case Holding(_) => 2
    case Stopped => 0
  }

  function Weights(ws: seq<Worker>): nat {
    if ws == [] then 0 else Weights(ws[..|ws| - 1]) + Weight(ws[|ws| - 1])
  }

  lemma {:induction false} WeightsUpdate(ws: seq<Worker>, k: nat, w: Worker)
    requires k < |ws|
    ensures Weights(ws[k := w]) + Weight(ws[k]) == Weights(ws) + Weight(w)
  {
    var last := |ws| - 1;
    if k == last {
      assert ws[k := w][..last] == ws[..last];
    } else {
      WeightsUpdate(ws[..last], k, w);
      assert ws[k := w][..last] == ws[..last][k := w];
    }
  }

  function Remaining(s: State): nat { 3 * |s.queue| + Weights(s.workers) }

  /** Every run is finite: it is no longer than three steps per item and one per worker. */
  lemma {:induction false} RunIsBounded(s: State, run: seq<Step>, t: State)
    requires Leads(s, run, t)
    ensures |run| <= Remaining(s) - Remaining(t)
    decreases |run|
  {
    if run != [] {
      WeightsUpdate(s.workers, run[0].w, Apply(s, run[0]).workers[run[0].w]);
      RunIsBounded(Apply(s, run[0]), run[1..], t);
    }
  }

  lemma {:induction false} IdleWeights(ws: seq<Worker>)
    requires forall i :: 0 <= i < |ws| ==> ws[i].Idle?
    ensures Weights(ws) == |ws|
  {
    if ws != [] {
      IdleWeights(ws[..|ws| - 1]);
    }
  }

  /** From the start, no run is longer than three steps per item and one per worker; a run this long, or one
      that cannot be continued, has all workers stopped. */
  lemma DownloadTerminates(items: seq<Item>, n: nat, run: seq<Step>, t: State)
    requires Leads(Init(items, n), run, t)
    ensures |run| <= 3 * |items| + n
    ensures |run| == 3 * |items| + n || (forall step: Step :: step.Interrupt? || !Enabled(t, step)) ==> AllStopped(t)
  {
    RunIsBounded(Init(items, n), run, t);
    IdleWeights(Init(items, n).workers);
    if |run| == 3 * |items| + n {
      NoWeight(t.workers);
    }
    if forall step: Step :: step.Interrupt? || !Enabled(t, step) {
      forall w: nat | w < |t.workers|
        ensures t.workers[w].Stopped?
      {
        if !t.workers[w].Stopped? {
          Progress(t, w);
        }
      }
    }
  }

  lemma {:induction false} NoWeight(ws: seq<Worker>)
    requires Weights(ws) == 0
    ensures forall i :: 0 <= i < |ws| ==> ws[i].Stopped?
  {
    if ws != [] {
      NoWeight(ws[..|ws| - 1]);
    }
  }

  predicate AllStopped(s: State) { forall i :: 0 <= i < |s.workers| ==> s.workers[i].Stopped? }

  /** No deadlock: as long as a worker is not stopped it has a step that is not an interrupt. */
  lemma Progress(s: State, w: nat)
    requires w < |s.workers| && !s.workers[w].Stopped?
    ensures exists step :: Enabled(s, step) && step.w == w && !step.Interrupt?
  {
    var step := if s.workers[w].Holding? then Finish(w, Failed) else if s.queue == [] then Exit(w) else Take(w);
    assert Enabled(s, step) && step.w == w && !step.Interrupt?;
  }

  /** Without interrupts a worker only stops once the input queue is empty. */
  ghost predicate StoppedMeansEmpty(s: State) {
    (exists i :: 0 <= i < |s.workers| && s.workers[i].Stopped?) ==> s.queue == []
  }

  lemma {:induction false} StoppedOnlyWhenEmpty(s: State, run: seq<Step>, t: State)
    requires Leads(s, run, t) && NoInterrupt(run) && StoppedMeansEmpty(s)
    ensures StoppedMeansEmpty(t)
    decreases |run|
  {
    if run != [] {
      var s1 := Apply(s, run[0]);
      assert !run[0].Interrupt?;
      if i :| 0 <= i < |s1.workers| && s1.workers[i].Stopped? {
        assert i != run[0].w ==> s.workers[i].Stopped?;
      }
      assert StoppedMeansEmpty(s1);
      StoppedOnlyWhenEmpty(s1, run[1..], t);
    }
  }

  /** When at least one worker runs and none is interrupted, all workers stopping means output = input. */
  lemma AllStoppedMeansAllDone(items: seq<Item>, n: nat, run: seq<Step>, t: State)
    requires n >= 1 && Leads(Init(items, n), run, t) && NoInterrupt(run) && AllStopped(t)
    ensures multiset(Items(t.output)) == multiset(items)
    ensures |t.output| == |items|
  {
    InitTotal(items, n);
    RunConserves(Init(items, n), run, t);
    NothingLost(Init(items, n), run, t);
    StoppedOnlyWhenEmpty(Init(items, n), run, t);
    assert t.workers[0].Stopped?;
    NoneHeld(t.workers);
    assert |multiset(items)| == |items| && |multiset(Items(t.output))| == |Items(t.output)|;
  }

  // --------------------------------------------------------------------- result

  datatype Error = CountMismatch | NoFilesDownloaded | NotAllFilesDownloaded

  ghost predicate AllSucceeded(output: seq<(Item, ClientState)>) {
    forall i :: 0 <= i < |output| ==> Succeeded(output[i].1)
  }

  ghost predicate NoneSucceeded(output: seq<(Item, ClientState)>) {
    forall i :: 0 <= i < |output| ==> !Succeeded(output[i].1)
  }

  /** `_check_output`. An empty output counts as nothing downloaded. */
  method CheckOutput(output: seq<(Item, ClientState)>, quiet: bool) returns (r: Result<seq<(Item, ClientState)>, Error>)
    ensures r.Ok? <==> quiet || (output != [] && AllSucceeded(output))
    ensures r.Ok? && !quiet ==> forall i :: 0 <= i < |output| ==> output[i].1 !in {FileNotFound, FailValidate, Failed}
    ensures r.Err? && output != [] ==> exists i :: 0 <= i < |output| && output[i].1 in {FileNotFound, FailValidate, Failed}
    ensures r.Ok? ==> r.value == output
    ensures r.Err? ==> r.error == if NoneSucceeded(output) then NoFilesDownloaded else NotAllFilesDownloaded
  {
    var successful, failed := 0, 0;
    for i := 0 to |output|
      invariant successful >= 0 && failed >= 0 && successful + failed == i
      invariant successful == 0 <==> forall k :: 0 <= k < i ==> !Succeeded(output[k].1)
      invariant failed == 0 <==> forall k :: 0 <= k < i ==> Succeeded(output[k].1)
    {
      if Succeeded(output[i].1) {
        successful := successful + 1;
      } else {
        failed := failed + 1;
      }
    }
    if !quiet && successful == 0 {
      return Err(NoFilesDownloaded);
    } else if !quiet && failed > 0 {
      return Err(NotAllFilesDownloaded);
    }
    r := Ok(output);
  }

  /** The end of `download_dids`: compare the counts, then check the states. */
  method Conclude(items: seq<Item>, output: seq<(Item, ClientState)>, quiet: bool)
    returns (r: Result<seq<(Item, ClientState)>, Error>)
    ensures r.Ok? <==> quiet || (|output| == |items| != 0 && AllSucceeded(output))
    ensures r.Ok? ==> r.value == output
    ensures r == Err(CountMismatch) <==> !quiet && |output| != |items|
  {
    if !quiet && |items| != |output| {
      return Err(CountMismatch);
    }
    r := CheckOutput(output, quiet);
  }

  /** The output says that the item succeeded. */
  ghost predicate Reported(output: seq<(Item, ClientState)>, x: Item) {
    exists k :: 0 <= k < |output| && output[k].0 == x && Succeeded(output[k].1)
  }

  lemma {:induction false} ItemInOutput(output: seq<(Item, ClientState)>, x: Item)
    requires x in multiset(Items(output))
    ensures exists k :: 0 <= k < |output| && output[k].0 == x
  {
    var k :| 0 <= k < |output| && Items(output)[k] == x;
    assert output[k].0 == x;
  }

  /** A normal return with exceptions active, which `Conclude` only makes on the two conditions required
      here, means that every item was reported once and succeeded. This holds in every interleaving and
      even if workers are interrupted, threads never start, or the output is read while workers still run. */
  lemma NormalReturnMeansAllSucceeded(items: seq<Item>, n: nat, run: seq<Step>, t: State)
    requires Leads(Init(items, n), run, t)
    requires |t.output| == |items| && AllSucceeded(t.output)
    ensures multiset(Items(t.output)) == multiset(items)
    ensures forall x :: x in items ==> Reported(t.output, x)
    ensures t.queue == [] && t.lost == multiset{} && Held(t.workers) == multiset{}
  {
    InitTotal(items, n);
    RunConserves(Init(items, n), run, t);
    assert |multiset(items)| == |items| && |multiset(Items(t.output))| == |Items(t.output)|;
    var rest := multiset(t.queue) + Held(t.workers) + t.lost;
    assert multiset(items) == rest + multiset(Items(t.output));
    assert |rest| == 0;
    assert |t.queue| == |multiset(t.queue)| == 0;
    AllReported(items, t.output);
  }

  lemma AllReported(items: seq<Item>, output: seq<(Item, ClientState)>)
    requires multiset(Items(output)) == multiset(items) && AllSucceeded(output)
    ensures forall x :: x in items ==> Reported(output, x)
  {
    forall x | x in items
      ensures Reported(output, x)
    {
      assert x in multiset(items);
      ItemInOutput(output, x);
    }
  }

  /** Whenever an item was lost or is still on its way the counts differ, so the mismatch is reported. */
  lemma LostMeansMismatch(items: seq<Item>, n: nat, run: seq<Step>, t: State)
    requires Leads(Init(items, n), run, t)
    requires t.lost != multiset{} || t.queue != []
    ensures |t.output| < |items|
  {
    InitTotal(items, n);
    RunConserves(Init(items, n), run, t);
    assert |multiset(items)| == |items| && |multiset(Items(t.output))| == |Items(t.output)|;
    assert |Total(t)| == |multiset(t.queue)| + |Held(t.workers)| + |Items(t.output)| + |t.lost|;
    assert |t.queue| == |multiset(t.queue)|;
  }
}
