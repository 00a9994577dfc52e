/**
  The load-on-mount hook's run ids: every run takes a fresh one, a cleanup and every later run supersede it,
  and a superseded run's result is dropped. The counter refines the plain reading that only the latest started
  and uncancelled run may write.
 */
module AsyncLoad {
  import opened Common

  /** The identity of one dependency list. */
  type Generation = nat

  /** How a run's load ended. `HandlerThrew` is a failed load whose error callback threw in turn. */
  datatype Outcome = Loaded(value: string) | Thrown(error: string) | HandlerThrew

  /** What the component reads, and what a run may write. */
  datatype Shown = Shown(data: Option<string>, error: Option<string>, settledGeneration: Option<Generation>)

  /** `settles` is the generation the run marks; `settled` once its load has ended. */
  datatype Run = Run(id: nat, settles: Generation, settled: bool)

  datatype Hook = Hook(runId: nat, runs: seq<Run>, shown: Shown, generation: Generation, enabled: bool, writers: seq<nat>)

  datatype Event =
    | Render(generation: Generation, enabled: bool)
    | StartRun(settles: Generation)
    | Cancel(run: nat)
    | Settle(run: nat, outcome: Outcome)

  const MOUNTED := Hook(0, [], Shown(None, None, None), 0, true, [])

  predicate IsCancelled(h: Hook, r: nat)
    requires r < |h.runs|
  {
    h.runId != h.runs[r].id
  }

  predicate Loading(h: Hook) {
    h.enabled && h.shown.settledGeneration != Some(h.generation)
  }

  /** What one settled run makes of the component. */
  function Written(shown: Shown, outcome: Outcome, settles: Generation): Shown {
    match outcome
    case Loaded(value) => Shown(Some(value), None, Some(settles))
    case Thrown(error) => Shown(shown.data, Some(error), Some(settles))
    case HandlerThrew => shown.(settledGeneration := Some(settles))
  }

  function Step(h: Hook, e: Event): Hook {
    match e
    case Render(generation, enabled) => h.(generation := generation, enabled := enabled)
    case StartRun(settles) => h.(runId := h.runId + 1, runs := h.runs + [Run(h.runId + 1, settles, false)])
    case Cancel(r) => if r < |h.runs| && !IsCancelled(h, r) then h.(runId := h.runId + 1) else h
    case Settle(r, outcome) =>
      if r < |h.runs| && !h.runs[r].settled then
        var ended := h.(runs := h.runs[r := h.runs[r].(settled := true)]);
        if IsCancelled(h, r) then ended
        else ended.(shown := Written(h.shown, outcome, h.runs[r].settles), writers := h.writers + [h.runs[r].id])
      else h
  }

  function After(h: Hook, events: seq<Event>): Hook {
    if events == [] then h else Step(After(h, events[..|events| - 1]), events[|events| - 1])
  }

  /** The reading the counter stands for: at most one run is live, by its place among those started. */
  datatype Latest = Latest(live: Option<nat>, starts: seq<Generation>, ended: set<nat>, shown: Shown)

  function LatestStep(l: Latest, e: Event): Latest {
    match e
    case Render(_, _) => l
    case StartRun(settles) => l.(live := Some(|l.starts|), starts := l.starts + [settles])
    case Cancel(r) => if l.live == Some(r) then l.(live := None) else l
    case Settle(r, outcome) =>
      if r < |l.starts| && r !in l.ended then
        l.(ended := l.ended + {r},
           shown := if l.live == Some(r) then Written(l.shown, outcome, l.starts[r]) else l.shown)
      else l
  }

  function LatestAfter(events: seq<Event>): Latest {
    if events == [] then Latest(None, [], {}, MOUNTED.shown)
    else LatestStep(LatestAfter(events[..|events| - 1]), events[|events| - 1])
  }

  ghost predicate IdsInv(runs: seq<Run>, runId: nat) {
    && (forall r :: 0 <= r < |runs| ==> runs[r].id <= runId)
    && (forall q, r :: 0 <= q < r < |runs| ==> runs[q].id < runs[r].id)
  }

  /** `id` is that of a run whose load has ended. */
  ghost predicate Ended(runs: seq<Run>, id: nat) {
    exists r :: 0 <= r < |runs| && runs[r].id == id && runs[r].settled
  }

  ghost predicate WritersInv(writers: seq<nat>, runs: seq<Run>) {
    && (forall w :: 0 <= w < |writers| ==> Ended(runs, writers[w]))
    && (forall v, w :: 0 <= v < w < |writers| ==> writers[v] < writers[w])
  }

  ghost predicate Inv(h: Hook) {
    IdsInv(h.runs, h.runId) && WritersInv(h.writers, h.runs)
  }

  /** The counter and the plain reading agree: on what is shown, and on which run is live. */
  ghost predicate Agrees(h: Hook, l: Latest) {
    && h.shown == l.shown && |h.runs| == |l.starts| && (l.live.Some? ==> l.live.value < |l.starts|)
    && (forall r :: r in l.ended ==> r < |l.starts|)
    && (forall r :: 0 <= r < |h.runs| ==> RunAgrees(h, l, r))
  }

  ghost predicate RunAgrees(h: Hook, l: Latest, r: nat)
    requires r < |h.runs| && r < |l.starts|
  {
    && h.runs[r].settles == l.starts[r] && (h.runs[r].settled <==> r in l.ended)
    && (!IsCancelled(h, r) <==> l.live == Some(r))
  }

  lemma EndedStays(runs: seq<Run>, more: seq<Run>, id: nat)
    requires Ended(runs, id) && |runs| <= |more|
    requires forall r :: 0 <= r < |runs| ==> more[r].id == runs[r].id && (runs[r].settled ==> more[r].settled)
    ensures Ended(more, id)
  {
    var r :| 0 <= r < |runs| && runs[r].id == id && runs[r].settled;
    assert more[r].id == id && more[r].settled;
  }

  lemma WritersStay(writers: seq<nat>, runs: seq<Run>, more: seq<Run>)
    requires WritersInv(writers, runs) && |runs| <= |more|
    requires forall r :: 0 <= r < |runs| ==> more[r].id == runs[r].id && (runs[r].settled ==> more[r].settled)
    ensures WritersInv(writers, more)
  {
    forall w | 0 <= w < |writers| ensures Ended(more, writers[w]) { EndedStays(runs, more, writers[w]); }
  }

  /** The live run's id is above every id that has written. */
  lemma LiveIsAbove(h: Hook, r: nat, id: nat)
    requires IdsInv(h.runs, h.runId) && r < |h.runs| && !h.runs[r].settled && !IsCancelled(h, r) && Ended(h.runs, id)
    ensures id < h.runs[r].id
  {
    var q :| 0 <= q < |h.runs| && h.runs[q].id == id && h.runs[q].settled;
  }

  lemma SettleKeepsInv(h: Hook, r: nat, outcome: Outcome)
    requires Inv(h) && r < |h.runs| && !h.runs[r].settled
    ensures Inv(Step(h, Settle(r, outcome)))
  {
    var runs := h.runs[r := h.runs[r].(settled := true)];
    WritersStay(h.writers, h.runs, runs);
    if !IsCancelled(h, r) {
      forall w | 0 <= w < |h.writers| ensures h.writers[w] < h.runs[r].id { LiveIsAbove(h, r, h.writers[w]); }
      assert runs[r].settled && Ended(runs, h.runs[r].id);
    }
  }

  lemma StepKeepsInv(h: Hook, e: Event)
    requires Inv(h)
    ensures Inv(Step(h, e))
  {
    match e
    case Render(_, _) =>
    case StartRun(settles) => WritersStay(h.writers, h.runs, h.runs + [Run(h.runId + 1, settles, false)]);
    case Cancel(_) =>
    case Settle(r, outcome) => if r < |h.runs| && !h.runs[r].settled { SettleKeepsInv(h, r, outcome); }
  }

  lemma StepAgrees(h: Hook, l: Latest, e: Event)
    requires Inv(h) && Agrees(h, l)
    ensures Agrees(Step(h, e), LatestStep(l, e))
  {
    var t, m := Step(h, e), LatestStep(l, e);
    if e.Cancel? || e.Settle? {
      if e.run < |h.runs| { assert RunAgrees(h, l, e.run); }
    }
    forall r | 0 <= r < |t.runs| ensures RunAgrees(t, m, r) {
      if r < |h.runs| {
        assert RunAgrees(h, l, r);
        if e.Cancel? && e.run < |h.runs| && e.run != r { assert h.runs[e.run].id != h.runs[r].id; }
      }
    }
  }

  /** Latest wins, for any interleaving of starts, cancels, reloads and settlements. */
  lemma {:induction false} LatestWins(events: seq<Event>)
    ensures Inv(After(MOUNTED, events)) && Agrees(After(MOUNTED, events), LatestAfter(events))
  {
    if events != [] {
      var before := events[..|events| - 1];
      LatestWins(before);
      StepKeepsInv(After(MOUNTED, before), events[|events| - 1]);
      StepAgrees(After(MOUNTED, before), LatestAfter(before), events[|events| - 1]);
    }
  }

  /** The ids of the runs that write only go up. */
  lemma WritersGoUp(events: seq<Event>, v: nat, w: nat)
    requires v < w < |After(MOUNTED, events).writers|
    ensures After(MOUNTED, events).writers[v] < After(MOUNTED, events).writers[w]
  {
    LatestWins(events);
  }

  /** A run that is superseded, and what it has written so far. */
  ghost predicate Superseded(h: Hook, r: nat, id: nat) {
    Inv(h) && r < |h.runs| && h.runs[r].id == id && id < h.runId
  }

  lemma StepKeepsSuperseded(h: Hook, e: Event, r: nat, id: nat)
    requires Superseded(h, r, id)
    ensures var t := Step(h, e);
            Superseded(t, r, id) && (t.writers == h.writers || (|t.writers| == |h.writers| + 1
                                                               && t.writers == h.writers + [t.writers[|h.writers|]]
                                                               && t.writers[|h.writers|] != id))
  {
    StepKeepsInv(h, e);
  }

  /** A run once superseded stays so, and nothing it does later is written. */
  lemma {:induction false} SupersededNeverWrites(h: Hook, events: seq<Event>, r: nat)
    requires Inv(h) && r < |h.runs| && IsCancelled(h, r)
    ensures var t := After(h, events);
            && Superseded(t, r, h.runs[r].id) && h.writers <= t.writers
            && forall w :: |h.writers| <= w < |t.writers| ==> t.writers[w] != h.runs[r].id
  {
    if events != [] {
      SupersededNeverWrites(h, events[..|events| - 1], r);
      StepKeepsSuperseded(After(h, events[..|events| - 1]), events[|events| - 1], r, h.runs[r].id);
    }
  }

  /** What may go on between a run's start and its end without touching it or the page's generation. */
  predicate Undisturbed(between: seq<Event>, r: nat, generation: Generation) {
    forall e :: e in between ==>
      !e.StartRun? && (e.Cancel? ==> e.run != r) && (e.Settle? ==> e.run != r) && (e.Render? ==> e.generation == generation)
  }

  /** The last started run, still live. */
  ghost predicate LiveLast(h: Hook, r: nat, run: Run, generation: Generation) {
    Inv(h) && r == |h.runs| - 1 && h.runs[r] == run && !IsCancelled(h, r) && h.generation == generation
  }

  lemma StepKeepsLive(h: Hook, e: Event, r: nat, run: Run, generation: Generation)
    requires LiveLast(h, r, run, generation) && Undisturbed([e], r, generation)
    ensures LiveLast(Step(h, e), r, run, generation)
  {
    assert e in [e];
    StepKeepsInv(h, e);
    if e.Cancel? && e.run < |h.runs| { assert h.runs[e.run].id < h.runs[r].id; }
  }

  lemma {:induction false} StaysLive(h: Hook, between: seq<Event>, r: nat, run: Run, generation: Generation)
    requires LiveLast(h, r, run, generation) && Undisturbed(between, r, generation)
    ensures LiveLast(After(h, between), r, run, generation)
  {
    if between != [] {
      var rest, e := between[..|between| - 1], between[|between| - 1];
      assert e in between && forall d :: d in rest ==> d in between;
      StaysLive(h, rest, r, run, generation);
      StepKeepsLive(After(h, rest), e, r, run, generation);
    }
  }

  /** `loading` is on from the mount, and with every change of generation until a run of it has settled. */
  lemma LoadingFlipsOn(h: Hook, generation: Generation, enabled: bool)
    ensures Loading(MOUNTED)
    ensures Loading(Step(h, Render(generation, enabled))) <==> enabled && h.shown.settledGeneration != Some(generation)
    ensures Step(h, Render(generation, enabled)).shown == h.shown
  {
  }

  /**
    Once the last started run settles, `loading` is off exactly when that run carried the page's generation:
    every effect's run does, and so does a reload that is not stale.
   */
  lemma LastRunEndsLoading(events: seq<Event>, settles: Generation, between: seq<Event>, outcome: Outcome)
    requires Undisturbed(between, |After(MOUNTED, events).runs|, After(MOUNTED, events).generation)
    ensures var started := Step(After(MOUNTED, events), StartRun(settles));
            var ended := Step(After(started, between), Settle(|started.runs| - 1, outcome));
            Loading(ended) <==> ended.enabled && settles != ended.generation
    ensures var started := Step(After(MOUNTED, events), StartRun(settles));
            var before := After(started, between).shown;
            var shown := Step(After(started, between), Settle(|started.runs| - 1, outcome)).shown;
            match outcome
            case Loaded(value) => shown.data == Some(value) && shown.error.None?
            case Thrown(error) => shown.data == before.data && shown.error == Some(error)
            case HandlerThrew => shown.data == before.data && shown.error == before.error
  {
    LatestWins(events);
    var started := Step(After(MOUNTED, events), StartRun(settles));
    StepKeepsInv(After(MOUNTED, events), StartRun(settles));
    var r := |started.runs| - 1;
    StaysLive(started, between, r, started.runs[r], started.generation);
  }

  /**
    A reload captured under an old generation supersedes the run of the new one and settles the old: with every
    run ended, `loading` stays on.
   */
  lemma StaleReloadLeavesLoading(h: Hook, old1: Generation, new1: Generation, first: Outcome, second: Outcome)
    requires Inv(h) && old1 != new1 && !Loading(h) && h.enabled && h.generation == old1
    requires forall r :: 0 <= r < |h.runs| ==> h.runs[r].settled
    ensures var n := |h.runs|;
            var t := Step(Step(Step(Step(Step(h, Render(new1, true)), StartRun(new1)), StartRun(old1)),
                               Settle(n, first)), Settle(n + 1, second));
            Loading(t) && forall r :: 0 <= r < |t.runs| ==> t.runs[r].settled
  {
    var n := |h.runs|;
    var both := Step(Step(Step(h, Render(new1, true)), StartRun(new1)), StartRun(old1));
    assert both.runs[n] == Run(h.runId + 1, new1, false) && both.runs[n + 1] == Run(h.runId + 2, old1, false);
  }

  /** The hook's own state, each method one uninterrupted stretch of it. */
  class AsyncLoader {
    var runIdRef: nat
    var runs: seq<Run>
    var data: Option<string>
    var error: Option<string>
    var settledGeneration: Option<Generation>
    var generation: Generation
    var enabled: bool
    var writers: seq<nat>

    function View(): Hook
      reads this
    {
      Hook(runIdRef, runs, Shown(data, error, settledGeneration), generation, enabled, writers)
    }

    constructor ()
      ensures View() == MOUNTED
    {
      runIdRef, runs, data, error, settledGeneration := 0, [], None, None, None;
      generation, enabled, writers := 0, true, [];
    }

    /** `startRun` up to its await: an effect's run, or a reload's. */
    method Start(settles: Generation) returns (run: nat)
      modifies this`runIdRef, this`runs
      ensures View() == Step(old(View()), StartRun(settles)) && run == |old(runs)|
      ensures runIdRef == old(runIdRef) + 1 && runs == old(runs) + [Run(runIdRef, settles, false)]
    {
      runIdRef := runIdRef + 1;
      run := |runs|;
      runs := runs + [Run(runIdRef, settles, false)];
    }

    /** A run's own `cancel`, as its effect's cleanup calls it. */
    method CancelRun(run: nat)
      requires run < |runs|
      modifies this`runIdRef
      ensures View() == Step(old(View()), Cancel(run))
      ensures runIdRef == old(runIdRef) + if old(runIdRef) == runs[run].id then 1 else 0
    {
      if runIdRef == runs[run].id { runIdRef := runIdRef + 1; }
    }

    /** The rest of a run, once its load has ended: the writes, and the mark that it settled. */
    method Finish(run: nat, outcome: Outcome)
      requires run < |runs| && !runs[run].settled
      modifies this`runs, this`data, this`error, this`settledGeneration, this`writers
      ensures View() == Step(old(View()), Settle(run, outcome))
      ensures runIdRef != old(runs)[run].id ==>
        data == old(data) && error == old(error) && settledGeneration == old(settledGeneration)
      ensures runIdRef == old(runs)[run].id ==>
        && settledGeneration == Some(old(runs)[run].settles)
        && (outcome.Loaded? ==> data == Some(outcome.value) && error.None?)
        && (outcome.Thrown? ==> data == old(data) && error == Some(outcome.error))
        && (outcome.HandlerThrew? ==> data == old(data) && error == old(error))
    {
      var cancelled := runIdRef != runs[run].id;
      if !cancelled {
        match outcome
        case Loaded(value) => data, error := Some(value), None;
        case Thrown(thrown) => error := Some(thrown);
        case HandlerThrew =>
      }
      if !cancelled {
        settledGeneration := Some(runs[run].settles);
        writers := writers + [runs[run].id];
      }
      runs := runs[run := runs[run].(settled := true)];
    }
  }
}
