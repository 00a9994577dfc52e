/**
  The issuer-registry client's two expiring caches: lookups memoized by DID, and below them the registry
  bodies cached by URL. A slot holds a promise and is filled before the work it awaits, so the model splits
  every function at its awaits: one event per stretch that runs without interruption.
 */
module RegistryCache {
  import opened Common

  type Did = string
  type Url = string

  const LOOKUP_CACHE_TTL_MS := 5 * 60 * 1000

  /** `reaped` once a failed load's rejection callback has run. */
  datatype LoadStatus = Loading | LoadOk | LoadFailed(reaped: bool)

  /** The registries list one lookup runs on. */
  datatype ListState = Awaiting(load: nat) | Fetched(load: nat) | Fallback

  datatype ReadStatus = Reading | ReadOk | ReadFailed

  /** A body read, by position in the state's `fetches`; `reaped` once its rejection callback has run. */
  datatype Read = Read(url: Url, began: int, status: ReadStatus, reaped: bool)

  datatype Hop = Hop(read: nat, joined: bool)

  datatype RunStatus = Running | Answered(unchecked: bool, memoizable: bool) | Threw

  predicate Kept(status: RunStatus) {
    status.Answered? && status.memoizable
  }

  /** One uncached lookup. `evidence` holds the instant each read that it answers from began. */
  datatype Run = Run(did: Did, began: int, epoch: nat, list: ListState, hops: set<Hop>, evidence: set<int>,
                     status: RunStatus, reaped: bool)

  /** A promise, by number, and the instant it stops being fresh. */
  datatype Slot = Slot(id: nat, expires: int)

  /** A lookup's caller, and the run whose promise it was handed. */
  datatype Call = Call(at: int, run: nat, epoch: nat)

  datatype State = State(
    now: int,
    epoch: nat,                    // clears so far
    loads: seq<LoadStatus>,
    load: Option<nat>,             // registriesLoadPromise
    cached: Option<nat>,           // cachedRegistries
    bodies: map<Url, Slot>,
    lookups: map<Did, Slot>,
    fetches: seq<Read>,
    runs: seq<Run>,
    calls: seq<Call>)

  datatype Event =
    | Tick(ms: nat)
    | Lookup(did: Did)
    | LoadSettles(load: nat, ok: bool)
    | LoadEvicts(load: nat)
    | TakesList(run: nat)
    | DidHop(run: nat)
    | BodyHop(run: nat, url: Url)
    | ReadSettles(read: nat, ok: bool)
    | ReadReaped(read: nat)
    | HopResumes(run: nat, hop: Hop)
    | RunEnds(run: nat, threw: bool, unchecked: bool)
    | RunReaped(run: nat)
    | Clear

  predicate Fresh<K(==)>(cache: map<K, Slot>, key: K, now: int) {
    key in cache && cache[key].expires > now
  }

  /** Deletes a slot, unless a retry has re-filled it. */
  function Evict<K(==,!new)>(cache: map<K, Slot>, key: K, id: nat): (left: map<K, Slot>)
    ensures forall k :: k in left <==> k in cache && !(k == key && cache[k].id == id)
    ensures forall k :: k in left ==> left[k] == cache[k]
  {
    if key in cache && cache[key].id == id then cache - {key} else cache
  }

  function WithRun(s: State, r: nat, run: Run): State
    requires r < |s.runs|
  {
    s.(runs := s.runs[r := run])
  }

  /** A lookup's call: a memo hit, or a run of its own whose slot is filled at once. */
  function LookupStep(s: State, did: Did): State {
    if did == "" then s
    else if Fresh(s.lookups, did, s.now) then s.(calls := s.calls + [Call(s.now, s.lookups[did].id, s.epoch)])
    else
      var begins := s.cached.None? && s.load.None?;
      var list := if s.cached.Some? then Fetched(s.cached.value)
                  else Awaiting(if begins then |s.loads| else s.load.value);
      s.(loads := if begins then s.loads + [Loading] else s.loads,
         load := if begins then Some(|s.loads|) else s.load,
         runs := s.runs + [Run(did, s.now, s.epoch, list, {}, {}, Running, false)],
         lookups := s.lookups[did := Slot(|s.runs|, s.now + LOOKUP_CACHE_TTL_MS)],
         calls := s.calls + [Call(s.now, |s.runs|, s.epoch)])
  }

  function TakesListStep(s: State, r: nat): State
    requires r < |s.runs|
  {
    var run := s.runs[r];
    if !run.list.Awaiting? || run.list.load >= |s.loads| then s else
      match s.loads[run.list.load]
      case Loading => s
      case LoadOk => WithRun(s, r, run.(list := Fetched(run.list.load))).(cached := Some(run.list.load))
      case LoadFailed(_) => WithRun(s, r, run.(list := Fallback))
  }

  /** Whether a run is between its list and its end, where it makes its requests. */
  predicate Asking(s: State, r: nat) {
    r < |s.runs| && s.runs[r].status.Running? && !s.runs[r].list.Awaiting?
  }

  /** A read of the run's own: its slot is filled before the fetch is awaited. */
  function OwnRead(s: State, r: nat, url: Url): State
    requires r < |s.runs|
  {
    WithRun(s, r, s.runs[r].(hops := s.runs[r].hops + {Hop(|s.fetches|, false)}))
      .(fetches := s.fetches + [Read(url, s.now, Reading, false)],
        bodies := s.bodies[url := Slot(|s.fetches|, s.now + LOOKUP_CACHE_TTL_MS)])
  }

  function BodyHopStep(s: State, r: nat, url: Url): State
    requires r < |s.runs|
  {
    if Fresh(s.bodies, url, s.now) then
      WithRun(s, r, s.runs[r].(hops := s.runs[r].hops + {Hop(s.bodies[url].id, true)}))
    else OwnRead(s, r, url)
  }

  /** The read a hop waits for has settled: used, retried when it was only joined, or given up. */
  function HopResumesStep(s: State, r: nat, hop: Hop): State
    requires r < |s.runs| && hop.read < |s.fetches|
  {
    var run := s.runs[r];
    var left := WithRun(s, r, run.(hops := run.hops - {hop}));
    match s.fetches[hop.read].status
    case Reading => s
    case ReadOk => WithRun(s, r, run.(hops := run.hops - {hop}, evidence := run.evidence + {s.fetches[hop.read].began}))
    case ReadFailed => if hop.joined then OwnRead(left, r, s.fetches[hop.read].url) else left
  }

  function RunEndsStep(s: State, r: nat, threw: bool, unchecked: bool): State
    requires r < |s.runs|
  {
    var run := s.runs[r];
    if threw then WithRun(s, r, run.(status := Threw))
    else if run.hops == {} then
      WithRun(s, r, run.(status := Answered(unchecked, run.list.Fetched? && s.cached == Some(run.list.load) && !unchecked)))
    else s
  }

  function RunReapedStep(s: State, r: nat): State
    requires r < |s.runs|
  {
    var run := s.runs[r];
    if run.status.Running? then s else
      WithRun(s, r, run.(reaped := true))
        .(lookups := if Kept(run.status) then s.lookups else Evict(s.lookups, run.did, r))
  }

  function ReadReapedStep(s: State, k: nat): State
    requires k < |s.fetches|
  {
    var read := s.fetches[k];
    if read.status.Reading? then s else
      s.(fetches := s.fetches[k := read.(reaped := true)],
         bodies := if read.status.ReadOk? then s.bodies else Evict(s.bodies, read.url, k))
  }

  /** One event; an event that cannot happen yet changes nothing. */
  function Step(s: State, e: Event): State {
    match e
    case Tick(ms) => s.(now := s.now + ms)
    case Lookup(did) => LookupStep(s, did)
    case LoadSettles(l, ok) =>
      if l < |s.loads| && s.loads[l].Loading? then s.(loads := s.loads[l := if ok then LoadOk else LoadFailed(false)]) else s
    case LoadEvicts(l) =>
      if l < |s.loads| && s.loads[l].LoadFailed? then
        s.(loads := s.loads[l := LoadFailed(true)], load := if s.load == Some(l) then None else s.load)
      else s
    case TakesList(r) => if r < |s.runs| then TakesListStep(s, r) else s
    case DidHop(r) => if Asking(s, r) then WithRun(s, r, s.runs[r].(evidence := s.runs[r].evidence + {s.now})) else s
    case BodyHop(r, url) => if Asking(s, r) then BodyHopStep(s, r, url) else s
    case ReadSettles(k, ok) =>
      if k < |s.fetches| && s.fetches[k].status.Reading? then
        s.(fetches := s.fetches[k := s.fetches[k].(status := if ok then ReadOk else ReadFailed)])
      else s
    case ReadReaped(k) => if k < |s.fetches| then ReadReapedStep(s, k) else s
    case HopResumes(r, hop) =>
      if Asking(s, r) && hop in s.runs[r].hops && hop.read < |s.fetches| then HopResumesStep(s, r, hop) else s
    case RunEnds(r, threw, unchecked) => if Asking(s, r) then RunEndsStep(s, r, threw, unchecked) else s
    case RunReaped(r) => if r < |s.runs| then RunReapedStep(s, r) else s
    case Clear => s.(bodies := map[], lookups := map[], epoch := s.epoch + 1)
  }

  function Start(now: int): State {
    State(now, 0, [], None, None, map[], map[], [], [], [])
  }

  function After(now: int, events: seq<Event>): State {
    if events == [] then Start(now) else Step(After(now, events[..|events| - 1]), events[|events| - 1])
  }

  /** Only the load in the slot can be anything but failed, so at most one ever succeeds. */
  ghost predicate LoadsInv(loads: seq<LoadStatus>, load: Option<nat>, cached: Option<nat>) {
    && (forall l :: 0 <= l < |loads| ==> loads[l].LoadFailed? || load == Some(l))
    && (load.Some? ==> load.value < |loads| && loads[load.value] != LoadFailed(true))
    && (cached.Some? ==> cached.value < |loads| && loads[cached.value].LoadOk?)
  }

  ghost predicate RunInv(run: Run, s: State) {
    && run.began <= s.now && run.epoch <= s.epoch
    && (forall b :: b in run.evidence ==> run.began - LOOKUP_CACHE_TTL_MS < b <= s.now)
    && (forall hop :: hop in run.hops ==>
          hop.read < |s.fetches| && run.began - LOOKUP_CACHE_TTL_MS < s.fetches[hop.read].began)
    && (run.list.Awaiting? ==> run.list.load < |s.loads|)
    && (run.list.Fetched? ==> s.cached == Some(run.list.load))
    && (Kept(run.status) ==> run.list.Fetched? && !run.status.unchecked)
    && (run.reaped ==> !run.status.Running?)
  }

  ghost predicate RunsInv(s: State) {
    forall r :: 0 <= r < |s.runs| ==> RunInv(s.runs[r], s)
  }

  ghost predicate FetchesInv(fetches: seq<Read>, now: int) {
    forall k :: 0 <= k < |fetches| ==> fetches[k].began <= now && (fetches[k].reaped ==> !fetches[k].status.Reading?)
  }

  ghost predicate BodiesInv(bodies: map<Url, Slot>, fetches: seq<Read>) {
    forall url :: url in bodies ==>
      && bodies[url].id < |fetches| && fetches[bodies[url].id].url == url
      && bodies[url].expires == fetches[bodies[url].id].began + LOOKUP_CACHE_TTL_MS
      && (fetches[bodies[url].id].reaped ==> fetches[bodies[url].id].status.ReadOk?)
  }

  ghost predicate LookupsInv(lookups: map<Did, Slot>, runs: seq<Run>, epoch: nat) {
    forall did :: did in lookups ==>
      && lookups[did].id < |runs| && runs[lookups[did].id].did == did
      && lookups[did].expires == runs[lookups[did].id].began + LOOKUP_CACHE_TTL_MS
      && runs[lookups[did].id].epoch == epoch
      && (runs[lookups[did].id].reaped ==> Kept(runs[lookups[did].id].status))
  }

  ghost predicate CallInv(call: Call, runs: seq<Run>) {
    && call.run < |runs| && runs[call.run].epoch == call.epoch
    && runs[call.run].began <= call.at < runs[call.run].began + LOOKUP_CACHE_TTL_MS
  }

  ghost predicate CallsInv(calls: seq<Call>, runs: seq<Run>) {
    forall c :: 0 <= c < |calls| ==> CallInv(calls[c], runs)
  }

  ghost predicate Inv(s: State) {
    && LoadsInv(s.loads, s.load, s.cached) && RunsInv(s) && FetchesInv(s.fetches, s.now)
    && BodiesInv(s.bodies, s.fetches) && LookupsInv(s.lookups, s.runs, s.epoch) && CallsInv(s.calls, s.runs)
  }

  /** Every promise of `s` is still there in `t`, by the same number. */
  ghost predicate Extends(s: State, t: State) {
    && s.now <= t.now && s.epoch <= t.epoch && |s.loads| <= |t.loads| && (s.cached.Some? ==> t.cached == s.cached)
    && |s.fetches| <= |t.fetches| && (forall k :: 0 <= k < |s.fetches| ==> t.fetches[k].began == s.fetches[k].began)
  }

  lemma RunsKept(s: State, t: State, changed: nat)
    requires RunsInv(s) && Extends(s, t)
    requires |t.runs| == |s.runs| || (|t.runs| == |s.runs| + 1 && changed == |s.runs|)
    requires forall r :: 0 <= r < |s.runs| && r != changed ==> t.runs[r] == s.runs[r]
    requires changed < |t.runs| ==> RunInv(t.runs[changed], t)
    ensures RunsInv(t)
  {
    forall r | 0 <= r < |t.runs| && r != changed ensures RunInv(t.runs[r], t) {
      assert t.runs[r] == s.runs[r] && RunInv(s.runs[r], s);
    }
  }

  /** What a changed run must keep for its slot and its callers. */
  ghost predicate SameRun(before: Run, after: Run) {
    && after.did == before.did && after.began == before.began && after.epoch == before.epoch
    && after.reaped == before.reaped && (before.reaped ==> after.status == before.status)
  }

  lemma RunChanged(s: State, r: nat, run: Run)
    requires r < |s.runs| && SameRun(s.runs[r], run)
    ensures LookupsInv(s.lookups, s.runs, s.epoch) ==> LookupsInv(s.lookups, s.runs[r := run], s.epoch)
    ensures CallsInv(s.calls, s.runs) ==> CallsInv(s.calls, s.runs[r := run])
  {
    var runs := s.runs[r := run];
    assert forall m :: 0 <= m < |runs| ==> SameRun(s.runs[m], runs[m]);
    forall c | CallsInv(s.calls, s.runs) && 0 <= c < |s.calls| ensures CallInv(s.calls[c], runs) {
      assert CallInv(s.calls[c], s.runs);
    }
  }

  lemma RunAdded(s: State, run: Run)
    ensures LookupsInv(s.lookups, s.runs, s.epoch) ==> LookupsInv(s.lookups, s.runs + [run], s.epoch)
    ensures CallsInv(s.calls, s.runs) ==> CallsInv(s.calls, s.runs + [run])
  {
    forall c | CallsInv(s.calls, s.runs) && 0 <= c < |s.calls| ensures CallInv(s.calls[c], s.runs + [run]) {
      assert CallInv(s.calls[c], s.runs);
    }
  }

  lemma LookupKeepsInv(s: State, did: Did)
    requires Inv(s)
    ensures Inv(LookupStep(s, did))
  {
    var t := LookupStep(s, did);
    if did != "" && !Fresh(s.lookups, did, s.now) {
      RunAdded(s, t.runs[|s.runs|]);
      RunsKept(s, t, |s.runs|);
    } else {
      RunsKept(s, t, |s.runs|);
    }
  }

  lemma TakesListKeepsInv(s: State, r: nat)
    requires Inv(s) && r < |s.runs|
    ensures Inv(TakesListStep(s, r))
  {
    var run := s.runs[r];
    assert RunInv(run, s);
    if run.list.Awaiting? {
      match s.loads[run.list.load]
      case Loading =>
      case LoadFailed(_) => RunReplaced(s, r, run.(list := Fallback));
      case LoadOk =>
        // Two loads never both succeed, so a list already cached is this one.
        var cached := s.(cached := Some(run.list.load));
        assert s.cached.Some? ==> s.cached == cached.cached;
        RunsKept(s, cached, |s.runs|);
        RunReplaced(cached, r, run.(list := Fetched(run.list.load)));
    }
  }

  lemma OwnReadKeepsInv(s: State, r: nat, url: Url)
    requires Inv(s) && r < |s.runs|
    ensures Inv(OwnRead(s, r, url))
  {
    var t := OwnRead(s, r, url);
    assert RunInv(s.runs[r], s);
    RunChanged(s, r, t.runs[r]);
    RunsKept(s, t, r);
  }

  lemma HopKeepsInv(s: State, r: nat, url: Url)
    requires Inv(s) && r < |s.runs|
    ensures Inv(BodyHopStep(s, r, url))
  {
    if Fresh(s.bodies, url, s.now) {
      RunReplaced(s, r, s.runs[r].(hops := s.runs[r].hops + {Hop(s.bodies[url].id, true)}));
    } else {
      OwnReadKeepsInv(s, r, url);
    }
  }

  /** A run of which only the evidence, the hops or the outcome moved. */
  lemma RunReplaced(s: State, r: nat, run: Run)
    requires Inv(s) && r < |s.runs| && SameRun(s.runs[r], run)
    requires RunInv(s.runs[r], s) ==> RunInv(run, s)
    ensures Inv(WithRun(s, r, run))
  {
    assert RunInv(s.runs[r], s);
    RunChanged(s, r, run);
    RunsKept(s, WithRun(s, r, run), r);
  }

  lemma ResumeKeepsInv(s: State, r: nat, hop: Hop)
    requires Inv(s) && r < |s.runs| && hop.read < |s.fetches| && hop in s.runs[r].hops
    ensures Inv(HopResumesStep(s, r, hop))
  {
    var run := s.runs[r];
    match s.fetches[hop.read].status
    case Reading =>
    case ReadOk =>
      RunReplaced(s, r, run.(hops := run.hops - {hop}, evidence := run.evidence + {s.fetches[hop.read].began}));
    case ReadFailed =>
      RunReplaced(s, r, run.(hops := run.hops - {hop}));
      OwnReadKeepsInv(WithRun(s, r, run.(hops := run.hops - {hop})), r, s.fetches[hop.read].url);
  }

  lemma RunReapedKeepsInv(s: State, r: nat)
    requires Inv(s) && r < |s.runs|
    ensures Inv(RunReapedStep(s, r))
  {
    var t := RunReapedStep(s, r);
    assert RunInv(s.runs[r], s);
    RunsKept(s, t, r);
    forall c | 0 <= c < |s.calls| ensures CallInv(t.calls[c], t.runs) {
      assert CallInv(s.calls[c], s.runs);
    }
  }

  lemma FetchChanged(s: State, k: nat, read: Read, bodies: map<Url, Slot>)
    requires Inv(s) && k < |s.fetches| && read.began == s.fetches[k].began && read.url == s.fetches[k].url
    requires read.reaped ==> !read.status.Reading?
    requires forall url :: url in bodies ==> url in s.bodies && bodies[url] == s.bodies[url]
    requires read.reaped && !read.status.ReadOk? ==> forall url :: url in bodies ==> bodies[url].id != k
    ensures Inv(s.(fetches := s.fetches[k := read], bodies := bodies))
  {
    RunsKept(s, s.(fetches := s.fetches[k := read], bodies := bodies), |s.runs|);
  }

  lemma RunEndsKeepsInv(s: State, r: nat, threw: bool, unchecked: bool)
    requires Inv(s) && Asking(s, r)
    ensures Inv(RunEndsStep(s, r, threw, unchecked))
  {
    assert RunInv(s.runs[r], s);
    RunReplaced(s, r, RunEndsStep(s, r, threw, unchecked).runs[r]);
  }

  lemma PassiveKeepsInv(s: State, e: Event)
    requires Inv(s) && (e.Tick? || e.LoadSettles? || e.LoadEvicts? || e.Clear?)
    ensures Inv(Step(s, e))
  {
    RunsKept(s, Step(s, e), |s.runs|);
  }

  lemma FetchKeepsInv(s: State, e: Event)
    requires Inv(s) && (e.ReadSettles? || e.ReadReaped?)
    ensures Inv(Step(s, e))
  {
    var t := Step(s, e);
    if e.read < |s.fetches| && (e.ReadSettles? <==> s.fetches[e.read].status.Reading?) {
      FetchChanged(s, e.read, t.fetches[e.read], t.bodies);
    }
  }

  lemma StepKeepsInv(s: State, e: Event)
    requires Inv(s)
    ensures Inv(Step(s, e))
  {
    match e
    case Tick(_) => PassiveKeepsInv(s, e);
    case Lookup(did) => LookupKeepsInv(s, did);
    case LoadSettles(_, _) => PassiveKeepsInv(s, e);
    case LoadEvicts(_) => PassiveKeepsInv(s, e);
    case TakesList(r) => if r < |s.runs| { TakesListKeepsInv(s, r); }
    case DidHop(r) => if Asking(s, r) { RunReplaced(s, r, s.runs[r].(evidence := s.runs[r].evidence + {s.now})); }
    case BodyHop(r, url) => if Asking(s, r) { HopKeepsInv(s, r, url); }
    case ReadSettles(_, _) => FetchKeepsInv(s, e);
    case ReadReaped(_) => FetchKeepsInv(s, e);
    case HopResumes(r, hop) =>
      if Asking(s, r) && hop in s.runs[r].hops && hop.read < |s.fetches| { ResumeKeepsInv(s, r, hop); }
    case RunEnds(r, threw, unchecked) => if Asking(s, r) { RunEndsKeepsInv(s, r, threw, unchecked); }
    case RunReaped(r) => if r < |s.runs| { RunReapedKeepsInv(s, r); }
    case Clear => PassiveKeepsInv(s, e);
  }

  lemma {:induction false} AlwaysInv(now: int, events: seq<Event>)
    ensures Inv(After(now, events))
  {
    if events != [] {
      AlwaysInv(now, events[..|events| - 1]);
      StepKeepsInv(After(now, events[..|events| - 1]), events[|events| - 1]);
    }
  }

  /** Some schedule of events leads here. */
  ghost predicate Reachable(now: int, s: State) {
    exists events :: After(now, events) == s
  }

  lemma ReachableInv(now: int, s: State)
    requires Reachable(now, s)
    ensures Inv(s)
  {
    var events :| After(now, events) == s;
    AlwaysInv(now, events);
  }

  /**
    The composed staleness bound: whatever a lookup called at `at` is answered from was read no longer than two
    lifetimes before, through memo hits, joined reads and the reads retried after a failed join.
   */
  lemma StalenessBound(now: int, s: State, c: nat)
    requires Reachable(now, s) && c < |s.calls|
    ensures s.calls[c].run < |s.runs|
    ensures forall b :: b in s.runs[s.calls[c].run].evidence ==> s.calls[c].at - 2 * LOOKUP_CACHE_TTL_MS < b
  {
    ReachableInv(now, s);
    assert CallInv(s.calls[c], s.runs) && RunInv(s.runs[s.calls[c].run], s);
  }

  /** No lookup called after a clear is answered from a run begun before it. */
  lemma ClearSeparates(now: int, s: State, c: nat)
    requires Reachable(now, s) && c < |s.calls|
    ensures s.calls[c].run < |s.runs| && s.runs[s.calls[c].run].epoch == s.calls[c].epoch
  {
    ReachableInv(now, s);
    assert CallInv(s.calls[c], s.runs);
  }

  /** A memo that came from the fetched list, with no registry left unchecked. */
  predicate CleanMemo(s: State, run: Run) {
    && Kept(run.status) && !run.status.unchecked
    && run.list.Fetched? && s.cached == Some(run.list.load)
    && run.list.load < |s.loads| && s.loads[run.list.load].LoadOk?
  }

  /**
    Once its own callbacks have run, nothing a slot holds is a failure: a memo is clean, and a body was ok and
    parseable. With nothing in flight that is every slot.
   */
  lemma SlotsAreClean(now: int, s: State)
    requires Reachable(now, s)
    ensures forall did :: did in s.lookups ==>
      s.lookups[did].id < |s.runs| && (s.runs[s.lookups[did].id].reaped ==> CleanMemo(s, s.runs[s.lookups[did].id]))
    ensures forall url :: url in s.bodies ==>
      s.bodies[url].id < |s.fetches| && (s.fetches[s.bodies[url].id].reaped ==> s.fetches[s.bodies[url].id].status.ReadOk?)
  {
    ReachableInv(now, s);
    forall did | did in s.lookups
      ensures s.lookups[did].id < |s.runs|
      ensures s.runs[s.lookups[did].id].reaped ==> CleanMemo(s, s.runs[s.lookups[did].id])
    {
      assert RunInv(s.runs[s.lookups[did].id], s);
    }
  }

  /** A late rejection takes out its own slot and nothing else, however the slot was re-filled since. */
  lemma LateRejectionIsGuarded(s: State, n: nat)
    ensures n < |s.fetches| ==>
      forall url :: url in s.bodies && s.bodies[url].id != n ==>
        url in ReadReapedStep(s, n).bodies && ReadReapedStep(s, n).bodies[url] == s.bodies[url]
    ensures n < |s.runs| ==>
      forall did :: did in s.lookups && s.lookups[did].id != n ==>
        did in RunReapedStep(s, n).lookups && RunReapedStep(s, n).lookups[did] == s.lookups[did]
  {
  }

  /** A failed load, once its callback has run, is not in the slot; so a later lookup awaits one that may yet succeed. */
  lemma FailedLoadIsRetried(now: int, s: State, did: Did)
    requires Reachable(now, s) && s.cached.None? && did != ""
    requires did !in s.lookups || s.lookups[did].expires <= s.now
    ensures forall l :: 0 <= l < |s.loads| && s.loads[l] == LoadFailed(true) ==> s.load != Some(l)
    ensures var t := Step(s, Lookup(did));
            && |t.runs| == |s.runs| + 1 && t.runs[|s.runs|].list.Awaiting?
            && var l := t.runs[|s.runs|].list.load;
            && l < |t.loads| && t.load == Some(l) && t.loads[l] != LoadFailed(true)
            && ((forall m :: 0 <= m < |s.loads| && s.loads[m].LoadFailed? ==> s.loads[m].reaped) ==> !t.loads[l].LoadFailed?)
  {
    ReachableInv(now, s);
  }

  /** A load's late rejection leaves a newer load in its slot, and takes its own out. */
  lemma LateLoadRejectionIsGuarded(s: State, l: nat)
    requires l < |s.loads| && s.loads[l].LoadFailed?
    ensures Step(s, LoadEvicts(l)).loads[l].reaped
    ensures s.load != Some(l) ==> Step(s, LoadEvicts(l)).load == s.load
    ensures s.load == Some(l) ==> Step(s, LoadEvicts(l)).load.None?
  {
  }

  /** A result from the fetched list with nothing unchecked is kept for its lifetime, and no other result is. */
  lemma CleanResultsAreKept(now: int, s: State, r: nat, unchecked: bool)
    requires Reachable(now, s) && r < |s.runs| && s.runs[r].status.Running? && !s.runs[r].list.Awaiting?
    requires s.runs[r].hops == {}
    ensures var t := Step(Step(s, RunEnds(r, false, unchecked)), RunReaped(r));
            if s.runs[r].list.Fetched? && !unchecked then t.lookups == s.lookups
            else forall did :: did in t.lookups <==> did in s.lookups && !(did == s.runs[r].did && s.lookups[did].id == r)
  {
    ReachableInv(now, s);
    assert RunInv(s.runs[r], s);
  }

  /** What the network answers is what the promises settle to. */
  lemma AnswersSettle(s: State, l: nat, k: nat, ok: bool)
    ensures l < |s.loads| && s.loads[l].Loading? ==>
      Step(s, LoadSettles(l, ok)) == s.(loads := s.loads[l := if ok then LoadOk else LoadFailed(false)])
    ensures k < |s.fetches| && s.fetches[k].status.Reading? ==>
      Step(s, ReadSettles(k, ok)) == s.(fetches := s.fetches[k := s.fetches[k].(status := if ok then ReadOk else ReadFailed)])
  {
  }

  lemma ReachableStep(now: int, s: State, e: Event)
    requires Reachable(now, s)
    ensures Reachable(now, Step(s, e))
  {
    var events :| After(now, events) == s;
    assert (events + [e])[..|events|] == events;
    assert After(now, events + [e]) == Step(s, e);
  }

  const ONE_SHORT := LOOKUP_CACHE_TTL_MS - 1

  /** A first lookup reads a body at instant 0. */
  lemma ABodyIsCached() returns (s: State)
    ensures Reachable(0, s) && s.now == s.epoch == 0 && s.cached == Some(0) && "b" !in s.lookups
    ensures s.bodies == map["u" := Slot(0, LOOKUP_CACHE_TTL_MS)] && s.fetches == [Read("u", 0, Reading, false)]
    ensures |s.runs| == |s.calls| == 1
  {
    assert After(0, []) == Start(0);
    s := Step(Start(0), Lookup("a"));
    ReachableStep(0, Start(0), Lookup("a"));
    assert s.loads == [Loading] && s.runs[0].list == Awaiting(0);
    ReachableStep(0, s, LoadSettles(0, true));
    s := Step(s, LoadSettles(0, true));
    ReachableStep(0, s, TakesList(0));
    s := Step(s, TakesList(0));
    assert Asking(s, 0);
    ReachableStep(0, s, BodyHop(0, "u"));
    s := Step(s, BodyHop(0, "u"));
  }

  /** A second lookup begins at the end of that body's lifetime. */
  lemma ASecondLookup() returns (s: State)
    ensures Reachable(0, s) && s.now == ONE_SHORT && |s.calls| == 2 && Asking(s, 1) && |s.runs| == 2
    ensures s.runs[1].hops == {} && s.runs[1].evidence == {}
    ensures "b" in s.lookups && s.lookups["b"] == Slot(1, ONE_SHORT + LOOKUP_CACHE_TTL_MS)
    ensures s.bodies == map["u" := Slot(0, LOOKUP_CACHE_TTL_MS)] && s.fetches == [Read("u", 0, ReadOk, false)]
  {
    s := ABodyIsCached();
    ReachableStep(0, s, ReadSettles(0, true));
    s := Step(s, ReadSettles(0, true));
    ReachableStep(0, s, Tick(ONE_SHORT));
    s := Step(s, Tick(ONE_SHORT));
    ReachableStep(0, s, Lookup("b"));
    s := Step(s, Lookup("b"));
  }

  /** It joins the body. */
  lemma AMemoOutlivesItsBody() returns (s: State)
    ensures Reachable(0, s) && s.now == ONE_SHORT && |s.runs| == |s.calls| == 2 && s.runs[1].evidence == {0}
    ensures "b" in s.lookups && s.lookups["b"] == Slot(1, ONE_SHORT + LOOKUP_CACHE_TTL_MS)
  {
    s := ASecondLookup();
    assert Fresh(s.bodies, "u", s.now);
    ReachableStep(0, s, BodyHop(1, "u"));
    s := Step(s, BodyHop(1, "u"));
    assert s.runs[1].hops == {Hop(0, true)};
    ReachableStep(0, s, HopResumes(1, Hop(0, true)));
    s := Step(s, HopResumes(1, Hop(0, true)));
  }

  /** One lifetime would be too strong a claim: a body at the end of its own feeds a memo at the end of its own. */
  lemma BoundIsTight() returns (s: State, c: nat)
    ensures Reachable(0, s) && c < |s.calls|
    ensures s.calls[c].run < |s.runs| && s.calls[c].at - 2 * LOOKUP_CACHE_TTL_MS + 2 in s.runs[s.calls[c].run].evidence
  {
    s := AMemoOutlivesItsBody();
    ReachableStep(0, s, Tick(ONE_SHORT));
    s := Step(s, Tick(ONE_SHORT));
    ReachableStep(0, s, Lookup("b"));
    s := Step(s, Lookup("b"));
    c := 2;
  }

  /** The module's own variables, with the promises they hold; every method is one uninterrupted stretch. */
  class RegistryManager {
    var now: int
    var clears: nat
    var loads: seq<LoadStatus>
    var registriesLoadPromise: Option<nat>
    var cachedRegistries: Option<nat>
    var cachedBodies: map<Url, Slot>
    var cachedLookups: map<Did, Slot>
    var fetches: seq<Read>
    var runs: seq<Run>
    var calls: seq<Call>

    function View(): State
      reads this
    {
      State(now, clears, loads, registriesLoadPromise, cachedRegistries, cachedBodies, cachedLookups, fetches, runs, calls)
    }

    constructor (now: int)
      ensures View() == Start(now)
    {
      this.now, clears, loads, registriesLoadPromise, cachedRegistries := now, 0, [], None, None;
      cachedBodies, cachedLookups, fetches, runs, calls := map[], map[], [], [], [];
    }

    /** `loadRegistries`: joins the load in flight, or begins one and fills the slot. */
    method LoadRegistries() returns (load: nat)
      modifies this`loads, this`registriesLoadPromise
      ensures registriesLoadPromise == Some(load)
      ensures old(registriesLoadPromise).Some? ==> loads == old(loads) && load == old(registriesLoadPromise).value
      ensures old(registriesLoadPromise).None? ==> loads == old(loads) + [Loading] && load == |old(loads)|
    {
      if registriesLoadPromise.Some? { return registriesLoadPromise.value; }
      load := |loads|;
      loads := loads + [Loading];
      registriesLoadPromise := Some(load);
    }

    /** The rejection callback of a registries load. */
    method LoadRejected(l: nat)
      requires l < |loads| && loads[l].LoadFailed?
      modifies this`loads, this`registriesLoadPromise
      ensures View() == Step(old(View()), LoadEvicts(l))
      ensures loads == old(loads)[l := LoadFailed(true)]
      ensures registriesLoadPromise == if old(registriesLoadPromise) == Some(l) then None else old(registriesLoadPromise)
    {
      if registriesLoadPromise == Some(l) { registriesLoadPromise := None; }
      loads := loads[l := LoadFailed(true)];
    }

    /** `lookupDid`, up to its first await. */
    method LookupDid(did: Did) returns (run: Option<nat>)
      modifies this
      ensures View() == Step(old(View()), Lookup(did))
      ensures run.None? <==> did == ""
      ensures run.Some? ==> calls == old(calls) + [Call(now, run.value, clears)]
      // A fresh slot is handed out again; otherwise a run of its own begins, and its slot is filled at once.
      ensures did != "" && did in old(cachedLookups) && old(cachedLookups)[did].expires > now ==>
        run == Some(old(cachedLookups)[did].id) && runs == old(runs) && cachedLookups == old(cachedLookups)
      ensures did != "" && (did !in old(cachedLookups) || old(cachedLookups)[did].expires <= now) ==>
        && run == Some(|old(runs)|) && |runs| == |old(runs)| + 1 && old(runs) <= runs
        && cachedLookups == old(cachedLookups)[did := Slot(|old(runs)|, now + LOOKUP_CACHE_TTL_MS)]
        && (if cachedRegistries.Some? || old(registriesLoadPromise).Some?
            then loads == old(loads) && registriesLoadPromise == old(registriesLoadPromise)
            else loads == old(loads) + [Loading] && registriesLoadPromise == Some(|old(loads)|))
        && runs[|old(runs)|].did == did && runs[|old(runs)|].began == now && runs[|old(runs)|].status.Running?
        && runs[|old(runs)|].evidence == {} && runs[|old(runs)|].hops == {}
        && (if cachedRegistries.Some? then runs[|old(runs)|].list == ListState.Fetched(cachedRegistries.value)
            else registriesLoadPromise.Some? && runs[|old(runs)|].list == Awaiting(registriesLoadPromise.value))
    {
      if did == "" { return None; }
      if Fresh(cachedLookups, did, now) {
        run := Some(cachedLookups[did].id);
      } else {
        var list: ListState;
        if cachedRegistries.Some? {
          list := ListState.Fetched(cachedRegistries.value);
        } else {
          var load := LoadRegistries();
          list := Awaiting(load);
        }
        run := Some(|runs|);
        runs := runs + [Run(did, now, clears, list, {}, {}, Running, false)];
        cachedLookups := cachedLookups[did := Slot(run.value, now + LOOKUP_CACHE_TTL_MS)];
      }
      calls := calls + [Call(now, run.value, clears)];
    }

    /** `ensureRegistries` after its await; the fallback list is never cached. */
    method EnsureRegistries(r: nat)
      requires r < |runs|
      modifies this`runs, this`cachedRegistries
      ensures View() == Step(old(View()), TakesList(r))
      ensures |runs| == |old(runs)| && forall q :: 0 <= q < |runs| && q != r ==> runs[q] == old(runs)[q]
      ensures old(runs)[r].list.Awaiting? && old(runs)[r].list.load < |loads| ==>
        match loads[old(runs)[r].list.load]
        case Loading => runs == old(runs) && cachedRegistries == old(cachedRegistries)
        case LoadOk =>
          cachedRegistries == Some(old(runs)[r].list.load) && runs[r].list == ListState.Fetched(old(runs)[r].list.load)
        case LoadFailed(_) => cachedRegistries == old(cachedRegistries) && runs[r].list == Fallback
    {
      var list := runs[r].list;
      if list.Awaiting? && list.load < |loads| {
        if loads[list.load].LoadOk? {
          cachedRegistries := Some(list.load);
          runs := runs[r := runs[r].(list := ListState.Fetched(list.load))];
        } else if loads[list.load].LoadFailed? {
          runs := runs[r := runs[r].(list := Fallback)];
        }
      }
    }

    method ReadBody(r: nat, url: Url)
      requires r < |runs|
      modifies this`runs, this`fetches, this`cachedBodies
      ensures View() == OwnRead(old(View()), r, url)
      ensures fetches == old(fetches) + [Read(url, now, Reading, false)]
      ensures cachedBodies == old(cachedBodies)[url := Slot(|old(fetches)|, now + LOOKUP_CACHE_TTL_MS)]
      ensures runs == old(runs)[r := old(runs)[r].(hops := old(runs)[r].hops + {Hop(|old(fetches)|, false)})]
    {
      var k := |fetches|;
      fetches := fetches + [Read(url, now, Reading, false)];
      cachedBodies := cachedBodies[url := Slot(k, now + LOOKUP_CACHE_TTL_MS)];
      runs := runs[r := runs[r].(hops := runs[r].hops + {Hop(k, false)})];
    }

    /** `cachedBodyResponse`, up to its first await. */
    method CachedBodyResponse(r: nat, url: Url)
      requires Asking(View(), r)
      modifies this`runs, this`fetches, this`cachedBodies
      ensures View() == Step(old(View()), BodyHop(r, url))
      ensures url in old(cachedBodies) && old(cachedBodies)[url].expires > now ==>
        && fetches == old(fetches) && cachedBodies == old(cachedBodies)
        && runs[r].hops == old(runs)[r].hops + {Hop(old(cachedBodies)[url].id, true)}
      ensures url !in old(cachedBodies) || old(cachedBodies)[url].expires <= now ==>
        && fetches == old(fetches) + [Read(url, now, Reading, false)]
        && cachedBodies == old(cachedBodies)[url := Slot(|old(fetches)|, now + LOOKUP_CACHE_TTL_MS)]
        && runs[r].hops == old(runs)[r].hops + {Hop(|old(fetches)|, false)}
    {
      if Fresh(cachedBodies, url, now) {
        runs := runs[r := runs[r].(hops := runs[r].hops + {Hop(cachedBodies[url].id, true)})];
      } else {
        ReadBody(r, url);
      }
    }

    /** `cachedBodyResponse` after the read it waits for settled: a failed join fetches for itself. */
    method BodySettled(r: nat, hop: Hop)
      requires Asking(View(), r) && hop in runs[r].hops && hop.read < |fetches| && !fetches[hop.read].status.Reading?
      modifies this`runs, this`fetches, this`cachedBodies
      ensures View() == Step(old(View()), HopResumes(r, hop))
      ensures fetches[hop.read].status.ReadOk? ==>
        runs[r].evidence == old(runs)[r].evidence + {fetches[hop.read].began} && fetches == old(fetches)
      ensures fetches[hop.read].status.ReadFailed? && hop.joined ==>
        fetches == old(fetches) + [Read(old(fetches)[hop.read].url, now, Reading, false)]
        && cachedBodies == old(cachedBodies)[old(fetches)[hop.read].url := Slot(|old(fetches)|, now + LOOKUP_CACHE_TTL_MS)]
      ensures fetches[hop.read].status.ReadFailed? && !hop.joined ==> fetches == old(fetches)
      ensures runs[r].hops == old(runs)[r].hops - {hop} + if |fetches| > |old(fetches)| then {Hop(|old(fetches)|, false)} else {}
    {
      var read := fetches[hop.read];
      runs := runs[r := runs[r].(hops := runs[r].hops - {hop})];
      if read.status.ReadOk? {
        runs := runs[r := runs[r].(evidence := runs[r].evidence + {read.began})];
      } else if hop.joined {
        ReadBody(r, read.url);
      }
    }

    /** A request whose URL names the DID is never cached: it is answered from now. */
    method FetchForDid(r: nat)
      requires Asking(View(), r)
      modifies this`runs
      ensures View() == Step(old(View()), DidHop(r))
      ensures runs == old(runs)[r := old(runs)[r].(evidence := old(runs)[r].evidence + {now})]
    {
      runs := runs[r := runs[r].(evidence := runs[r].evidence + {now})];
    }

    /** The rejection callback a slot was filled with. */
    method ReadRejected(k: nat)
      requires k < |fetches| && !fetches[k].status.Reading?
      modifies this`fetches, this`cachedBodies
      ensures View() == Step(old(View()), ReadReaped(k))
      ensures fetches[k].reaped
      ensures forall url :: url in cachedBodies ==> url in old(cachedBodies) && cachedBodies[url] == old(cachedBodies)[url]
      ensures forall url :: url in cachedBodies <==>
        url in old(cachedBodies)
        && !(fetches[k].status.ReadFailed? && url == fetches[k].url && old(cachedBodies)[url].id == k)
    {
      if fetches[k].status.ReadFailed? { cachedBodies := Evict(cachedBodies, fetches[k].url, k); }
      fetches := fetches[k := fetches[k].(reaped := true)];
    }

    /** The end of `runLookup`: whether its result is worth memoizing. */
    method RunLookupEnds(r: nat, unchecked: bool) returns (memoizable: bool)
      requires Asking(View(), r) && runs[r].hops == {}
      modifies this`runs
      ensures View() == Step(old(View()), RunEnds(r, false, unchecked))
      ensures memoizable == Kept(runs[r].status)
      ensures memoizable <==> runs[r].list.Fetched? && cachedRegistries == Some(runs[r].list.load) && !unchecked
      ensures runs == old(runs)[r := old(runs)[r].(status := Answered(unchecked, memoizable))]
    {
      memoizable := runs[r].list.Fetched? && cachedRegistries == Some(runs[r].list.load) && !unchecked;
      runs := runs[r := runs[r].(status := Answered(unchecked, memoizable))];
    }

    /** The callbacks on a settled lookup. */
    method LookupSettled(r: nat)
      requires r < |runs| && !runs[r].status.Running?
      modifies this`runs, this`cachedLookups
      ensures View() == Step(old(View()), RunReaped(r))
      ensures runs[r].reaped
      ensures forall did :: did in cachedLookups ==> did in old(cachedLookups) && cachedLookups[did] == old(cachedLookups)[did]
      ensures forall did :: did in cachedLookups <==>
        did in old(cachedLookups)
        && !(did == runs[r].did && old(cachedLookups)[did].id == r && !(runs[r].status.Answered? && runs[r].status.memoizable))
    {
      if !Kept(runs[r].status) { cachedLookups := Evict(cachedLookups, runs[r].did, r); }
      runs := runs[r := runs[r].(reaped := true)];
    }

    /** Logout: both caches, never the list. */
    method ClearRegistryLookupCaches()
      modifies this`cachedBodies, this`cachedLookups, this`clears
      ensures View() == Step(old(View()), Clear)
      ensures cachedBodies == map[] && cachedLookups == map[] && clears == old(clears) + 1
    {
      cachedBodies, cachedLookups, clears := map[], map[], clears + 1;
    }
  }
}
