/**
  The account-deletion walk: authenticate, discover, then delete the annex Spaces, the sibling unlock
  Spaces, the account Space (the pivot), the acting credential's unlock Space and the local state, in that
  order. The walk of a session with a storage server and an account Space; guests are not part of it.
 */
module AccountDeletion {
  import opened Common
  import opened SpaceServer

  datatype Discovery = Present | Absent | Unknown

  datatype Grade = AsDeleted | AsUnconfirmed | MaskedRefusal

  datatype Kind = Annex | Unlock | ActingUnlock | Account

  datatype Outcome = Deleted | Unconfirmed | Unreachable(reason: string)

  datatype Report = Report(kind: Kind, spaceId: SpaceId, outcome: Outcome)

  datatype Refusal =
    | LadderVmNotAnchored | RegistryUnreadable | RegistryStaleSeal | DiscoveryFailed | SpaceDeleteFailed

  /** `Cancelled` stands for the passkey assertion's own rejection, which leaves the run by a throw. */
  datatype Result =
    | RunDeleted | RunDeletedUnverified | Refused(reason: Refusal) | WrongPassphrase | RunFailed | Cancelled

  datatype Load = Loaded | SealStale | NotReadable

  datatype AnnexSpace = AnnexSpace(spaceId: SpaceId, discovery: Discovery)

  datatype Sibling = Sibling(entry: Method, discovery: Discovery)

  /** What a 404 on a DELETE may be reported as. */
  function Grade404(discovery: Discovery, accountGone: bool): (grade: Grade)
    ensures grade.AsDeleted? <==> accountGone && discovery.Absent?
    ensures grade.MaskedRefusal? <==> discovery.Present?
  {
    match discovery
    case Present => MaskedRefusal
    case Absent => if accountGone then AsDeleted else AsUnconfirmed
    case Unknown => AsUnconfirmed
  }

  /**
    How the account Space's DELETE ends the run, or `None` to go on: the DELETE's own answer, the re-probe
    taken after a lost one, and whether the world-readable log stopped answering.
   */
  function PivotVerdict(answer: Answer, probe: Reading, logGone: bool): (stop: Option<Result>)
    ensures stop.None? ==> answer.Acknowledged? || logGone
    ensures stop.Some? ==> !answer.Acknowledged? && (stop.value == RunFailed <==> answer.Lost?)
    ensures stop.Some? && answer.NotFound? ==> stop.value == Refused(SpaceDeleteFailed) && !logGone
    ensures stop.Some? && answer.Lost? ==> !probe.Missing? || !logGone
  {
    match answer
    case Acknowledged => None
    case NotFound => if logGone then None else Some(Refused(SpaceDeleteFailed))
    case Lost => if probe.Missing? && logGone then None else Some(RunFailed)
  }

  /** `failed` does not say that the account survived: its DELETE landed, and only the log was out of reach. */
  lemma FailedDoesNotMeanAlive(account: SpaceId)
    ensures exists before, after ::
      && account in before && account !in after
      && DeleteAllowed(before, after, account, Delegated, Lost)
      && LogAllowed(after, account, true)
      && PivotVerdict(Lost, Missing, false) == Some(RunFailed)
  {
    assert account in {account} && DeleteAllowed({account}, {}, account, Delegated, Lost);
  }

  predicate OwnEntry(methods: seq<Method>, acting: SpaceId) {
    exists m :: m in methods && m.passkey && m.spaceId == acting
  }

  function HostedHere(refs: seq<AnnexRef>): seq<SpaceId> {
    if refs == [] then [] else
      HostedHere(refs[..|refs| - 1]) + if refs[|refs| - 1].here then [refs[|refs| - 1].spaceId] else []
  }

  function HostedElsewhere(refs: seq<AnnexRef>): seq<SpaceId> {
    if refs == [] then [] else
      HostedElsewhere(refs[..|refs| - 1]) + if refs[|refs| - 1].here then [] else [refs[|refs| - 1].spaceId]
  }

  /** Every annex Space this server hosts that the walk can name, each once. */
  function AnnexIds(s: Session): seq<SpaceId> {
    if !s.promoted then [] else
      Distinct(HostedHere(s.annexHistory) + if s.sibling.Some? then [s.sibling.value] else [])
  }

  lemma AnnexIdsDiffer(s: Session)
    ensures NoRepeats(AnnexIds(s))
  {
    DistinctReads(HostedHere(s.annexHistory) + if s.sibling.Some? then [s.sibling.value] else []);
  }

  lemma {:induction false} HostedHereReads(refs: seq<AnnexRef>, id: SpaceId)
    ensures id in HostedHere(refs) <==> exists r :: r in refs && r.here && r.spaceId == id
  {
    if refs != [] {
      var last := refs[|refs| - 1];
      assert refs == refs[..|refs| - 1] + [last];
      HostedHereReads(refs[..|refs| - 1], id);
      assert last.here && last.spaceId == id ==> exists r :: r in refs && r.here && r.spaceId == id;
    }
  }

  /** What the walk deletes of annex Spaces: every one of the log's history on this server, and the record's own. */
  lemma AnnexIdsRead(s: Session, id: SpaceId)
    ensures id in AnnexIds(s) <==>
      s.promoted && ((exists r :: r in s.annexHistory && r.here && r.spaceId == id) || s.sibling == Some(id))
  {
    HostedHereReads(s.annexHistory, id);
    DistinctReads(HostedHere(s.annexHistory) + if s.sibling.Some? then [s.sibling.value] else []);
  }

  predicate Elsewhere(r: AnnexRef) {
    !r.here
  }

  function SpaceOf(r: AnnexRef): SpaceId {
    r.spaceId
  }

  /** What it reports of those elsewhere: every one of the history, in its order. */
  lemma {:induction false} HostedElsewhereReads(refs: seq<AnnexRef>) returns (at: seq<nat>)
    ensures Filters(refs, Elsewhere, SpaceOf, HostedElsewhere(refs), at)
  {
    if refs == [] { return []; }
    var front, last := refs[..|refs| - 1], refs[|refs| - 1];
    at := HostedElsewhereReads(front);
    at := FiltersGrow(front, last, Elsewhere, SpaceOf, HostedElsewhere(front), at);
    assert refs == front + [last];
  }

  function Others(methods: seq<Method>, acting: SpaceId): seq<Method> {
    if methods == [] then [] else
      var last := methods[|methods| - 1];
      Others(methods[..|methods| - 1], acting) + if last.spaceId == acting then [] else [last]
  }

  lemma {:induction false} OthersRead(methods: seq<Method>, acting: SpaceId)
    ensures forall m :: m in Others(methods, acting) <==> m in methods && m.spaceId != acting
  {
    if methods != [] {
      assert methods == methods[..|methods| - 1] + [methods[|methods| - 1]];
      OthersRead(methods[..|methods| - 1], acting);
    }
  }

  predicate IsOther(m: Method, acting: SpaceId) {
    m.spaceId != acting
  }

  function Itself(m: Method): Method {
    m
  }

  /** The entries walked, in the registry's order. */
  lemma {:induction false} OthersInOrder(methods: seq<Method>, acting: SpaceId, kept: Method -> bool) returns (at: seq<nat>)
    requires forall m :: kept(m) <==> IsOther(m, acting)
    ensures Filters(methods, kept, Itself, Others(methods, acting), at)
  {
    if methods == [] { return []; }
    var front, last := methods[..|methods| - 1], methods[|methods| - 1];
    at := OthersInOrder(front, acting, kept);
    at := FiltersGrow(front, last, kept, Itself, Others(front, acting), at);
    assert methods == front + [last] && (kept(last) <==> IsOther(last, acting));
  }

  /** The entries walked are no Space of another kind. */
  lemma OthersApart(s: Session, methods: seq<Method>, account: SpaceId, acting: SpaceId)
    requires Apart(s, account, acting) && forall m :: m in methods ==> m in s.methods
    ensures forall i :: 0 <= i < |Others(methods, acting)| ==>
      Others(methods, acting)[i].spaceId != account && Others(methods, acting)[i].spaceId != acting
  {
    OthersRead(methods, acting);
    forall i | 0 <= i < |Others(methods, acting)|
      ensures Others(methods, acting)[i].spaceId != account && Others(methods, acting)[i].spaceId != acting
    {
      assert Others(methods, acting)[i] in Others(methods, acting);
    }
  }

  /** The Spaces a walk over `others` sends DELETEs to. */
  ghost function Cleared(others: seq<Method>): set<SpaceId> {
    set m | m in others && m.refusal.None? :: m.spaceId
  }

  lemma ClearedStep(others: seq<Method>, n: nat)
    requires n < |others|
    ensures Cleared(others[..n + 1]) ==
            Cleared(others[..n]) + if others[n].refusal.None? then {others[n].spaceId} else {}
  {
    assert others[..n + 1] == others[..n] + [others[n]];
  }

  /** A probe-able entry names a live Space the walk will already have deleted by then. */
  ghost predicate RepeatAt(annex: seq<SpaceId>, others: seq<Method>, live: set<SpaceId>, j: nat)
    requires j < |others|
  {
    && others[j].refusal.None? && !others[j].probeRefused && others[j].spaceId in live
    && (others[j].spaceId in annex || others[j].spaceId in Cleared(others[..j]))
  }

  ghost predicate Repeats(annex: seq<SpaceId>, others: seq<Method>, live: set<SpaceId>) {
    exists j :: 0 <= j < |others| && RepeatAt(annex, others, live, j)
  }

  /** On a healthy server, a repeated Space is exactly what the 404 rule reads as a masked refusal. */
  lemma RepeatRefuses(annex: seq<SpaceId>, others: seq<Method>, found: set<SpaceId>, n: nat, s: Sibling, live: set<SpaceId>)
    requires n < |others| && s.entry == others[n] && SiblingExact(s, found)
    requires live == found - (set id | id in annex) - Cleared(others[..n])
    ensures RepeatAt(annex, others, found, n) <==>
            !(s.entry.refusal.Some? || s.entry.spaceId in live || !s.discovery.Present?)
  {
  }

  lemma ActingSurvives(annex: seq<SpaceId>, others: seq<Method>, acting: SpaceId, found: set<SpaceId>, live: set<SpaceId>)
    requires acting !in annex && forall i :: 0 <= i < |others| ==> others[i].spaceId != acting
    requires live == found - (set id | id in annex) - Cleared(others[..|others|])
    ensures acting in found ==> acting in live
  {
    assert others[..|others|] == others;
  }

  ghost function Names(reports: seq<Report>): (names: seq<(Kind, SpaceId)>)
    ensures |names| == |reports|
  {
    MapSeq(reports, (r: Report) => (r.kind, r.spaceId))
  }

  ghost function Tagged(kind: Kind, ids: seq<SpaceId>): (names: seq<(Kind, SpaceId)>)
    ensures |names| == |ids|
  {
    MapSeq(ids, (id: SpaceId) => (kind, id))
  }

  ghost function UnlockNames(others: seq<Method>): (names: seq<(Kind, SpaceId)>)
    ensures |names| == |others|
  {
    MapSeq(others, (m: Method) => (Unlock, m.spaceId))
  }

  lemma NamesTell(reports: seq<Report>, kind: Kind, id: SpaceId)
    requires (kind, id) in Names(reports)
    ensures exists r :: r in reports && r.kind == kind && r.spaceId == id
  {
    var n :| 0 <= n < |reports| && Names(reports)[n] == (kind, id);
    assert reports[n] in reports;
  }

  lemma TaggedTell(kind: Kind, ids: seq<SpaceId>, id: SpaceId)
    requires id in ids
    ensures (kind, id) in Tagged(kind, ids)
  {
    var n :| 0 <= n < |ids| && ids[n] == id;
    assert Tagged(kind, ids)[n] == (kind, id);
  }

  lemma UnlockTell(others: seq<Method>, m: Method)
    requires m in others
    ensures (Unlock, m.spaceId) in UnlockNames(others)
  {
    var n :| 0 <= n < |others| && others[n] == m;
    assert UnlockNames(others)[n] == (Unlock, m.spaceId);
  }

  ghost function SpaceIdsOf(found: seq<AnnexSpace>): (ids: seq<SpaceId>)
    ensures |ids| == |found|
  {
    MapSeq(found, (a: AnnexSpace) => a.spaceId)
  }

  ghost function EntriesOf(found: seq<Sibling>): (entries: seq<Method>)
    ensures |entries| == |found|
  {
    MapSeq(found, (s: Sibling) => s.entry)
  }

  lemma EntriesExtended(found: seq<Sibling>, next: Sibling)
    ensures EntriesOf(found + [next]) == EntriesOf(found) + [next.entry]
  {
  }

  function DiscoveryOf(reading: Reading): Discovery {
    match reading
    case Found => Present
    case Missing => Absent
    case Unreadable => Unknown
  }

  /** A discovery is what some probe of that Space read; `Unknown` is a Space that was not probed. */
  ghost predicate Witnessed(space: SpaceId, discovery: Discovery, heard: set<Reply>) {
    match discovery
    case Present => Probing(space, Found) in heard
    case Absent => Probing(space, Missing) in heard
    case Unknown => true
  }

  /** What discovery recorded of a sibling entry. */
  ghost predicate SiblingWitnessed(s: Sibling, heard: set<Reply>) {
    && (s.discovery.Unknown? <==> s.entry.refusal.Some? || s.entry.probeRefused)
    && Witnessed(s.entry.spaceId, s.discovery, heard)
  }

  ghost predicate AnnexWitnessed(a: AnnexSpace, heard: set<Reply>) {
    !a.discovery.Unknown? && Witnessed(a.spaceId, a.discovery, heard)
  }

  ghost predicate AllWitnessed(annexSpaces: seq<AnnexSpace>, siblings: seq<Sibling>, heard: set<Reply>) {
    && (forall a :: a in annexSpaces ==> AnnexWitnessed(a, heard))
    && (forall s :: s in siblings ==> SiblingWitnessed(s, heard))
  }

  lemma WitnessesStay(annexSpaces: seq<AnnexSpace>, siblings: seq<Sibling>, heard: set<Reply>, more: set<Reply>)
    requires heard <= more && AllWitnessed(annexSpaces, siblings, heard)
    ensures AllWitnessed(annexSpaces, siblings, more)
  {
  }

  ghost predicate SiblingExact(s: Sibling, live: set<SpaceId>) {
    s.discovery ==
      if s.entry.refusal.Some? || s.entry.probeRefused then Unknown
      else if s.entry.spaceId in live then Present else Absent
  }

  /** What a run reports before its pivot, when the registry held `methods`. */
  ghost function NamesBeforePivot(s: Session, acting: SpaceId, methods: seq<Method>): seq<(Kind, SpaceId)> {
    Tagged(Annex, if s.promoted then HostedElsewhere(s.annexHistory) else [])
    + Tagged(Annex, AnnexIds(s)) + UnlockNames(Others(methods, acting))
  }

  /** One more report extends the names by one. */
  lemma Extended(before: seq<Report>, after: seq<Report>, kind: Kind, ids: seq<SpaceId>, id: SpaceId)
    requires |after| == |before| + 1 && before <= after
    requires after[|before|].kind == kind && after[|before|].spaceId == id
    ensures Names(after) == Names(before) + [(kind, id)]
    ensures Tagged(kind, ids + [id]) == Tagged(kind, ids) + [(kind, id)]
  {
  }

  lemma NamesExtended(before: seq<Report>, after: seq<Report>)
    requires after == before || (|after| == |before| + 1 && before <= after)
    ensures Names(before) <= Names(after)
    ensures |after| == |before| + 1 ==>
      Names(after) == Names(before) + [(after[|before|].kind, after[|before|].spaceId)]
  {
  }

  lemma UnlockNamesStep(others: seq<Method>, n: nat)
    requires n < |others|
    ensures UnlockNames(others[..n + 1]) == UnlockNames(others[..n]) + [(Unlock, others[n].spaceId)]
  {
  }

  /** What the walk was told of the registry: its entries, or nothing on an account that need not carry one. */
  ghost predicate RegistryTold(s: Session, registry: seq<Method>, heard: set<Reply>) {
    || (registry == s.methods && RegistryRead(Listed(registry)) in heard)
    || (!s.promoted && registry == [] && RegistryRead(Empty) in heard)
  }

  /** The delegation a transient visit's reads ride was renewed, where it can be. */
  ghost predicate VisitRenewed(s: Session, heard: set<Reply>) {
    s.browserLocal || !s.promoted || !s.renewable || Renewal(true) in heard
  }

  /** Authenticated: the secret is this account's, given for a passkey against its own registry entry. */
  ghost predicate Entitled(s: Session, acting: SpaceId, heard: set<Reply>) {
    && s.secretRight && SecretChecked(Verified) in heard
    && (s.passkey ==>
          && (exists m :: m in s.methods && m.passkey && m.spaceId == acting)
          && RegistryRead(Listed(s.methods)) in heard && Assertion(true) in heard)
  }

  /** A transient session's authority: its own anchored ladder VM, under a current delegation. */
  ghost predicate LadderStands(s: Session, heard: set<Reply>) {
    s.browserLocal || (s.promoted && s.ladderSealed && s.anchored && VisitRenewed(s, heard))
  }

  /** Discovered, with the account alive: the log, the ladder VM, the registry, and what it cannot name. */
  ghost predicate Surveyed(s: Session, registry: seq<Method>, heard: set<Reply>, states: set<set<SpaceId>>) {
    && LadderStands(s, heard) && RegistryTold(s, registry, heard)
    && (s.promoted ==>
          LogVerified(Found) in heard && CoverageChecked(registry, true) in heard && WasCovered(registry, states))
  }

  lemma SurveyedStays(s: Session, registry: seq<Method>, heard: set<Reply>, states: set<set<SpaceId>>,
                      more: set<Reply>, later: set<set<SpaceId>>)
    requires Surveyed(s, registry, heard, states) && heard <= more && states <= later
    ensures Surveyed(s, registry, more, later)
  {
  }

  ghost predicate AcknowledgedIn(sent: seq<Effect>, space: SpaceId) {
    DeleteSpace(space, true, Acknowledged) in sent || DeleteSpace(space, false, Acknowledged) in sent
  }

  ghost predicate AccountDeleteSent(sent: seq<Effect>, account: SpaceId) {
    exists i :: 0 <= i < |sent| && sent[i].DeleteSpace? && sent[i].space == account
  }

  /** Spaces were deleted, the acting unlock Space not among them, and nothing local was touched. */
  ghost predicate NothingActing(sent: seq<Effect>, acting: SpaceId) {
    forall e :: e in sent ==> e.DeleteSpace? && e.space != acting
  }

  /** A DELETE the walk may go past: it was answered, and no 404 contradicts what the probe had found. */
  ghost predicate Passed(e: Effect, discovery: Discovery) {
    e.DeleteSpace? && !e.answer.Lost? && (e.answer.NotFound? ==> !discovery.Present?)
  }

  ghost predicate AnnexResolves(e: Effect, a: AnnexSpace) {
    e.DeleteSpace? && e.space == a.spaceId && Passed(e, a.discovery)
  }

  ghost predicate SiblingResolves(e: Effect, s: Sibling) {
    e.DeleteSpace? && e.space == s.entry.spaceId && s.entry.refusal.None? && Passed(e, s.discovery)
  }

  /** The DELETE resolved without a refusal, under the discovery recorded of its Space. */
  ghost predicate Resolved(e: Effect, annexSpaces: seq<AnnexSpace>, siblings: seq<Sibling>) {
    (exists a :: a in annexSpaces && AnnexResolves(e, a)) || (exists s :: s in siblings && SiblingResolves(e, s))
  }

  ghost predicate AllResolved(sent: seq<Effect>, annexSpaces: seq<AnnexSpace>, siblings: seq<Sibling>) {
    forall e :: e in sent ==> Resolved(e, annexSpaces, siblings)
  }

  /** The annex Space was sent a DELETE, and it resolved. */
  ghost predicate AnnexSettled(sent: seq<Effect>, a: AnnexSpace) {
    exists e :: e in sent && AnnexResolves(e, a)
  }

  /** The entry's Space was sent a DELETE that resolved, unless its management capability was found dead. */
  ghost predicate SiblingSettled(sent: seq<Effect>, heard: set<Reply>, s: Sibling) {
    s.entry.refusal.Some? || Lapsed(s.entry) in heard || exists e :: e in sent && SiblingResolves(e, s)
  }

  ghost predicate AnnexesSettled(sent: seq<Effect>, annexSpaces: seq<AnnexSpace>) {
    forall a :: a in annexSpaces ==> AnnexSettled(sent, a)
  }

  ghost predicate SiblingsSettled(sent: seq<Effect>, heard: set<Reply>, siblings: seq<Sibling>) {
    forall s :: s in siblings ==> SiblingSettled(sent, heard, s)
  }

  lemma SettledStays(sent: seq<Effect>, heard: set<Reply>, annexSpaces: seq<AnnexSpace>, siblings: seq<Sibling>,
                     longer: seq<Effect>, more: set<Reply>)
    requires sent <= longer && heard <= more
    ensures AnnexesSettled(sent, annexSpaces) ==> AnnexesSettled(longer, annexSpaces)
    ensures SiblingsSettled(sent, heard, siblings) ==> SiblingsSettled(longer, more, siblings)
  {
    assert forall e :: e in sent ==> e in longer;
  }

  /** The last DELETE is one that did not resolve: lost, or a 404 over a Space the probe had found. */
  ghost predicate Contradicted(sent: seq<Effect>, annexSpaces: seq<AnnexSpace>, siblings: seq<Sibling>) {
    sent != [] && var last := sent[|sent| - 1];
    last.DeleteSpace? && ((exists a :: a in annexSpaces && last.space == a.spaceId && !Passed(last, a.discovery))
                          || (exists s :: s in siblings && last.space == s.entry.spaceId && !Passed(last, s.discovery)))
  }

  /** Every Space owed a DELETE was sent one, and every DELETE sent resolved without a refusal. */
  ghost predicate Earned(sent: seq<Effect>, heard: set<Reply>, annexSpaces: seq<AnnexSpace>, siblings: seq<Sibling>) {
    && AllResolved(sent, annexSpaces, siblings)
    && AnnexesSettled(sent, annexSpaces) && SiblingsSettled(sent, heard, siblings)
  }

  /** The account Space's DELETE goes out only after every earlier Space resolved without a refusal. */
  ghost predicate PivotIsEarned(sent: seq<Effect>, heard: set<Reply>, account: SpaceId,
                                annexSpaces: seq<AnnexSpace>, siblings: seq<Sibling>) {
    forall k :: 0 <= k < |sent| && sent[k].DeleteSpace? && sent[k].space == account ==>
      Earned(sent[..k], heard, annexSpaces, siblings)
  }

  /** Nothing but the acting unlock Space is deleted once the account Space's DELETE is out. */
  ghost predicate PivotComesLast(sent: seq<Effect>, account: SpaceId, acting: SpaceId) {
    forall i, j :: 0 <= i < j < |sent| && sent[i].DeleteSpace? && sent[i].space == account && sent[j].DeleteSpace? ==>
      sent[j].space == acting
  }

  /** A step that destroys the way back in was taken while the account was alive. */
  ghost predicate LocksOut(e: Effect, acting: SpaceId) {
    match e
    case DeleteSpace(space, accountLive, _) => space == acting && accountLive
    case DropUnlockState(accountLive) => accountLive
    case WipeLocal(accountLive) => accountLive
  }

  /** One DELETE of the acting unlock Space, a second after a lost answer, then its local state. */
  ghost predicate ActingSent(sent: seq<Effect>, acting: SpaceId) {
    && |sent| >= 2 && sent[0].DeleteSpace? && sent[0].space == acting
    && |sent| == (if sent[0].answer.Lost? then 3 else 2)
    && (sent[0].answer.Lost? ==> sent[1].DeleteSpace? && sent[1].space == acting)
    && sent[|sent| - 1].DropUnlockState?
  }

  /** What follows the pivot: the acting unlock Space and local state, with the account known gone. */
  ghost predicate Concludes(before: seq<Effect>, after: seq<Effect>, acting: SpaceId) {
    before <= after
    && forall i :: |before| <= i < |after| ==>
         !LocksOut(after[i], acting) && (after[i].DeleteSpace? ==> after[i].space == acting)
  }

  lemma ResolvedWiden(sent: seq<Effect>, annexSpaces: seq<AnnexSpace>, siblings: seq<Sibling>)
    requires AllResolved(sent, annexSpaces, [])
    ensures AllResolved(sent, annexSpaces, siblings)
  {
    forall e | e in sent ensures Resolved(e, annexSpaces, siblings) {
      assert Resolved(e, annexSpaces, []);
    }
  }

  /** The account's DELETE, sent once every earlier Space resolved. */
  lemma EarnedAtPivot(sent: seq<Effect>, heard: set<Reply>, last: Effect, more: set<Reply>, account: SpaceId,
                      annexSpaces: seq<AnnexSpace>, siblings: seq<Sibling>)
    requires Earned(sent, heard, annexSpaces, siblings) && heard <= more
    requires forall e :: e in sent ==> e.DeleteSpace? && e.space != account
    ensures PivotIsEarned(sent + [last], more, account, annexSpaces, siblings)
  {
    assert (sent + [last])[..|sent|] == sent;
    SettledStays(sent, heard, annexSpaces, siblings, sent, more);
    forall k | 0 <= k < |sent| ensures (sent + [last])[k].space != account {
      assert sent[k] in sent;
    }
  }

  lemma EarnedStays(before: seq<Effect>, heard: set<Reply>, after: seq<Effect>, more: set<Reply>, account: SpaceId,
                    acting: SpaceId, annexSpaces: seq<AnnexSpace>, siblings: seq<Sibling>)
    requires Concludes(before, after, acting) && account != acting && heard <= more
    requires PivotIsEarned(before, heard, account, annexSpaces, siblings)
    ensures PivotIsEarned(after, more, account, annexSpaces, siblings)
  {
    forall k | 0 <= k < |after| && after[k].DeleteSpace? && after[k].space == account
      ensures Earned(after[..k], more, annexSpaces, siblings)
    {
      assert k < |before| && after[..k] == before[..k];
      SettledStays(before[..k], heard, annexSpaces, siblings, before[..k], more);
    }
  }

  lemma ConclusionIsSafe(before: seq<Effect>, after: seq<Effect>, account: SpaceId, acting: SpaceId)
    requires Concludes(before, after, acting) && account != acting
    requires NothingActing(before, acting) && PivotComesLast(before, account, acting)
    ensures forall e :: e in after ==> !LocksOut(e, acting)
    ensures PivotComesLast(after, account, acting)
    ensures AccountDeleteSent(after, account) <==> AccountDeleteSent(before, account)
  {
    forall e | e in after ensures !LocksOut(e, acting) {
      var i :| 0 <= i < |after| && after[i] == e;
      if i < |before| { assert before[i] in before; }
    }
  }

  /** The Spaces of one account are told apart by kind. */
  ghost predicate Apart(s: Session, account: SpaceId, acting: SpaceId) {
    && account != acting
    && account !in AnnexIds(s) && acting !in AnnexIds(s)
    && (forall m :: m in s.methods ==> m.spaceId != account)
  }

  /** Exactly the accounts and server states that pass authentication and discovery on a healthy server. */
  ghost predicate Ready(s: Session, account: SpaceId, acting: SpaceId, live: set<SpaceId>) {
    && s.secretRight && acting in live
    && if account in live then
         && (s.promoted ==> Covered(s.methods, live))
         && (s.browserLocal || (s.promoted && s.ladderSealed && s.anchored && s.pointedAnnex in live))
         && (s.passkey ==> OwnEntry(s.methods, acting))
       else
         !s.passkey && (s.browserLocal || s.promoted)
  }

  /** Exactly those a walk against a healthy server gets through. */
  ghost predicate Converges(s: Session, account: SpaceId, acting: SpaceId, live: set<SpaceId>) {
    && Ready(s, account, acting, live)
    && (account in live ==> !Repeats(AnnexIds(s), Others(s.methods, acting), live))
  }

  lemma RepeatsShrink(annex: seq<SpaceId>, others: seq<Method>, live: set<SpaceId>, more: set<SpaceId>)
    requires live <= more && Repeats(annex, others, live)
    ensures Repeats(annex, others, more)
  {
    var j :| 0 <= j < |others| && RepeatAt(annex, others, live, j);
    assert RepeatAt(annex, others, more, j);
  }

  /**
    A remembered passphrase session gets through from a state with its unlock record still there exactly when,
    the account alive, the coverage pass can read every record it must, unless the registry names one live
    Space twice.
   */
  lemma TornStateConverges(s: Session, account: SpaceId, acting: SpaceId, first: set<SpaceId>, torn: set<SpaceId>)
    requires s.browserLocal && !s.passkey && s.secretRight
    requires torn <= first && acting in torn && !Repeats(AnnexIds(s), Others(s.methods, acting), first)
    ensures Converges(s, account, acting, torn) <==> (account in torn && s.promoted ==> Covered(s.methods, torn))
  {
    if Repeats(AnnexIds(s), Others(s.methods, acting), torn) {
      RepeatsShrink(AnnexIds(s), Others(s.methods, acting), torn, first);
    }
  }

  /** The ordinary account: the passphrase entry recorded is the acting credential's own. */
  lemma OwnRecordCovers(methods: seq<Method>, acting: SpaceId, live: set<SpaceId>)
    requires acting in live && forall m :: m in methods && m.recorded ==> m.spaceId == acting
    ensures Covered(methods, live)
  {
  }

  /**
    Where it fails: a walk that cleared its siblings and was torn before the pivot, one of them holding a
    record the coverage pass reads. No deleted Space returns, so every later run is refused while the account
    lives.
   */
  lemma TornCoverageStaysLost(s: Session, account: SpaceId, acting: SpaceId, m: Method, first: set<SpaceId>, later: set<SpaceId>)
    requires s.promoted && m in s.methods && m.recorded && m.refusal.None? && m.spaceId != acting
    requires later <= first - (set id | id in AnnexIds(s)) - Cleared(Others(s.methods, acting)) && account in later
    ensures !Converges(s, account, acting, later)
  {
    OthersRead(s.methods, acting);
    assert m in Others(s.methods, acting) && m.spaceId in Cleared(Others(s.methods, acting));
    assert !Covered(s.methods, later);
  }

  /** Two entries at one Space: the second entry's 404 reads as a masked refusal, and the walk stops there. */
  lemma RepeatedEntryRefuses(s: Session, account: SpaceId, acting: SpaceId, twice: Method, live: set<SpaceId>)
    requires s.methods == [twice, twice] && twice.spaceId != acting && twice.refusal.None? && !twice.probeRefused
    requires account in live && twice.spaceId in live
    ensures !Converges(s, account, acting, live)
  {
    var others := Others(s.methods, acting);
    assert s.methods[..1] == [twice] && s.methods[..1][..0] == [];
    assert Others(s.methods[..1][..0], acting) == [];
    assert Others(s.methods[..1], acting) == [twice];
    assert others == [twice, twice];
    assert others[0] in others[..1] && others[0].spaceId in Cleared(others[..1]);
    assert RepeatAt(AnnexIds(s), others, live, 1);
  }

  /**
    The sessions that cannot resume a run torn after its pivot are the passkey ones; and a transient session
    that lost its annex Space cannot even reach the pivot.
   */
  lemma WhoCannotResume(s: Session, account: SpaceId, acting: SpaceId, live: set<SpaceId>)
    requires s.promoted && s.secretRight && acting in live
    ensures account !in live ==> (Converges(s, account, acting, live) <==> !s.passkey)
    ensures account in live && !s.browserLocal && s.pointedAnnex !in live ==> !Converges(s, account, acting, live)
  {
  }

  class DeletionWalk {
    const server: Server
    const session: Session
    const account: SpaceId
    const acting: SpaceId
    var spaces: seq<Report>
    var unnamed: nat
    var registry: seq<Method>
    var registryLoaded: bool
    var renewalDone: bool
    var ladderSeedHeld: bool
    var annexSpaces: seq<AnnexSpace>
    var siblings: seq<Sibling>
    var actingDiscovery: Discovery
    var accountAlreadyGone: bool
    var accountGone: bool
    var localWipeNarrowed: bool

    constructor (server: Server)
      requires server.Valid()
      ensures this.server == server && Bound() && Sound()
      ensures spaces == [] && annexSpaces == [] && siblings == [] && actingDiscovery == Unknown
      ensures !registryLoaded && !renewalDone && !accountGone && !accountAlreadyGone && !localWipeNarrowed
    {
      this.server, session, account, acting := server, server.session, server.account, server.acting;
      spaces, unnamed, registry, registryLoaded, renewalDone := [], 0, [], false, false;
      ladderSeedHeld, annexSpaces, siblings, actingDiscovery := false, [], [], Unknown;
      accountAlreadyGone, accountGone, localWipeNarrowed := false, false, false;
    }

    ghost predicate Bound()
      reads server
    {
      server.Valid() && session == server.session && account == server.account && acting == server.acting
    }

    /** Every `deleted` report is true, and one about an annex or sibling Space rests on a 2xx. */
    ghost predicate Sound()
      reads this`spaces, server
    {
      forall r :: r in spaces && r.outcome.Deleted? ==>
        && r.spaceId !in server.live
        && (r.kind.Annex? || r.kind.Unlock? ==> AcknowledgedIn(server.sent, r.spaceId))
    }

    /** The registry as the walk holds it once read. */
    ghost predicate RegistryHeld()
      reads this`registry, this`registryLoaded, server
    {
      if registryLoaded then RegistryTold(session, registry, server.heard) else registry == []
    }

    /** A renewal that was made, and did not stop the run, installed a delegation. */
    ghost predicate Current()
      reads this`renewalDone, server
    {
      renewalDone ==> VisitRenewed(session, server.heard)
    }

    method RenewVisitDelegation() returns (ok: bool)
      requires Bound() && Current()
      modifies this`renewalDone, server`live, server`states, server`heard
      ensures Bound() && server.Quiet()
      ensures server.healthy ==>
        ok == (old(renewalDone) || session.browserLocal || !session.promoted || !session.renewable
               || session.pointedAnnex in server.live)
      ensures if ok then VisitRenewed(session, server.heard) else Renewal(false) in server.heard
      ensures !session.browserLocal && session.promoted && !old(renewalDone) ==>
        renewalDone && (Renewal(true) in server.heard || Renewal(false) in server.heard)
      ensures old(renewalDone) ==> renewalDone
      ensures renewalDone && !old(renewalDone) ==> !session.browserLocal && session.promoted
    {
      if renewalDone || session.browserLocal || !session.promoted { return true; }
      renewalDone := true;
      var renewed := server.RenewDelegation();
      ok := renewed || !session.renewable;
    }

    /** Why the registry could not be had. */
    ghost predicate RegistryUnread()
      reads server`heard
    {
      || Renewal(false) in server.heard || RegistryRead(RegistryFailed) in server.heard
      || (session.promoted && RegistryRead(Empty) in server.heard)
    }

    method LoadRegistry() returns (load: Load)
      requires Bound() && RegistryHeld() && Current()
      requires server.healthy && renewalDone ==> registryLoaded || !session.renewable || session.pointedAnnex in server.live
      modifies this`registry, this`registryLoaded, this`renewalDone, server`live, server`states, server`heard
      ensures Bound() && server.Quiet() && RegistryHeld()
      ensures load.Loaded? <==> registryLoaded
      ensures load.Loaded? ==> Current()
      ensures load.SealStale? ==> RegistryRead(StaleSeal) in server.heard
      ensures load.NotReadable? ==> RegistryUnread()
      ensures old(registryLoaded) ==> registryLoaded && registry == old(registry)
      ensures server.healthy && !old(registryLoaded) ==>
        && (registryLoaded <==> server.RegistryReachable() || !session.promoted)
        && (registryLoaded ==> registry == if server.RegistryReachable() then session.methods else [])
      ensures old(renewalDone) || (renewalDone ==> !session.browserLocal)
      ensures server.healthy && registryLoaded && renewalDone && !old(renewalDone) ==>
        !session.renewable || session.pointedAnnex in server.live
    {
      if registryLoaded { return Loaded; }
      var renewed := RenewVisitDelegation();
      if !renewed { return NotReadable; }
      var reading := server.ReadRegistry();
      match reading
      case StaleSeal => return SealStale;
      case RegistryFailed => return NotReadable;
      case Empty =>
        if session.promoted { return NotReadable; }
        registry, registryLoaded := [], true;
        return Loaded;
      case Listed(methods) =>
        registry, registryLoaded := methods, true;
        return Loaded;
    }

    /** (a): authenticate and derive. */
    method Authenticate() returns (stop: Option<Result>)
      requires Bound() && RegistryHeld() && !registryLoaded && !renewalDone
      modifies this`registry, this`registryLoaded, this`renewalDone, this`ladderSeedHeld, server`live, server`states, server`heard
      ensures Bound() && server.Quiet() && RegistryHeld()
      ensures stop.Some? ==> stop.value.Refused? || stop.value.Cancelled? || stop.value.WrongPassphrase? || stop.value.RunFailed?
      ensures stop.None? ==> Entitled(session, acting, server.heard) && Current()
      ensures stop == Some(WrongPassphrase) ==> SecretChecked(Wrong) in server.heard
      ensures stop == Some(Cancelled) ==> session.passkey && Assertion(false) in server.heard
      ensures stop == Some(RunFailed) ==> SecretChecked(Unverifiable) in server.heard
      ensures stop.Some? && stop.value.Refused? ==> session.passkey
      ensures stop.Some? && stop.value.Refused? ==>
        || (stop.value.reason.RegistryUnreadable? && (RegistryUnread() || (registryLoaded && !OwnEntry(registry, acting))))
        || (stop.value.reason.RegistryStaleSeal? && RegistryRead(StaleSeal) in server.heard)
      ensures server.healthy && stop.Some? ==>
        if session.passkey && !(server.RegistryReachable() && OwnEntry(session.methods, acting)) then stop.value.Refused?
        else stop.value.WrongPassphrase?
      ensures ladderSeedHeld ==> session.ladderSealed
      ensures renewalDone ==> !session.browserLocal
      ensures server.healthy ==>
        && (stop.None? <==>
              && session.secretRight && acting in server.live
              && (session.passkey ==> server.RegistryReachable() && OwnEntry(session.methods, acting)))
        && (stop.None? ==> ladderSeedHeld == session.ladderSealed && (registryLoaded <==> session.passkey))
        && (stop.None? && registryLoaded ==> registry == session.methods)
        && (stop.None? && renewalDone ==> registryLoaded)
        && (stop.None? && session.passkey && !session.browserLocal ==> session.pointedAnnex in server.live)
    {
      ladderSeedHeld := false;
      if session.passkey {
        var load := LoadRegistry();
        if !load.Loaded? { return Some(Refused(if load.SealStale? then RegistryStaleSeal else RegistryUnreadable)); }
        if !OwnEntry(registry, acting) { return Some(Refused(RegistryUnreadable)); }
        var given := server.AssertPasskey();
        if !given { return Some(Cancelled); }
      }
      var verified := server.VerifySecret();
      match verified
      case Wrong => return Some(WrongPassphrase);
      case Unverifiable => return Some(RunFailed);
      case Verified =>
        ladderSeedHeld := session.ladderSealed;
        return None;
    }

    /** (a2), first half: whether the account log still stands. */
    method VerifyAccountLog() returns (stop: Option<Result>)
      requires Bound() && Sound() && spaces == [] && !accountGone && !accountAlreadyGone
      modifies this`spaces, this`accountGone, this`accountAlreadyGone, server`live, server`states, server`heard
      ensures Bound() && Sound() && server.Quiet()
      ensures accountAlreadyGone == accountGone
      ensures accountGone ==> session.promoted && account !in server.live && stop.None?
      ensures spaces == if accountGone then [Report(Account, account, Deleted)] else []
      ensures stop.Some? ==> stop.value == Refused(DiscoveryFailed)
      ensures stop.None? && session.promoted ==> LogVerified(if accountGone then Missing else Found) in server.heard
      ensures server.healthy ==> stop.None? && (accountGone <==> session.promoted && account !in server.live)
    {
      if !session.promoted { return None; }
      var reading := server.VerifyLog();
      match reading
      case Unreadable => return Some(Refused(DiscoveryFailed));
      case Found => return None;
      case Missing =>
        accountAlreadyGone, accountGone := true, true;
        spaces := spaces + [Report(Account, account, Deleted)];
        return None;
    }

    /** The ladder-VM gate of a transient session, which holds nothing but ladder-signed authority. */
    method LadderGate() returns (stop: Option<Result>)
      requires Bound() && Current() && (ladderSeedHeld ==> session.ladderSealed)
      requires server.healthy && renewalDone ==> !session.renewable || session.pointedAnnex in server.live
      modifies this`renewalDone, server`live, server`states, server`heard
      ensures Bound() && server.Quiet()
      ensures stop.Some? ==> stop.value == Refused(LadderVmNotAnchored) || stop.value == Refused(DiscoveryFailed)
      ensures stop == Some(Refused(LadderVmNotAnchored)) <==>
        !session.browserLocal && !(ladderSeedHeld && session.promoted && session.anchored)
      ensures stop == Some(Refused(DiscoveryFailed)) ==> Renewal(false) in server.heard
      ensures session.browserLocal ==> renewalDone == old(renewalDone)
      ensures stop.None? ==> LadderStands(session, server.heard) && Current()
      ensures server.healthy ==>
        (stop.None? <==>
           || session.browserLocal
           || (ladderSeedHeld && session.promoted && session.anchored
               && (!session.renewable || session.pointedAnnex in server.live)))
    {
      if session.browserLocal { return None; }
      if !ladderSeedHeld || !session.promoted || !session.anchored { return Some(Refused(LadderVmNotAnchored)); }
      var renewed := RenewVisitDelegation();
      if !renewed { return Some(Refused(DiscoveryFailed)); }
      return None;
    }

    /** The annex Spaces the log and the record name; a foreign host's is reported and never addressed. */
    method NameAnnexSpaces() returns (ids: seq<SpaceId>)
      requires Bound() && spaces == []
      modifies this`spaces
      ensures ids == AnnexIds(session)
      ensures Names(spaces) == Tagged(Annex, if session.promoted then HostedElsewhere(session.annexHistory) else [])
      ensures forall r :: r in spaces ==> r.outcome == Unreachable("foreign-host")
    {
      ids := [];
      if !session.promoted { return; }
      var refs := session.annexHistory;
      ghost var named: seq<SpaceId> := [];
      for n := 0 to |refs|
        invariant named == HostedHere(refs[..n]) && ids == Distinct(named)
        invariant Names(spaces) == Tagged(Annex, HostedElsewhere(refs[..n]))
        invariant forall r :: r in spaces ==> r.outcome == Unreachable("foreign-host")
      {
        assert refs[..n + 1][..n] == refs[..n];
        if refs[n].here {
          named := named + [refs[n].spaceId];
          assert named[..|named| - 1] == HostedHere(refs[..n]);
          if refs[n].spaceId !in ids { ids := ids + [refs[n].spaceId]; }
        } else {
          ghost var before := spaces;
          spaces := spaces + [Report(Annex, refs[n].spaceId, Unreachable("foreign-host"))];
          Extended(before, spaces, Annex, HostedElsewhere(refs[..n]), refs[n].spaceId);
        }
      }
      assert refs[..|refs|] == refs;
      if session.sibling.Some? {
        ghost var all := named + [session.sibling.value];
        assert all[..|all| - 1] == named;
        if session.sibling.value !in ids { ids := ids + [session.sibling.value]; }
      } else {
        assert named + [] == named;
      }
    }

    /** The probe results a healthy server would have given. */
    ghost predicate AnnexesExact()
      reads this`annexSpaces, server
    {
      forall i :: 0 <= i < |annexSpaces| ==>
        annexSpaces[i].discovery == if annexSpaces[i].spaceId in server.live then Present else Absent
    }

    ghost predicate SiblingsExact()
      reads this`siblings, server
    {
      forall i :: 0 <= i < |siblings| ==> SiblingExact(siblings[i], server.live)
    }

    /** The probes the 404 rule rests on: each annex Space, under the visit's authority. */
    method ProbeAnnexSpaces(annexIds: seq<SpaceId>) returns (stop: Option<Result>)
      requires Bound() && annexSpaces == []
      modifies this`annexSpaces, server`live, server`states, server`heard
      ensures Bound() && server.Quiet()
      ensures AllWitnessed(annexSpaces, [], server.heard)
      ensures stop.Some? ==> stop.value == Refused(DiscoveryFailed)
      ensures stop.None? ==> SpaceIdsOf(annexSpaces) == annexIds
      ensures server.healthy ==> stop.None? && AnnexesExact()
    {
      for n := 0 to |annexIds|
        invariant Bound() && server.Quiet()
        invariant AllWitnessed(annexSpaces, [], server.heard)
        invariant SpaceIdsOf(annexSpaces) == annexIds[..n]
        invariant server.healthy ==> AnnexesExact()
      {
        ghost var before := server.heard;
        var reading := server.Probe(annexIds[n], Delegated);
        WitnessesStay(annexSpaces, [], before, server.heard);
        if reading.Unreadable? { return Some(Refused(DiscoveryFailed)); }
        annexSpaces := annexSpaces + [AnnexSpace(annexIds[n], DiscoveryOf(reading))];
      }
      return None;
    }

    /** The acting unlock Space under its own identity, which no refusal is masked from. */
    method ProbeActing() returns (stop: Option<Result>)
      requires Bound()
      modifies this`actingDiscovery, server`live, server`states, server`heard
      ensures Bound() && server.Quiet()
      ensures Witnessed(acting, actingDiscovery, server.heard) && (stop.None? ==> !actingDiscovery.Unknown?)
      ensures stop.Some? ==> stop.value == Refused(DiscoveryFailed)
      ensures actingDiscovery.Absent? ==> acting !in server.live
      ensures server.healthy ==> stop.None?
    {
      actingDiscovery := Unknown;
      var reading := server.Probe(acting, Controller);
      if reading.Unreadable? { return Some(Refused(DiscoveryFailed)); }
      actingDiscovery := DiscoveryOf(reading);
      return None;
    }

    /** One entry's probe, where a GET can be minted from its management capability; `None` on a failed read. */
    method ProbeSibling(entry: Method) returns (discovery: Option<Discovery>)
      requires Bound()
      modifies server`live, server`states, server`heard
      ensures Bound() && server.Quiet()
      ensures discovery.Some? ==> SiblingWitnessed(Sibling(entry, discovery.value), server.heard)
      ensures server.healthy ==> discovery.Some? && SiblingExact(Sibling(entry, discovery.value), server.live)
    {
      if entry.refusal.Some? || entry.probeRefused { return Some(Unknown); }
      var reading := server.Probe(entry.spaceId, Delegated);
      if reading.Unreadable? { return None; }
      return Some(DiscoveryOf(reading));
    }

    /** Every registry entry but the acting credential's own. */
    method ProbeSiblings() returns (stop: Option<Result>)
      requires Bound() && siblings == []
      modifies this`siblings, server`live, server`states, server`heard
      ensures Bound() && server.Quiet()
      ensures AllWitnessed([], siblings, server.heard)
      ensures stop.Some? ==> stop.value == Refused(DiscoveryFailed)
      ensures stop.None? ==> EntriesOf(siblings) == Others(registry, acting)
      ensures server.healthy ==> stop.None? && SiblingsExact()
    {
      for n := 0 to |registry|
        invariant Bound() && server.Quiet()
        invariant AllWitnessed([], siblings, server.heard)
        invariant EntriesOf(siblings) == Others(registry[..n], acting)
        invariant server.healthy ==> SiblingsExact()
      {
        assert registry[..n + 1][..n] == registry[..n];
        var entry := registry[n];
        if entry.spaceId == acting { continue; }
        ghost var before := server.heard;
        var discovery := ProbeSibling(entry);
        WitnessesStay([], siblings, before, server.heard);
        if discovery.None? { return Some(Refused(DiscoveryFailed)); }
        EntriesExtended(siblings, Sibling(entry, discovery.value));
        siblings := siblings + [Sibling(entry, discovery.value)];
      }
      assert registry[..|registry|] == registry;
      return None;
    }

    /** What lets discovery pass on a healthy server, with the account alive. */
    ghost predicate Discoverable(loaded: bool)
      reads this`ladderSeedHeld, server`live
    {
      && (session.browserLocal || (ladderSeedHeld && session.promoted && session.anchored
            && (!session.renewable || session.pointedAnnex in server.live)))
      && (session.promoted ==> (loaded || server.RegistryReachable()) && Covered(session.methods, server.live))
    }

    /** (a2), middle: the ladder gate, the registry, and what the registry cannot name. */
    method DiscoverRegistry() returns (stop: Option<Result>)
      requires Bound() && RegistryHeld() && Current() && (ladderSeedHeld ==> session.ladderSealed)
      requires session.promoted ==> LogVerified(Found) in server.heard
      requires renewalDone ==> !session.browserLocal
      requires server.healthy && renewalDone ==> !session.renewable || session.pointedAnnex in server.live
      modifies this`unnamed, this`registry, this`registryLoaded, this`renewalDone, server`live, server`states, server`heard
      ensures Bound() && RegistryHeld() && server.Quiet()
      ensures stop.Some? ==> stop.value.Refused? && !stop.value.reason.SpaceDeleteFailed?
      ensures stop.None? ==> registryLoaded && Surveyed(session, registry, server.heard, server.states)
      ensures stop.None? && session.promoted ==> NamedByNothing(unnamed) in server.heard
      ensures stop == Some(Refused(RegistryStaleSeal)) ==> RegistryRead(StaleSeal) in server.heard
      ensures stop == Some(Refused(RegistryUnreadable)) ==> RegistryUnread()
      ensures old(registryLoaded) ==> registryLoaded && registry == old(registry)
      ensures server.healthy ==>
        && (stop.None? <==> Discoverable(old(registryLoaded)))
        && (stop.None? && !old(registryLoaded) ==>
              registry == if server.RegistryReachable() then session.methods else [])
    {
      stop := LadderGate();
      if stop.Some? { return; }
      var load := LoadRegistry();
      if !load.Loaded? { return Some(Refused(if load.SealStale? then RegistryStaleSeal else RegistryUnreadable)); }
      if session.promoted {
        var count := server.Coverage(registry);
        if count.None? { return Some(Refused(DiscoveryFailed)); }
        unnamed := count.value;
      }
    }

    /** (a2), last: every Space the walk will address, named and probed. */
    method DiscoverSpaces() returns (stop: Option<Result>)
      requires Bound() && spaces == [] && annexSpaces == [] && siblings == [] && actingDiscovery.Unknown?
      modifies this`spaces, this`annexSpaces, this`siblings, this`actingDiscovery, server`live, server`states, server`heard
      ensures Bound() && server.Quiet()
      ensures AllWitnessed(annexSpaces, siblings, server.heard)
      ensures Witnessed(acting, actingDiscovery, server.heard)
      ensures stop.None? ==> !actingDiscovery.Unknown?
      ensures stop.Some? ==> stop.value == Refused(DiscoveryFailed)
      ensures actingDiscovery.Absent? && stop.None? ==> acting !in server.live
      ensures Names(spaces) == Tagged(Annex, if session.promoted then HostedElsewhere(session.annexHistory) else [])
      ensures forall r :: r in spaces ==> r.outcome == Unreachable("foreign-host")
      ensures stop.None? ==>
        SpaceIdsOf(annexSpaces) == AnnexIds(session) && EntriesOf(siblings) == Others(registry, acting)
      ensures server.healthy ==> stop.None? && AnnexesExact() && SiblingsExact()
    {
      var annexIds := NameAnnexSpaces();
      stop := ProbeAnnexSpaces(annexIds);
      if stop.Some? { return; }
      ghost var annexed := server.heard;
      stop := ProbeActing();
      WitnessesStay(annexSpaces, [], annexed, server.heard);
      if stop.Some? { return; }
      ghost var before := server.heard;
      stop := ProbeSiblings();
      WitnessesStay(annexSpaces, [], before, server.heard);
      assert forall p :: p in before ==> p in server.heard;
    }

    /** (a2) of an account that still stands. */
    method DiscoverAlive() returns (stop: Option<Result>)
      requires Bound() && RegistryHeld() && Current() && (ladderSeedHeld ==> session.ladderSealed)
      requires session.promoted ==> LogVerified(Found) in server.heard
      requires spaces == [] && annexSpaces == [] && siblings == [] && actingDiscovery.Unknown?
      requires renewalDone ==> !session.browserLocal
      requires server.healthy && renewalDone ==> !session.renewable || session.pointedAnnex in server.live
      modifies this`spaces, this`unnamed, this`registry, this`registryLoaded, this`renewalDone,
        this`annexSpaces, this`siblings, this`actingDiscovery, server`live, server`states, server`heard
      ensures Bound() && RegistryHeld() && server.Quiet()
      ensures AllWitnessed(annexSpaces, siblings, server.heard) && Witnessed(acting, actingDiscovery, server.heard)
      ensures stop.Some? ==> stop.value.Refused? && !stop.value.reason.SpaceDeleteFailed?
      ensures stop.None? ==> registryLoaded && Surveyed(session, registry, server.heard, server.states)
      ensures stop.None? && actingDiscovery.Absent? ==> acting !in server.live
      ensures stop.None? ==>
        && Names(spaces) == Tagged(Annex, if session.promoted then HostedElsewhere(session.annexHistory) else [])
        && SpaceIdsOf(annexSpaces) == AnnexIds(session) && EntriesOf(siblings) == Others(registry, acting)
      ensures forall r :: r in spaces ==> r.outcome == Unreachable("foreign-host")
      ensures old(registryLoaded) ==> registry == old(registry)
      ensures server.healthy ==>
        && (stop.None? <==> Discoverable(old(registryLoaded)))
        && (stop.None? ==> AnnexesExact() && SiblingsExact())
        && (stop.None? && !old(registryLoaded) ==>
              registry == if server.RegistryReachable() then session.methods else [])
    {
      stop := DiscoverRegistry();
      if stop.Some? { return; }
      ghost var heard, states := server.heard, server.states;
      stop := DiscoverSpaces();
      SurveyedStays(session, registry, heard, states, server.heard, server.states);
    }

    /** What discovery has to have been told: the account is gone already, or everything of it was surveyed. */
    ghost predicate Discovered(heard: set<Reply>, states: set<set<SpaceId>>)
      reads this`accountAlreadyGone, this`registry
    {
      if accountAlreadyGone then LogVerified(Missing) in heard else Surveyed(session, registry, heard, states)
    }

    /** All that must be known before anything is sent: who asks, what the account holds, what each probe found. */
    ghost predicate Informed(heard: set<Reply>, states: set<set<SpaceId>>)
      reads this`accountAlreadyGone, this`registry, this`annexSpaces, this`siblings
    {
      Entitled(session, acting, heard) && Discovered(heard, states) && AllWitnessed(annexSpaces, siblings, heard)
    }

    lemma InformedStays(heard: set<Reply>, states: set<set<SpaceId>>, more: set<Reply>)
      requires Informed(heard, states) && heard <= more && states <= server.states
      ensures Informed(more, server.states)
    {
    }

    /** (a2): everything the walk must know, read under the visit's own authority before any DELETE. */
    method Discover() returns (stop: Option<Result>)
      requires Bound() && Sound() && RegistryHeld() && Current() && (ladderSeedHeld ==> session.ladderSealed)
      requires spaces == [] && annexSpaces == [] && siblings == [] && !accountGone && !accountAlreadyGone
      requires renewalDone ==> !session.browserLocal
      requires server.healthy && renewalDone ==> !session.renewable || session.pointedAnnex in server.live
      modifies this`spaces, this`unnamed, this`registry, this`registryLoaded, this`renewalDone,
        this`annexSpaces, this`siblings, this`actingDiscovery, this`accountGone, this`accountAlreadyGone,
        server`live, server`states, server`heard
      ensures Bound() && Sound() && RegistryHeld() && server.Quiet()
      ensures AllWitnessed(annexSpaces, siblings, server.heard) && Witnessed(acting, actingDiscovery, server.heard)
      ensures stop.Some? ==> stop.value.Refused? && !stop.value.reason.SpaceDeleteFailed? && !accountGone
      ensures stop.None? ==> Discovered(server.heard, server.states)
      ensures accountAlreadyGone == accountGone
      ensures stop.None? && actingDiscovery.Absent? ==> acting !in server.live
      ensures accountGone ==>
        && spaces == [Report(Account, account, Deleted)] && annexSpaces == [] && siblings == []
        && account !in server.live && session.promoted && registryLoaded == old(registryLoaded)
      ensures stop.None? && !accountGone ==>
        && registryLoaded
        && Names(spaces) == Tagged(Annex, if session.promoted then HostedElsewhere(session.annexHistory) else [])
        && (forall r :: r in spaces ==> r.outcome == Unreachable("foreign-host"))
        && SpaceIdsOf(annexSpaces) == AnnexIds(session) && EntriesOf(siblings) == Others(registry, acting)
      ensures server.healthy ==>
        && (accountGone <==> session.promoted && account !in server.live)
        && (stop.None? <==> accountGone || Discoverable(old(registryLoaded)))
        && (stop.None? ==> AnnexesExact() && SiblingsExact())
        && (stop.None? && !accountGone && !old(registryLoaded) ==>
              registry == if server.RegistryReachable() then session.methods else [])
        && (old(registryLoaded) ==> registry == old(registry))
    {
      actingDiscovery := Unknown;
      stop := VerifyAccountLog();
      if stop.Some? || accountGone { return; }
      stop := DiscoverAlive();
    }

    /** On a healthy server, whatever is not reported unreachable is gone. */
    ghost predicate Gone()
      reads this`spaces, server
    {
      forall r :: r in spaces && !r.outcome.Unreachable? ==> r.spaceId !in server.live
    }

    /** Time passed and requests were sent. */
    twostate predicate Advanced()
      reads server, this`spaces
    {
      && server.Valid() && old(server.states) <= server.states && old(server.sent) <= server.sent
      && server.live <= old(server.live) && old(server.heard) <= server.heard && old(spaces) <= spaces
      && (if old(server.sent) != [] then server.prior == old(server.prior)
          else server.sent != [] ==> old(server.heard) <= server.prior)
    }

    /** Nothing but annex and sibling Spaces was sent a DELETE so far. */
    ghost predicate BeforePivot()
      reads server
    {
      forall e :: e in server.sent ==> e.DeleteSpace? && e.space != account && e.space != acting
    }

    /** One 404-graded DELETE before the pivot, passed exactly when it resolved without a refusal. */
    method DeleteGraded(kind: Kind, space: SpaceId, discovery: Discovery) returns (ok: bool)
      requires Bound() && Sound() && BeforePivot() && !accountGone
      requires (kind.Annex? || kind.Unlock?) && space != account && space != acting
      modifies this`spaces, server
      ensures Bound() && Sound() && BeforePivot() && Advanced()
      ensures |server.sent| == |old(server.sent)| + 1 && server.sent[|old(server.sent)|].DeleteSpace?
      ensures server.sent[|old(server.sent)|].space == space
      ensures ok <==> Passed(server.sent[|old(server.sent)|], discovery)
      ensures spaces == old(spaces) + if !ok then []
        else [Report(kind, space, if server.sent[|old(server.sent)|].answer.Acknowledged? then Deleted else Unconfirmed)]
      ensures server.healthy ==>
        && server.live == old(server.live) - {space}
        && (ok <==> space in old(server.live) || !discovery.Present?)
        && (old(Gone()) ==> Gone())
    {
      var answer := server.Delete(space, Delegated);
      if answer.Lost? { return false; }
      var outcome := Deleted;
      if answer.NotFound? {
        var grade := Grade404(discovery, accountGone);
        if grade.MaskedRefusal? { return false; }
        outcome := if grade.AsDeleted? then Deleted else Unconfirmed;
      }
      spaces := spaces + [Report(kind, space, outcome)];
      return true;
    }

    /** (b3): the annex Spaces. */
    method DeleteAnnexSpaces(ghost ids: seq<SpaceId>) returns (stop: Option<Result>)
      requires Bound() && Sound() && BeforePivot() && !accountGone && server.sent == []
      requires SpaceIdsOf(annexSpaces) == ids && NoRepeats(ids) && account !in ids && acting !in ids
      modifies this`spaces, server
      ensures Bound() && Sound() && BeforePivot() && Advanced()
      ensures stop.Some? ==> stop.value == Refused(SpaceDeleteFailed)
      ensures stop.Some? ==> Contradicted(server.sent, annexSpaces, [])
      ensures stop.None? ==> Names(spaces) == Names(old(spaces)) + Tagged(Annex, ids)
      ensures stop.None? ==> AllResolved(server.sent, annexSpaces, []) && AnnexesSettled(server.sent, annexSpaces)
      ensures server.healthy && old(AnnexesExact() && Gone()) ==>
        stop.None? && Gone() && server.live == old(server.live) - (set id | id in ids)
    {
      ghost var exact := server.healthy && AnnexesExact() && Gone();
      for n := 0 to |annexSpaces|
        invariant Bound() && Sound() && BeforePivot() && Advanced()
        invariant Names(spaces) == Names(old(spaces)) + Tagged(Annex, ids[..n])
        invariant AllResolved(server.sent, annexSpaces, []) && AnnexesSettled(server.sent, annexSpaces[..n])
        invariant exact ==> Gone() && server.live == old(server.live) - (set id | id in ids[..n])
      {
        assert SpaceIdsOf(annexSpaces)[n] == annexSpaces[n].spaceId;
        var ok := DeleteAnnexAt(n, ids);
        if !ok { return Some(Refused(SpaceDeleteFailed)); }
        assert ids[..n + 1] == ids[..n] + [ids[n]];
      }
      assert ids[..|annexSpaces|] == ids && annexSpaces[..|annexSpaces|] == annexSpaces;
      return None;
    }

    method DeleteAnnexAt(n: nat, ghost ids: seq<SpaceId>) returns (ok: bool)
      requires Bound() && Sound() && BeforePivot() && !accountGone
      requires n < |annexSpaces| && n < |ids| && annexSpaces[n].spaceId == ids[n] && ids[n] != account && ids[n] != acting
      modifies this`spaces, server
      ensures Bound() && Sound() && BeforePivot() && Advanced()
      ensures if ok then old(AllResolved(server.sent, annexSpaces, [])) ==> AllResolved(server.sent, annexSpaces, [])
              else Contradicted(server.sent, annexSpaces, [])
      ensures ok && old(AnnexesSettled(server.sent, annexSpaces[..n])) ==> AnnexesSettled(server.sent, annexSpaces[..n + 1])
      ensures ok ==> Names(spaces) == Names(old(spaces)) + [(Annex, ids[n])]
      ensures ok ==> Tagged(Annex, ids[..n] + [ids[n]]) == Tagged(Annex, ids[..n]) + [(Annex, ids[n])]
      ensures server.healthy ==>
        && server.live == old(server.live) - {ids[n]}
        && (ok <==> ids[n] in old(server.live) || !annexSpaces[n].discovery.Present?)
        && (old(Gone()) ==> Gone())
    {
      ghost var before, sent := spaces, server.sent;
      ok := DeleteGraded(Annex, annexSpaces[n].spaceId, annexSpaces[n].discovery);
      assert server.sent == sent + [server.sent[|sent|]] && annexSpaces[n] in annexSpaces;
      if ok {
        assert AnnexResolves(server.sent[|sent|], annexSpaces[n]);
        SettledStays(sent, {}, annexSpaces[..n], [], server.sent, {});
        assert annexSpaces[..n + 1] == annexSpaces[..n] + [annexSpaces[n]];
        Extended(before, spaces, Annex, ids[..n], ids[n]);
      }
    }

    /** One sibling's DELETE. A management capability found dead is a reported residue, not a refusal. */
    method DeleteSibling(s: Sibling) returns (ok: bool)
      requires Bound() && Sound() && BeforePivot() && !accountGone
      requires s.entry.spaceId != account && s.entry.spaceId != acting
      modifies this`spaces, server
      ensures Bound() && Sound() && BeforePivot() && Advanced()
      ensures |server.sent| <= |old(server.sent)| + 1
      ensures |server.sent| == |old(server.sent)| ==> ok && (s.entry.refusal.Some? || Lapsed(s.entry) in server.heard)
      ensures |server.sent| > |old(server.sent)| ==>
        && s.entry.refusal.None? && server.sent[|old(server.sent)|].DeleteSpace?
        && server.sent[|old(server.sent)|].space == s.entry.spaceId
        && (ok <==> Passed(server.sent[|old(server.sent)|], s.discovery))
      ensures if ok then |spaces| == |old(spaces)| + 1 && old(spaces) <= spaces
                && spaces[|old(spaces)|].kind == Unlock && spaces[|old(spaces)|].spaceId == s.entry.spaceId
                && (spaces[|old(spaces)|].outcome.Unreachable? <==> |server.sent| == |old(server.sent)|)
              else spaces == old(spaces)
      ensures s.entry.refusal.Some? ==> server.live == old(server.live) && ok
      ensures server.healthy ==>
        && server.live == old(server.live) - (if s.entry.refusal.None? then {s.entry.spaceId} else {})
        && (ok <==> s.entry.refusal.Some? || s.entry.spaceId in old(server.live) || !s.discovery.Present?)
        && (old(Gone()) ==> Gone())
    {
      if s.entry.refusal.Some? {
        spaces := spaces + [Report(Unlock, s.entry.spaceId, Unreachable(s.entry.refusal.value))];
        return true;
      }
      var lapsed := server.CapabilityLapsed(s.entry);
      if lapsed {
        spaces := spaces + [Report(Unlock, s.entry.spaceId, Unreachable("expired-capability"))];
        return true;
      }
      ok := DeleteGraded(Unlock, s.entry.spaceId, s.discovery);
    }

    /** What a healthy server still holds once the annex Spaces and the first `n` siblings were deleted. */
    ghost predicate OnlyClearedGone(annex: seq<SpaceId>, others: seq<Method>, n: nat, found: set<SpaceId>)
      requires n <= |others|
      reads this`spaces, server
    {
      Gone() && server.live == found - (set id | id in annex) - Cleared(others[..n])
    }

    /** Where the walk stands after its first `n` siblings; `before` is what it had reported. */
    ghost predicate SiblingsPassed(others: seq<Method>, n: nat, before: seq<(Kind, SpaceId)>)
      requires n <= |others| && n <= |siblings|
      reads this`spaces, this`annexSpaces, this`siblings, server
    {
      && Names(spaces) == before + UnlockNames(others[..n])
      && AllResolved(server.sent, annexSpaces, siblings) && AnnexesSettled(server.sent, annexSpaces)
      && SiblingsSettled(server.sent, server.heard, siblings[..n])
    }

    /** As `OnlyClearedGone`, and none of them was a repetition. */
    ghost predicate NoneRepeated(annex: seq<SpaceId>, others: seq<Method>, n: nat, found: set<SpaceId>)
      requires n <= |others|
      reads this`spaces, server
    {
      OnlyClearedGone(annex, others, n, found) && forall j :: 0 <= j < n ==> !RepeatAt(annex, others, found, j)
    }

    /** The next sibling, whatever the server does. */
    method SendSiblingAt(n: nat, ghost others: seq<Method>, ghost before: seq<(Kind, SpaceId)>) returns (ok: bool)
      requires Bound() && Sound() && BeforePivot() && !accountGone
      requires n < |siblings| && n < |others| && siblings[n].entry == others[n] && SiblingsPassed(others, n, before)
      requires others[n].spaceId != account && others[n].spaceId != acting
      modifies this`spaces, server
      ensures Bound() && Sound() && BeforePivot() && Advanced()
      ensures if ok then SiblingsPassed(others, n + 1, before) else Contradicted(server.sent, annexSpaces, siblings)
      ensures server.healthy ==>
        && server.live == old(server.live) - (if others[n].refusal.None? then {others[n].spaceId} else {})
        && (ok <==> others[n].refusal.Some? || others[n].spaceId in old(server.live) || !siblings[n].discovery.Present?)
        && (old(Gone()) ==> Gone())
    {
      ghost var reported, sent, heard := spaces, server.sent, server.heard;
      ok := DeleteSibling(siblings[n]);
      if ok {
        SiblingPassed(siblings[n], sent);
        SettledStays(sent, heard, annexSpaces, siblings[..n], server.sent, server.heard);
        assert siblings[..n + 1] == siblings[..n] + [siblings[n]];
        Extended(reported, spaces, Unlock, [], others[n].spaceId);
        UnlockNamesStep(others, n);
      } else {
        assert siblings[n] in siblings && server.sent == sent + [server.sent[|sent|]];
      }
    }

    method DeleteSiblingAt(n: nat, ghost annex: seq<SpaceId>, ghost others: seq<Method>, ghost found: set<SpaceId>,
                           ghost before: seq<(Kind, SpaceId)>) returns (ok: bool)
      requires Bound() && Sound() && BeforePivot() && !accountGone
      requires n < |siblings| && n < |others| && siblings[n].entry == others[n] && SiblingsPassed(others, n, before)
      requires others[n].spaceId != account && others[n].spaceId != acting
      modifies this`spaces, server
      ensures Bound() && Sound() && BeforePivot() && Advanced()
      ensures if ok then SiblingsPassed(others, n + 1, before) else Contradicted(server.sent, annexSpaces, siblings)
      ensures server.healthy && SiblingExact(siblings[n], found) && old(NoneRepeated(annex, others, n, found)) ==>
        if ok then NoneRepeated(annex, others, n + 1, found) else RepeatAt(annex, others, found, n)
    {
      if server.healthy && SiblingExact(siblings[n], found) && OnlyClearedGone(annex, others, n, found) {
        RepeatRefuses(annex, others, found, n, siblings[n], server.live);
        ClearedStep(others, n);
      }
      ok := SendSiblingAt(n, others, before);
    }

    /** One more DELETE that resolved leaves them all resolved. */
    lemma SiblingPassed(s: Sibling, sent: seq<Effect>)
      requires s in siblings && sent <= server.sent && |server.sent| <= |sent| + 1
      requires |server.sent| > |sent| ==> SiblingResolves(server.sent[|sent|], s)
      ensures AllResolved(sent, annexSpaces, siblings) ==> AllResolved(server.sent, annexSpaces, siblings)
      ensures |server.sent| > |sent| ==> SiblingSettled(server.sent, server.heard, s)
    {
      if |server.sent| > |sent| {
        assert server.sent == sent + [server.sent[|sent|]];
      } else {
        assert server.sent == sent;
      }
    }

    /** (b1): the sibling unlock Spaces. `found` is what the probes saw. */
    method DeleteSiblings(ghost annex: seq<SpaceId>, ghost others: seq<Method>, ghost found: set<SpaceId>) returns (stop: Option<Result>)
      requires Bound() && Sound() && BeforePivot() && !accountGone
      requires |siblings| == |others| && forall i :: 0 <= i < |siblings| ==> siblings[i].entry == others[i]
      requires AllResolved(server.sent, annexSpaces, siblings) && AnnexesSettled(server.sent, annexSpaces)
      requires forall i :: 0 <= i < |others| ==> others[i].spaceId != account && others[i].spaceId != acting
      modifies this`spaces, server
      ensures Bound() && Sound() && BeforePivot() && Advanced()
      ensures if stop.None? then Earned(server.sent, server.heard, annexSpaces, siblings)
              else Contradicted(server.sent, annexSpaces, siblings)
      ensures stop.Some? ==> stop.value == Refused(SpaceDeleteFailed)
      ensures stop.None? ==> Names(spaces) == Names(old(spaces)) + UnlockNames(others)
      ensures
        server.healthy && (forall i :: 0 <= i < |siblings| ==> SiblingExact(siblings[i], found))
          && old(OnlyClearedGone(annex, others, 0, found)) ==>
        && (stop.None? <==> !Repeats(annex, others, found))
        && (stop.None? ==> OnlyClearedGone(annex, others, |siblings|, found))
    {
      ghost var exact := server.healthy && (forall i :: 0 <= i < |siblings| ==> SiblingExact(siblings[i], found))
        && OnlyClearedGone(annex, others, 0, found);
      ghost var before := Names(spaces);
      for n := 0 to |siblings|
        invariant Bound() && Sound() && BeforePivot() && Advanced()
        invariant SiblingsPassed(others, n, before)
        invariant exact ==> NoneRepeated(annex, others, n, found)
      {
        var ok := DeleteSiblingAt(n, annex, others, found, before);
        if !ok { return Some(Refused(SpaceDeleteFailed)); }
      }
      assert others[..|siblings|] == others && siblings[..|siblings|] == siblings;
      return None;
    }

    /** Whether the account Space is known absent: by its world-readable log, or by its own controller. */
    method AccountLogIsGone() returns (gone: bool)
      requires Bound()
      modifies server`live, server`states, server`heard
      ensures Bound() && server.Quiet()
      ensures gone ==> account !in server.live
      ensures if session.promoted then LogHead(!gone) in server.heard
              else exists reading :: Probing(account, reading) in server.heard && gone == reading.Missing?
      ensures server.healthy ==> gone == (account !in server.live)
    {
      if session.promoted {
        var answers := server.LogAnswers();
        return !answers;
      }
      var reading := server.Probe(account, Controller);
      return reading.Missing?;
    }

    /** (b5): the account Space. Past this method the account is gone, or the run ends here. */
    method Pivot() returns (stop: Option<Result>, ghost answered: Answer, ghost probe: Reading, ghost logGone: bool)
      requires Bound() && Sound() && !accountGone
      modifies this`spaces, this`accountGone, server
      ensures Bound() && Sound() && Advanced()
      ensures server.sent == old(server.sent) + [DeleteSpace(account, account in old(server.live), answered)]
      ensures stop == PivotVerdict(answered, probe, logGone)
      ensures answered.Lost? ==> Probing(account, probe) in server.heard
      ensures session.promoted && !answered.Acknowledged? && (answered.Lost? ==> probe.Missing?) ==>
        LogHead(!logGone) in server.heard
      ensures accountGone <==> stop.None?
      ensures stop.None? ==> account !in server.live && spaces == old(spaces) + [Report(Account, account, Deleted)]
      ensures stop == Some(RunFailed) ==> spaces == old(spaces)
      ensures stop == Some(Refused(SpaceDeleteFailed)) ==> spaces == old(spaces) + [Report(Account, account, Unconfirmed)]
      ensures server.healthy ==> stop.None? && server.live == old(server.live) - {account} && (old(Gone()) ==> Gone())
    {
      var auth := if session.promoted then Delegated else Controller;
      probe, logGone := Unreadable, false;
      var answer := server.Delete(account, auth);
      answered := answer;
      if answer.Lost? {
        var probed := server.Probe(account, auth);
        probe := probed;
        if !probed.Missing? { return Some(RunFailed), answered, probe, logGone; }
      }
      var gone := true;
      if !answer.Acknowledged? {
        gone := AccountLogIsGone();
        logGone := gone;
      }
      if answer.Lost? && !gone { return Some(RunFailed), answered, probe, logGone; }
      if !gone {
        spaces := spaces + [Report(Account, account, Unconfirmed)];
        return Some(Refused(SpaceDeleteFailed)), answered, probe, logGone;
      }
      accountGone := true;
      spaces := spaces + [Report(Account, account, Deleted)];
      stop := None;
    }

    /** Its DELETE, and one more when the first had no answer. */
    method DeleteActingSpace() returns (answer: Answer)
      requires Bound() && Sound() && account !in server.live
      modifies server
      ensures Bound() && Sound() && Advanced()
      ensures Concludes(old(server.sent), server.sent, acting)
      ensures var sent := server.sent[|old(server.sent)|..];
              && |sent| >= 1 && sent[0].DeleteSpace? && sent[0].space == acting
              && |sent| == (if sent[0].answer.Lost? then 2 else 1)
              && sent[|sent| - 1].DeleteSpace? && sent[|sent| - 1].space == acting && sent[|sent| - 1].answer == answer
      ensures !answer.Lost? ==> acting !in server.live
      ensures server.healthy ==> !answer.Lost? && server.live == old(server.live) - {acting}
    {
      answer := server.Delete(acting, Controller);
      if answer.Lost? { answer := server.Delete(acting, Controller); }
    }

    /** (b6): the acting credential's unlock Space, with one retry of a lost answer, then its local state. */
    method DeleteActing()
      requires Bound() && Sound() && accountGone && account !in server.live
      requires actingDiscovery.Absent? ==> acting !in server.live
      modifies this`spaces, server
      ensures Bound() && Sound() && Advanced()
      ensures |spaces| == |old(spaces)| + 1 && old(spaces) <= spaces
      ensures spaces[|old(spaces)|].kind == ActingUnlock && spaces[|old(spaces)|].spaceId == acting
      ensures !spaces[|old(spaces)|].outcome.Unreachable? ==> acting !in server.live
      ensures Concludes(old(server.sent), server.sent, acting) && DropUnlockState(false) in server.sent
      ensures ActingSent(server.sent[|old(server.sent)|..], acting)
      ensures spaces[|old(spaces)|].outcome.Unreachable? <==> server.sent[|server.sent| - 2].answer.Lost?
      ensures spaces[|old(spaces)|].outcome.Deleted? <==>
        server.sent[|server.sent| - 2].answer.Acknowledged?
        || (server.sent[|server.sent| - 2].answer.NotFound? && actingDiscovery.Absent?)
      ensures server.healthy ==> acting !in server.live && server.live == old(server.live) - {acting}
    {
      var answer := DeleteActingSpace();
      ghost var deletes := server.sent[|old(server.sent)|..];
      var outcome :=
        match answer
        case Acknowledged => Deleted
        case NotFound => if Grade404(actingDiscovery, accountGone).AsDeleted? then Deleted else Unconfirmed
        case Lost => Unreachable("no answer");
      spaces := spaces + [Report(ActingUnlock, acting, outcome)];
      server.Record(DropUnlockState(account in server.live));
      assert server.sent[|old(server.sent)|..] == deletes + [DropUnlockState(false)];
      assert server.sent[|server.sent| - 2] == deletes[|deletes| - 1];
    }

    /** (w): the local half. Past the pivot a surviving replica is a residue, not a failure. */
    method WipeLocalState() returns (result: Result, ghost wipe: ReplicaWipe)
      requires Bound() && Sound()
      modifies this`localWipeNarrowed, server`sent, server`prior, server`heard
      ensures Bound() && Sound() && Advanced()
      ensures server.sent == old(server.sent) + [WipeLocal(account in server.live)]
      ensures server.heard == old(server.heard) + {ReplicasWiped(wipe)}
      ensures localWipeNarrowed == !registryLoaded
      ensures accountGone ==> result.RunDeleted? || result.RunDeletedUnverified?
      ensures accountGone ==> (result.RunDeleted? <==> wipe.AllDropped? && registryLoaded)
      ensures !accountGone ==> (result.RunFailed? <==> wipe.SomeFailed?)
    {
      server.Record(WipeLocal(account in server.live));
      var wiped := server.WipeReplicas();
      wipe := wiped;
      localWipeNarrowed := !registryLoaded;
      if wiped.SomeFailed? { return if accountGone then RunDeletedUnverified else RunFailed, wipe; }
      if wiped.SomeUnverified? || localWipeNarrowed { return RunDeletedUnverified, wipe; }
      return RunDeleted, wipe;
    }

    ghost predicate ProbesExact()
      reads this`spaces, this`annexSpaces, this`siblings, server
    {
      server.healthy && AnnexesExact() && SiblingsExact() && Gone()
    }

    /** (b3), (b1), (b5): everything up to and including the pivot. */
    method DeleteOwnedSpaces(ghost annex: seq<SpaceId>, ghost others: seq<Method>) returns (stop: Option<Result>)
      requires Bound() && Sound() && !accountGone && server.sent == []
      requires SpaceIdsOf(annexSpaces) == annex && NoRepeats(annex) && account !in annex && acting !in annex
      requires EntriesOf(siblings) == others
      requires forall i :: 0 <= i < |others| ==> others[i].spaceId != account && others[i].spaceId != acting
      modifies this`spaces, this`accountGone, server
      ensures Bound() && Sound() && Advanced()
      ensures PivotIsEarned(server.sent, server.heard, account, annexSpaces, siblings)
      ensures stop.Some? && !AccountDeleteSent(server.sent, account) ==> Contradicted(server.sent, annexSpaces, siblings)
      ensures accountGone <==> stop.None?
      ensures stop.Some? ==> stop.value.RunFailed? || stop.value == Refused(SpaceDeleteFailed)
      ensures stop.None? ==> account !in server.live && AccountDeleteSent(server.sent, account)
      ensures stop.None? ==>
        Names(spaces) == Names(old(spaces)) + Tagged(Annex, annex) + UnlockNames(others) + [(Account, account)]
      ensures AccountDeleteSent(server.sent, account) ==>
        Names(old(spaces)) + Tagged(Annex, annex) + UnlockNames(others) <= Names(spaces)
      ensures NothingActing(server.sent, acting) && PivotComesLast(server.sent, account, acting)
      ensures old(ProbesExact()) ==> (stop.None? <==> !Repeats(annex, others, old(server.live)))
      ensures old(ProbesExact()) && stop.None? ==> Gone() && (acting in old(server.live) ==> acting in server.live)
      ensures old(ProbesExact()) && stop.None? ==> server.live !! (set id | id in annex) + Cleared(others)
    {
      ghost var found := server.live;
      ghost var exact := ProbesExact();
      stop := DeleteAnnexSpaces(annex);
      if stop.Some? { return; }
      ResolvedWiden(server.sent, annexSpaces, siblings);
      assert exact ==> OnlyClearedGone(annex, others, 0, found);
      assert forall i :: 0 <= i < |siblings| ==> siblings[i].entry == EntriesOf(siblings)[i];
      stop := DeleteSiblings(annex, others, found);
      if stop.Some? { return; }
      if exact { ActingSurvives(annex, others, acting, found, server.live); }
      assert others[..|others|] == others;
      stop := Strike();
    }

    /** (b5), once everything before it resolved. */
    method Strike() returns (stop: Option<Result>)
      requires Bound() && Sound() && BeforePivot() && !accountGone
      requires Earned(server.sent, server.heard, annexSpaces, siblings)
      modifies this`spaces, this`accountGone, server
      ensures Bound() && Sound() && Advanced()
      ensures PivotIsEarned(server.sent, server.heard, account, annexSpaces, siblings) && AccountDeleteSent(server.sent, account)
      ensures accountGone <==> stop.None?
      ensures stop.Some? ==> stop.value.RunFailed? || stop.value == Refused(SpaceDeleteFailed)
      ensures stop.None? ==> account !in server.live
      ensures Names(old(spaces)) <= Names(spaces)
      ensures stop.None? ==> Names(spaces) == Names(old(spaces)) + [(Account, account)]
      ensures NothingActing(server.sent, acting) && PivotComesLast(server.sent, account, acting)
      ensures server.healthy ==> stop.None? && server.live == old(server.live) - {account} && (old(Gone()) ==> Gone())
    {
      ghost var before, sentBefore, heard := spaces, server.sent, server.heard;
      ghost var answered, probe, logGone;
      stop, answered, probe, logGone := Pivot();
      NamesExtended(before, spaces);
      assert server.sent[|sentBefore|].space == account && server.sent[..|sentBefore|] == sentBefore;
      EarnedAtPivot(sentBefore, heard, server.sent[|sentBefore|], server.heard, account, annexSpaces, siblings);
    }

    /** Why a deletion is only reported unverified. */
    ghost predicate UnverifiedFor()
      reads this`registryLoaded, server`heard
    {
      !registryLoaded || ReplicasWiped(SomeUnverified) in server.heard || ReplicasWiped(SomeFailed) in server.heard
    }

    /** (b6) and (w), with the account known gone. */
    method Conclude() returns (result: Result)
      requires Bound() && Sound() && accountGone && account !in server.live
      requires actingDiscovery.Absent? ==> acting !in server.live
      modifies this`spaces, this`localWipeNarrowed, server
      ensures Bound() && Sound() && Advanced()
      ensures Concludes(old(server.sent), server.sent, acting)
      ensures DropUnlockState(false) in server.sent && WipeLocal(false) in server.sent
      ensures |server.sent| > |old(server.sent)|
              && ActingSent(server.sent[|old(server.sent)|..|server.sent| - 1], acting)
      ensures Names(spaces) == Names(old(spaces)) + [(ActingUnlock, acting)]
      ensures result.RunDeleted? || result.RunDeletedUnverified?
      ensures localWipeNarrowed == !registryLoaded && (result.RunDeleted? ==> !localWipeNarrowed)
      ensures result.RunDeleted? ==> ReplicasWiped(AllDropped) in server.heard
      ensures result.RunDeletedUnverified? ==> UnverifiedFor()
      ensures server.healthy && old(Gone()) ==> Gone() && acting !in server.live
    {
      ghost var before := spaces;
      DeleteActing();
      NamesExtended(before, spaces);
      ghost var sent := server.sent;
      ghost var wipe;
      result, wipe := WipeLocalState();
      assert server.sent[..|sent|] == sent;
    }

    /**
      From which of the states a run passes through before its acting unlock Space is gone a healthy run gets
      through: from all of them, where the records the coverage pass reads are still there.
     */
    lemma EveryTornStateConverges()
      requires Bound() && session.browserLocal && !session.passkey && session.secretRight
      requires acting in server.initial
      requires !Repeats(AnnexIds(session), Others(session.methods, acting), server.initial)
      ensures forall torn :: torn in server.states && (acting in torn || account in torn) ==>
        (Converges(session, account, acting, torn)
         <==> (account in torn && session.promoted ==> Covered(session.methods, torn)))
    {
      forall torn | torn in server.states && (acting in torn || account in torn)
        ensures Converges(session, account, acting, torn)
                <==> (account in torn && session.promoted ==> Covered(session.methods, torn))
      {
        TornStateConverges(session, account, acting, server.initial, torn);
      }
    }

    /** (a) and (a2). */
    method Prepare() returns (stop: Option<Result>)
      requires Bound() && Sound()
      requires spaces == [] && annexSpaces == [] && siblings == [] && actingDiscovery.Unknown?
      requires registry == [] && !registryLoaded && !renewalDone && !accountGone && !accountAlreadyGone
      modifies this, server`live, server`states, server`heard
      ensures Bound() && Sound() && RegistryHeld() && server.Quiet()
      ensures AllWitnessed(annexSpaces, siblings, server.heard) && Witnessed(acting, actingDiscovery, server.heard)
      ensures stop.Some? ==> !accountGone && !stop.value.RunDeleted? && !stop.value.RunDeletedUnverified?
      ensures stop.None? ==> Entitled(session, acting, server.heard) && Discovered(server.heard, server.states)
      ensures accountAlreadyGone == accountGone
      ensures stop.None? && actingDiscovery.Absent? ==> acting !in server.live
      ensures accountGone ==>
        account !in server.live && spaces == [Report(Account, account, Deleted)] && annexSpaces == [] && siblings == []
      ensures stop.None? && !accountGone ==>
        && Names(spaces) == Tagged(Annex, if session.promoted then HostedElsewhere(session.annexHistory) else [])
        && AllNamed() && forall r :: r in spaces ==> r.outcome == Unreachable("foreign-host")
      ensures server.healthy ==> (stop.None? <==> Ready(session, account, acting, server.live))
      ensures server.healthy && stop.None? && !accountGone ==>
        ProbesExact() && registry == if account in server.live then session.methods else []
      ensures server.healthy && accountGone ==> Gone()
    {
      stop := Authenticate();
      if stop.Some? { return; }
      stop := Discover();
    }

    /** The walk holds every annex Space and every other entry it has to address. */
    ghost predicate AllNamed()
      reads this`annexSpaces, this`siblings, this`registry
    {
      SpaceIdsOf(annexSpaces) == AnnexIds(session) && EntriesOf(siblings) == Others(registry, acting)
    }

    /** What every way out means for the account and for the way back in; `named` is what comes before the pivot. */
    ghost predicate Ended(result: Result, named: seq<(Kind, SpaceId)>)
      reads this, server
    {
      && PivotIsEarned(server.sent, server.heard, account, annexSpaces, siblings)
      && PivotComesLast(server.sent, account, acting)
      && (forall e :: e in server.sent ==> !LocksOut(e, acting))
      && (accountGone <==> result.RunDeleted? || result.RunDeletedUnverified?)
      && (if accountGone then
            && account !in server.live && DropUnlockState(false) in server.sent && WipeLocal(false) in server.sent
            && localWipeNarrowed == !registryLoaded && (result.RunDeletedUnverified? ==> UnverifiedFor())
            && (result.RunDeleted? ==> !localWipeNarrowed && ReplicasWiped(AllDropped) in server.heard)
            && Names(spaces) == (if accountAlreadyGone then [] else named) + [(Account, account)] + [(ActingUnlock, acting)]
          else
            && NothingActing(server.sent, acting)
            && (server.sent != [] ==> result.RunFailed? || result == Refused(SpaceDeleteFailed)))
      && (AccountDeleteSent(server.sent, account) ==> named <= Names(spaces))
    }

    /** A run that stops before it sends anything. */
    lemma StoppedEarly(result: Result)
      requires server.sent == [] && !accountGone && !result.RunDeleted? && !result.RunDeletedUnverified?
      ensures forall named :: Ended(result, named)
    {
    }

    /** Everything after discovery, with the account still standing when discovery ended. */
    method DeleteAll(ghost annex: seq<SpaceId>, ghost others: seq<Method>) returns (result: Result)
      requires Bound() && Sound() && !accountGone && !accountAlreadyGone && server.sent == []
      requires SpaceIdsOf(annexSpaces) == annex && NoRepeats(annex) && account !in annex && acting !in annex
      requires EntriesOf(siblings) == others
      requires forall i :: 0 <= i < |others| ==> others[i].spaceId != account && others[i].spaceId != acting
      requires actingDiscovery.Absent? ==> acting !in server.live
      modifies this`spaces, this`accountGone, this`localWipeNarrowed, server
      ensures Bound() && Sound() && Advanced()
      ensures Ended(result, Names(old(spaces)) + Tagged(Annex, annex) + UnlockNames(others))
      ensures old(ProbesExact()) ==> (accountGone <==> !Repeats(annex, others, old(server.live)))
      ensures old(ProbesExact()) && accountGone ==> Gone() && acting !in server.live
      ensures old(ProbesExact()) && accountGone ==> server.live !! (set id | id in annex) + Cleared(others)
    {
      var stop := DeleteOwnedSpaces(annex, others);
      ghost var before, heard := server.sent, server.heard;
      if stop.Some? {
        ConclusionIsSafe(before, before, account, acting);
        return stop.value;
      }
      result := Conclude();
      ConclusionIsSafe(before, server.sent, account, acting);
      EarnedStays(before, heard, server.sent, server.heard, account, acting, annexSpaces, siblings);
    }

    /** The run after discovery: the already-gone arm, or the whole walk. */
    method Proceed(ghost annex: seq<SpaceId>, ghost others: seq<Method>) returns (result: Result)
      requires Bound() && Sound() && server.sent == [] && accountGone == accountAlreadyGone
      requires accountGone ==> account !in server.live && spaces == [Report(Account, account, Deleted)]
      requires !accountGone ==> SpaceIdsOf(annexSpaces) == annex && EntriesOf(siblings) == others
      requires NoRepeats(annex) && account !in annex && acting !in annex
      requires forall i :: 0 <= i < |others| ==> others[i].spaceId != account && others[i].spaceId != acting
      requires actingDiscovery.Absent? ==> acting !in server.live
      modifies this`spaces, this`accountGone, this`localWipeNarrowed, server
      ensures Bound() && Sound() && Advanced()
      ensures Ended(result, Names(old(spaces)) + Tagged(Annex, annex) + UnlockNames(others))
      ensures accountAlreadyGone ==> accountGone && !AccountDeleteSent(server.sent, account)
      ensures !accountAlreadyGone && old(ProbesExact()) ==>
        && (accountGone <==> !Repeats(annex, others, old(server.live)))
        && (accountGone ==> server.live !! (set id | id in annex) + Cleared(others))
      ensures server.healthy && old(Gone() && (accountGone || ProbesExact())) && accountGone ==>
        Gone() && acting !in server.live
    {
      if accountGone {
        result := Conclude();
        ConclusionIsSafe([], server.sent, account, acting);
        EarnedStays([], {}, server.sent, server.heard, account, acting, annexSpaces, siblings);
      } else {
        result := DeleteAll(annex, others);
      }
    }

    ghost predicate Tells(kind: Kind, id: SpaceId)
      reads this`spaces
    {
      exists r :: r in spaces && r.kind == kind && r.spaceId == id
    }

    /** What the report of a deletion names, in the session's own terms. */
    ghost predicate ToldOfAll()
      reads this`spaces, this`registry
    {
      && (session.promoted ==>
            && (forall r :: r in session.annexHistory ==>
                  if r.here then Tells(Annex, r.spaceId)
                  else Report(Annex, r.spaceId, Unreachable("foreign-host")) in spaces)
            && (session.sibling.Some? ==> Tells(Annex, session.sibling.value)))
      && (forall m :: m in registry && m.spaceId != acting ==> Tells(Unlock, m.spaceId))
      && Tells(Account, account) && Tells(ActingUnlock, acting)
    }

    /** What a healthy server no longer holds then. */
    ghost predicate NothingLeft()
      reads server
    {
      && (session.promoted ==>
            && (forall r :: r in session.annexHistory && r.here ==> r.spaceId !in server.live)
            && (session.sibling.Some? ==> session.sibling.value !in server.live))
      && (forall m :: m in session.methods && m.spaceId != acting && m.refusal.None? ==> m.spaceId !in server.live)
      && account !in server.live
    }

    lemma TellsOfAll(foreign: seq<Report>)
      requires foreign <= spaces && forall r :: r in foreign ==> r.outcome == Unreachable("foreign-host")
      requires Names(foreign) == Tagged(Annex, if session.promoted then HostedElsewhere(session.annexHistory) else [])
      requires Names(spaces) == NamesBeforePivot(session, acting, registry) + [(Account, account)] + [(ActingUnlock, acting)]
      ensures ToldOfAll()
    {
      forall kind, id | (kind, id) in Names(spaces) ensures Tells(kind, id) { NamesTell(spaces, kind, id); }
      assert (Account, account) in Names(spaces) && (ActingUnlock, acting) in Names(spaces);
      forall m | m in registry && m.spaceId != acting ensures Tells(Unlock, m.spaceId) {
        OthersRead(registry, acting);
        UnlockTell(Others(registry, acting), m);
      }
      forall id | id in AnnexIds(session) ensures Tells(Annex, id) { TaggedTell(Annex, AnnexIds(session), id); }
      if session.promoted {
        if session.sibling.Some? { AnnexIdsRead(session, session.sibling.value); }
        forall r | r in session.annexHistory
          ensures if r.here then Tells(Annex, r.spaceId)
                  else Report(Annex, r.spaceId, Unreachable("foreign-host")) in spaces
        {
          AnnexIdsRead(session, r.spaceId);
          if !r.here { ForeignReported(foreign, r); }
        }
      }
    }

    lemma ForeignReported(foreign: seq<Report>, r: AnnexRef)
      requires forall f :: f in foreign ==> f.outcome == Unreachable("foreign-host")
      requires Names(foreign) == Tagged(Annex, HostedElsewhere(session.annexHistory))
      requires r in session.annexHistory && !r.here
      ensures Report(Annex, r.spaceId, Unreachable("foreign-host")) in foreign
    {
      var at := HostedElsewhereReads(session.annexHistory);
      var i :| 0 <= i < |session.annexHistory| && session.annexHistory[i] == r;
      var n :| 0 <= n < |at| && at[n] == i;
      assert Names(foreign)[n] == (Annex, r.spaceId);
    }

    lemma LeavesNothing()
      requires server.live !! (set id | id in AnnexIds(session)) + Cleared(Others(session.methods, acting))
      requires account !in server.live
      ensures NothingLeft()
    {
      OthersRead(session.methods, acting);
      forall r | session.promoted && r in session.annexHistory && r.here ensures r.spaceId !in server.live {
        AnnexIdsRead(session, r.spaceId);
      }
      if session.promoted && session.sibling.Some? { AnnexIdsRead(session, session.sibling.value); }
    }

    /** The run once it knows what it will address. */
    method Walk() returns (result: Result)
      requires Bound() && Sound() && Apart(session, account, acting) && RegistryHeld() && server.sent == []
      requires accountGone == accountAlreadyGone
      requires accountGone ==> account !in server.live && spaces == [Report(Account, account, Deleted)]
      requires !accountGone ==>
        && Names(spaces) == Tagged(Annex, if session.promoted then HostedElsewhere(session.annexHistory) else [])
        && AllNamed() && forall r :: r in spaces ==> r.outcome == Unreachable("foreign-host")
      requires actingDiscovery.Absent? ==> acting !in server.live
      modifies this`spaces, this`accountGone, this`localWipeNarrowed, server
      ensures Bound() && Sound() && Advanced()
      ensures Ended(result, NamesBeforePivot(session, acting, registry))
      ensures !accountAlreadyGone && old(ProbesExact()) ==>
        (accountGone <==> !Repeats(AnnexIds(session), Others(registry, acting), old(server.live)))
      ensures accountAlreadyGone ==> accountGone
      ensures accountGone && !accountAlreadyGone ==> ToldOfAll()
      ensures !accountAlreadyGone && old(ProbesExact()) && accountGone && registry == session.methods ==> NothingLeft()
      ensures server.healthy && old(Gone() && (accountGone || ProbesExact())) && accountGone ==>
        Gone() && acting !in server.live
    {
      AnnexIdsDiffer(session);
      OthersApart(session, registry, account, acting);
      ghost var foreign := spaces;
      result := Proceed(AnnexIds(session), Others(registry, acting));
      if accountGone && !accountAlreadyGone { TellsOfAll(foreign); }
      if server.live !! (set id | id in AnnexIds(session)) + Cleared(Others(session.methods, acting)) && accountGone {
        LeavesNothing();
      }
    }

    /** Every way out of a run. */
    method Run() returns (result: Result)
      requires Bound() && Apart(session, account, acting) && server.sent == []
      requires spaces == [] && annexSpaces == [] && siblings == [] && actingDiscovery.Unknown?
      requires registry == [] && !registryLoaded && !renewalDone && !accountGone && !accountAlreadyGone
      modifies this, server
      ensures Bound() && Sound() && RegistryHeld()
      ensures Ended(result, NamesBeforePivot(session, acting, registry))
      // Nothing is sent before the walk is authenticated, and has discovered every Space it will address.
      ensures server.sent != [] ==> Informed(server.prior, server.states) && (accountAlreadyGone || AllNamed())
      ensures server.healthy ==> (accountGone <==> Converges(session, account, acting, old(server.live)))
      ensures server.healthy && accountGone ==> Gone() && account !in server.live && acting !in server.live
      // In the session's own terms: what a deletion reports, and what it leaves on a healthy server.
      ensures accountGone && !accountAlreadyGone ==> ToldOfAll()
      ensures server.healthy && accountGone && account in old(server.live) ==> !accountAlreadyGone && NothingLeft()
    {
      var stop := Prepare();
      if stop.Some? {
        StoppedEarly(stop.value);
        return stop.value;
      }
      ghost var heard, states := server.heard, server.states;
      result := Walk();
      if server.sent != [] { InformedStays(heard, states, server.prior); }
    }
  }
}
