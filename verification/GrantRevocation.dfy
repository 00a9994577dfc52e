/**
  Revoking a party's storage grants while consents, renewals, restores and other revocations go on. The
  directory of connections is the shared state; every write to it is one event, and a run of any mix of
  parties is a sequence of events.
 */
module GrantRevocation {
  import opened Common

  type Did = string
  type ZcapId = string
  type Collection = string
  type AppKey = string

  /** A recorded grant; `sound` is whether it passes the reader's checks, so that anyone acts on it. */
  datatype Grant = Grant(id: ZcapId, target: Option<Collection>, sound: bool)

  datatype Entry = Entry(grants: seq<Grant>, appKey: Option<AppKey>, channel: bool, retired: bool, declined: bool)

  /**
    `dead` are the capabilities that are revoked, expired, or no longer verify; `recipients` the parties that
    some collection's current epoch lists.
   */
  datatype World = World(entries: map<Did, Entry>, dead: set<ZcapId>, recipients: set<(Did, Collection)>, keys: set<AppKey>)

  /** One durable write. `Escrow` is a consent's late half, which admits a party to a collection. */
  datatype Event =
    | Consent(did: Did, merged: seq<Grant>, key: Option<AppKey>)
    | Renew(did: Did, more: seq<Grant>)
    | Restore(did: Did, more: seq<Grant>)
    | Decline(did: Did)
    | Escrow(did: Did, collection: Collection)
    | Rotate(did: Did, collection: Collection)
    | Kill(ids: set<ZcapId>)
    | DropKey(dropped: AppKey)
    | ClearChannel(did: Did)
    | Retire(did: Did, handled: set<ZcapId>)

  const BLANK := Entry([], None, false, false, false)

  function SoundIds(grants: seq<Grant>): set<ZcapId> {
    set g | g in grants && g.sound :: g.id
  }

  function Ids(grants: seq<Grant>): set<ZcapId> {
    set g | g in grants :: g.id
  }

  function EntryAt(w: World, did: Did): Entry {
    if did in w.entries then w.entries[did] else BLANK
  }

  /** A fresh consent: it merges its grants, un-retires the entry and clears its decline marker. */
  function Consented(entry: Entry, merged: seq<Grant>, key: Option<AppKey>): Entry {
    Entry(entry.grants + merged, if key.Some? then key else entry.appKey, true, false, false)
  }

  /** Whether the compare-and-swap of a retirement goes through. */
  predicate Retirable(entry: Entry, handled: set<ZcapId>) {
    SoundIds(entry.grants) <= handled
  }

  /** What one write makes of the world. A retirement's own compare-and-swap looks at nothing but the entry. */
  function Apply(w: World, e: Event): World {
    match e
    case Consent(did, merged, key) =>
      w.(entries := w.entries[did := Consented(EntryAt(w, did), merged, key)],
         keys := w.keys + if key.Some? then {key.value} else {})
    case Renew(did, more) =>
      if did in w.entries && !w.entries[did].retired && w.entries[did].channel then
        w.(entries := w.entries[did := w.entries[did].(grants := w.entries[did].grants + more)])
      else w
    case Restore(did, more) =>
      if EntryAt(w, did).retired then w
      else w.(entries := w.entries[did := Consented(EntryAt(w, did), more, None)])
    case Decline(did) =>
      if did in w.entries then w.(entries := w.entries[did := w.entries[did].(declined := true)]) else w
    case Escrow(did, collection) => w.(recipients := w.recipients + {(did, collection)})
    case Rotate(did, collection) => w.(recipients := w.recipients - {(did, collection)})
    case Kill(ids) => w.(dead := w.dead + ids)
    case DropKey(key) => w.(keys := w.keys - {key})
    case ClearChannel(did) =>
      if did in w.entries then w.(entries := w.entries[did := w.entries[did].(channel := false)]) else w
    case Retire(did, handled) =>
      if did in w.entries && Retirable(w.entries[did], handled) then
        w.(entries := w.entries[did := w.entries[did].(grants := [], appKey := None, retired := true)])
      else w
  }

  /** A consent is heard: everything it merges is held, the channel is open and nothing marks the entry. */
  lemma ConsentOpens(w: World, did: Did, merged: seq<Grant>, key: Option<AppKey>)
    ensures var entry := EntryAt(Apply(w, Consent(did, merged, key)), did);
            && (forall g :: g in entry.grants <==> g in EntryAt(w, did).grants || g in merged)
            && entry.channel && !entry.retired && !entry.declined
            && (key.Some? ==> entry.appKey == key && key.value in Apply(w, Consent(did, merged, key)).keys)
            && (key.None? ==> entry.appKey == EntryAt(w, did).appKey)
  {
  }

  /** So is a restore, unless the entry is retired; a renewal only where the channel is open as well. */
  lemma RestoreAndRenewalAdd(w: World, did: Did, more: seq<Grant>)
    ensures var restored := EntryAt(Apply(w, Restore(did, more)), did);
            if EntryAt(w, did).retired then restored == EntryAt(w, did)
            else (forall g :: g in restored.grants <==> g in EntryAt(w, did).grants || g in more)
                 && restored.channel && !restored.retired && !restored.declined
    ensures var renewed := EntryAt(Apply(w, Renew(did, more)), did);
            if EntryAt(w, did).retired || !EntryAt(w, did).channel then renewed == EntryAt(w, did)
            else forall g :: g in renewed.grants <==> g in EntryAt(w, did).grants || g in more
  {
  }

  /** What the withdrawing writes do to an entry that is there. */
  lemma WithdrawalsTake(w: World, did: Did, handled: set<ZcapId>)
    requires did in w.entries
    ensures EntryAt(Apply(w, ClearChannel(did)), did) == w.entries[did].(channel := false)
    ensures EntryAt(Apply(w, Decline(did)), did) == w.entries[did].(declined := true)
    ensures var retired := EntryAt(Apply(w, Retire(did, handled)), did);
            if forall g :: g in w.entries[did].grants && g.sound ==> g.id in handled then
              retired == w.entries[did].(grants := [], appKey := None, retired := true) && Gone(retired)
            else retired == w.entries[did]
  {
    if forall g :: g in w.entries[did].grants && g.sound ==> g.id in handled {
    } else {
      var g :| g in w.entries[did].grants && g.sound && g.id !in handled;
      assert g.id in SoundIds(w.entries[did].grants);
    }
  }

  /** What the writes outside the directory do: one admission, one capability's or one key's standing each. */
  lemma ServerWritesRead(w: World, did: Did, collection: Collection, ids: set<ZcapId>, key: AppKey)
    ensures forall r :: r in Apply(w, Escrow(did, collection)).recipients <==> r in w.recipients || r == (did, collection)
    ensures forall r :: r in Apply(w, Rotate(did, collection)).recipients <==> r in w.recipients && r != (did, collection)
    ensures forall id :: id in Apply(w, Kill(ids)).dead <==> id in w.dead || id in ids
    ensures forall k :: k in Apply(w, DropKey(key)).keys <==> k in w.keys && k != key
  {
  }

  /** No write touches another party's entry, nor brings an entry about for a party it does not consent to. */
  lemma OthersUntouched(w: World, e: Event, did: Did)
    requires match e
             case Kill(_) => true
             case DropKey(_) => true
             case Escrow(_, _) => true
             case Rotate(_, _) => true
             case _ => e.did != did
    ensures EntryAt(Apply(w, e), did) == EntryAt(w, did) && (did in Apply(w, e).entries <==> did in w.entries)
  {
  }

  /** A run of any mix of parties: every state it went through, and the write between each and the next. */
  datatype Trace = Trace(states: seq<World>, events: seq<Event>)

  ghost predicate Chain(t: Trace) {
    && |t.states| == |t.events| + 1
    && forall n :: 0 <= n < |t.events| ==> t.states[n + 1] == Apply(t.states[n], t.events[n])
  }

  /** What the revocation protocol adds: a retirement is sent only with handled grants that are dead by then. */
  predicate Truthful(w: World, e: Event) {
    e.Retire? ==> e.handled <= w.dead
  }

  ghost predicate Honest(t: Trace)
    requires Chain(t)
  {
    forall n :: 0 <= n < |t.events| ==> Truthful(t.states[n], t.events[n])
  }

  ghost predicate Run(t: Trace) {
    Chain(t) && Honest(t)
  }

  function Last(t: Trace): World
    requires |t.states| > 0
  {
    t.states[|t.states| - 1]
  }

  function Extended(t: Trace, e: Event): Trace
    requires |t.states| > 0
  {
    Trace(t.states + [Apply(Last(t), e)], t.events + [e])
  }

  predicate Extends(t: Trace, more: Trace) {
    t.states <= more.states && t.events <= more.events
  }

  lemma ExtendedRuns(t: Trace, e: Event)
    requires Run(t) && Truthful(Last(t), e)
    ensures Run(Extended(t, e)) && Last(Extended(t, e)) == Apply(Last(t), e) && Extends(t, Extended(t, e))
    ensures Last(t).dead <= Last(Extended(t, e)).dead
  {
  }

  /** No interleaving brings a dead capability back. */
  lemma {:induction false} DeadStaysDead(t: Trace, i: nat, j: nat)
    requires Chain(t) && i <= j <= |t.events|
    ensures t.states[i].dead <= t.states[j].dead
    decreases j
  {
    if i < j {
      DeadStaysDead(t, i, j - 1);
      assert t.states[j] == Apply(t.states[j - 1], t.events[j - 1]);
    }
  }

  lemma StepKeepsGrant(w: World, e: Event, did: Did, g: Grant)
    requires Truthful(w, e) && g in EntryAt(w, did).grants && g.sound
    ensures g.id in w.dead || g in EntryAt(Apply(w, e), did).grants
  {
    assert g.id in SoundIds(EntryAt(w, did).grants);
  }

  /** A live, recorded grant is never lost from the record, whatever runs beside it. */
  lemma {:induction false} LiveGrantStaysRecorded(t: Trace, i: nat, j: nat, did: Did, g: Grant)
    requires Run(t) && i <= j <= |t.events| && g in EntryAt(t.states[i], did).grants && g.sound
    ensures g.id in t.states[j].dead || g in EntryAt(t.states[j], did).grants
    decreases j
  {
    if i < j {
      LiveGrantStaysRecorded(t, i, j - 1, did, g);
      DeadStaysDead(t, j - 1, j);
      assert t.states[j] == Apply(t.states[j - 1], t.events[j - 1]) && Truthful(t.states[j - 1], t.events[j - 1]);
      if g in EntryAt(t.states[j - 1], did).grants { StepKeepsGrant(t.states[j - 1], t.events[j - 1], did, g); }
    }
  }

  /** The retirement of an entry, at a moment when everything sound on it is dead. */
  ghost predicate RetiredWhenDead(t: Trace, did: Did, n: nat)
    requires n < |t.events| && n < |t.states|
  {
    && t.events[n].Retire? && t.events[n].did == did && !EntryAt(t.states[n], did).retired
    && SoundIds(EntryAt(t.states[n], did).grants) <= t.states[n].dead
  }

  /** An entry becomes retired only in a state where everything sound on it is dead. */
  lemma {:induction false} RetiredOnlyWhenDead(t: Trace, i: nat, j: nat, did: Did)
    requires Run(t) && i <= j <= |t.events|
    requires !EntryAt(t.states[i], did).retired && EntryAt(t.states[j], did).retired
    ensures exists n :: i <= n < j && RetiredWhenDead(t, did, n)
    decreases j
  {
    if EntryAt(t.states[j - 1], did).retired {
      RetiredOnlyWhenDead(t, i, j - 1, did);
      var n :| i <= n < j - 1 && RetiredWhenDead(t, did, n);
    } else {
      assert t.states[j] == Apply(t.states[j - 1], t.events[j - 1]) && Truthful(t.states[j - 1], t.events[j - 1]);
      assert RetiredWhenDead(t, did, j - 1);
    }
  }

  /**
    Where retirements are sent with grants that are still alive, a live grant is lost from the record: the rule
    the runs keep is what the compare-and-swap itself does not check.
   */
  lemma AnUntruthfulRetirementLosesAGrant(w: World, did: Did, g: Grant)
    requires did in w.entries && w.entries[did].grants == [g] && g.sound && g.id !in w.dead
    ensures var t := Extended(Trace([w], []), Retire(did, {g.id}));
            Chain(t) && g.id !in Last(t).dead && g !in EntryAt(Last(t), did).grants
  {
  }

  /** Only the party's own fresh consent un-retires an entry: no restore, renewal or decline does. */
  lemma {:induction false} OnlyConsentUnretires(t: Trace, i: nat, j: nat, did: Did)
    requires Chain(t) && i <= j <= |t.events| && EntryAt(t.states[i], did).retired
    requires forall n :: i <= n < j ==> !(t.events[n].Consent? && t.events[n].did == did)
    ensures EntryAt(t.states[j], did).retired
    decreases j
  {
    if i < j {
      OnlyConsentUnretires(t, i, j - 1, did);
      assert t.states[j] == Apply(t.states[j - 1], t.events[j - 1]);
    }
  }

  /** Nothing but a consent's escrow admits a party to a collection. */
  lemma {:induction false} OnlyEscrowAdmits(t: Trace, i: nat, j: nat, did: Did, collection: Collection)
    requires Chain(t) && i <= j <= |t.events| && (did, collection) !in t.states[i].recipients
    requires forall n :: i <= n < j ==> t.events[n] != Escrow(did, collection)
    ensures (did, collection) !in t.states[j].recipients
    decreases j
  {
    if i < j {
      OnlyEscrowAdmits(t, i, j - 1, did, collection);
      assert t.states[j] == Apply(t.states[j - 1], t.events[j - 1]);
    }
  }

  /** A grant a consent merged after a revocation's read keeps blocking its retirement for as long as it lives. */
  lemma LateGrantBlocksRetirement(t: Trace, i: nat, j: nat, did: Did, g: Grant, handled: set<ZcapId>)
    requires Run(t) && i < j <= |t.events| && t.events[i].Consent? && t.events[i].did == did
    requires g in t.events[i].merged && g.sound && g.id !in handled
    ensures g.id in t.states[j].dead || !Retirable(EntryAt(t.states[j], did), handled)
  {
    assert t.states[i + 1] == Apply(t.states[i], t.events[i]);
    LiveGrantStaysRecorded(t, i + 1, j, did, g);
  }

  /** With its channel cleared, a party gains no grant until it is consented to or restored. */
  lemma {:induction false} ClosedChannelTakesNoRenewal(t: Trace, i: nat, j: nat, did: Did)
    requires Chain(t) && i <= j <= |t.events| && did in t.states[i].entries && !t.states[i].entries[did].channel
    requires forall n :: i <= n < j ==> !((t.events[n].Consent? || t.events[n].Restore?) && t.events[n].did == did)
    ensures did in t.states[j].entries && !t.states[j].entries[did].channel
    ensures forall g :: g in t.states[j].entries[did].grants ==> g in t.states[i].entries[did].grants
    decreases j
  {
    if i < j {
      ClosedChannelTakesNoRenewal(t, i, j - 1, did);
      assert t.states[j] == Apply(t.states[j - 1], t.events[j - 1]);
    }
  }

  function Targets(grants: seq<Grant>): (cs: seq<Collection>)
    ensures forall c :: c in cs <==> exists g :: g in grants && g.target == Some(c)
  {
    if grants == [] then [] else
      assert forall g :: g in grants <==> g in grants[..|grants| - 1] || g == grants[|grants| - 1];
      Targets(grants[..|grants| - 1])
      + if grants[|grants| - 1].target.Some? then [grants[|grants| - 1].target.value] else []
  }

  /** What a run acts on: the grants that pass the reader's checks. */
  function SoundGrants(grants: seq<Grant>): (sound: seq<Grant>)
    ensures forall g :: g in sound <==> g in grants && g.sound
  {
    if grants == [] then [] else
      assert forall g :: g in grants <==> g in grants[..|grants| - 1] || g == grants[|grants| - 1];
      SoundGrants(grants[..|grants| - 1]) + if grants[|grants| - 1].sound then [grants[|grants| - 1]] else []
  }

  lemma SoundIdsAreThose(grants: seq<Grant>)
    ensures Ids(SoundGrants(grants)) == SoundIds(grants)
  {
  }

  function Unlisted(cs: seq<Collection>, public: set<Collection>): (kept: seq<Collection>)
    ensures forall c :: c in kept <==> c in cs && c !in public
  {
    if cs == [] then [] else
      assert forall c :: c in cs <==> c in cs[..|cs| - 1] || c == cs[|cs| - 1];
      Unlisted(cs[..|cs| - 1], public) + if cs[|cs| - 1] in public then [] else [cs[|cs| - 1]]
  }

  function Admissions(did: Did, cs: seq<Collection>): set<(Did, Collection)> {
    set c | c in cs :: (did, c)
  }

  lemma AdmissionsGrow(did: Did, cs: seq<Collection>, n: nat)
    requires n < |cs|
    ensures cs[..n + 1] == cs[..n] + [cs[n]]
    ensures Admissions(did, cs[..n + 1]) == Admissions(did, cs[..n]) + {(did, cs[n])}
  {
    assert cs[..n + 1] == cs[..n] + [cs[n]];
  }

  predicate Gone(entry: Entry) {
    entry.retired && entry.grants == [] && entry.appKey.None?
  }

  /** The writes a revocation may make: none admits a party, records a grant or revives a capability. */
  predicate Revoking(e: Event, did: Did) {
    match e
    case Rotate(d, _) => d == did
    case ClearChannel(d) => d == did
    case Retire(d, _) => d == did
    case Kill(_) => true
    case DropKey(_) => true
    case _ => false
  }

  /** So it only takes, and from its own party alone; no capability comes back to life. */
  lemma RevokingOnlyTakes(w: World, e: Event, did: Did)
    requires Revoking(e, did)
    ensures w.dead <= Apply(w, e).dead && Apply(w, e).recipients <= w.recipients && Apply(w, e).keys <= w.keys
    ensures forall d, c :: d != did && (d, c) in w.recipients ==> (d, c) in Apply(w, e).recipients
    ensures forall d :: d != did ==> EntryAt(Apply(w, e), d) == EntryAt(w, d)
    ensures EntryAt(Apply(w, e), did).grants == EntryAt(w, did).grants || EntryAt(Apply(w, e), did).grants == []
    ensures EntryAt(w, did).retired ==> EntryAt(Apply(w, e), did).retired
    ensures EntryAt(Apply(w, e), did).channel ==> EntryAt(w, did).channel
  {
  }

  ghost predicate OnlyRevoking(before: seq<Event>, after: seq<Event>, did: Did) {
    before <= after && forall n :: |before| <= n < |after| ==> Revoking(after[n], did)
  }

  /** The writes a restore may make: `OnlyConsentUnretires` says none of them ends a retirement. */
  ghost predicate OnlyRestoring(before: seq<Event>, after: seq<Event>) {
    before <= after && forall n :: |before| <= n < |after| ==> after[n].Restore?
  }

  ghost predicate OnlyDeclines(before: seq<Event>, after: seq<Event>) {
    before <= after && forall n :: |before| <= n < |after| ==> after[n].Decline?
  }

  ghost predicate AllDeclined(mine: seq<Event>, dids: seq<Did>) {
    forall d :: d in dids ==> Decline(d) in mine
  }

  lemma DeclinesKept(before: seq<Event>, after: seq<Event>, declined: seq<Did>, did: Did, ok: bool)
    requires AllDeclined(before, declined) && before <= after && (ok ==> Decline(did) in after)
    ensures AllDeclined(after, declined) && (ok ==> AllDeclined(after, declined + [did]))
  {
    forall e | e in before ensures e in after {}
  }

  ghost predicate ReportedOnce(declined: seq<Did>, failed: seq<Did>, dids: seq<Did>) {
    multiset(declined) + multiset(failed) == multiset(dids)
  }

  lemma OneMoreReported(declined: seq<Did>, failed: seq<Did>, dids: seq<Did>, did: Did)
    requires ReportedOnce(declined, failed, dids)
    ensures ReportedOnce(declined + [did], failed, dids + [did]) && ReportedOnce(declined, failed + [did], dids + [did])
  {
  }

  ghost predicate RecordedIn(mine: seq<Event>, did: Did) {
    exists n :: 0 <= n < |mine| && mine[n].Restore? && mine[n].did == did
  }

  lemma RecordsKept(before: seq<Event>, after: seq<Event>, did: Did, more: seq<Grant>, recorded: bool)
    requires before <= after && (recorded ==> after == before + [Restore(did, more)])
    ensures forall d :: RecordedIn(before, d) ==> RecordedIn(after, d)
    ensures recorded ==> RecordedIn(after, did)
  {
    if recorded { assert after[|before|] == Restore(did, more); }
  }

  function Each(dids: seq<Did>, reason: Reason): (outcomes: seq<RestoreOutcome>)
    ensures |outcomes| == |dids|
    ensures forall i :: 0 <= i < |dids| ==> outcomes[i] == NotRestored(dids[i], reason)
  {
    MapSeq(dids, (did: Did) => NotRestored(did, reason))
  }

  /** At some point since the first `from` writes, the collection's current epoch did not list the party. */
  ghost predicate OffSince(t: Trace, from: nat, did: Did, collection: Collection) {
    exists n :: from <= n < |t.states| && (did, collection) !in t.states[n].recipients
  }

  lemma OffNow(t: Trace, from: nat, did: Did, collection: Collection)
    requires from < |t.states| && (did, collection) !in Last(t).recipients
    ensures OffSince(t, from, did, collection)
  {
    assert (did, collection) !in t.states[|t.states| - 1].recipients;
  }

  ghost predicate AllOff(t: Trace, from: nat, did: Did, cs: seq<Collection>) {
    forall c :: c in cs ==> OffSince(t, from, did, c)
  }

  lemma OffStays(t: Trace, more: Trace, from: nat, earlier: nat, did: Did, collection: Collection)
    requires OffSince(t, from, did, collection) && Extends(t, more) && earlier <= from
    ensures OffSince(more, earlier, did, collection)
  {
    var n :| from <= n < |t.states| && (did, collection) !in t.states[n].recipients;
    assert more.states[n] == t.states[n];
  }

  lemma AllOffStays(t: Trace, more: Trace, from: nat, earlier: nat, did: Did, cs: seq<Collection>)
    requires AllOff(t, from, did, cs) && Extends(t, more) && earlier <= from
    ensures AllOff(more, earlier, did, cs)
  {
    forall c | c in cs ensures OffSince(more, earlier, did, c) { OffStays(t, more, from, earlier, did, c); }
  }

  lemma AllOffGrows(t: Trace, more: Trace, from: nat, did: Did, cs: seq<Collection>, c: Collection)
    requires AllOff(t, from, did, cs) && Extends(t, more) && from <= |t.events| && OffSince(more, |t.events|, did, c)
    ensures AllOff(more, from, did, cs + [c])
  {
    AllOffStays(t, more, from, from, did, cs);
    OffStays(more, more, |t.events|, from, did, c);
  }

  /** The party's entry stood like this at some point since the first `from` writes; an absent one reads blank. */
  ghost predicate ReadSince(t: Trace, from: nat, did: Did, entry: Entry) {
    exists n :: from <= n < |t.states| && EntryAt(t.states[n], did) == entry
  }

  lemma ReadStays(t: Trace, more: Trace, from: nat, earlier: nat, did: Did, entry: Entry)
    requires ReadSince(t, from, did, entry) && Extends(t, more) && earlier <= from
    ensures ReadSince(more, earlier, did, entry)
  {
    var n :| from <= n < |t.states| && EntryAt(t.states[n], did) == entry;
    assert more.states[n] == t.states[n];
  }

  /** The app's key, when there is one, was deleted by one of the writes after the first `from`. */
  ghost predicate Dropped(mine: seq<Event>, from: nat, key: Option<AppKey>) {
    key.Some? ==> exists n :: from <= n < |mine| && mine[n] == DropKey(key.value)
  }

  lemma DroppedStays(mine: seq<Event>, more: seq<Event>, from: nat, key: Option<AppKey>)
    requires Dropped(mine, from, key) && mine <= more
    ensures Dropped(more, from, key)
  {
    if key.Some? {
      var n :| from <= n < |mine| && mine[n] == DropKey(key.value);
      assert more[n] == mine[n];
    }
  }

  /** What a session asks of the server, answered or not. */
  datatype Request =
    | ReadDirectory
    | ReReadEntry(did: Did)
    | ListCollections
    | ReadEpoch(did: Did, collection: Collection)
    | Send(write: Event)

  /** No grant was passed over: each is dead already, or its revocation was sent. */
  ghost predicate EachTried(grants: seq<Grant>, dead: set<ZcapId>, asked: set<Request>) {
    forall g :: g in grants ==> g.id in dead || Send(Kill({g.id})) in asked
  }

  /** The `n`th write is the pull of a grant whose collection this run, from `from` on, had already rotated. */
  ghost predicate Pulled(mine: seq<Event>, from: nat, n: nat, grants: seq<Grant>)
    requires n < |mine|
  {
    exists m :: from <= m < n && mine[m].Rotate? && PullOf(mine[n], mine[m].collection, grants)
  }

  /** The kill of one of the grants, and not of one killed already. */
  ghost predicate KillOf(e: Event, grants: seq<Grant>, already: set<ZcapId>) {
    exists g :: g in grants && g.id !in already && e == Kill({g.id})
  }

  ghost predicate PullOf(e: Event, collection: Collection, grants: seq<Grant>) {
    exists g :: g in grants && g.target == Some(collection) && e == Kill({g.id})
  }

  ghost predicate PullsOnly(mine: seq<Event>, from: nat, grants: seq<Grant>) {
    forall n :: from <= n < |mine| && mine[n].Kill? ==> Pulled(mine, from, n, grants)
  }

  /** The key rotation comes first: before it ends, no capability but a rotated collection's is revoked. */
  ghost predicate KeysFirst(mine: seq<Event>, from: nat, grants: seq<Grant>) {
    forall n, m :: from <= n < m < |mine| && mine[n].Kill? && mine[m].Rotate? ==> Pulled(mine, from, n, grants)
  }

  ghost predicate OnlyKills(mine: seq<Event>, from: nat) {
    forall n :: from <= n < |mine| ==> mine[n].Kill?
  }

  lemma PulledStays(mine: seq<Event>, more: seq<Event>, from: nat, earlier: nat, n: nat, grants: seq<Grant>)
    requires n < |mine| && mine <= more && earlier <= from && Pulled(mine, from, n, grants)
    ensures Pulled(more, earlier, n, grants)
  {
    var m :| from <= m < n && mine[m].Rotate? && PullOf(mine[n], mine[m].collection, grants);
    assert more[m] == mine[m] && more[n] == mine[n];
  }

  /** One more collection's writes after those before it. */
  lemma PullsJoin(before: seq<Event>, after: seq<Event>, from: nat, grants: seq<Grant>)
    requires from <= |before| && before <= after && PullsOnly(before, from, grants) && PullsOnly(after, |before|, grants)
    ensures PullsOnly(after, from, grants)
  {
    forall n | from <= n < |after| && after[n].Kill? ensures Pulled(after, from, n, grants) {
      if n < |before| {
        assert before[n] == after[n];
        PulledStays(before, after, from, from, n, grants);
      } else {
        PulledStays(after, after, |before|, from, n, grants);
      }
    }
  }

  /** The pulls of one collection, right behind its rotation. */
  lemma PullsBehind(before: seq<Event>, after: seq<Event>, did: Did, collection: Collection, grants: seq<Grant>)
    requires before + [Rotate(did, collection)] <= after
    requires forall n :: |before| < n < |after| ==> PullOf(after[n], collection, grants)
    ensures PullsOnly(after, |before|, grants)
  {
    assert after[|before|] == Rotate(did, collection);
  }

  lemma KeysThenGrants(rotated: seq<Event>, mine: seq<Event>, from: nat, grants: seq<Grant>)
    requires rotated <= mine && PullsOnly(rotated, from, grants) && OnlyKills(mine, |rotated|)
    ensures KeysFirst(mine, from, grants)
  {
    forall n, m | from <= n < m < |mine| && mine[n].Kill? && mine[m].Rotate? ensures Pulled(mine, from, n, grants) {
      assert m < |rotated| && rotated[n] == mine[n];
      PulledStays(rotated, mine, from, from, n, grants);
    }
  }

  /** It stays so under earlier and later writes of other kinds. */
  lemma KeysFirstStays(mine: seq<Event>, more: seq<Event>, from: nat, earlier: nat, grants: seq<Grant>)
    requires KeysFirst(mine, from, grants) && mine <= more && earlier <= from <= |mine|
    requires forall n :: earlier <= n < from ==> !mine[n].Kill?
    requires forall n :: |mine| <= n < |more| ==> !more[n].Rotate?
    ensures KeysFirst(more, earlier, grants)
  {
    forall n, m | earlier <= n < m < |more| && more[n].Kill? && more[m].Rotate? ensures Pulled(more, earlier, n, grants) {
      assert m < |mine| && mine[n] == more[n] && mine[m] == more[m];
      PulledStays(mine, more, from, earlier, n, grants);
    }
  }

  datatype Status = Revoked | EntryMissing | DirectoryUnreadable | StageFailed | NewGrantFound

  datatype Reason =
    | NoSpace | NotFound | NothingInScope | NoSeed | NoSignerCheck | MintFailed | ParentNotRenewable | RecordFailed

  datatype RestoreOutcome = Restored(did: Did) | NotRestored(did: Did, reason: Reason)

  class Connections {
    const quiet: bool                        // every request succeeds and no other party writes
    const keyed: set<Did>                    // parties whose DID carries a recipient key
    const attributed: Did -> seq<Collection> // unprotected collections whose generator is the party
    const public: set<Collection>
    const renewable: Entry -> seq<Grant>     // an entry's grants a restore would re-mint
    const seeded: Did -> bool                // parties whose entry's seed passes its tag
    var world: World
    ghost var trace: Trace                   // every state and write so far, whoever made it
    ghost var mine: seq<Event>               // those among them that this session made
    ghost var asked: set<Request>            // every request this session sent, whatever came of it
    ghost var answers: set<(Request, bool)>     // whether each read of its was answered
    ghost var confirmed: set<ZcapId>         // the revocations it was told landed

    ghost predicate Valid()
      reads this
    {
      Run(trace) && world == Last(trace)
    }

    /** Time passed: others may have written, this session did not. */
    twostate predicate Idle()
      reads this
    {
      && Valid() && mine == old(mine) && old(asked) <= asked && old(answers) <= answers
      && Extends(old(trace), trace) && old(world).dead <= world.dead
      && (quiet ==> world == old(world))
    }

    /** As `Idle`, but this session may have written too. */
    twostate predicate Advanced()
      reads this
    {
      && Valid() && old(mine) <= mine && old(asked) <= asked && old(answers) <= answers
      && Extends(old(trace), trace) && old(world).dead <= world.dead
    }

    constructor (world: World, quiet: bool, keyed: set<Did>, attributed: Did -> seq<Collection>, public: set<Collection>,
                 renewable: Entry -> seq<Grant>, seeded: Did -> bool)
      ensures Valid() && this.world == world && trace == Trace([world], []) && mine == [] && asked == {} && confirmed == {}
      ensures this.quiet == quiet && this.keyed == keyed && this.attributed == attributed && this.public == public
    {
      this.quiet, this.keyed, this.attributed, this.public := quiet, keyed, attributed, public;
      this.renewable, this.seeded := renewable, seeded;
      this.world, trace, mine, asked, answers, confirmed := world, Trace([world], []), [], {}, {}, {};
    }

    method Write(e: Event)
      requires Valid() && Truthful(world, e)
      modifies this`world, this`trace, this`mine, this`asked
      ensures Advanced() && world == Apply(old(world), e)
      ensures mine == old(mine) + [e] && trace == Extended(old(trace), e) && asked == old(asked) + {Send(e)}
    {
      ExtendedRuns(trace, e);
      world, trace, mine, asked := Apply(world, e), Extended(trace, e), mine + [e], asked + {Send(e)};
    }

    /** Any number of writes of other sessions, which keep the retirement rule too. */
    method Others()
      requires Valid()
      modifies this`world, this`trace
      ensures Idle()
    {
      if !quiet {
        var theirs: seq<Event> := *;
        for i := 0 to |theirs|
          invariant Idle()
        {
          if Truthful(world, theirs[i]) {
            ExtendedRuns(trace, theirs[i]);
            world, trace := Apply(world, theirs[i]), Extended(trace, theirs[i]);
          }
        }
      }
    }

    /** One write of this session's, which others may precede and whose answer may be lost or refused. */
    method Request(e: Event) returns (ok: bool)
      requires Valid() && !e.Retire?
      modifies this`world, this`trace, this`mine, this`asked
      ensures Advanced() && (quiet ==> ok && world == Apply(old(world), e))
      ensures mine == old(mine) || mine == old(mine) + [e]
      ensures ok ==> mine == old(mine) + [e] && (e.Kill? ==> e.ids <= world.dead)
      ensures ok && e.Rotate? ==> (e.did, e.collection) !in world.recipients
      ensures asked == old(asked) + {Send(e)}
    {
      Others();
      asked := asked + {Send(e)};
      var landed, answered: bool := *, *;
      ok := quiet || (landed && answered);
      if quiet || landed { Write(e); }
    }

    /** A read that others may precede; false when it failed. */
    method Reads(ghost request: Request) returns (ok: bool)
      requires Valid()
      modifies this`world, this`trace, this`asked, this`answers
      ensures Idle() && (quiet ==> ok) && asked == old(asked) + {request} && answers == old(answers) + {(request, ok)}
    {
      Others();
      asked := asked + {request};
      ok := *;
      if quiet { ok := true; }
      answers := answers + {(request, ok)};
    }

    /** Whether a capability is past its own expiry. */
    method Expired(id: ZcapId) returns (expired: bool)
      requires Valid()
      modifies this`world, this`trace
      ensures Idle() && (expired ==> id in world.dead)
    {
      Others();
      var past: bool := *;
      expired := past && id in world.dead;
    }

    /** One capability's POST, unless it is past its own expiry. */
    method Post(id: ZcapId) returns (dead: bool, posted: bool)
      requires Valid()
      modifies this`world, this`trace, this`mine, this`asked, this`answers, this`confirmed
      ensures Advanced() && (posted ==> dead) && (dead ==> id in world.dead)
      ensures mine == old(mine) || mine == old(mine) + [Kill({id})]
      ensures dead || Send(Kill({id})) in asked
      ensures confirmed == old(confirmed) + if posted then {id} else {}
      ensures quiet ==> dead && world == old(world).(dead := world.dead)
    {
      posted := false;
      dead := Expired(id);
      if !dead {
        posted := Request(Kill({id}));
        dead := posted;
        if posted { confirmed := confirmed + {id}; }
      }
    }

    /** The grant stage: every grant is POSTed before a failure among them is raised. */
    method RevokeGrants(grants: seq<Grant>, already: set<ZcapId>, ghost did: Did) returns (ok: bool)
      requires Valid() && already <= world.dead
      modifies this`world, this`trace, this`mine, this`asked, this`answers, this`confirmed
      ensures Advanced() && OnlyRevoking(old(mine), mine, did)
      ensures ok ==> forall g :: g in grants ==> g.id in world.dead
      ensures EachTried(grants, world.dead, asked) && OnlyKills(mine, |old(mine)|)
      // What the rotation already revoked is not POSTed again.
      ensures forall n :: |old(mine)| <= n < |mine| ==> KillOf(mine[n], grants, already)
      ensures quiet ==> ok && world == old(world).(dead := world.dead)
    {
      ok := true;
      for n := 0 to |grants|
        invariant Advanced() && OnlyRevoking(old(mine), mine, did)
        invariant EachTried(grants[..n], world.dead, asked) && OnlyKills(mine, |old(mine)|)
        invariant forall m :: |old(mine)| <= m < |mine| ==> KillOf(mine[m], grants, already)
        invariant ok ==> forall g :: g in grants[..n] ==> g.id in world.dead
        invariant quiet ==> ok && world == old(world).(dead := world.dead)
      {
        if grants[n].id !in already {
          var dead, posted := Post(grants[n].id);
          assert KillOf(Kill({grants[n].id}), grants, already);
          ok := ok && dead;
        }
      }
    }

    /** The pull axis of one rotated collection: what it confirms revoked, the grant stage need not POST again. */
    method PullGrants(collection: Collection, grants: seq<Grant>, ghost did: Did) returns (revoked: set<ZcapId>)
      requires Valid()
      modifies this`world, this`trace, this`mine, this`asked, this`answers, this`confirmed
      ensures Advanced() && OnlyRevoking(old(mine), mine, did) && revoked <= world.dead
      ensures confirmed == old(confirmed) + revoked
      ensures forall g :: g in grants && g.target == Some(collection) ==> g.id in world.dead || Send(Kill({g.id})) in asked
      ensures forall n :: |old(mine)| <= n < |mine| ==> PullOf(mine[n], collection, grants)
      ensures quiet ==> world == old(world).(dead := world.dead)
    {
      revoked := {};
      for n := 0 to |grants|
        invariant Advanced() && OnlyRevoking(old(mine), mine, did) && revoked <= world.dead
        invariant confirmed == old(confirmed) + revoked
        invariant forall g :: g in grants[..n] && g.target == Some(collection) ==>
          g.id in world.dead || Send(Kill({g.id})) in asked
        invariant forall m :: |old(mine)| <= m < |mine| ==> PullOf(mine[m], collection, grants)
        invariant quiet ==> world == old(world).(dead := world.dead)
      {
        if grants[n].target == Some(collection) {
          var dead, posted := Post(grants[n].id);
          assert PullOf(Kill({grants[n].id}), collection, grants);
          if posted { revoked := revoked + {grants[n].id}; }
        }
      }
    }

    /** One collection: skipped when its current epoch no longer lists the party, so a retry is idempotent. */
    method RotateOne(did: Did, collection: Collection, grants: seq<Grant>) returns (ok: bool, revoked: set<ZcapId>)
      requires Valid()
      modifies this`world, this`trace, this`mine, this`asked, this`answers, this`confirmed
      ensures Advanced() && revoked <= world.dead
      ensures ok ==> OffSince(trace, |old(trace).events|, did, collection)
      ensures ReadEpoch(did, collection) in asked && PullsOnly(mine, |old(mine)|, grants)
      ensures ok || |mine| > |old(mine)| ==> (ReadEpoch(did, collection), true) in answers
      ensures ok && |mine| > |old(mine)| ==>
        forall g :: g in grants && g.target == Some(collection) ==> g.id in world.dead || Send(Kill({g.id})) in asked
      ensures confirmed == old(confirmed) + revoked
      ensures quiet ==>
        ok && world == old(world).(dead := world.dead, recipients := old(world).recipients - {(did, collection)})
      ensures OnlyRevoking(old(mine), mine, did)
    {
      revoked := {};
      ok := Reads(ReadEpoch(did, collection));
      if !ok { return; }
      if (did, collection) !in world.recipients {
        OffNow(trace, |old(trace).events|, did, collection);
        return;
      }
      ok := Request(Rotate(did, collection));
      if !ok { return; }
      OffNow(trace, |old(trace).events|, did, collection);
      ghost var rotated, before := trace, old(mine);
      revoked := PullGrants(collection, grants, did);
      PullsBehind(before, mine, did, collection, grants);
      OffStays(rotated, trace, |old(trace).events|, |old(trace).events|, did, collection);
    }

    /** The step of one collection, after those before it. */
    method RotateNext(did: Did, grants: seq<Grant>, ghost done: seq<Collection>, collection: Collection, ghost from: nat,
                      allOk: bool, already: set<ZcapId>) returns (ok: bool, revoked: set<ZcapId>)
      requires Valid() && already <= world.dead && from <= |trace.events|
      requires allOk ==> AllOff(trace, from, did, done)
      modifies this`world, this`trace, this`mine, this`asked, this`answers, this`confirmed
      ensures Advanced() && revoked <= world.dead && OnlyRevoking(old(mine), mine, did)
      ensures ok ==> allOk && AllOff(trace, from, did, done + [collection])
      ensures ReadEpoch(did, collection) in asked && PullsOnly(mine, |old(mine)|, grants)
      ensures quiet ==>
        ok == allOk
        && world == old(world).(dead := world.dead, recipients := old(world).recipients - {(did, collection)})
    {
      ghost var before := trace;
      ok, revoked := RotateOne(did, collection, grants);
      if ok && allOk { AllOffGrows(before, trace, from, did, done, collection); }
      ok, revoked := ok && allOk, revoked + already;
    }

    /** One stuck collection does not keep the others from being rotated. */
    method RotateEach(did: Did, grants: seq<Grant>, candidates: seq<Collection>, listed: bool)
      returns (ok: bool, revoked: set<ZcapId>)
      requires Valid()
      modifies this`world, this`trace, this`mine, this`asked, this`answers, this`confirmed
      ensures Advanced() && revoked <= world.dead && OnlyRevoking(old(mine), mine, did)
      ensures ok ==> listed && AllOff(trace, |old(trace).events|, did, candidates)
      ensures PullsOnly(mine, |old(mine)|, grants)
      ensures forall c :: c in candidates ==> ReadEpoch(did, c) in asked
      ensures quiet ==>
        ok == listed
        && world == old(world).(dead := world.dead, recipients := old(world).recipients - Admissions(did, candidates))
    {
      ok, revoked := listed, {};
      for n := 0 to |candidates|
        invariant Advanced() && revoked <= world.dead && OnlyRevoking(old(mine), mine, did)
        invariant ok ==> listed && AllOff(trace, |old(trace).events|, did, candidates[..n])
        invariant PullsOnly(mine, |old(mine)|, grants)
        invariant forall c :: c in candidates[..n] ==> ReadEpoch(did, c) in asked
        invariant quiet ==>
          ok == listed
          && world == old(world).(dead := world.dead, recipients := old(world).recipients - Admissions(did, candidates[..n]))
      {
        ghost var before := mine;
        ok, revoked := RotateNext(did, grants, candidates[..n], candidates[n], |old(trace).events|, ok, revoked);
        PullsJoin(before, mine, |old(mine)|, grants);
        AdmissionsGrow(did, candidates, n);
      }
      assert candidates[..|candidates|] == candidates;
    }

    /** Every private collection the grants target was looked at. */
    ghost predicate AllTakenUp(did: Did, grants: seq<Grant>)
      reads this`asked
    {
      forall c :: c in Targets(grants) && did in keyed && c !in public ==> ReadEpoch(did, c) in asked
    }

    /** Nor was a grant passed over, whichever request failed. */
    ghost predicate PassedOverNone(did: Did, grants: seq<Grant>)
      reads this`asked, this`world
    {
      AllTakenUp(did, grants) && EachTried(grants, world.dead, asked)
    }

    /** The key rotation. A listing that failed counts as a failure, and leaves only the grants' own targets. */
    method RotateRecipients(did: Did, grants: seq<Grant>) returns (ok: bool, revoked: set<ZcapId>)
      requires Valid()
      modifies this`world, this`trace, this`mine, this`asked, this`answers, this`confirmed
      ensures Advanced() && revoked <= world.dead && OnlyRevoking(old(mine), mine, did)
      ensures ok ==> AllOff(trace, |old(trace).events|, did, Candidates(did, grants))
      ensures AllTakenUp(did, grants) && PullsOnly(mine, |old(mine)|, grants)
      ensures ok ==> forall c :: c in attributed(did) && did in keyed && c !in public ==>
        OffSince(trace, |old(trace).events|, did, c)
      ensures quiet ==> forall c :: c in attributed(did) && did in keyed && c !in public ==> (did, c) !in world.recipients
      ensures quiet ==>
        ok && world == old(world).(dead := world.dead, recipients := old(world).recipients - Admissions(did, Candidates(did, grants)))
    {
      if did !in keyed {
        assert Admissions(did, Candidates(did, grants)) == {};
        return true, {};
      }
      var listed := Reads(ListCollections);
      ghost var before := |trace.events|;
      ok, revoked := RotateEach(did, grants, if listed then Candidates(did, grants) else Targets(grants), listed);
      if ok { AllOffStays(trace, trace, before, |old(trace).events|, did, Candidates(did, grants)); }
    }

    /** The collections a revocation re-keys: what the grants target and what the party generated, less the public ones. */
    function Candidates(did: Did, grants: seq<Grant>): (cs: seq<Collection>)
      ensures forall c :: c in cs <==>
        did in keyed && c !in public && ((exists g :: g in grants && g.target == Some(c)) || c in attributed(did))
    {
      if did in keyed then Unlisted(Targets(grants) + attributed(did), public) else []
    }

    /**
      A collection that owes a party with these grants a rotation: a sound grant targets it, or the party is its
      generator; a public one never does.
     */
    ghost predicate Owes(did: Did, grants: seq<Grant>, c: Collection) {
      did in keyed && c !in public && ((exists g :: g in grants && g.sound && g.target == Some(c)) || c in attributed(did))
    }

    /** Each of them was at some point since the first `from` writes without the party. */
    ghost predicate ReKeyed(from: nat, did: Did, grants: seq<Grant>)
      reads this`trace
    {
      forall c :: Owes(did, grants, c) ==> OffSince(trace, from, did, c)
    }

    lemma OwedAreCandidates(did: Did, grants: seq<Grant>)
      ensures forall c :: Owes(did, grants, c) <==> c in Candidates(did, SoundGrants(grants))
      ensures forall c :: Owes(did, grants, c) ==> (did, c) in Admissions(did, Candidates(did, SoundGrants(grants)))
    {
    }

    /** Both server-side stages. The grant stage runs even when a rotation failed; either failure then throws. */
    method RotateThenRevoke(did: Did, grants: seq<Grant>) returns (ok: bool)
      requires Valid()
      modifies this`world, this`trace, this`mine, this`asked, this`answers, this`confirmed
      ensures Advanced()
      ensures ok ==> forall g :: g in grants ==> g.id in world.dead
      ensures ok ==> AllOff(trace, |old(trace).events|, did, Candidates(did, grants))
      ensures PassedOverNone(did, grants) && KeysFirst(mine, |old(mine)|, grants)
      ensures quiet ==>
        ok && world == old(world).(dead := world.dead, recipients := old(world).recipients - Admissions(did, Candidates(did, grants)))
      ensures OnlyRevoking(old(mine), mine, did)
    {
      var rotated, already := RotateRecipients(did, grants);
      ghost var before, rotations := trace, mine;
      var revoked := RevokeGrants(grants, already, did);
      KeysThenGrants(rotations, mine, |old(mine)|, grants);
      if rotated { AllOffStays(before, trace, |old(trace).events|, |old(trace).events|, did, Candidates(did, grants)); }
      ok := rotated && revoked;
    }

    /** The retirement's compare-and-swap: it reads the entry afresh, and an absent one needs no write. */
    method RetireEntry(did: Did, handled: set<ZcapId>) returns (status: Status)
      requires Valid() && handled <= world.dead
      modifies this`world, this`trace, this`mine, this`asked, this`answers, this`confirmed
      ensures Advanced()
      ensures status.Revoked? ==> did !in world.entries || Gone(world.entries[did])
      ensures status.Revoked? || status.DirectoryUnreadable? || status.StageFailed? || status.NewGrantFound?
      ensures mine == old(mine) || mine == old(mine) + [Retire(did, handled)]
      ensures (ReReadEntry(did), !status.DirectoryUnreadable?) in answers
      ensures status.Revoked? && did in world.entries ==> mine == old(mine) + [Retire(did, handled)]
      ensures status.NewGrantFound? ==> did in world.entries && !Retirable(world.entries[did], handled) && mine == old(mine)
      ensures quiet ==> status == if Retirable(EntryAt(old(world), did), handled) then Revoked else NewGrantFound
      ensures quiet && status.Revoked? ==> world == Apply(old(world), Retire(did, handled))
      ensures OnlyRevoking(old(mine), mine, did)
    {
      var there := Reads(ReReadEntry(did));
      if !there { return DirectoryUnreadable; }
      if did !in world.entries { return Revoked; }
      if !Retirable(world.entries[did], handled) { return NewGrantFound; }
      var landed, answered: bool := *, *;
      if !quiet && !landed { return StageFailed; }
      Write(Retire(did, handled));
      return if quiet || answered then Revoked else StageFailed;
    }

    method DeleteAppKey(key: Option<AppKey>, ghost did: Did) returns (ok: bool)
      requires Valid()
      modifies this`world, this`trace, this`mine, this`asked, this`answers, this`confirmed
      ensures Advanced()
      ensures mine == old(mine) || (key.Some? && mine == old(mine) + [DropKey(key.value)])
      ensures ok && key.Some? ==> |mine| > |old(mine)| && mine[|mine| - 1] == DropKey(key.value)
      ensures quiet ==> ok && world == old(world).(keys := old(world).keys - if key.Some? then {key.value} else {})
      ensures OnlyRevoking(old(mine), mine, did)
    {
      ok := true;
      if key.Some? { ok := Request(DropKey(key.value)); }
    }

    /** One of the two reads of the directory failed: the run's own, or the retirement's. */
    ghost predicate Unanswered(did: Did)
      reads this`answers
    {
      (ReadDirectory, false) in answers || (ReReadEntry(did), false) in answers
    }

    /**
      What a success means, whatever others wrote meanwhile: the entry was read as `read`, everything sound on
      it is dead, each collection to re-key was at some point without the party, the app's key was dropped, and
      the retirement is this session's last write.
     */
    twostate predicate Settled(did: Did, read: Entry, server: bool, key: Option<AppKey>)
      reads this
    {
      && ReadSince(trace, |old(trace).events|, did, read)
      && SoundIds(read.grants) <= world.dead
      && (server ==> ReKeyed(|old(trace).events|, did, read.grants))
      && Dropped(mine, |old(mine)|, key)
      && (did in world.entries ==>
            Gone(world.entries[did]) && |mine| > |old(mine)| && mine[|mine| - 1] == Retire(did, SoundIds(read.grants)))
    }

    /** How a run went about the entry it read, whether or not it succeeded: nothing passed over, the keys first. */
    twostate predicate Worked(did: Did, read: Entry)
      reads this
    {
      PassedOverNone(did, SoundGrants(read.grants)) && KeysFirst(mine, |old(mine)|, SoundGrants(read.grants))
    }

    /** The stages before the retirement: keys, grants, the app's own key. */
    method ServerStages(did: Did, grants: seq<Grant>, server: bool, key: Option<AppKey>) returns (ok: bool)
      requires Valid() && (!server ==> grants == [] && key.None?)
      modifies this`world, this`trace, this`mine, this`asked, this`answers, this`confirmed
      ensures Advanced() && OnlyRevoking(old(mine), mine, did)
      ensures ok ==> forall g :: g in grants ==> g.id in world.dead
      ensures ok && server ==> AllOff(trace, |old(trace).events|, did, Candidates(did, grants))
      ensures ok ==> Dropped(mine, |old(mine)|, key)
      ensures PassedOverNone(did, grants) && KeysFirst(mine, |old(mine)|, grants)
      ensures quiet ==>
        ok && world == old(world).(dead := world.dead,
          recipients := old(world).recipients - (if server then Admissions(did, Candidates(did, grants)) else {}),
          keys := old(world).keys - (if key.Some? then {key.value} else {}))
    {
      if !server { return true; }
      ok := RotateThenRevoke(did, grants);
      if !ok { return; }
      ghost var rotated, revoked := trace, mine;
      ok := DeleteAppKey(key, did);
      KeysFirstStays(revoked, mine, |old(mine)|, |old(mine)|, grants);
      AllOffStays(rotated, trace, |old(trace).events|, |old(trace).events|, did, Candidates(did, grants));
    }

    /** The retirement of a party from what was read of it; `key` is deleted in between. */
    method RevokeRead(did: Did, entry: Entry, server: bool, key: Option<AppKey>) returns (status: Status)
      requires Valid() && (!server ==> SoundGrants(entry.grants) == [] && key.None?)
      modifies this`world, this`trace, this`mine, this`asked, this`answers, this`confirmed
      ensures Advanced()
      ensures !status.EntryMissing? && (status.DirectoryUnreadable? ==> Unanswered(did))
      ensures PassedOverNone(did, SoundGrants(entry.grants)) && KeysFirst(mine, |old(mine)|, SoundGrants(entry.grants))
      ensures status.Revoked? ==> SoundIds(entry.grants) <= world.dead
      ensures status.Revoked? && server ==> AllOff(trace, |old(trace).events|, did, Candidates(did, SoundGrants(entry.grants)))
      ensures status.Revoked? ==> Dropped(mine, |old(mine)|, key)
      ensures status.Revoked? && did in world.entries ==>
        Gone(world.entries[did]) && |mine| > |old(mine)| && mine[|mine| - 1] == Retire(did, SoundIds(entry.grants))
      ensures quiet && entry == EntryAt(old(world), did) ==>
        && status.Revoked? && (did in world.entries <==> did in old(world).entries)
        && world.keys == old(world).keys - (if key.Some? then {key.value} else {})
        && world.recipients == old(world).recipients
             - (if server then Admissions(did, Candidates(did, SoundGrants(entry.grants))) else {})
      ensures OnlyRevoking(old(mine), mine, did)
    {
      var grants := SoundGrants(entry.grants);
      var ok := ServerStages(did, grants, server, key);
      if !ok { return StageFailed; }
      ghost var staged, dropped := trace, mine;
      SoundIdsAreThose(entry.grants);
      status := RetireEntry(did, Ids(grants));
      if server { AllOffStays(staged, trace, |old(trace).events|, |old(trace).events|, did, Candidates(did, grants)); }
      DroppedStays(dropped, mine, |old(mine)|, key);
      KeysFirstStays(dropped, mine, |old(mine)|, |old(mine)|, grants);
    }

    /** An app's revocation; an app with no entry is refused before any stage. */
    method RevokeApp(did: Did) returns (status: Status, ghost read: Option<Entry>)
      requires Valid()
      modifies this`world, this`trace, this`mine, this`asked, this`answers, this`confirmed
      ensures Advanced()
      ensures status.EntryMissing? ==> mine == old(mine)
      ensures read.Some? || status.EntryMissing? ==> (ReadDirectory, true) in answers
      ensures status.DirectoryUnreadable? ==> Unanswered(did)
      ensures status.Revoked? ==> read.Some? && Settled(did, read.value, true, read.value.appKey)
      ensures read.Some? ==> Worked(did, read.value)
      ensures quiet ==> if did in old(world).entries then RevokedQuietly(did) else status.EntryMissing?
      ensures quiet && did in old(world).entries ==> status.Revoked?
      ensures quiet && did in old(world).entries && old(world).entries[did].appKey.Some? ==>
        old(world).entries[did].appKey.value !in world.keys
      ensures OnlyRevoking(old(mine), mine, did)
    {
      read := None;
      var ok := Reads(ReadDirectory);
      if !ok { return DirectoryUnreadable, read; }
      if did !in world.entries { return EntryMissing, read; }
      var entry := world.entries[did];
      read := Some(entry);
      status := RevokeFrom(did, entry, true, entry.appKey, |old(trace).events|);
      OwedAreCandidates(did, entry.grants);
    }

    /** The entry as it now stands is read, and its party revoked. */
    method RevokeFrom(did: Did, entry: Entry, server: bool, key: Option<AppKey>, ghost from: nat) returns (status: Status)
      requires Valid() && (!server ==> SoundGrants(entry.grants) == [] && key.None?)
      requires entry == EntryAt(world, did) && from <= |trace.events|
      modifies this`world, this`trace, this`mine, this`asked, this`answers, this`confirmed
      ensures Advanced() && OnlyRevoking(old(mine), mine, did)
      ensures !status.EntryMissing? && (status.DirectoryUnreadable? ==> Unanswered(did))
      ensures PassedOverNone(did, SoundGrants(entry.grants)) && KeysFirst(mine, |old(mine)|, SoundGrants(entry.grants))
      ensures status.Revoked? ==> ReadSince(trace, from, did, entry) && SoundIds(entry.grants) <= world.dead
      ensures status.Revoked? && server ==> AllOff(trace, from, did, Candidates(did, SoundGrants(entry.grants)))
      ensures status.Revoked? ==> Dropped(mine, |old(mine)|, key)
      ensures status.Revoked? && did in world.entries ==>
        Gone(world.entries[did]) && |mine| > |old(mine)| && mine[|mine| - 1] == Retire(did, SoundIds(entry.grants))
      ensures quiet ==>
        && status.Revoked? && (did in world.entries <==> did in old(world).entries)
        && world.keys == old(world).keys - (if key.Some? then {key.value} else {})
        && world.recipients == old(world).recipients
             - (if server then Admissions(did, Candidates(did, SoundGrants(entry.grants))) else {})
    {
      ghost var at := trace;
      assert EntryAt(trace.states[|trace.states| - 1], did) == entry;
      assert ReadSince(trace, |at.events|, did, entry);
      status := RevokeRead(did, entry, server, key);
      ReadStays(at, trace, |at.events|, from, did, entry);
      if status.Revoked? && server {
        AllOffStays(trace, trace, |at.events|, from, did, Candidates(did, SoundGrants(entry.grants)));
      }
    }

    /** An agent's: its channel is cleared first, so that no renewal can undo a torn run. */
    method RevokeAgent(did: Did) returns (status: Status, ghost read: Option<Entry>)
      requires Valid()
      modifies this`world, this`trace, this`mine, this`asked, this`answers, this`confirmed
      ensures Advanced()
      ensures |mine| > |old(mine)| ==> mine[|old(mine)|] == ClearChannel(did)
      ensures read.Some? ==> (ReadDirectory, true) in answers
      ensures status.DirectoryUnreadable? ==> Unanswered(did)
      ensures status.Revoked? ==> |mine| > |old(mine)| && read.Some? && Settled(did, read.value, true, None)
      ensures read.Some? ==> Worked(did, read.value)
      ensures quiet ==> status.Revoked? && RevokedQuietly(did)
      ensures OnlyRevoking(old(mine), mine, did)
    {
      read := None;
      var ok := Request(ClearChannel(did));
      if !ok { return StageFailed, read; }
      ghost var cleared := mine;
      ok := Reads(ReadDirectory);
      if !ok { return DirectoryUnreadable, read; }
      var entry := EntryAt(world, did);
      read := Some(entry);
      status := RevokeFrom(did, entry, true, None, |old(trace).events|);
      OwedAreCandidates(did, entry.grants);
      KeysFirstStays(mine, mine, |cleared|, |old(mine)|, SoundGrants(entry.grants));
    }

    /** A wallet client's or a forgotten party's; without grants it is only retired. */
    method RetireParty(did: Did) returns (status: Status, ghost read: Option<Entry>)
      requires Valid()
      modifies this`world, this`trace, this`mine, this`asked, this`answers, this`confirmed
      ensures Advanced()
      ensures read.Some? ==> (ReadDirectory, true) in answers
      ensures status.DirectoryUnreadable? ==> Unanswered(did)
      ensures status.Revoked? ==> read.Some? && Settled(did, read.value, SoundGrants(read.value.grants) != [], None)
      ensures read.Some? ==> Worked(did, read.value)
      ensures quiet ==>
        && status.Revoked?
        && (did in world.entries <==> did in old(world).entries) && (did in world.entries ==> Gone(world.entries[did]))
        && SoundIds(EntryAt(old(world), did).grants) <= world.dead
      ensures OnlyRevoking(old(mine), mine, did)
    {
      read := None;
      var ok := Reads(ReadDirectory);
      if !ok { return DirectoryUnreadable, read; }
      var entry := EntryAt(world, did);
      read := Some(entry);
      status := RevokeFrom(did, entry, SoundGrants(entry.grants) != [], None, |old(trace).events|);
      OwedAreCandidates(did, entry.grants);
    }

    /** The end of an undisturbed revocation, from whatever partial state it started in. */
    twostate predicate RevokedQuietly(did: Did)
      reads this
    {
      && (did in world.entries <==> did in old(world).entries) && (did in world.entries ==> Gone(world.entries[did]))
      && SoundIds(EntryAt(old(world), did).grants) <= world.dead
      && (forall c :: Owes(did, EntryAt(old(world), did).grants, c) ==> (did, c) !in world.recipients)
      && (forall d, c ::
            (d, c) in old(world).recipients && (d != did || !Owes(did, EntryAt(old(world), did).grants, c)) ==>
              (d, c) in world.recipients)
    }

    /** What a listing says of one agent: `None` when there are grants to re-mint. */
    function Classified(entries: map<Did, Entry>, did: Did): (reason: Option<Reason>)
      ensures reason.None? ==> did in entries && !entries[did].retired && renewable(entries[did]) != [] && seeded(did)
      ensures reason == Some(NotFound) <==> did !in entries || entries[did].retired
      ensures reason == Some(NothingInScope) <==> did in entries && !entries[did].retired && renewable(entries[did]) == []
      ensures reason == Some(NoSeed) ==> !seeded(did)
      ensures reason.Some? ==> reason.value.NotFound? || reason.value.NothingInScope? || reason.value.NoSeed?
    {
      if did !in entries || entries[did].retired then Some(NotFound)
      else if renewable(entries[did]) == [] then Some(NothingInScope)
      else if !seeded(did) then Some(NoSeed)
      else None
    }

    /** A record under the restore's own flag: `Some(false)` left a retired entry as it was. */
    method RecordRestored(did: Did, more: seq<Grant>) returns (recorded: Option<bool>)
      requires Valid()
      modifies this`world, this`trace, this`mine, this`asked, this`answers, this`confirmed
      ensures Advanced() && OnlyRestoring(old(mine), mine)
      ensures mine == old(mine) || mine == old(mine) + [Restore(did, more)]
      ensures recorded == Some(true) ==> mine == old(mine) + [Restore(did, more)] && !EntryAt(world, did).retired
      ensures recorded == Some(true) ==>
        EntryAt(world, did).channel && !EntryAt(world, did).declined && forall g :: g in more ==> g in EntryAt(world, did).grants
      ensures recorded == Some(false) ==> mine == old(mine) && EntryAt(world, did).retired
      ensures quiet ==> recorded == Some(!EntryAt(old(world), did).retired)
      ensures quiet ==> forall d :: EntryAt(world, d).retired == EntryAt(old(world), d).retired
    {
      Others();
      var landed, answered: bool := *, *;
      if EntryAt(world, did).retired { return if quiet || answered then Some(false) else None; }
      if quiet || landed { Write(Restore(did, more)); }
      return if quiet || (landed && answered) then Some(true) else None;
    }

    /** Nothing of the agent's could be re-minted, and it carries a decline marker. */
    predicate OnlyDeclined(entries: map<Did, Entry>, did: Did) {
      Classified(entries, did) == Some(NothingInScope) && entries[did].declined
    }

    /** A record that adds nothing, for an agent under a decline marker and not retired. */
    ghost predicate Clears(e: Event, entries: map<Did, Entry>) {
      e.Restore? && e.more == [] && e.did in entries && entries[e.did].declined && !entries[e.did].retired
      && renewable(entries[e.did]) == []
    }

    ghost predicate MarkersCleared(entries: map<Did, Entry>, dids: seq<Did>, mine: seq<Event>) {
      forall d :: d in dids && OnlyDeclined(entries, d) ==> RecordedIn(mine, d)
    }

    lemma ClearedGrows(entries: map<Did, Entry>, dids: seq<Did>, did: Did, before: seq<Event>, after: seq<Event>)
      requires MarkersCleared(entries, dids, before) && before <= after
      requires OnlyDeclined(entries, did) ==> RecordedIn(after, did)
      ensures MarkersCleared(entries, dids + [did], after)
    {
      RecordsKept(before, after, did, [], false);
    }

    /** The listing pass: who is left alone and why, and who is to be re-minted, in order. */
    method PlanRestores(dids: seq<Did>) returns (outcomes: map<Did, RestoreOutcome>, plans: seq<Did>)
      requires Valid()
      modifies this`world, this`trace, this`mine, this`asked, this`answers, this`confirmed
      ensures Advanced() && OnlyRestoring(old(mine), mine)
      ensures forall d :: d in outcomes ==> outcomes[d].did == d && outcomes[d].NotRestored?
      ensures forall d :: d in dids ==> d in outcomes || d in plans
      // An agent with nothing left to re-mint loses its decline marker.
      ensures quiet ==> MarkersCleared(old(world).entries, dids, mine)
      // It is written for no other.
      ensures quiet ==> forall n :: |old(mine)| <= n < |mine| ==> Clears(mine[n], old(world).entries)
      ensures quiet ==> forall d :: EntryAt(world, d).retired == EntryAt(old(world), d).retired
      ensures forall d :: d in plans ==> d in dids
      ensures quiet ==> forall d :: d in plans ==> Classified(old(world).entries, d).None?
      ensures quiet ==> forall d :: d in outcomes ==>
        Classified(old(world).entries, d).Some? && outcomes[d].reason == Classified(old(world).entries, d).value
    {
      var listing := world.entries;
      outcomes, plans := map[], [];
      for n := 0 to |dids|
        invariant Advanced() && OnlyRestoring(old(mine), mine)
        invariant forall d :: d in outcomes ==> outcomes[d].did == d && outcomes[d].NotRestored?
        invariant forall d :: d in dids[..n] ==> d in outcomes || d in plans
        invariant MarkersCleared(listing, dids[..n], mine) || !quiet
        invariant forall m :: |old(mine)| <= m < |mine| ==> Clears(mine[m], listing)
        invariant quiet ==> forall d :: EntryAt(world, d).retired == EntryAt(old(world), d).retired
        invariant forall d :: d in plans ==> d in dids && Classified(listing, d).None?
        invariant forall d :: d in outcomes ==>
          Classified(listing, d).Some? && outcomes[d].reason == Classified(listing, d).value
      {
        var did := dids[n];
        ghost var before := mine;
        var reason := Classified(listing, did);
        if reason.None? {
          plans := plans + [did];
        } else {
          if reason.value.NothingInScope? && listing[did].declined {
            var cleared := RecordRestored(did, []);
            RecordsKept(before, mine, did, [], cleared == Some(true));
          }
          outcomes := outcomes[did := NotRestored(did, reason.value)];
        }
        if quiet { ClearedGrows(listing, dids[..n], did, before, mine); }
        assert dids[..n + 1] == dids[..n] + [did];
      }
      assert dids[..|dids|] == dids;
    }

    /** The re-minted grants' records, each a compare-and-swap of its own. */
    method RecordPlans(plans: seq<Did>, minted: seq<seq<Grant>>) returns (outcomes: map<Did, RestoreOutcome>)
      requires Valid() && |minted| == |plans|
      modifies this`world, this`trace, this`mine, this`asked, this`answers, this`confirmed
      ensures Advanced() && OnlyRestoring(old(mine), mine)
      ensures forall d :: d in outcomes <==> d in plans
      ensures forall d :: d in outcomes ==> outcomes[d].did == d
      ensures forall d :: d in outcomes && outcomes[d].Restored? ==> RecordedIn(mine, d)
      ensures quiet && (forall d :: d in plans ==> !EntryAt(old(world), d).retired) ==>
        forall d :: d in outcomes ==> outcomes[d].Restored?
    {
      outcomes := map[];
      for n := 0 to |plans|
        invariant Advanced() && OnlyRestoring(old(mine), mine)
        invariant forall d :: d in outcomes <==> d in plans[..n]
        invariant forall d :: d in outcomes ==> outcomes[d].did == d
        invariant forall d :: d in outcomes && outcomes[d].Restored? ==> RecordedIn(mine, d)
        invariant quiet ==> forall d :: EntryAt(world, d).retired == EntryAt(old(world), d).retired
        invariant quiet && (forall d :: d in plans ==> !EntryAt(old(world), d).retired) ==>
          forall d :: d in outcomes ==> outcomes[d].Restored?
      {
        var did := plans[n];
        assert plans[..n + 1] == plans[..n] + [did];
        var disposed: bool := *;
        if disposed && !quiet {
          outcomes := outcomes[did := NotRestored(did, RecordFailed)];
          continue;
        }
        ghost var before := mine;
        var recorded := RecordRestored(did, minted[n]);
        RecordsKept(before, mine, did, minted[n], recorded == Some(true));
        outcomes := outcomes[did :=
          if recorded.None? then NotRestored(did, RecordFailed)
          else if recorded.value then Restored(did) else NotRestored(did, NotFound)];
      }
      assert plans[..|plans|] == plans;
    }

    /** The restore of the named agents: one outcome for each, in order, and no write but records. */
    method RestoreAgents(dids: seq<Did>, remote: bool) returns (result: seq<RestoreOutcome>)
      requires Valid()
      modifies this`world, this`trace, this`mine, this`asked, this`answers, this`confirmed
      ensures Advanced() && OnlyRestoring(old(mine), mine)
      ensures |result| == |dids| && forall i :: 0 <= i < |dids| ==> result[i].did == dids[i]
      ensures !remote ==> forall i :: 0 <= i < |dids| ==> result[i] == NotRestored(dids[i], NoSpace)
      ensures forall i :: 0 <= i < |dids| && result[i].Restored? ==> RecordedIn(mine, dids[i])
      ensures |mine| > |old(mine)| ==> remote && (ReadDirectory, true) in answers
      ensures quiet && remote ==> forall i :: 0 <= i < |dids| ==>
        result[i] == match Classified(old(world).entries, dids[i])
                     case None => Restored(dids[i])
                     case Some(reason) => NotRestored(dids[i], reason)
    {
      if !remote { return Each(dids, NoSpace); }
      var listed := Reads(ReadDirectory);
      if !listed { return Each(dids, RecordFailed); }
      var outcomes, plans := PlanRestores(dids);
      var failure: Option<Reason> := *;
      if !quiet && failure.Some? && plans != [] {
        outcomes := outcomes + map d | d in plans :: NotRestored(d, failure.value);
      } else {
        var minted: seq<seq<Grant>> := *;
        if |minted| != |plans| { minted := seq(|plans|, _ => []); }
        var recorded := RecordPlans(plans, minted);
        outcomes := outcomes + recorded;
      }
      result := seq(|dids|, i requires 0 <= i < |dids| && dids[i] in outcomes => outcomes[dids[i]]);
    }

    method DeclineOne(did: Did) returns (ok: bool)
      requires Valid()
      modifies this`world, this`trace, this`mine, this`asked, this`answers, this`confirmed
      ensures Advanced() && OnlyDeclines(old(mine), mine) && (ok ==> Decline(did) in mine) && (quiet ==> ok)
      ensures Send(Decline(did)) in asked
      ensures quiet ==> world == Apply(old(world), Decline(did))
    {
      ok := Request(Decline(did));
    }

    /** The decline markers: one attempt each, and every agent reported once. */
    method DeclineAgents(dids: seq<Did>) returns (declined: seq<Did>, failed: seq<Did>)
      requires Valid()
      modifies this`world, this`trace, this`mine, this`asked, this`answers, this`confirmed
      ensures Advanced()
      ensures ReportedOnce(declined, failed, dids)
      ensures declined != [] ==> forall d :: d in dids ==> Send(Decline(d)) in asked
      ensures AllDeclined(mine, declined) && OnlyDeclines(old(mine), mine)
      ensures |mine| > |old(mine)| ==> (ReadDirectory, true) in answers
      ensures dids == [] ==> asked == old(asked)
      ensures quiet ==> failed == [] && declined == dids
      ensures quiet ==> world.entries.Keys == old(world).entries.Keys
      ensures quiet ==> forall d :: d in dids && d in world.entries ==> world.entries[d].declined
    {
      declined, failed := [], [];
      if dids == [] { return; }
      var there := Reads(ReadDirectory);
      if !there { return [], dids; }
      for n := 0 to |dids|
        invariant Advanced() && (ReadDirectory, true) in answers
        invariant ReportedOnce(declined, failed, dids[..n])
        invariant forall d :: d in dids[..n] ==> Send(Decline(d)) in asked
        invariant AllDeclined(mine, declined) && OnlyDeclines(old(mine), mine)
        invariant quiet ==> failed == [] && declined == dids[..n]
        invariant quiet ==> world.entries.Keys == old(world).entries.Keys
        invariant quiet ==> forall d :: d in dids[..n] && d in world.entries ==> world.entries[d].declined
      {
        assert dids[..n + 1] == dids[..n] + [dids[n]];
        ghost var before := mine;
        var ok := DeclineOne(dids[n]);
        DeclinesKept(before, mine, declined, dids[n], ok);
        OneMoreReported(declined, failed, dids[..n], dids[n]);
        if ok { declined := declined + [dids[n]]; } else { failed := failed + [dids[n]]; }
      }
      assert dids[..|dids|] == dids;
    }
  }
}
