/**
  The account passphrase change on an account with a storage server: the incoming credential is established
  in full before the outgoing one is touched, and the unlock-methods registry is written last, with contents
  that depend on how the retirement ended. The enrolled and the ladder branch share the guards and the tail.
 */
module PassphraseChange {
  import opened Common

  type Key = string
  type SpaceId = string

  /** A passphrase's derivation: its key-agreement key and the unlock Space its record lives in. */
  datatype Credential = Credential(key: Key, space: SpaceId)

  /** The members of a registry entry by which a retirement names its subject. */
  datatype Standing = Standing(key: Option<Key>, updateKey: Option<Key>)

  datatype Entry = Entry(space: SpaceId, standing: Standing, marker: Option<Credential>)

  datatype UnlockMethod = Passphrase(entry: Entry) | OtherMethod(id: string)

  datatype Registry = NoRegistry | Registry(methods: seq<UnlockMethod>)

  /** What decides whether a credential opens the account, apart from the registry. */
  datatype Core = Core(document: set<Key>, roster: set<Key>, records: set<SpaceId>)

  datatype DocumentState = InDocument | NotInDocument | DocumentUnknown

  datatype Rotation = Rotated | Skipped | RetirementFailed | Unretired

  datatype Outcome =
    | Changed(rotation: Rotation, outgoingSpaceGone: bool)
    | RegistryUnreadable | PendingRetirement | SamePassphrase | NotVerified | RetirementRefused
    | NotEstablished | LocalStateFailed | RenewalRefused | LadderVmUnclaimed

  /** The refusals that come before the first write. */
  predicate RefusedUpFront(o: Outcome) {
    o.RegistryUnreadable? || o.PendingRetirement? || o.SamePassphrase? || o.NotVerified? || o.RetirementRefused?
  }

  /** A credential opens the account when its record, its roster wrap and its document entry all stand. */
  predicate Usable(core: Core, c: Credential) {
    c.key in core.document && c.key in core.roster && c.space in core.records
  }

  /** Whatever `c` had in `before`, it still has. */
  predicate Intact(before: Core, core: Core, c: Credential) {
    && (c.key in before.document ==> c.key in core.document)
    && (c.key in before.roster ==> c.key in core.roster)
    && (c.space in before.records ==> c.space in core.records)
  }

  function PassphraseEntry(methods: seq<UnlockMethod>): (entry: Option<Entry>)
    ensures entry.None? <==> forall m :: m in methods ==> !m.Passphrase?
    ensures entry.Some? ==>
      exists i ::
        && 0 <= i < |methods| && methods[i] == Passphrase(entry.value)
        && forall j :: 0 <= j < i ==> !methods[j].Passphrase?
  {
    if methods == [] then None
    else if methods[0].Passphrase? then Some(methods[0].entry)
    else
      var rest := PassphraseEntry(methods[1..]);
      assert rest.Some? ==> forall i :: 0 <= i < |methods| - 1 ==> methods[1..][i] == methods[i + 1];
      rest
  }

  function EntryOf(registry: Registry): Option<Entry> {
    if registry.NoRegistry? then None else PassphraseEntry(registry.methods)
  }

  function StandingOf(entry: Option<Entry>): (standing: Standing)
    ensures entry.None? ==> standing.key.None? && standing.updateKey.None?
  {
    if entry.Some? then entry.value.standing else Standing(None, None)
  }

  /** The entry an upsert writes: members given win, and are carried only while the Space stays the same. */
  function UpsertedEntry(existing: Option<Entry>, space: SpaceId, standing: Option<Standing>, marker: Option<Credential>): Entry {
    var sameSpace := existing.Some? && existing.value.space == space;
    var sameCredential := sameSpace && (standing.None? || standing.value.key == existing.value.standing.key);
    Entry(space,
          if standing.Some? then standing.value else if sameSpace then existing.value.standing else Standing(None, None),
          if marker.Some? then marker else if sameCredential then existing.value.marker else None)
  }

  function Replaced(methods: seq<UnlockMethod>, entry: Entry): (r: seq<UnlockMethod>)
    ensures |r| == |methods|
    ensures forall i :: 0 <= i < |r| ==> r[i] == if methods[i].Passphrase? then Passphrase(entry) else methods[i]
  {
    if methods == [] then [] else
      [if methods[0].Passphrase? then Passphrase(entry) else methods[0]] + Replaced(methods[1..], entry)
  }

  function Upsert(methods: seq<UnlockMethod>, space: SpaceId, standing: Option<Standing>, marker: Option<Credential>): seq<UnlockMethod> {
    var existing := PassphraseEntry(methods);
    var entry := UpsertedEntry(existing, space, standing, marker);
    if existing.Some? then Replaced(methods, entry) else methods + [Passphrase(entry)]
  }

  function OtherMethods(methods: seq<UnlockMethod>): seq<UnlockMethod> {
    if methods == [] then []
    else (if methods[0].Passphrase? then [] else [methods[0]]) + OtherMethods(methods[1..])
  }

  predicate NoPassphrase(m: UnlockMethod) {
    !m.Passphrase?
  }

  function Itself(m: UnlockMethod): UnlockMethod {
    m
  }

  lemma {:induction false} OtherMethodsBoth(a: seq<UnlockMethod>, b: seq<UnlockMethod>)
    ensures OtherMethods(a + b) == OtherMethods(a) + OtherMethods(b)
  {
    if a == [] {
      assert a + b == b;
    } else {
      assert (a + b)[1..] == a[1..] + b;
      OtherMethodsBoth(a[1..], b);
    }
  }

  /** They are the methods that are no passphrase, in their order. */
  lemma {:induction false} OtherMethodsRead(methods: seq<UnlockMethod>) returns (at: seq<nat>)
    ensures Filters(methods, NoPassphrase, Itself, OtherMethods(methods), at)
  {
    if methods == [] { return []; }
    var front, last := methods[..|methods| - 1], methods[|methods| - 1];
    at := OtherMethodsRead(front);
    at := FiltersGrow(front, last, NoPassphrase, Itself, OtherMethods(front), at);
    OtherMethodsBoth(front, [last]);
    assert methods == front + [last] && OtherMethods([last]) == if NoPassphrase(last) then [last] else [];
  }

  lemma {:induction false} ReplacedReads(methods: seq<UnlockMethod>, entry: Entry)
    ensures PassphraseEntry(methods).Some? ==> PassphraseEntry(Replaced(methods, entry)) == Some(entry)
    ensures OtherMethods(Replaced(methods, entry)) == OtherMethods(methods)
  {
    if methods != [] {
      ReplacedReads(methods[1..], entry);
      assert Replaced(methods, entry)[1..] == Replaced(methods[1..], entry);
    }
  }

  lemma {:induction false} AppendedReads(methods: seq<UnlockMethod>, entry: Entry)
    requires PassphraseEntry(methods).None?
    ensures PassphraseEntry(methods + [Passphrase(entry)]) == Some(entry)
    ensures OtherMethods(methods + [Passphrase(entry)]) == OtherMethods(methods)
  {
    if methods == [] {
      assert methods + [Passphrase(entry)] == [Passphrase(entry)];
    } else {
      assert methods[0] in methods && forall m :: m in methods[1..] ==> m in methods;
      AppendedReads(methods[1..], entry);
      assert (methods + [Passphrase(entry)])[1..] == methods[1..] + [Passphrase(entry)];
    }
  }

  /** An upsert is read back as the entry it wrote, and every other unlock method keeps its place in line. */
  lemma UpsertReads(methods: seq<UnlockMethod>, space: SpaceId, standing: Option<Standing>, marker: Option<Credential>)
    ensures var after := Upsert(methods, space, standing, marker);
            && PassphraseEntry(after) == Some(UpsertedEntry(PassphraseEntry(methods), space, standing, marker))
            && OtherMethods(after) == OtherMethods(methods)
  {
    var entry := UpsertedEntry(PassphraseEntry(methods), space, standing, marker);
    if PassphraseEntry(methods).Some? {
      ReplacedReads(methods, entry);
    } else {
      AppendedReads(methods, entry);
    }
  }

  /**
    The establishment marker's write: nothing when there is no registry, or when its entry has come to name a
    credential other than the outgoing one.
   */
  function Marked(registry: Registry, outgoing: Credential, incoming: Credential): Option<Registry> {
    if registry.NoRegistry? then None else
      var found := PassphraseEntry(registry.methods);
      if found.Some? && found.value.standing.key.Some? && found.value.standing.key.value != outgoing.key then None
      else Some(Registry(Upsert(registry.methods, if found.Some? then found.value.space else outgoing.space, None, Some(incoming))))
  }

  /** When the marker's write declines; where it does not, the other unlock methods are kept. */
  lemma MarkerDeclines(registry: Registry, outgoing: Credential, incoming: Credential)
    ensures Marked(registry, outgoing, incoming).None? <==>
      || registry.NoRegistry?
      || (EntryOf(registry).Some? && EntryOf(registry).value.standing.key.Some?
          && EntryOf(registry).value.standing.key.value != outgoing.key)
    ensures Marked(registry, outgoing, incoming).Some? ==>
      OtherMethods(Marked(registry, outgoing, incoming).value.methods) == OtherMethods(registry.methods)
  {
    if registry.Registry? {
      var found := PassphraseEntry(registry.methods);
      UpsertReads(registry.methods, if found.Some? then found.value.space else outgoing.space, None, Some(incoming));
    }
  }

  /** The marker never costs an entry its Space or its members, whoever wrote them. */
  lemma MarkerKeepsEntry(registry: Registry, outgoing: Credential, incoming: Credential)
    requires Marked(registry, outgoing, incoming).Some?
    ensures var after := EntryOf(Marked(registry, outgoing, incoming).value);
            && after.Some? && after.value.marker == Some(incoming)
            && after.value.standing == StandingOf(EntryOf(registry))
            && (EntryOf(registry).Some? ==> after.value.space == EntryOf(registry).value.space)
            && (EntryOf(registry).None? ==> after.value.space == outgoing.space)
  {
    var found := PassphraseEntry(registry.methods);
    UpsertReads(registry.methods, if found.Some? then found.value.space else outgoing.space, None, Some(incoming));
  }

  /**
    What an undisturbed change finds written when its establishment begins: on the enrolled branch the marker,
    unless the entry has come to name another credential.
   */
  function AfterMark(ladder: bool, registry: Registry, outgoing: Credential, incoming: Credential): (after: Registry)
    ensures ladder || registry.NoRegistry? ==> after == registry
    ensures !ladder && registry.Registry?
            && (StandingOf(EntryOf(registry)).key.None? || StandingOf(EntryOf(registry)).key.value == outgoing.key) ==>
      && EntryOf(after).Some? && EntryOf(after).value.marker == Some(incoming)
      && EntryOf(after).value.standing == StandingOf(EntryOf(registry))
    ensures StandingOf(EntryOf(registry)).key.Some? && StandingOf(EntryOf(registry)).key.value != outgoing.key ==>
      after == registry
  {
    if ladder || Marked(registry, outgoing, incoming).None? then registry
    else
      MarkerKeepsEntry(registry, outgoing, incoming);
      Marked(registry, outgoing, incoming).value
  }

  /** The last write: the entry moves to the incoming unlock Space, naming `standing`. */
  function Recorded(registry: Registry, incoming: Credential, standing: Standing, mint: bool): Option<Registry> {
    if registry.NoRegistry? && !mint then None else
      Some(Registry(Upsert(if registry.NoRegistry? then [] else registry.methods, incoming.space, Some(standing), None)))
  }

  /**
    What the last write leaves. It drops the establishment marker, except on an entry that already sits at the
    incoming Space naming the very credential restated: a retry whose retirement failed again.
   */
  lemma RecordedReads(registry: Registry, incoming: Credential, standing: Standing, mint: bool)
    requires Recorded(registry, incoming, standing, mint).Some?
    ensures var before := EntryOf(registry);
            var after := EntryOf(Recorded(registry, incoming, standing, mint).value);
            && after.Some? && after.value.space == incoming.space && after.value.standing == standing
            && (after.value.marker.Some? <==>
                  && before.Some? && before.value.marker.Some?
                  && before.value.space == incoming.space && before.value.standing.key == standing.key)
            && (after.value.marker.Some? ==> after.value.marker == before.value.marker)
            && OtherMethods(Recorded(registry, incoming, standing, mint).value.methods)
                 == if registry.Registry? then OtherMethods(registry.methods) else []
  {
    UpsertReads(if registry.NoRegistry? then [] else registry.methods, incoming.space, Some(standing), None);
  }

  /** It is only left out where there is no registry and none may be minted. */
  lemma RecordDeclines(registry: Registry, incoming: Credential, standing: Standing, mint: bool)
    ensures Recorded(registry, incoming, standing, mint).None? <==> registry.NoRegistry? && !mint
  {
  }

  /** Whose members the last write records. */
  function FinalStanding(rotation: Rotation, inventoryRemoved: bool, before: Standing,
                         outgoing: Credential, outgoingSeed: Option<Key>, established: Standing): Standing {
    if rotation.RetirementFailed? && !inventoryRemoved then before
    else if rotation.Unretired? then Standing(Some(outgoing.key), outgoingSeed)
    else established
  }

  /**
    Whether a retirement has both names it needs. An entry that names the outgoing key but no update key is
    skipped like one with nothing to retire.
   */
  predicate Nameable(standing: Standing) {
    standing.key.Some? && standing.updateKey.Some?
  }

  /** The entries whose retirement is skipped although they name a key. */
  predicate KeyWithoutUpdateKey(standing: Standing) {
    standing.key.Some? && standing.updateKey.None?
  }

  /** The checks and steps of a change that write none of the modelled state. */
  datatype Check = Preflight | BuildEstablishment | DropLocalState | ClaimLadderVm | PrepareRetirement | MintEpochs | AdoptRotation
    | RenewDelegation

  /** One registry write of the ceremony's own that took effect. */
  datatype Edit = Edit(before: Registry, after: Registry)

  /** The edit is the establishment marker's, on the registry it found. */
  predicate Marks(e: Edit, outgoing: Credential, incoming: Credential) {
    Marked(e.before, outgoing, incoming) == Some(e.after)
  }

  /** The ladder branch deletes the Space its entry names; an entry already moved names the incoming one. */
  predicate StrandsIncoming(ladder: bool, entry: Option<Entry>, incoming: Credential) {
    ladder && entry.Some? && entry.value.space == incoming.space
  }

  /** The account as the ceremony meets it: other sessions may edit its registry between any two requests. */
  class Account {
    const outgoing: Credential
    const incoming: Credential
    const outgoingSeed: Option<Key>   // rung 0 of the ladder seed the outgoing record seals, if any
    const incomingRung: Key
    const healthy: bool               // every request succeeds and nobody else writes
    var core: Core
    var registry: Registry
    ghost const before: Core
    ghost var cores: set<Core>        // every value `core` ever took
    ghost var writes: nat             // writes this ceremony attempted
    ghost var edits: seq<Edit>        // those among them that changed the registry
    ghost var asked: set<SpaceId>     // unlock Spaces a DELETE was sent for
    ghost var strikes: seq<bool>      // what each edit that takes the outgoing key from the document was answered
    ghost var checked: set<(Check, bool)> // how each check went
    ghost var told: set<Option<Entry>> // the passphrase entry each read of the registry found

    ghost predicate Valid()
      reads this
    {
      && core in cores
      && (outgoing != incoming ==> outgoing.key != incoming.key && outgoing.space != incoming.space)
    }

    /** Some passphrase opens the account, if the outgoing one did, in every state so far. */
    ghost predicate AlwaysOpen()
      reads this`cores
    {
      forall c :: c in cores ==> Intact(before, c, outgoing) || Usable(c, incoming)
    }

    /** What that promises the user: one of the two passphrases has its document entry, its wrap and its record. */
    lemma AWayIn(c: Core)
      requires AlwaysOpen() && c in cores
      requires outgoing.key in before.document && outgoing.key in before.roster && outgoing.space in before.records
      ensures || (outgoing.key in c.document && outgoing.key in c.roster && outgoing.space in c.records)
              || (incoming.key in c.document && incoming.key in c.roster && incoming.space in c.records)
    {
    }

    /** Time passed; this ceremony wrote nothing. */
    twostate predicate Idle()
      reads this
    {
      && Valid() && core == old(core) && cores == old(cores) && writes == old(writes) && edits == old(edits)
      && (old(registry).Registry? ==> registry.Registry?)
      && (healthy ==> registry == old(registry))
    }

    /** One write to `core` was attempted, which either took effect or did not. */
    twostate predicate Attempted(target: Core, ok: bool)
      reads this
    {
      && Valid() && (core == old(core) || core == target) && (ok ==> core == target)
      && cores == old(cores) + {core} && writes == old(writes) + 1
      && registry == old(registry) && edits == old(edits) && (healthy ==> ok)
    }

    constructor (outgoing: Credential, incoming: Credential, outgoingSeed: Option<Key>, incomingRung: Key,
                 healthy: bool, core: Core, registry: Registry)
      requires outgoing != incoming ==> outgoing.key != incoming.key && outgoing.space != incoming.space
      ensures Valid() && AlwaysOpen() && writes == 0 && edits == []
      ensures before == this.core == core && this.registry == registry
      ensures this.outgoing == outgoing && this.incoming == incoming && this.healthy == healthy
      ensures this.outgoingSeed == outgoingSeed && this.incomingRung == incomingRung
    {
      this.outgoing, this.incoming, this.outgoingSeed, this.incomingRung := outgoing, incoming, outgoingSeed, incomingRung;
      this.healthy, this.core, this.registry, before, cores, writes := healthy, core, registry, core, {core}, 0;
      edits, asked, strikes, checked, told := [], {}, [], {}, {};
    }

    method OthersEdit()
      requires Valid()
      modifies this`registry
      ensures Idle()
    {
      if !healthy {
        var methods: seq<UnlockMethod> := *;
        var edited: bool := *;
        if edited { registry := Registry(methods); }
      }
    }

    method ReadRegistry() returns (read: Option<Registry>)
      requires Valid()
      modifies this`registry, this`told
      ensures told == old(told) + if read.Some? then {EntryOf(read.value)} else {}
      ensures Idle() && (read.Some? ==> read.value == registry) && (healthy ==> read.Some?)
    {
      OthersEdit();
      var failed: bool := *;
      read := if failed && !healthy then None else Some(registry);
      if read.Some? { told := told + {EntryOf(read.value)}; }
    }

    /** The compare-and-swap: `edit` is applied to the registry as it then stands, or declines. */
    method UpdateRegistry(edit: Registry -> Option<Registry>) returns (ghost landed: bool, ghost found: Registry)
      requires Valid()
      modifies this`registry, this`writes, this`edits
      ensures edits == old(edits) + if landed then [Edit(found, registry)] else []
      ensures Valid() && core == old(core) && cores == old(cores) && writes == old(writes) + 1
      ensures landed ==> edit(found).Some? && registry == edit(found).value
      ensures !landed ==> registry == found
      ensures old(registry).Registry? ==> found.Registry?
      ensures healthy ==> found == old(registry) && landed == edit(found).Some?
    {
      OthersEdit();
      found, landed := registry, false;
      writes := writes + 1;
      var next := edit(registry);
      var failed: bool := *;
      if next.Some? && (healthy || !failed) {
        registry, landed := next.value, true;
        edits := edits + [Edit(found, registry)];
      }
    }

    method Attempt(target: Core) returns (ok: bool)
      requires Valid()
      modifies this`core, this`cores, this`writes
      ensures Attempted(target, ok)
    {
      var landed, answered: bool := *, *;
      ok := healthy || (landed && answered);
      if healthy || landed { core := target; }
      cores, writes := cores + {core}, writes + 1;
    }

    /** The retirement's document edit. */
    method StrikeDocument() returns (ok: bool)
      requires Valid()
      modifies this`core, this`cores, this`writes, this`strikes
      ensures Attempted(old(core).(document := old(core).document - {outgoing.key}), ok)
      ensures strikes == old(strikes) + [ok]
    {
      ok := Attempt(core.(document := core.document - {outgoing.key}));
      strikes := strikes + [ok];
    }

    /** A DELETE of one unlock Space. */
    method DeleteSpace(space: SpaceId) returns (ok: bool)
      requires Valid()
      modifies this`core, this`cores, this`writes, this`asked
      ensures Attempted(old(core).(records := old(core).records - {space}), ok)
      ensures asked == old(asked) + {space} && (ok ==> space !in core.records)
    {
      asked := asked + {space};
      ok := Attempt(core.(records := core.records - {space}));
    }

    method DocumentStateOfOutgoing() returns (state: DocumentState)
      requires Valid()
      modifies this`registry
      ensures Idle()
      ensures state.InDocument? ==> outgoing.key in core.document
      ensures state.NotInDocument? ==> outgoing.key !in core.document
      ensures healthy ==> !state.DocumentUnknown?
    {
      OthersEdit();
      var failed: bool := *;
      state := if failed && !healthy then DocumentUnknown
               else if outgoing.key in core.document then InDocument else NotInDocument;
    }

    /** The read-only verification: `None` for a wrong passphrase and for a failed read alike. */
    method VerifyOutgoing() returns (seed: Option<Option<Key>>)
      requires Valid()
      modifies this`registry
      ensures Idle()
      ensures seed.Some? ==> seed.value == outgoingSeed
      ensures seed.Some? ==> outgoing.space in core.records
      ensures healthy ==> (seed.Some? <==> outgoing.space in core.records)
    {
      OthersEdit();
      var failed: bool := *;
      seed := if (failed && !healthy) || outgoing.space !in core.records then None else Some(outgoingSeed);
    }

    /** A read-only check, or a step that reaches none of the modelled state. */
    method Passes(ghost check: Check) returns (ok: bool)
      requires Valid()
      modifies this`registry, this`checked
      ensures Idle() && (healthy ==> ok) && checked == old(checked) + {(check, ok)}
    {
      OthersEdit();
      ok := *;
      if healthy { ok := true; }
      checked := checked + {(check, ok)};
    }
  }

  class Change {
    const account: Account
    const ladder: bool                // the ladder branch: a transient session; otherwise an enrolled one
    var unlockSpace: SpaceId          // the unlock method the live session acts through
    var ladderSeed: Option<Key>
    var standing: Credential

    ghost var oldEntry: Option<Entry> // the entry as read before anything was written
    ghost var establishedOver: Registry // the registry as the establishment began
    ghost var edited: bool            // the retirement's document edit was answered
    ghost var landed: bool            // whether the last registry write took effect

    constructor (account: Account, ladder: bool, unlockSpace: SpaceId, ladderSeed: Option<Key>, standing: Credential)
      ensures this.account == account && this.ladder == ladder && !landed
      ensures this.unlockSpace == unlockSpace && this.ladderSeed == ladderSeed && this.standing == standing
    {
      this.account, this.ladder, this.unlockSpace := account, ladder, unlockSpace;
      this.ladderSeed, this.standing, oldEntry, landed := ladderSeed, standing, None, false;
      establishedOver := NoRegistry;
    }

    /** The five guards, all before the first write. `None` to go on. */
    method Guard() returns (stop: Option<Outcome>, entry: Option<Entry>, absent: bool, bare: DocumentState, seed: Option<Key>)
      requires account.Valid()
      modifies account`registry, account`checked, account`told, this`oldEntry
      ensures account.Idle() && oldEntry == entry && (stop.None? ==> oldEntry in account.told)
      ensures stop.Some? ==> RefusedUpFront(stop.value)
      // Each refusal has its own reason.
      ensures stop == Some(RegistryUnreadable) ==> account.told == old(account.told)
      ensures stop.Some? && !stop.value.RegistryUnreadable? ==> oldEntry in account.told
      ensures stop == Some(PendingRetirement) ==>
        StandingOf(entry).key.Some? && StandingOf(entry).key.value != account.outgoing.key
      ensures stop == Some(SamePassphrase) ==> account.outgoing == account.incoming
      ensures stop == Some(RetirementRefused) ==> Nameable(StandingOf(entry)) && (Preflight, false) in account.checked
      ensures stop.None? && Nameable(StandingOf(entry)) ==> (Preflight, true) in account.checked
      ensures account.healthy && stop.Some? ==>
        if StandingOf(entry).key.Some? && StandingOf(entry).key.value != account.outgoing.key then stop.value.PendingRetirement?
        else if account.outgoing == account.incoming then stop.value.SamePassphrase?
        else stop.value.NotVerified? && account.outgoing.space !in account.core.records
      ensures stop.None? ==>
        && account.outgoing != account.incoming
        && account.outgoing.space in account.core.records && seed == account.outgoingSeed
        && (StandingOf(entry).key.Some? ==>
              StandingOf(entry).key.value == account.outgoing.key && bare.NotInDocument?)
        && (StandingOf(entry).key.None? && bare.NotInDocument? ==> account.outgoing.key !in account.core.document)
      ensures account.healthy ==>
        && entry == EntryOf(old(account.registry)) && absent == old(account.registry).NoRegistry? && !bare.DocumentUnknown?
        && (stop.None? <==>
              && account.outgoing != account.incoming && account.outgoing.space in account.core.records
              && (StandingOf(entry).key.Some? ==> StandingOf(entry).key.value == account.outgoing.key))
        && (stop.None? && StandingOf(entry).key.None? ==>
              (bare.InDocument? <==> account.outgoing.key in account.core.document))
    {
      entry, absent, bare, seed, oldEntry := None, false, NotInDocument, None, None;
      var read := account.ReadRegistry();
      if read.None? { return Some(RegistryUnreadable), entry, absent, bare, seed; }
      entry, absent := EntryOf(read.value), read.value.NoRegistry?;
      oldEntry := entry;
      var named := StandingOf(entry).key;
      if named.Some? && named.value != account.outgoing.key {
        return Some(PendingRetirement), entry, absent, bare, seed;
      }
      if account.outgoing == account.incoming || (named.Some? && named.value == account.incoming.key) {
        return Some(SamePassphrase), entry, absent, bare, seed;
      }
      if named.None? { bare := account.DocumentStateOfOutgoing(); }
      var verified := account.VerifyOutgoing();
      if verified.None? { return Some(NotVerified), entry, absent, bare, seed; }
      seed := verified.value;
      if Nameable(StandingOf(entry)) {
        var claimable := account.Passes(Preflight);
        if !claimable { return Some(RetirementRefused), entry, absent, bare, seed; }
      }
      stop := None;
    }

    /** Nothing has been taken from the outgoing credential yet. */
    ghost predicate Untouched()
      reads this, account
    {
      account.Valid() && account.AlwaysOpen() && Intact(account.before, account.core, account.outgoing)
      && account.outgoing != account.incoming
    }

    /** The incoming credential opens the account by itself. */
    ghost predicate Established()
      reads this, account
    {
      account.Valid() && account.AlwaysOpen() && Usable(account.core, account.incoming)
      && account.outgoing != account.incoming
    }

    /** The enrolled branch's establishment marker; a write that fails is only logged. */
    method Mark()
      requires Untouched()
      modifies account`registry, account`checked, account`writes, account`edits
      ensures Untouched() && account.core == old(account.core) && account.cores == old(account.cores)
      ensures old(account.registry).Registry? ==> account.registry.Registry?
      // The registry was left as it stood, or it is the marked one.
      ensures account.edits == old(account.edits)
              || (!ladder && |account.edits| == |old(account.edits)| + 1 && old(account.edits) <= account.edits
                  && Marks(account.edits[|old(account.edits)|], account.outgoing, account.incoming)
                  && account.registry == account.edits[|old(account.edits)|].after)
      ensures account.writes == old(account.writes) + if ladder then 0 else 1
      ensures ladder ==> account.registry == old(account.registry)
      ensures account.healthy ==> account.registry == AfterMark(ladder, old(account.registry), account.outgoing, account.incoming)
    {
      if !ladder {
        var outgoing, incoming := account.outgoing, account.incoming;
        ghost var wrote, found;
        wrote, found := account.UpdateRegistry(registry => Marked(registry, outgoing, incoming));
      }
    }

    method AddWrap() returns (ok: bool)
      requires Untouched()
      modifies account`core, account`cores, account`writes
      ensures Untouched() && account.Attempted(old(account.core).(roster := old(account.core.roster) + {account.incoming.key}), ok)
    {
      ok := account.Attempt(account.core.(roster := account.core.roster + {account.incoming.key}));
    }

    method BindRecord() returns (ok: bool)
      requires Untouched()
      modifies account`core, account`cores, account`writes
      ensures Untouched() && account.Attempted(old(account.core).(records := old(account.core.records) + {account.incoming.space}), ok)
    {
      ok := account.Attempt(account.core.(records := account.core.records + {account.incoming.space}));
    }

    method PublishKey() returns (ok: bool)
      requires Untouched()
      modifies account`core, account`cores, account`writes
      ensures Untouched() && account.Attempted(old(account.core).(document := old(account.core.document) + {account.incoming.key}), ok)
    {
      ok := account.Attempt(account.core.(document := account.core.document + {account.incoming.key}));
    }

    /**
      A state of an establishment begun at `from`: the ladder branch binds the record, publishes the key and wraps
      last; the enrolled one wraps, binds and publishes.
     */
    ghost predicate InOrder(from: Core, c: Core) {
      var key, space := account.incoming.key, account.incoming.space;
      && (c.document != from.document ==> space in c.records)
      && (if ladder then c.roster != from.roster ==> key in c.document
          else c.records != from.records ==> key in c.roster)
    }

    /** Wrap, record and document entry, in the branch's own order; any failure leaves the change not made. */
    method Establish() returns (ok: bool)
      requires Untouched()
      modifies account`core, account`cores, account`writes, account`registry, account`checked
      ensures Untouched() && (ok ==> Established()) && (account.healthy ==> ok)
      ensures ok ==>
        account.incoming.key in account.core.document && account.incoming.key in account.core.roster
        && account.incoming.space in account.core.records
      ensures forall c :: c in account.cores && c !in old(account.cores) ==> InOrder(old(account.core), c)
      ensures ladder && account.core.document != old(account.core.document) ==> (BuildEstablishment, true) in account.checked
      ensures account.core.document == old(account.core.document)
              || account.core.document == old(account.core.document) + {account.incoming.key}
      ensures old(account.registry).Registry? ==> account.registry.Registry?
      ensures account.healthy ==>
        && account.registry == old(account.registry)
        && account.core.document == old(account.core.document) + {account.incoming.key}
    {
      if ladder {
        ok := BindRecord();
        if !ok { return; }
        ok := account.Passes(BuildEstablishment);
        if !ok { return; }
        ok := PublishKey();
        if !ok { return; }
        ok := AddWrap();
      } else {
        ok := AddWrap();
        if !ok { return; }
        ok := BindRecord();
        if !ok { return; }
        ok := PublishKey();
      }
    }

    /** The enrolled branch's teardown: the outgoing Space, best-effort, then its local state. */
    method TearDown() returns (gone: bool, ok: bool)
      requires Established()
      modifies account`core, account`cores, account`writes, account`registry, account`checked, account`asked
      ensures Established() && (account.healthy ==> gone && ok)
      ensures account.checked == old(account.checked) + {(DropLocalState, ok)}
      ensures account.outgoing.space in account.asked && (gone ==> account.outgoing.space !in account.core.records)
      ensures account.core.document == old(account.core.document)
      ensures old(account.registry).Registry? ==> account.registry.Registry?
      ensures account.healthy ==> account.registry == old(account.registry)
    {
      gone := account.DeleteSpace(account.outgoing.space);
      ok := account.Passes(DropLocalState);
    }

    /** The retirement: the document edit, then the roster tail. `removed` is set only by the edit's own answer. */
    method RotateOff() returns (stop: Option<Outcome>, rotation: Rotation, removed: bool)
      requires Established()
      modifies account`core, account`cores, account`writes, account`registry, account`checked, account`strikes, this`edited
      ensures Established() && account.core.document <= old(account.core.document)
      ensures account.core.records == old(account.core.records)
      ensures old(account.registry).Registry? ==> account.registry.Registry?
      ensures stop.Some? ==> stop.value.LadderVmUnclaimed? && account.core == old(account.core)
      ensures stop.None? ==> !rotation.Unretired?
      ensures edited == removed == (|account.strikes| > |old(account.strikes)| && account.strikes[|account.strikes| - 1])
      ensures removed ==> account.outgoing.key !in account.core.document
      ensures stop.None? && !removed ==> rotation.RetirementFailed?
      ensures rotation.Rotated? ==> removed && account.outgoing.key !in account.core.roster
      ensures rotation.Rotated? ==> (MintEpochs, true) in account.checked && (AdoptRotation, true) in account.checked
      ensures stop.None? && rotation.Skipped? ==> (MintEpochs, false) in account.checked
      ensures (ClaimLadderVm, stop.None?) in account.checked
      ensures |account.strikes| > |old(account.strikes)| ==> (PrepareRetirement, true) in account.checked
      ensures account.healthy ==> stop.None? && rotation.Rotated? && account.registry == old(account.registry)
    {
      rotation, removed, edited := RetirementFailed, false, false;
      var claimable := account.Passes(ClaimLadderVm);
      if !claimable { return Some(LadderVmUnclaimed), rotation, removed; }
      var prepared := account.Passes(PrepareRetirement);
      if !prepared { return None, rotation, removed; }
      removed := account.StrikeDocument();
      edited := removed;
      if !removed { return None, rotation, removed; }
      var tail := account.Attempt(account.core.(roster := account.core.roster - {account.outgoing.key}));
      if !tail { return None, rotation, removed; }
      var minted := account.Passes(MintEpochs);
      if !minted { return None, Skipped, removed; }
      var adopted := account.Passes(AdoptRotation);
      return None, if adopted then Rotated else RetirementFailed, removed;
    }

    method Retire(entry: Option<Entry>, bare: DocumentState) returns (stop: Option<Outcome>, rotation: Rotation, removed: bool)
      requires Established()
      requires StandingOf(entry).key.Some? ==> bare.NotInDocument?
      requires StandingOf(entry).key.None? && bare.NotInDocument? ==> account.outgoing.key !in account.core.document
      modifies account`core, account`cores, account`writes, account`registry, account`checked, account`strikes, this`edited
      ensures Established() && account.core.document <= old(account.core.document)
      ensures account.core.records == old(account.core.records)
      ensures StandingOf(entry).key.None? || StandingOf(entry).updateKey.None? ==> account.core == old(account.core)
      ensures old(account.registry).Registry? ==> account.registry.Registry?
      ensures stop.Some? ==> stop.value.LadderVmUnclaimed?
      ensures stop.None? ==> (rotation.Unretired? <==> !bare.NotInDocument?)
      ensures edited == removed && (rotation.Rotated? ==> removed)
      ensures stop.None? && rotation.Rotated? ==> (MintEpochs, true) in account.checked && (AdoptRotation, true) in account.checked
      ensures stop.None? && rotation.Skipped? ==> !Nameable(StandingOf(entry)) || (MintEpochs, false) in account.checked
      ensures stop.None? && account.outgoing.key in account.core.document ==>
        || rotation.Unretired?
        || (rotation.RetirementFailed? && !removed && Nameable(StandingOf(entry)))
        || (rotation.Skipped? && KeyWithoutUpdateKey(StandingOf(entry)))
      ensures removed ==> account.outgoing.key !in account.core.document
      ensures rotation.RetirementFailed? && stop.None? ==> Nameable(StandingOf(entry))
      ensures rotation.Rotated? && stop.None? ==>
        account.outgoing.key !in account.core.document && account.outgoing.key !in account.core.roster
      ensures account.healthy ==>
        && stop.None? && account.registry == old(account.registry) && !rotation.RetirementFailed?
        && (account.outgoing.key in account.core.document <==>
              account.outgoing.key in old(account.core.document) && !Nameable(StandingOf(entry)))
    {
      stop, rotation, removed := None, Skipped, false;
      edited := false;
      if !bare.NotInDocument? {
        rotation := Unretired;
      } else if Nameable(StandingOf(entry)) {
        stop, rotation, removed := RotateOff();
      }
    }

    /** The renewal before the ladder branch's strike; a refusal puts the live session back first. */
    method Renew(actingSeed: Option<Key>, actingSpace: SpaceId) returns (ok: bool)
      requires Established()
      modifies account`registry, account`checked, this`ladderSeed, this`unlockSpace
      ensures Established() && account.core == old(account.core)
      ensures old(account.registry).Registry? ==> account.registry.Registry?
      ensures account.healthy ==> ok && account.registry == old(account.registry)
      ensures ladder && account.outgoingSeed.Some? ==> (RenewDelegation, ok) in account.checked
      ensures old(account.checked) <= account.checked && (!ok ==> (RenewDelegation, false) in account.checked)
      ensures if ok then ladderSeed == old(ladderSeed) && unlockSpace == old(unlockSpace)
              else ladder && ladderSeed == actingSeed && unlockSpace == actingSpace
    {
      ok := true;
      if ladder && account.outgoingSeed.Some? {
        ok := account.Passes(RenewDelegation);
        if !ok { ladderSeed, unlockSpace := actingSeed, actingSpace; }
      }
    }

    /** The ladder branch reaches the outgoing Space through the entry: it deletes the Space the entry names. */
    method DeleteEntrySpace(entry: Option<Entry>) returns (gone: bool)
      requires Established()
      modifies account`core, account`cores, account`writes, account`asked
      ensures account.Valid() && old(account.asked) <= account.asked
      ensures ladder && entry.Some? ==> entry.value.space in account.asked
      ensures gone ==> ladder && entry.Some? && entry.value.space !in account.core.records
      ensures !ladder ==> account.core == old(account.core)
      ensures !StrandsIncoming(ladder, entry, account.incoming) ==> Established()
      ensures StrandsIncoming(ladder, entry, account.incoming) && old(Intact(account.before, account.core, account.outgoing)) ==>
        account.AlwaysOpen() && Intact(account.before, account.core, account.outgoing)
      ensures account.registry == old(account.registry)
      ensures account.core.document == old(account.core.document) && account.core.roster == old(account.core.roster)
      ensures account.healthy ==>
        (Usable(account.core, account.incoming) <==> !StrandsIncoming(ladder, entry, account.incoming))
    {
      gone := false;
      if ladder && entry.Some? {
        gone := account.DeleteSpace(entry.value.space);
      }
    }

    method Record(rotation: Rotation, removed: bool, entry: Option<Entry>, seed: Option<Key>, absent: bool)
      requires account.Valid()
      modifies account`registry, account`checked, account`writes, account`edits, this`landed
      ensures account.Valid() && account.core == old(account.core) && account.cores == old(account.cores)
      ensures account.writes == old(account.writes) + 1
      ensures if landed then |account.edits| == |old(account.edits)| + 1 && old(account.edits) <= account.edits
                && account.edits[|old(account.edits)|].after == account.registry
              else account.edits == old(account.edits)
      ensures landed ==>
        && EntryOf(account.registry).Some? && EntryOf(account.registry).value.space == account.incoming.space
        && EntryOf(account.registry).value.standing ==
             FinalStanding(rotation, removed, StandingOf(entry), account.outgoing, seed,
                           Standing(Some(account.incoming.key), Some(account.incomingRung)))
      ensures account.healthy ==> (landed <==> old(account.registry).Registry? || (rotation.Unretired? && absent))
    {
      var incoming := account.incoming;
      var mint := rotation.Unretired? && absent;
      var names := FinalStanding(rotation, removed, StandingOf(entry), account.outgoing, seed,
                                 Standing(Some(incoming.key), Some(account.incomingRung)));
      ghost var wrote, found;
      wrote, found := account.UpdateRegistry(registry => Recorded(registry, incoming, names, mint));
      landed := wrote;
      if landed { RecordedReads(found, incoming, names, mint); }
    }

    /** Establishment to renewal: everything before the change's own pivot, the strike. */
    method Replace() returns (stop: Option<Outcome>, gone: bool)
      requires Untouched()
      modifies account`core, account`cores, account`writes, account`registry, account`checked, account`edits, account`asked,
        this`unlockSpace, this`ladderSeed, this`establishedOver
      ensures stop.None? && !ladder ==>
        account.outgoing.space in account.asked && (gone ==> account.outgoing.space !in account.core.records)
      ensures |account.edits| <= |old(account.edits)| + 1 && old(account.edits) <= account.edits
      ensures |account.edits| > |old(account.edits)| ==>
        !ladder && Marks(account.edits[|old(account.edits)|], account.outgoing, account.incoming)
      ensures ladder ==> Intact(account.before, account.core, account.outgoing)
      ensures account.healthy ==>
        establishedOver == AfterMark(ladder, old(account.registry), account.outgoing, account.incoming)
      ensures stop.None? ==> ladder || (DropLocalState, true) in account.checked
      ensures stop.None? && ladder && account.outgoingSeed.Some? ==> (RenewDelegation, true) in account.checked
      ensures account.Valid() && account.AlwaysOpen() && (stop.None? ==> Established())
      ensures stop.Some? ==> stop.value.NotEstablished? || stop.value.LocalStateFailed? || stop.value.RenewalRefused?
      ensures stop == Some(NotEstablished) ==> Untouched() && unlockSpace == old(unlockSpace) && ladderSeed == old(ladderSeed)
      ensures stop == Some(LocalStateFailed) ==> Established()
      ensures stop == Some(RenewalRefused) ==>
        ladder && Untouched() && Established() && unlockSpace == old(unlockSpace) && ladderSeed == old(ladderSeed)
      ensures stop.None? ==> unlockSpace == account.incoming.space && ladderSeed == Some(account.incomingRung)
      ensures old(account.registry).Registry? ==> account.registry.Registry?
      ensures account.outgoing.key in old(account.core.document) ==> account.outgoing.key in account.core.document
      ensures account.outgoing.key !in old(account.core.document) ==> account.outgoing.key !in account.core.document
      ensures account.healthy ==> stop.None? && (old(account.registry).NoRegistry? ==> account.registry.NoRegistry?)
    {
      var actingSeed, actingSpace := ladderSeed, unlockSpace;
      gone := false;
      Mark();
      establishedOver := account.registry;
      var ok := Establish();
      if !ok { return Some(NotEstablished), gone; }
      unlockSpace := account.incoming.space;
      if !ladder {
        gone, ok := TearDown();
        if !ok { return Some(LocalStateFailed), gone; }
      }
      ladderSeed := Some(account.incomingRung);
      ok := Renew(actingSeed, actingSpace);
      if !ok { return Some(RenewalRefused), gone; }
      stop := None;
    }

    /** The branch deletes the incoming Space, and retires the outgoing credential too. */
    ghost predicate Stranded()
      reads this`oldEntry
    {
      StrandsIncoming(ladder, oldEntry, account.incoming) && Nameable(StandingOf(oldEntry))
    }

    /**
      What a registry write that landed recorded: the entry's own members where the retirement failed at its
      document edit, the outgoing credential's where it was never tried, and else the incoming one's. So whichever
      credential still stands is named, unless its entry had no update key, and named so that a later change can
      retire it.
     */
    ghost predicate NamesWhatStands(rotation: Rotation)
      reads this, account
    {
      var entry := EntryOf(account.registry);
      && (landed ==>
            && entry.Some? && entry.value.space == account.incoming.space
            && entry.value.standing ==
                 (if rotation.RetirementFailed? && !edited then StandingOf(oldEntry)
                  else if rotation.Unretired? then Standing(Some(account.outgoing.key), account.outgoingSeed)
                  else Standing(Some(account.incoming.key), Some(account.incomingRung)))
            && (rotation.RetirementFailed? && !edited ==> Nameable(entry.value.standing))
            && (rotation.Unretired? ==> (Nameable(entry.value.standing) <==> account.outgoingSeed.Some?))
            && (account.outgoing.key in account.core.document ==>
                  (entry.value.standing.key == Some(account.outgoing.key) <==> !KeyWithoutUpdateKey(StandingOf(oldEntry)))))
      && (rotation.Rotated? ==>
            && account.outgoing.key !in account.core.document && account.outgoing.key !in account.core.roster
            && (landed ==> entry.value.standing.key == Some(account.incoming.key)))
    }

    /** The Space each branch deletes: the outgoing one, or the one the entry names. */
    ghost predicate SpaceAddressed(gone: bool)
      reads this, account
    {
      if ladder then
        if oldEntry.Some? then oldEntry.value.space in account.asked && (gone ==> oldEntry.value.space !in account.core.records)
        else !gone
      else account.outgoing.space in account.asked && (gone ==> account.outgoing.space !in account.core.records)
    }

    /** The strike and what follows it, the registry write last. */
    method Finish(entry: Option<Entry>, absent: bool, bare: DocumentState, seed: Option<Key>, torn: bool) returns (outcome: Outcome)
      requires Established() && !landed && seed == account.outgoingSeed && entry == oldEntry
      requires ladder ==> Intact(account.before, account.core, account.outgoing)
      requires StandingOf(entry).key.Some? ==> bare.NotInDocument? && StandingOf(entry).key.value == account.outgoing.key
      requires StandingOf(entry).key.None? && bare.NotInDocument? ==> account.outgoing.key !in account.core.document
      requires !ladder ==>
        account.outgoing.space in account.asked && (torn ==> account.outgoing.space !in account.core.records)
      modifies account`core, account`cores, account`writes, account`registry, account`checked, account`edits,
        account`asked, account`strikes, this`edited, this`landed, this`unlockSpace, this`standing
      ensures outcome.Changed? ==> SpaceAddressed(outcome.outgoingSpaceGone)
      ensures |account.edits| == |old(account.edits)| + (if landed then 1 else 0) && old(account.edits) <= account.edits
      ensures account.Valid() && oldEntry == entry
      ensures !Stranded() ==> account.AlwaysOpen()
      ensures outcome.LadderVmUnclaimed? ==> Established()
      ensures if outcome.Changed? then
                unlockSpace == account.incoming.space && standing == if ladder then account.incoming else old(standing)
              else outcome.LadderVmUnclaimed?
      ensures outcome.Changed? ==> NamesWhatStands(outcome.rotation)
      ensures outcome.Changed? && !StrandsIncoming(ladder, entry, account.incoming) ==> Usable(account.core, account.incoming)
      ensures outcome.Changed? ==> (outcome.rotation.Unretired? <==> !bare.NotInDocument?)
      ensures account.core.document <= old(account.core.document)
      ensures account.healthy ==> outcome.Changed?
      ensures account.healthy ==>
        && (Usable(account.core, account.incoming) <==> !StrandsIncoming(ladder, entry, account.incoming))
        && (account.outgoing.key in account.core.document <==>
              account.outgoing.key in old(account.core.document) && !Nameable(StandingOf(entry)))
        && (landed <==> old(account.registry).Registry? || (outcome.rotation.Unretired? && absent))
    {
      var stop, rotation, removed := Retire(entry, bare);
      if stop.Some? { return stop.value; }
      var gone := DeleteEntrySpace(entry);
      Record(rotation, removed, entry, seed, absent);
      if ladder { standing := account.incoming; }
      unlockSpace := account.incoming.space;
      return Changed(rotation, if ladder then gone else torn);
    }

    /** The session's own unlock method afterwards; a change that reports itself not made left the outgoing one as it was. */
    twostate predicate SessionActs(outcome: Outcome)
      reads this, account
    {
      && (!outcome.Changed? && !outcome.LocalStateFailed? && !outcome.LadderVmUnclaimed? ==>
            unlockSpace == old(unlockSpace) && ladderSeed == old(ladderSeed) && standing == old(standing))
      && (outcome.Changed? ==>
            unlockSpace == account.incoming.space && ladderSeed == Some(account.incomingRung)
            && standing == if ladder then account.incoming else old(standing))
      && (outcome.NotEstablished? || outcome.RenewalRefused? ==> Intact(old(account.core), account.core, account.outgoing))
      && (outcome.RenewalRefused? || outcome.LadderVmUnclaimed? || outcome.LocalStateFailed? ==>
            Usable(account.core, account.incoming))
    }

    /** The change past its guards. */
    method Complete(entry: Option<Entry>, absent: bool, bare: DocumentState, seed: Option<Key>) returns (outcome: Outcome)
      requires Untouched() && account.core == account.before && !landed && seed == account.outgoingSeed && entry == oldEntry
      requires StandingOf(entry).key.Some? ==> bare.NotInDocument? && StandingOf(entry).key.value == account.outgoing.key
      requires StandingOf(entry).key.None? && bare.NotInDocument? ==> account.outgoing.key !in account.core.document
      modifies account`core, account`cores, account`writes, account`registry, account`checked, account`edits,
        account`asked, account`strikes, this`edited, this`landed, this`unlockSpace, this`ladderSeed, this`standing, this`establishedOver
      ensures account.Valid() && oldEntry == entry && !RefusedUpFront(outcome)
      ensures !Stranded() ==> account.AlwaysOpen()
      ensures old(account.edits) <= account.edits
      ensures forall n :: |old(account.edits)| <= n < |account.edits| ==>
        Marks(account.edits[n], account.outgoing, account.incoming) || (landed && n == |account.edits| - 1)
      ensures SessionActs(outcome)
      ensures outcome.Changed? ==>
        && SpaceAddressed(outcome.outgoingSpaceGone) && NamesWhatStands(outcome.rotation)
        && (!StrandsIncoming(ladder, entry, account.incoming) ==> Usable(account.core, account.incoming))
        && (outcome.rotation.Unretired? <==> !bare.NotInDocument?)
      ensures account.outgoing.key !in old(account.core.document) ==> account.outgoing.key !in account.core.document
      ensures account.healthy ==>
        && outcome.Changed?
        && establishedOver == AfterMark(ladder, old(account.registry), account.outgoing, account.incoming)
        && (Usable(account.core, account.incoming) <==> !StrandsIncoming(ladder, oldEntry, account.incoming))
        && (account.outgoing.key in account.core.document <==>
              account.outgoing.key in old(account.core.document) && !Nameable(StandingOf(oldEntry)))
        && (landed <==> old(account.registry).Registry? || (outcome.rotation.Unretired? && absent))
    {
      var stop, gone := Replace();
      if stop.Some? { return stop.value; }
      outcome := Finish(entry, absent, bare, seed, gone);
    }

    /**
      The whole change. In every state it passes through, the incoming credential opens the account or nothing
      of the outgoing one was touched, so a tear after any single write leaves a usable passphrase; the one
      exception is a ladder-branch retry that retires the outgoing credential over an entry that already names the
      incoming Space.
     */
    method Run() returns (outcome: Outcome)
      requires account.Valid() && account.AlwaysOpen() && account.core == account.before
      modifies account`core, account`cores, account`writes, account`registry, account`checked, account`edits, account`asked,
        account`told, account`strikes, this
      ensures account.Valid()
      // Exactly when a usable passphrase is kept throughout; `oldEntry` is what the guards read.
      ensures outcome.Changed? ==> oldEntry in account.told
      ensures !Stranded() ==> account.AlwaysOpen()
      ensures account.healthy && outcome.Changed? && Usable(account.before, account.outgoing) ==>
        (account.AlwaysOpen() <==> !Stranded())
      // A change leaves the new credential its document entry, its wrap and its record, but for the Space its entry names.
      ensures outcome.Changed? && !(ladder && oldEntry.Some? && oldEntry.value.space == account.incoming.space) ==>
        account.incoming.key in account.core.document && account.incoming.key in account.core.roster
        && account.incoming.space in account.core.records
      // The ceremony's own registry writes: at most the marker, and the record.
      ensures old(account.edits) <= account.edits
      ensures forall n :: |old(account.edits)| <= n < |account.edits| ==>
        Marks(account.edits[n], account.outgoing, account.incoming) || (landed && n == |account.edits| - 1)
      // A pre-flight refusal wrote nothing.
      ensures RefusedUpFront(outcome) ==>
        account.writes == old(account.writes) && account.core == old(account.core)
      // What the live session acts through, and what a change that reports itself not made left alone.
      ensures SessionActs(outcome)
      // The Space of the outgoing credential was sent its DELETE, and is gone if the outcome says so.
      ensures outcome.Changed? ==> SpaceAddressed(outcome.outgoingSpaceGone)
      // No credential is left standing unnamed, except one whose entry recorded no update key.
      ensures outcome.Changed? ==> NamesWhatStands(outcome.rotation)
      ensures outcome.Changed? && outcome.rotation.Unretired? ==> StandingOf(oldEntry).key.None?
      ensures outcome.Changed? && account.outgoing.key in account.core.document && StandingOf(oldEntry).key.None? ==>
        outcome.rotation.Unretired?
      // What a healthy server makes of it.
      ensures account.healthy ==>
        && oldEntry == EntryOf(old(account.registry))
        && (outcome.Changed? <==>
              && account.outgoing != account.incoming && account.outgoing.space in old(account.core.records)
              && (StandingOf(oldEntry).key.Some? ==> StandingOf(oldEntry).key.value == account.outgoing.key))
      ensures account.healthy && outcome.Changed? ==>
        && establishedOver == AfterMark(ladder, old(account.registry), account.outgoing, account.incoming)
        && (Usable(account.core, account.incoming) <==> !StrandsIncoming(ladder, oldEntry, account.incoming))
        && (account.outgoing.key in account.core.document <==>
              account.outgoing.key in old(account.core.document) && !Nameable(StandingOf(oldEntry)))
        && (landed <==> old(account.registry).Registry? || outcome.rotation.Unretired?)
    {
      landed := false;
      var stop, entry, absent, bare, seed := Guard();
      if stop.Some? { return stop.value; }
      outcome := Complete(entry, absent, bare, seed);
    }
  }

  /** The unnamed case, worked through: an entry that records no update key loses the only name of a standing credential. */
  method AnUnnamedCredential(outgoing: Credential, incoming: Credential, rung: Key, ladder: bool)
    returns (core: Core, registry: Registry)
    requires outgoing.key != incoming.key && outgoing.space != incoming.space
    ensures outgoing.key in core.document
    ensures EntryOf(registry).Some? && EntryOf(registry).value.standing.key == Some(incoming.key)
  {
    var entry := Entry(outgoing.space, Standing(Some(outgoing.key), None), None);
    var account := new Account(outgoing, incoming, None, rung, true,
                               Core({outgoing.key}, {outgoing.key}, {outgoing.space}), Registry([Passphrase(entry)]));
    assert EntryOf(account.registry) == Some(entry);
    var change := new Change(account, ladder, outgoing.space, None, outgoing);
    var outcome := change.Run();
    assert outcome.Changed? && change.landed && change.oldEntry == Some(entry);
    core, registry := account.core, account.registry;
  }

  /**
    A credential that an entry names in full is retired by the next undisturbed change it makes: what a failed
    retirement records is enough to finish it.
   */
  method ANamedCredentialIsRetired(account: Account, change: Change)
    requires change.account == account && account.Valid() && account.AlwaysOpen() && account.core == account.before
    requires account.healthy && account.outgoing != account.incoming && account.outgoing.space in account.core.records
    requires StandingOf(EntryOf(account.registry)).key == Some(account.outgoing.key)
    requires StandingOf(EntryOf(account.registry)).updateKey.Some?
    modifies account, change
    ensures account.outgoing.key !in account.core.document
  {
    var outcome := change.Run();
  }

  /** What an earlier change leaves that recorded its entry without retiring the outgoing credential: both stand. */
  function BothStanding(outgoing: Credential, incoming: Credential): Core {
    Core({outgoing.key, incoming.key}, {outgoing.key, incoming.key}, {outgoing.space, incoming.space})
  }

  /**
    The stranded retry, worked through: over an entry an earlier change moved, the ladder branch retires the
    outgoing credential and deletes the incoming record, and nothing opens the account.
   */
  method AStrandedRetry(outgoing: Credential, incoming: Credential, outgoingRung: Key, rung: Key) returns (core: Core)
    requires outgoing.key != incoming.key && outgoing.space != incoming.space
    ensures !Usable(core, outgoing) && !Usable(core, incoming)
  {
    var entry := Entry(incoming.space, Standing(Some(outgoing.key), Some(outgoingRung)), None);
    var account := new Account(outgoing, incoming, Some(outgoingRung), rung, true,
                               BothStanding(outgoing, incoming), Registry([Passphrase(entry)]));
    assert EntryOf(account.registry) == Some(entry);
    var change := new Change(account, true, outgoing.space, Some(outgoingRung), outgoing);
    var outcome := change.Run();
    core := account.core;
  }

  /**
    The other side: with no update key in that entry the retirement is skipped, and although the incoming record
    goes all the same, the outgoing passphrase still opens the account.
   */
  method AnUnretiredRetry(outgoing: Credential, incoming: Credential, rung: Key) returns (core: Core)
    requires outgoing.key != incoming.key && outgoing.space != incoming.space
    ensures Usable(core, outgoing) && !Usable(core, incoming)
  {
    var entry := Entry(incoming.space, Standing(Some(outgoing.key), None), None);
    var account := new Account(outgoing, incoming, None, rung, true,
                               BothStanding(outgoing, incoming), Registry([Passphrase(entry)]));
    assert EntryOf(account.registry) == Some(entry);
    var change := new Change(account, true, outgoing.space, None, outgoing);
    var outcome := change.Run();
    core := account.core;
    assert core in account.cores && StandingOf(change.oldEntry) == Standing(Some(outgoing.key), None);
  }
}
