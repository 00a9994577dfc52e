/**
  The backup export: a read-only pre-flight over every capability the run needs, the establishment of the
  backup credential, one archive per Space of the listing, and a settle read before the bundle is closed.
  The walk is no snapshot: other sessions may edit the unlock-methods registry between any two requests.
 */
module BackupExport {
  import opened Common

  type SpaceId = string

  /** A capability's `allowedAction` as sealed: unstated, one action, or a list. */
  datatype Allowed = Unstated | One(action: string) | Many(actions: seq<string>)

  datatype Entry = Entry(spaceId: SpaceId, exportable: bool)

  datatype Role = AccountArchive | AnnexArchive | UnlockArchive

  /** A line of an archived account log; a line whose version is no string reads as the empty one. */
  datatype LogLine = Blank | Version(versionId: string) | Broken

  datatype ArchiveFile = ArchiveFile(collection: Option<string>, resource: string, lines: seq<LogLine>)

  datatype Archive = Archive(role: Role, spaceId: SpaceId, files: seq<ArchiveFile>)

  datatype Refusal = NoGeneration | NoPost | NoLadderSeed | RungUncommitted | EntryNotExportable | ReadFailed

  datatype Failure = NotEstablished | NotListed | CapabilityMissing | Continuity | SpaceRefused | RegistryChanged

  datatype Result = Bundle(archives: seq<Archive>) | PreflightRefused(refusal: Refusal) | Failed(failure: Failure)

  /** A capability with no stated action, or an empty list of them, delegates every action. */
  function Actions(allowed: Allowed): Option<seq<string>> {
    match allowed
    case Unstated => None
    case One(action) => Some([action])
    case Many(actions) => if actions == [] then None else Some(actions)
  }

  predicate ZcapAllowsVerb(allowed: Allowed, verb: string)
    ensures ZcapAllowsVerb(allowed, verb) <==> (Actions(allowed).Some? ==> verb in Actions(allowed).value)
    ensures allowed.Unstated? || allowed == Many([]) ==> ZcapAllowsVerb(allowed, verb)
    ensures allowed.One? ==> (ZcapAllowsVerb(allowed, verb) <==> allowed.action == verb)
    ensures allowed.Many? && allowed.actions != [] ==> (ZcapAllowsVerb(allowed, verb) <==> verb in allowed.actions)
  {
    match allowed
    case Unstated => true
    case One(action) => action == verb
    case Many(actions) => |actions| == 0 || verb in actions
  }

  function IdsOf(entries: seq<Entry>): (ids: seq<SpaceId>)
    ensures |ids| == |entries| && forall i :: 0 <= i < |ids| ==> ids[i] == entries[i].spaceId
  {
    MapSeq(entries, (e: Entry) => e.spaceId)
  }

  function IdSet(entries: seq<Entry>): set<SpaceId> {
    set e | e in entries :: e.spaceId
  }

  function Unlocks(entries: seq<Entry>): (names: seq<(Role, SpaceId)>)
    ensures |names| == |entries|
    ensures forall i :: 0 <= i < |names| ==> names[i] == (UnlockArchive, entries[i].spaceId)
  {
    MapSeq(entries, (e: Entry) => (UnlockArchive, e.spaceId))
  }

  /** The listing: the account Space, the annex Space the pre-flight resolved, and every registry entry. */
  function Listing(account: SpaceId, annex: Option<SpaceId>, entries: seq<Entry>): seq<(Role, SpaceId)> {
    [(AccountArchive, account)]
    + (if annex.Some? then [(AnnexArchive, annex.value)] else [])
    + Unlocks(entries)
  }

  function Names(archives: seq<Archive>): (names: seq<(Role, SpaceId)>)
    ensures |names| == |archives|
  {
    MapSeq(archives, (a: Archive) => (a.role, a.spaceId))
  }

  /** The order of a bundle's archives: the account's, the annex's, then each entry's in the registry's order. */
  lemma ListingInOrder(account: SpaceId, annex: Option<SpaceId>, entries: seq<Entry>, archives: seq<Archive>)
    requires Names(archives) == Listing(account, annex, entries)
    ensures |archives| == |entries| + (if annex.Some? then 2 else 1)
    ensures archives[0].role.AccountArchive? && archives[0].spaceId == account
    ensures annex.Some? ==> archives[1].role.AnnexArchive? && archives[1].spaceId == annex.value
    ensures forall i :: 0 <= i < |entries| ==>
      var a := archives[|archives| - |entries| + i]; a.role.UnlockArchive? && a.spaceId == entries[i].spaceId
  {
    assert |Listing(account, annex, entries)| == |entries| + (if annex.Some? then 2 else 1);
    assert Names(archives)[0] == (AccountArchive, account);
    if annex.Some? { assert Names(archives)[1] == (AnnexArchive, annex.value); }
    forall i | 0 <= i < |entries|
      ensures var a := archives[|archives| - |entries| + i]; a.role.UnlockArchive? && a.spaceId == entries[i].spaceId
    {
      assert Names(archives)[|archives| - |entries| + i] == Unlocks(entries)[i];
    }
  }

  lemma {:induction false} OccursOnce<T>(s: seq<T>)
    requires NoRepeats(s)
    ensures forall x :: x in s ==> multiset(s)[x] == 1
  {
    if s != [] {
      var rest, last := s[..|s| - 1], s[|s| - 1];
      assert s == rest + [last];
      OccursOnce(rest);
      assert last !in rest;
    }
  }

  lemma RepeatOccursTwice<T>(s: seq<T>, i: int, j: int)
    requires 0 <= i < j < |s| && s[i] == s[j]
    ensures multiset(s)[s[i]] >= 2
  {
    assert s == s[..j] + s[j..] && s[i] in s[..j] && s[j..] == [s[j]] + s[j + 1..];
    assert multiset(s) == multiset(s[..j]) + multiset(s[j..]);
  }

  lemma UnlocksGrow(rest: seq<Entry>, last: Entry)
    ensures Unlocks(rest + [last]) == Unlocks(rest) + [(UnlockArchive, last.spaceId)]
    ensures IdsOf(rest + [last]) == IdsOf(rest) + [last.spaceId]
  {
  }

  lemma {:induction false} UnlocksRead(entries: seq<Entry>, id: SpaceId)
    ensures multiset(Unlocks(entries))[(UnlockArchive, id)] == multiset(IdsOf(entries))[id]
    ensures forall role: Role :: !role.UnlockArchive? ==> multiset(Unlocks(entries))[(role, id)] == 0
  {
    if entries == [] {
      assert Unlocks(entries) == [] && IdsOf(entries) == [];
    } else {
      var rest, last := entries[..|entries| - 1], entries[|entries| - 1];
      UnlocksRead(rest, id);
      assert entries == rest + [last];
      UnlocksGrow(rest, last);
      AppendCounts(IdsOf(rest), last.spaceId, id);
      forall role: Role { AppendCounts(Unlocks(rest), (UnlockArchive, last.spaceId), (role, id)); }
    }
  }

  lemma AppendCounts<T>(s: seq<T>, x: T, y: T)
    ensures multiset(s + [x])[y] == multiset(s)[y] + if x == y then 1 else 0
  {
  }

  lemma ListingReads(account: SpaceId, annex: Option<SpaceId>, entries: seq<Entry>, id: SpaceId)
    ensures multiset(Listing(account, annex, entries))[(UnlockArchive, id)] == multiset(IdsOf(entries))[id]
    ensures multiset(Listing(account, annex, entries))[(AccountArchive, id)] == if id == account then 1 else 0
    ensures multiset(Listing(account, annex, entries))[(AnnexArchive, id)] == if annex == Some(id) then 1 else 0
  {
    UnlocksRead(entries, id);
    var annexes := if annex.Some? then [(AnnexArchive, annex.value)] else [];
    assert multiset(Listing(account, annex, entries))
        == multiset([(AccountArchive, account)]) + multiset(annexes) + multiset(Unlocks(entries));
  }

  /**
    The bundle holds exactly one archive of the account Space, at most one of an annex Space, and exactly one
    of each unlock Space the registry names, if and only if the registry names no Space twice.
   */
  lemma OneArchiveEach(account: SpaceId, annex: Option<SpaceId>, entries: seq<Entry>)
    ensures multiset(Listing(account, annex, entries))[(AccountArchive, account)] == 1
    ensures annex.Some? ==> multiset(Listing(account, annex, entries))[(AnnexArchive, annex.value)] == 1
    ensures (forall id :: id in IdSet(entries) ==> multiset(Listing(account, annex, entries))[(UnlockArchive, id)] == 1)
            <==> NoRepeats(IdsOf(entries))
  {
    var ids := IdsOf(entries);
    ListingReads(account, annex, entries, account);
    if annex.Some? { ListingReads(account, annex, entries, annex.value); }
    forall id ensures multiset(Listing(account, annex, entries))[(UnlockArchive, id)] == multiset(ids)[id] {
      ListingReads(account, annex, entries, id);
    }
    if NoRepeats(ids) {
      OccursOnce(ids);
      assert forall id :: id in IdSet(entries) ==> id in ids;
    } else {
      var i, j :| 0 <= i < j < |ids| && ids[i] == ids[j];
      RepeatOccursTwice(ids, i, j);
      assert entries[i] in entries && ids[i] in IdSet(entries);
    }
  }

  predicate IsAccountLog(file: ArchiveFile) {
    file.collection == Some("id") && file.resource == "did.jsonl"
  }

  /** The versions of a log's lines, in order; `None` when a line does not parse. */
  function VersionsOf(lines: seq<LogLine>): Option<seq<string>> {
    if lines == [] then Some([]) else
      var rest := VersionsOf(lines[1..]);
      match lines[0]
      case Broken => None
      case Blank => rest
      case Version(id) => if rest.None? then None else Some([id] + rest.value)
  }

  lemma {:induction false} VersionsRead(lines: seq<LogLine>)
    ensures VersionsOf(lines).None? <==> Broken in lines
    ensures VersionsOf(lines).Some? ==> forall id :: id in VersionsOf(lines).value <==> Version(id) in lines
  {
    if lines != [] {
      VersionsRead(lines[1..]);
      assert lines == [lines[0]] + lines[1..];
    }
  }

  ghost predicate FirstLogAt(files: seq<ArchiveFile>, n: int) {
    0 <= n < |files| && IsAccountLog(files[n]) && forall m :: 0 <= m < n ==> !IsAccountLog(files[m])
  }

  /** Reads an archive up to its account log and no further. */
  method ArchivedAccountLog(files: seq<ArchiveFile>) returns (found: Option<seq<LogLine>>)
    ensures found.None? <==> forall f :: f in files ==> !IsAccountLog(f)
    ensures found.Some? ==> exists n :: FirstLogAt(files, n) && files[n].lines == found.value
    ensures found.None? <==> forall f :: f in files ==> f.collection != Some("id") || f.resource != "did.jsonl"
    ensures found.Some? ==>
      exists f :: f in files && f.collection == Some("id") && f.resource == "did.jsonl" && f.lines == found.value
  {
    for n := 0 to |files|
      invariant forall m :: 0 <= m < n ==> !IsAccountLog(files[m])
    {
      if IsAccountLog(files[n]) {
        assert FirstLogAt(files, n) && files[n] in files;
        return Some(files[n].lines);
      }
    }
    return None;
  }

  /** Whether an account archive carries the pinned log head: its first account log holds that version. */
  ghost predicate CarriesPin(files: seq<ArchiveFile>, head: string) {
    exists n :: FirstLogAt(files, n) && Version(head) in files[n].lines
  }

  function EntriesOf(registry: Option<seq<Entry>>): (entries: seq<Entry>)
    ensures registry.None? ==> entries == []
    ensures registry.Some? ==> entries == registry.value
  {
    if registry.Some? then registry.value else []
  }

  predicate Packable(entries: seq<Entry>, established: SpaceId) {
    established in IdSet(entries) && forall e :: e in entries ==> e.exportable
  }

  /** The establishment's own registry write: its entry is added to the registry that stood before it. */
  ghost predicate Appended(history: seq<Option<seq<Entry>>>, n: int, space: SpaceId) {
    0 <= n < |history| - 1 && history[n + 1] == Some(EntriesOf(history[n]) + [Entry(space, true)])
  }

  /** It was, between two places in the history. */
  ghost predicate AppendedBetween(history: seq<Option<seq<Entry>>>, from: int, until: int, space: SpaceId) {
    exists n :: from <= n < until && Appended(history, n, space)
  }

  lemma AppendedStays(history: seq<Option<seq<Entry>>>, more: seq<Option<seq<Entry>>>, from: int, until: int, later: int,
                      space: SpaceId)
    requires AppendedBetween(history, from, until, space) && history <= more && until <= later
    ensures AppendedBetween(more, from, later, space)
  {
    var n :| from <= n < until && Appended(history, n, space);
    assert more[n] == history[n] && more[n + 1] == history[n + 1];
    assert Appended(more, n, space);
  }

  class BackupRun {
    const account: SpaceId
    const ladder: bool
    const generation: Option<Allowed>   // a ladder session's delegation on the account Space
    const ladderSeed: bool
    const pin: Option<string>           // the chain-head pin this visit holds for the account log
    const quiet: bool                   // every request succeeds and nobody else writes
    const pointed: Option<SpaceId>      // the annex generation's Space the account document names
    const admitted: bool                // that generation admits this session's rung
    const accountFiles: seq<ArchiveFile>
    var registry: Option<seq<Entry>>
    var wrote: bool
    var unlockEntries: map<SpaceId, Entry>
    var established: Option<SpaceId>
    var spaceOrder: seq<(Role, SpaceId)>
    ghost var history: seq<Option<seq<Entry>>>  // every registry that ever stood, oldest first
    ghost var served: set<(SpaceId, seq<ArchiveFile>)> // what each Space's export was answered with
    ghost var listed: seq<Entry>
    ghost var listedAt: nat                     // where in the history the listing was read
    ghost var settled: seq<Entry>
    ghost var settledAt: nat

    constructor (account: SpaceId, ladder: bool, generation: Option<Allowed>, ladderSeed: bool, pin: Option<string>, quiet: bool,
                 pointed: Option<SpaceId>, admitted: bool, accountFiles: seq<ArchiveFile>, registry: Option<seq<Entry>>)
      ensures Recorded() && !wrote && unlockEntries == map[]
      ensures this.registry == registry && this.account == account && this.pin == pin
    {
      this.account, this.ladder, this.generation, this.ladderSeed, this.pin := account, ladder, generation, ladderSeed, pin;
      this.quiet, this.pointed, this.admitted, this.accountFiles := quiet, pointed, admitted, accountFiles;
      this.registry, wrote, unlockEntries, established, spaceOrder := registry, false, map[], None, [];
      history, served, listed, listedAt, settled, settledAt := [registry], {}, [], 0, [], 0;
    }

    ghost predicate Recorded()
      reads this
    {
      history != [] && history[|history| - 1] == registry
    }

    /** Time passed at the server. */
    twostate predicate Advanced()
      reads this
    {
      Recorded() && old(history) <= history && (quiet ==> registry == old(registry))
    }

    /** Other sessions' edits, none on a quiet server. */
    method OthersEdit()
      requires Recorded()
      modifies this`registry, this`history
      ensures Advanced()
    {
      var edits: seq<Option<seq<Entry>>> := *;
      if !quiet && edits != [] {
        registry := edits[|edits| - 1];
        history := history + edits;
      }
    }

    method ReadRegistry() returns (read: Option<Option<seq<Entry>>>)
      requires Recorded()
      modifies this`registry, this`history
      ensures Advanced() && (read.Some? ==> read.value == registry) && (quiet ==> read.Some?)
    {
      var failed: bool := *;
      OthersEdit();
      read := if failed && !quiet then None else Some(registry);
    }

    /** The annex generation's Space the account document names, if any; `None` when it could not be resolved. */
    method ResolveAnnex() returns (resolved: Option<Option<SpaceId>>)
      ensures (resolved.Some? ==> resolved.value == pointed) && (quiet ==> resolved.Some?)
    {
      var failed: bool := *;
      resolved := if failed && !quiet then None else Some(pointed);
    }

    /** What the pre-flight asks of the session itself. */
    predicate SessionFit() {
      && (ladder ==> generation.Some? && ZcapAllowsVerb(generation.value, "POST"))
      && (pointed.Some? ==> ladderSeed && admitted)
    }

    /** Every capability the run needs, checked before anything is written. */
    method Preflight() returns (refusal: Option<Refusal>, annex: Option<SpaceId>)
      requires Recorded()
      modifies this`registry, this`history
      ensures Advanced()
      ensures refusal.None? ==> SessionFit() && annex == pointed
      ensures refusal.None? && ladder ==> generation.Some? && ZcapAllowsVerb(generation.value, "POST")
      ensures refusal.None? && pointed.Some? ==> ladderSeed && admitted
      ensures refusal.None? && registry.Some? ==> forall e :: e in registry.value ==> e.exportable
      // Each refusal has its own reason.
      ensures refusal == Some(NoGeneration) <==> ladder && generation.None?
      ensures refusal == Some(NoPost) <==> ladder && generation.Some? && !ZcapAllowsVerb(generation.value, "POST")
      ensures refusal == Some(NoLadderSeed) ==> pointed.Some? && !ladderSeed
      ensures refusal == Some(RungUncommitted) ==> pointed.Some? && ladderSeed && !admitted
      ensures refusal == Some(EntryNotExportable) ==>
        SessionFit() && registry.Some? && exists e :: e in registry.value && !e.exportable
      ensures quiet ==>
        (refusal.None? <==>
          && (ladder ==> generation.Some? && ZcapAllowsVerb(generation.value, "POST"))
          && (pointed.Some? ==> ladderSeed && admitted)
          && (registry.Some? ==> forall e :: e in registry.value ==> e.exportable))
    {
      annex := None;
      if ladder {
        if generation.None? { return Some(NoGeneration), annex; }
        if !ZcapAllowsVerb(generation.value, "POST") { return Some(NoPost), annex; }
      }
      var resolved := ResolveAnnex();
      if resolved.None? { return Some(ReadFailed), annex; }
      if resolved.value.Some? {
        if !ladderSeed { return Some(NoLadderSeed), annex; }
        if !admitted { return Some(RungUncommitted), annex; }
      }
      var read := ReadRegistry();
      if read.None? { return Some(ReadFailed), annex; }
      var entries := EntriesOf(read.value);
      for n := 0 to |entries|
        invariant forall e :: e in entries[..n] ==> e.exportable
      {
        if !entries[n].exportable { return Some(EntryNotExportable), annex; }
      }
      return None, resolved.value;
    }

    /** The establishment: the credential's entry is in the registry before its secret is handed back. */
    method Establish(space: SpaceId) returns (ok: bool)
      requires Recorded()
      modifies this`registry, this`history, this`wrote, this`established
      ensures Recorded() && old(history) <= history
      ensures ok ==> AppendedBetween(history, |old(history)| - 1, |history| - 1, space)
      ensures wrote && (ok ==> established == Some(space))
      ensures quiet ==>
        ok && registry == Some(EntriesOf(old(registry)) + [Entry(space, true)])
    {
      wrote := true;
      var landed: bool := *;
      OthersEdit();
      if quiet || landed {
        ghost var n := |history| - 1;
        registry := Some(EntriesOf(registry) + [Entry(space, true)]);
        history := history + [registry];
        assert Appended(history, n, space);
        ghost var appended := history;
        OthersEdit();
        assert history[n] == appended[n] && history[n + 1] == appended[n + 1];
        assert Appended(history, n, space);
      }
      ok := quiet || landed;
      established := if ok then Some(space) else None;
    }

    /** The listing, read back from the server; it must hold the credential just established. */
    method ListSpaces(annex: Option<SpaceId>) returns (ok: bool)
      requires Recorded() && established.Some? && unlockEntries == map[]
      modifies this`registry, this`history, this`unlockEntries, this`spaceOrder, this`listed, this`listedAt
      ensures Advanced()
      ensures ok ==> registry == Some(listed) && listedAt == |history| - 1
      ensures ok ==> established.value in IdSet(listed) && spaceOrder == Listing(account, annex, listed)
      ensures ok ==> unlockEntries.Keys == IdSet(listed)
      ensures ok ==> forall id :: id in unlockEntries ==> unlockEntries[id] in listed && unlockEntries[id].spaceId == id
      ensures quiet ==>
        (ok <==> registry.Some? && established.value in IdSet(registry.value))
    {
      var read := ReadRegistry();
      if read.None? || read.value.None? { return false; }
      var entries := read.value.value;
      if !exists e :: e in entries && e.spaceId == established.value { return false; }
      listed, listedAt := entries, |history| - 1;
      spaceOrder := Listing(account, annex, entries);
      for n := 0 to |entries|
        modifies this`unlockEntries
        invariant unlockEntries.Keys == IdSet(entries[..n])
        invariant forall id :: id in unlockEntries ==> unlockEntries[id] in entries && unlockEntries[id].spaceId == id
      {
        assert entries[..n + 1] == entries[..n] + [entries[n]];
        unlockEntries := unlockEntries[entries[n].spaceId := entries[n]];
      }
      assert entries[..|entries|] == entries;
      return true;
    }

    /** The account archive must continue the log this visit verified, where it holds a pin for it. */
    method RefuseForkedAccountArchive(files: seq<ArchiveFile>) returns (ok: bool)
      ensures ok && pin.Some? ==> CarriesPin(files, pin.value)
      ensures pin.None? ==> ok
      ensures pin.Some? && CarriesPin(files, pin.value) && (forall f :: f in files ==> Broken !in f.lines) ==> ok
    {
      if pin.None? { return true; }
      var lines := ArchivedAccountLog(files);
      if lines.None? { return false; }
      VersionsRead(lines.value);
      var versions := VersionsOf(lines.value);
      ok := versions.Some? && pin.value in versions.value;
    }

    /** One Space's export, every collection of it; `None` when the server refused or broke off. */
    method Download(role: Role, spaceId: SpaceId) returns (files: Option<seq<ArchiveFile>>)
      modifies this`served
      ensures served == old(served) + if files.Some? then {(spaceId, files.value)} else {}
      ensures quiet ==> files.Some? && (role.AccountArchive? ==> files.value == accountFiles)
    {
      var failed: bool := *;
      var sealed: seq<ArchiveFile> := *;
      if quiet && role.AccountArchive? { sealed := accountFiles; }
      files := if failed && !quiet then None else Some(sealed);
      if files.Some? { served := served + {(spaceId, sealed)}; }
    }

    method ExportSpace(role: Role, spaceId: SpaceId) returns (archive: Option<Archive>, failure: Failure)
      requires role.UnlockArchive? ==> spaceId in unlockEntries && unlockEntries[spaceId].spaceId == spaceId
      modifies this`served
      ensures archive.Some? ==> archive.value.role == role && archive.value.spaceId == spaceId
      ensures old(served) <= served && (archive.Some? ==> (spaceId, archive.value.files) in served)
      ensures archive.Some? && role.AccountArchive? && pin.Some? ==> CarriesPin(archive.value.files, pin.value)
      ensures archive.Some? && role.UnlockArchive? ==> unlockEntries[spaceId].exportable
      ensures quiet ==>
        match role
        case AccountArchive => LogContinues() ==> archive.Some?
        case AnnexArchive => archive.Some?
        case UnlockArchive => archive.Some? <==> unlockEntries[spaceId].exportable
    {
      archive, failure := None, SpaceRefused;
      if role.UnlockArchive? && !unlockEntries[spaceId].exportable { return None, CapabilityMissing; }
      var files := Download(role, spaceId);
      if files.None? { return; }
      if role.AccountArchive? {
        var continuous := RefuseForkedAccountArchive(files.value);
        if !continuous { return None, Continuity; }
      }
      return Some(Archive(role, spaceId, files.value)), failure;
    }

    /** The account log as the server holds it carries the pin, and parses. */
    ghost predicate LogContinues() {
      pin.Some? ==> CarriesPin(accountFiles, pin.value) && forall f :: f in accountFiles ==> Broken !in f.lines
    }

    /** The settle read: the set of unlock Spaces must still be the listed one. */
    method SettledRegistry() returns (ok: bool)
      requires Recorded()
      modifies this`registry, this`history, this`settled, this`settledAt
      ensures Advanced()
      ensures ok ==> settled == EntriesOf(registry) && settledAt == |history| - 1
      ensures ok ==> IdSet(settled) == unlockEntries.Keys
      ensures quiet ==> (ok <==> IdSet(EntriesOf(registry)) == unlockEntries.Keys)
    {
      var read := ReadRegistry();
      if read.None? { return false; }
      var entries := EntriesOf(read.value);
      settled, settledAt := entries, |history| - 1;
      var current := IdSet(entries);
      var added := set id | id in current && id !in unlockEntries;
      var removed := set id | id in unlockEntries.Keys && id !in current;
      ok := added == {} && removed == {};
      if ok {
        assert forall id :: id in current && id !in unlockEntries ==> id in added;
        assert forall id :: id in unlockEntries.Keys && id !in current ==> id in removed;
      }
    }

    /** Each archive is what its own Space's export was answered with. */
    ghost predicate AsServed(archives: seq<Archive>)
      reads this`served
    {
      forall a :: a in archives ==> (a.spaceId, a.files) in served
    }

    /** The account archive holds the pinned log head, where this visit holds one. */
    ghost predicate PinCarried(archives: seq<Archive>) {
      pin.Some? ==> forall a :: a in archives && a.role.AccountArchive? ==> CarriesPin(a.files, pin.value)
    }

    method ExportAll() returns (archives: seq<Archive>, failure: Option<Failure>)
      requires forall n :: 0 <= n < |spaceOrder| && spaceOrder[n].0.UnlockArchive? ==>
        spaceOrder[n].1 in unlockEntries && unlockEntries[spaceOrder[n].1].spaceId == spaceOrder[n].1
      modifies this`served
      ensures failure.None? ==> Names(archives) == spaceOrder
      ensures AsServed(archives)
      ensures failure.None? ==> PinCarried(archives)
      ensures quiet && LogContinues() && (forall id :: id in unlockEntries ==> unlockEntries[id].exportable) ==> failure.None?
    {
      archives := [];
      for n := 0 to |spaceOrder|
        invariant Names(archives) == spaceOrder[..n]
        invariant AsServed(archives)
        invariant PinCarried(archives)
      {
        var (role, spaceId) := spaceOrder[n];
        var archive, why := ExportSpace(role, spaceId);
        if archive.None? { return archives, Some(why); }
        archives := archives + [archive.value];
      }
      return archives, None;
    }

    /** Every archive of the listing, and the settle read. */
    method PackListed() returns (result: Result)
      requires Recorded() && registry == Some(listed) && listedAt == |history| - 1
      requires unlockEntries.Keys == IdSet(listed) && forall id :: id in unlockEntries ==> unlockEntries[id].spaceId == id
      requires forall n :: 0 <= n < |spaceOrder| && spaceOrder[n].0.UnlockArchive? ==> spaceOrder[n].1 in unlockEntries
      modifies this`registry, this`history, this`served, this`settled, this`settledAt
      ensures Recorded() && old(history) <= history && (result.Bundle? || result.Failed?)
      ensures result.Bundle? ==>
        && AsServed(result.archives) && PinCarried(result.archives)
        && Names(result.archives) == spaceOrder && IdSet(listed) == IdSet(settled)
        && listedAt <= settledAt < |history| && EntriesOf(history[settledAt]) == settled
      ensures quiet && LogContinues() && (forall id :: id in unlockEntries ==> unlockEntries[id].exportable) ==> result.Bundle?
    {
      var archives, failure := ExportAll();
      if failure.Some? { return Failed(failure.value); }
      var ok := SettledRegistry();
      if !ok { return Failed(RegistryChanged); }
      return Bundle(archives);
    }

    lemma ListedUnlocks(annex: Option<SpaceId>)
      requires spaceOrder == Listing(account, annex, listed)
      ensures forall n :: 0 <= n < |spaceOrder| && spaceOrder[n].0.UnlockArchive? ==> spaceOrder[n].1 in IdSet(listed)
    {
      var front := if annex.Some? then 2 else 1;
      forall n | 0 <= n < |spaceOrder| && spaceOrder[n].0.UnlockArchive? ensures spaceOrder[n].1 in IdSet(listed) {
        assert n >= front && spaceOrder[n] == Unlocks(listed)[n - front] && listed[n - front] in listed;
      }
    }

    /** The listing, every archive, and the settle read: everything after the establishment. */
    method Pack(annex: Option<SpaceId>) returns (result: Result)
      requires Recorded() && established.Some? && unlockEntries == map[]
      modifies this`registry, this`history, this`unlockEntries, this`spaceOrder,
        this`served, this`listed, this`listedAt, this`settled, this`settledAt
      ensures Recorded() && old(history) <= history && !result.PreflightRefused?
      ensures result.Bundle? ==> AsServed(result.archives) && PinCarried(result.archives)
      ensures result.Bundle? ==>
        && Names(result.archives) == Listing(account, annex, listed)
        && IdSet(listed) == IdSet(settled) && established.value in IdSet(listed)
      ensures result.Bundle? ==>
        && |old(history)| - 1 <= listedAt <= settledAt < |history|
        && history[listedAt] == Some(listed) && EntriesOf(history[settledAt]) == settled
      ensures quiet && LogContinues() && Packable(EntriesOf(old(registry)), established.value) ==> result.Bundle?
    {
      var ok := ListSpaces(annex);
      if !ok { return Failed(NotListed); }
      ListedUnlocks(annex);
      ghost var before := history;
      result := PackListed();
      assert history[listedAt] == before[listedAt];
    }

    /** One export. A bundle is whole or there is none. */
    method Run(space: SpaceId) returns (result: Result)
      requires Recorded() && !wrote && unlockEntries == map[]
      modifies this
      ensures Recorded() && old(history) <= history
      // A pre-flight refusal wrote nothing.
      ensures result.PreflightRefused? ==> !wrote
      ensures result.Bundle? ==>
        && Names(result.archives) == Listing(account, pointed, listed)
        && IdSet(listed) == IdSet(settled) && space in IdSet(listed)
      ensures result.Bundle? ==> AsServed(result.archives)
      // The new credential's entry was written, and the listing read after it.
      ensures result.Bundle? ==> AppendedBetween(history, |old(history)| - 1, listedAt, space)
      // Both reads saw a registry that stood, the settle read no earlier than the listing.
      ensures result.Bundle? ==>
        && |old(history)| - 1 <= listedAt <= settledAt < |history|
        && history[listedAt] == Some(listed) && EntriesOf(history[settledAt]) == settled
      ensures result.Bundle? ==> PinCarried(result.archives)
      ensures result.Bundle? && ladder ==> generation.Some? && ZcapAllowsVerb(generation.value, "POST")
      ensures result.Bundle? && pointed.Some? ==> ladderSeed && admitted
      ensures quiet && LogContinues() ==>
        (result.Bundle? <==>
          SessionFit() && (old(registry).Some? ==> forall e :: e in old(registry).value ==> e.exportable))
    {
      var refusal, annex := Preflight();
      if refusal.Some? { return PreflightRefused(refusal.value); }
      var ok := Establish(space);
      if !ok { return Failed(NotEstablished); }
      assert quiet ==> registry.value[|registry.value| - 1] == Entry(space, true);
      ghost var appended := history;
      result := Pack(annex);
      if result.Bundle? { AppendedStays(appended, history, |old(history)| - 1, |appended| - 1, listedAt, space); }
    }
  }
}
