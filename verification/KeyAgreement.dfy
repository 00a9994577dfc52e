/**
  The KMS-authentication stage: any number of establishments agree on one `keys.json` binding, because its
  write is create-if-absent and a served map is adopted only after the session's own keystore lists its key.
 */
module KeyAgreement {
  import opened Common

  type Controller = string
  type KeystoreId = string

  /** One entry of `KEYSTORE_LISTING_RETRY_DELAYS_MS` for each retry. */
  const RETRY_DELAYS_MS := [250, 500]

  datatype Binding = Binding(vmId: string, kmsKeyId: string)

  /** A parsed `keys.json`; `Other` is any body with no well-formed authentication binding. */
  datatype KeyMap = Authentication(binding: Binding) | Other(body: string)

  datatype Key = Key(id: string, multibase: string)

  datatype Keystore = Keystore(id: KeystoreId, controller: Controller, keys: seq<Key>)

  /** One verification attempt: the keystore looked up, and that keystore as its keys were listed. */
  datatype Attempt = Threw | Answered(found: Option<Keystore>, listed: Option<Keystore>)

  datatype Verdict = Listed | NotListed | Unverified

  datatype Refusal =
    | ProbeFailed | NoBinding | KeyNotListed | KeystoreUnlisted | NoKeystore | KmsFailed | SpaceNotReady | WriteFailed

  datatype Result = Provided(binding: Binding, written: bool) | Refused(refusal: Refusal)

  /** The first keystore a listing by controller returns. */
  function FirstOf(keystores: seq<Keystore>, controller: Controller): (found: Option<Keystore>)
    ensures found.Some? ==> found.value in keystores && found.value.controller == controller
    ensures found.None? <==> forall k :: k in keystores ==> k.controller != controller
  {
    if keystores == [] then None
    else if keystores[0].controller == controller then Some(keystores[0])
    else FirstOf(keystores[1..], controller)
  }

  /** The public half of a verification-method id, after its `#`. */
  function MultibaseOf(vmId: string): string {
    if vmId == "" then "" else if vmId[0] == '#' then vmId[1..] else MultibaseOf(vmId[1..])
  }

  /** `all` with a key minted in one of its keystores. */
  function WithKey(all: seq<Keystore>, keystore: Keystore, key: Key): seq<Keystore> {
    if all == [] then []
    else if all[0] == keystore then [keystore.(keys := keystore.keys + [key])] + all[1..]
    else [all[0]] + WithKey(all[1..], keystore, key)
  }

  lemma {:induction false} AddedIsThere(all: seq<Keystore>, keystore: Keystore, key: Key)
    requires keystore in all
    ensures keystore.(keys := keystore.keys + [key]) in WithKey(all, keystore, key)
  {
    if all[0] != keystore {
      AddedIsThere(all[1..], keystore, key);
      assert WithKey(all, keystore, key)[1..] == WithKey(all[1..], keystore, key);
    } else {
      assert WithKey(all, keystore, key)[0] == keystore.(keys := keystore.keys + [key]);
    }
  }

  lemma {:induction false} AddedIsFirst(all: seq<Keystore>, keystore: Keystore, key: Key, controller: Controller)
    ensures FirstOf(all, controller).None? ==> FirstOf(WithKey(all, keystore, key), controller).None?
    ensures FirstOf(all, controller) == Some(keystore) ==>
      FirstOf(WithKey(all, keystore, key), controller) == Some(keystore.(keys := keystore.keys + [key]))
  {
    if all != [] && all[0] != keystore {
      AddedIsFirst(all[1..], keystore, key, controller);
      assert WithKey(all, keystore, key)[1..] == WithKey(all[1..], keystore, key);
    } else if all != [] {
      assert forall k :: k in all[1..] ==> k in all;
      assert WithKey(all, keystore, key)[1..] == all[1..];
      if FirstOf(all, controller).None? { FirstNone(all[1..], controller); }
    }
  }

  lemma FirstNone(all: seq<Keystore>, controller: Controller)
    requires forall k :: k in all ==> k.controller != controller
    ensures FirstOf(all, controller).None?
  {
  }

  predicate ListsKey(keystore: Keystore, multibase: string) {
    exists key :: key in keystore.keys && (key.multibase == multibase || MultibaseOf(key.id) == multibase)
  }

  lemma {:induction false} FragmentRead(did: string, multibase: string)
    requires '#' !in did
    ensures MultibaseOf(did + "#" + multibase) == multibase
  {
    if did == "" {
      assert did + "#" + multibase == "#" + multibase;
    } else {
      FragmentRead(did[1..], multibase);
      assert (did + "#" + multibase)[1..] == did[1..] + "#" + multibase;
    }
  }

  /** An answered listing that named the key. */
  predicate Lists(attempt: Attempt, multibase: string) {
    attempt.Answered? && attempt.listed.Some? && ListsKey(attempt.listed.value, multibase)
  }

  function ById(keystores: seq<Keystore>, id: KeystoreId): (found: Option<Keystore>)
    ensures found.Some? ==> found.value in keystores && found.value.id == id
    ensures found.None? <==> forall k :: k in keystores ==> k.id != id
  {
    if keystores == [] then None
    else if keystores[0].id == id then Some(keystores[0])
    else ById(keystores[1..], id)
  }

  /** The keystore stood on the server in one of the states since `from`. */
  ghost predicate Stood(ever: seq<seq<Keystore>>, from: int, keystore: Keystore) {
    exists n :: from <= n < |ever| && 0 <= n && keystore in ever[n]
  }

  /** A listing by controller since `from` returned this. */
  ghost predicate ListedFirst(ever: seq<seq<Keystore>>, from: int, controller: Controller, found: Option<Keystore>) {
    exists n :: from <= n < |ever| && 0 <= n && FirstOf(ever[n], controller) == found
  }

  lemma ListedFirstStays(ever: seq<seq<Keystore>>, more: seq<seq<Keystore>>, from: int, earlier: int,
                         controller: Controller, found: Option<Keystore>)
    requires ListedFirst(ever, from, controller, found) && ever <= more && earlier <= from
    ensures ListedFirst(more, earlier, controller, found)
  {
    var n :| from <= n < |ever| && 0 <= n && FirstOf(ever[n], controller) == found;
    assert more[n] == ever[n];
  }

  lemma StoodStays(ever: seq<seq<Keystore>>, more: seq<seq<Keystore>>, from: int, earlier: int, keystore: Keystore)
    requires Stood(ever, from, keystore) && ever <= more && earlier <= from
    ensures Stood(more, earlier, keystore)
  {
    var n :| from <= n < |ever| && 0 <= n && keystore in ever[n];
    assert more[n] == ever[n];
  }

  /** The attempts one verification makes: transport failures, then at most one answer. */
  ghost predicate EndsAtFirstAnswer(attempts: seq<Attempt>) {
    && |attempts| <= |RETRY_DELAYS_MS| + 1
    && forall n :: 0 <= n < |attempts| - 1 ==> attempts[n].Threw?
  }

  /** The refusals that report a request which threw, rather than what a server answered. */
  predicate ReportsFailure(result: Result) {
    result.Refused? && !result.refusal.NoBinding? && !result.refusal.NoKeystore? && !result.refusal.KeyNotListed?
  }

  /** A run stops at the first request that throws, and says so. */
  ghost predicate Unheard(before: nat, after: nat, result: Result) {
    after == before + if ReportsFailure(result) then 1 else 0
  }

  /** Likewise, but for the retried listings: a run that reports a failure had one, and one that wrote had none. */
  ghost predicate OnlyUnheard(before: nat, after: nat, result: Result) {
    && before <= after
    && (ReportsFailure(result) ==> before < after)
    && (result == Refused(NoKeystore) || result == Refused(NoBinding) || (result.Provided? && result.written) ==> before == after)
  }

  /** The key-map store and the KMS of one account. Others establish, create keystores and mint keys beside a run. */
  class Servers {
    const quiet: bool                   // every request succeeds and nobody else writes
    const keyAgent: Controller          // the session's own did:key
    const controller: Controller        // what the account's keystore is looked up under
    const fallback: bool                // whether a did:key listing is at hand when that misses
    const did: string
    var keyMap: Option<KeyMap>
    var keystores: seq<Keystore>
    ghost var returned: set<Binding>    // what any successful run handed back
    ghost var made: nat                 // keystores and keys this session created
    ghost var ever: seq<seq<Keystore>>  // every state `keystores` ever had, oldest first
    ghost var probes: seq<Option<KeyMap>> // what this session's reads of the map answered
    ghost var failures: nat             // requests of this session's that threw

    /** Agreement: every successful run so far returned the stored binding. */
    ghost predicate Valid()
      reads this
    {
      && (forall b :: b in returned ==> keyMap == Some(Authentication(b)))
      && '#' !in did && ever != [] && ever[|ever| - 1] == keystores
    }

    /** A stored map is never overwritten; this session created nothing. */
    twostate predicate Moved()
      reads this
    {
      && Valid() && (old(keyMap).Some? ==> keyMap == old(keyMap)) && old(returned) <= returned
      && (quiet ==> keyMap == old(keyMap) && keystores == old(keystores))
      && made == old(made) && old(ever) <= ever
    }

    /** What the lookup found stood first under the account's controller, or under the did:key when that missed. */
    ghost predicate Found(found: Option<Keystore>, from: int)
      reads this`ever
    {
      || (ListedFirst(ever, from, controller, found) && (found.Some? || controller == keyAgent || !fallback))
      || (controller != keyAgent && fallback
          && ListedFirst(ever, from, controller, None) && ListedFirst(ever, from, keyAgent, found))
    }

    /** An answered attempt rests on keystores that stood on the server since `from`. */
    ghost predicate Genuine(attempt: Attempt, from: int)
      reads this`ever
    {
      attempt.Answered? ==>
        && Found(attempt.found, from) && (attempt.listed.Some? <==> attempt.found.Some?)
        && (attempt.listed.Some? ==>
              attempt.listed.value.id == attempt.found.value.id && Stood(ever, from, attempt.listed.value))
    }

    constructor (quiet: bool, keyAgent: Controller, controller: Controller, fallback: bool, did: string,
                 keyMap: Option<KeyMap>, keystores: seq<Keystore>)
      requires '#' !in did
      ensures Valid() && returned == {} && this.keyMap == keyMap && this.keystores == keystores && probes == []
    {
      this.quiet, this.keyAgent, this.controller, this.fallback, this.did := quiet, keyAgent, controller, fallback, did;
      this.keyMap, this.keystores, returned, made := keyMap, keystores, {}, 0;
      ever, probes, failures := [keystores], [], 0;
    }

    method Others()
      requires Valid()
      modifies this`keyMap, this`keystores, this`returned, this`ever
      ensures Moved()
    {
      if !quiet {
        keystores := *;
        ever := ever + [keystores];
        if keyMap.None? { keyMap := *; }
        var succeeded: bool := *;
        if succeeded && keyMap.Some? && keyMap.value.Authentication? {
          returned := returned + {keyMap.value.binding};
        }
      }
    }

    /** One request; false when it threw. */
    method Request() returns (ok: bool)
      requires Valid()
      modifies this`keyMap, this`keystores, this`returned, this`ever, this`failures
      ensures Moved() && (quiet ==> ok) && failures == old(failures) + if ok then 0 else 1
    {
      Others();
      ok := *;
      if quiet { ok := true; }
      failures := failures + if ok then 0 else 1;
    }

    /** The did:key a listing that found a keystore binds the returned agent as. */
    function BoundAs(found: Keystore): (agent: Controller)
      ensures found.controller == controller ==> agent == controller
      ensures found.controller != controller ==> agent == keyAgent
    {
      if found.controller == controller then controller else keyAgent
    }

    /** `Some(None)` is a listing that answered with no keystore; creates nothing. */
    method LookupKeystore() returns (found: Option<Option<Keystore>>)
      requires Valid()
      modifies this`keyMap, this`keystores, this`returned, this`ever, this`failures
      ensures Moved() && failures == old(failures) + if found.Some? then 0 else 1
      ensures found.Some? ==> Found(found.value, |old(ever)| - 1)
      ensures found.Some? && found.value.Some? ==> found.value.value.controller == BoundAs(found.value.value)
      ensures quiet ==> found == Some(Located(keystores))
      ensures quiet && found.value.Some? ==> found.value.value in keystores
    {
      var ok := Request();
      if !ok { return None; }
      var config := FirstOf(keystores, controller);
      assert ListedFirst(ever, |old(ever)| - 1, controller, config) by { assert ever[|ever| - 1] == keystores; }
      if config.None? && controller != keyAgent && fallback {
        ghost var before := ever;
        ok := Request();
        if !ok { return None; }
        config := FirstOf(keystores, keyAgent);
        ListedFirstStays(before, ever, |old(ever)| - 1, |old(ever)| - 1, controller, None);
        assert ListedFirst(ever, |old(ever)| - 1, keyAgent, config) by { assert ever[|ever| - 1] == keystores; }
      }
      return Some(config);
    }

    /** The keystore's own listing, as it then stands; `None` when it threw. */
    method ListKeys(found: Keystore) returns (listed: Option<Keystore>)
      requires Valid() && (quiet ==> found in keystores)
      modifies this`keyMap, this`keystores, this`returned, this`ever, this`failures
      ensures Moved() && failures == old(failures) + if listed.Some? then 0 else 1
      ensures listed.Some? ==> listed.value.id == found.id && Stood(ever, |old(ever)| - 1, listed.value)
      ensures quiet ==> listed == Some(found)
    {
      var ok := Request();
      if !ok { return None; }
      listed := if found in keystores then Some(found) else ById(keystores, found.id);
      if listed.None? { failures := failures + 1; }
      assert listed.Some? ==> listed.value in ever[|ever| - 1];
    }

    /** One attempt: the lookup, then the listing of what it found. */
    method AttemptListing() returns (attempt: Attempt)
      requires Valid()
      modifies this`keyMap, this`keystores, this`returned, this`ever, this`failures
      ensures Moved() && Genuine(attempt, |old(ever)| - 1)
      ensures failures == old(failures) + if attempt.Answered? then 0 else 1
      ensures quiet ==> attempt == Answered(Located(keystores), Located(keystores))
    {
      var found := LookupKeystore();
      if found.None? { return Threw; }
      if found.value.None? { return Answered(None, None); }
      ghost var before := ever;
      var listed := ListKeys(found.value.value);
      if listed.None? { return Threw; }
      FoundStays(found.value, before, |old(ever)| - 1, |old(ever)| - 1);
      StoodStays(ever, ever, |before| - 1, |old(ever)| - 1, listed.value);
      return Answered(found.value, listed);
    }

    /** What a lookup found stays found. */
    lemma FoundStays(found: Option<Keystore>, before: seq<seq<Keystore>>, from: int, earlier: int)
      requires before <= ever && earlier <= from
      requires || (ListedFirst(before, from, controller, found) && (found.Some? || controller == keyAgent || !fallback))
               || (controller != keyAgent && fallback
                   && ListedFirst(before, from, controller, None) && ListedFirst(before, from, keyAgent, found))
      ensures Found(found, earlier)
    {
      if ListedFirst(before, from, controller, found) { ListedFirstStays(before, ever, from, earlier, controller, found); }
      if ListedFirst(before, from, controller, None) { ListedFirstStays(before, ever, from, earlier, controller, None); }
      if ListedFirst(before, from, keyAgent, found) { ListedFirstStays(before, ever, from, earlier, keyAgent, found); }
    }

    /** Counting from an earlier state claims no more. */
    lemma GenuineEarlier(attempt: Attempt, from: int, earlier: int)
      requires Genuine(attempt, from) && earlier <= from
      ensures Genuine(attempt, earlier)
    {
      if attempt.Answered? {
        FoundStays(attempt.found, ever, from, earlier);
        if attempt.listed.Some? { StoodStays(ever, ever, from, earlier, attempt.listed.value); }
      }
    }

    /** Where the account's keystore is: under its own controller, or still under the client's did:key. */
    function Located(all: seq<Keystore>): (found: Option<Keystore>)
      ensures found.Some? ==> found.value in all
      ensures found.Some? && found.value.controller != controller ==>
        fallback && found.value.controller == keyAgent && forall k :: k in all ==> k.controller != controller
      ensures found.None? <==>
        forall k :: k in all ==> k.controller != controller && (fallback ==> k.controller != keyAgent)
    {
      if FirstOf(all, controller).Some? || controller == keyAgent || !fallback then FirstOf(all, controller)
      else FirstOf(all, keyAgent)
    }

    /** Finds the keystore, or creates one under the did:key; a promoted account is refused an orphan. */
    method EnsureKeystore() returns (keystore: Option<Keystore>, refusal: Refusal)
      requires Valid()
      modifies this`keyMap, this`keystores, this`returned, this`ever, this`made, this`failures
      ensures Valid() && (old(keyMap).Some? ==> keyMap == old(keyMap)) && old(returned) <= returned && old(ever) <= ever
      ensures made != old(made) ==> controller == keyAgent && made == old(made) + 1
      ensures failures == old(failures) + if keystore.None? && refusal.KmsFailed? then 1 else 0
      ensures keystore.None? ==> refusal.KmsFailed? || (refusal.NoKeystore? && controller != keyAgent)
      ensures keystore.Some? ==> keystore.value.controller == BoundAs(keystore.value)
      ensures keystore.Some? ==> Stood(ever, |old(ever)| - 1, keystore.value)
      ensures quiet ==> keyMap == old(keyMap)
      ensures quiet ==> (keystore.Some? <==> Located(old(keystores)).Some? || controller == keyAgent)
      ensures quiet && Located(old(keystores)).Some? ==>
        keystore == Located(old(keystores)) && keystores == old(keystores) && made == old(made)
      ensures quiet && keystore.Some? ==> Located(keystores) == keystore
    {
      keystore, refusal := None, KmsFailed;
      var found := LookupKeystore();
      if found.None? { return; }
      if found.value.Some? {
        FoundStood(found.value, |old(ever)| - 1);
        return found.value, refusal;
      }
      if controller != keyAgent { return None, NoKeystore; }
      var ok := Request();
      if !ok { return; }
      var id: KeystoreId := *;
      var created := Keystore(id, keyAgent, []);
      if quiet { CreatedIsFirst(keystores, created); }
      keystores, made := keystores + [created], made + 1;
      ever := ever + [keystores];
      keystore := Some(created);
      assert created in ever[|ever| - 1];
    }

    lemma FoundStood(found: Option<Keystore>, from: int)
      requires Found(found, from) && found.Some?
      ensures Stood(ever, from, found.value)
    {
      if ListedFirst(ever, from, controller, found) {
        var n :| from <= n < |ever| && 0 <= n && FirstOf(ever[n], controller) == found;
        assert found.value in ever[n];
      } else {
        var n :| from <= n < |ever| && 0 <= n && FirstOf(ever[n], keyAgent) == found;
        assert found.value in ever[n];
      }
    }

    lemma CreatedIsFirst(all: seq<Keystore>, created: Keystore)
      requires created.controller == controller == keyAgent && FirstOf(all, controller).None?
      ensures FirstOf(all + [created], controller) == Some(created)
    {
      if all == [] {
        assert all + [created] == [created];
      } else {
        assert all[0] in all && forall k :: k in all[1..] ==> k in all;
        CreatedIsFirst(all[1..], created);
        assert (all + [created])[1..] == all[1..] + [created];
      }
    }

    /** The last attempt listed the key, in a keystore found and standing since `from`. */
    ghost predicate Vouched(attempts: seq<Attempt>, multibase: string, from: int)
      reads this`ever
    {
      attempts != [] && Genuine(attempts[|attempts| - 1], from) && Lists(attempts[|attempts| - 1], multibase)
    }

    /** The served key against this session's own keystore, behind a bounded backoff. */
    method VerifyServedKey(multibase: string, ghost from: int) returns (verdict: Verdict, ghost attempts: seq<Attempt>)
      requires Valid() && from <= |ever| - 1
      modifies this`keyMap, this`keystores, this`returned, this`ever, this`failures
      ensures Moved()
      ensures EndsAtFirstAnswer(attempts) && attempts != []
      ensures failures == old(failures) + |attempts| - if verdict.Unverified? then 0 else 1
      ensures Genuine(attempts[|attempts| - 1], from)
      ensures verdict.Listed? <==> Vouched(attempts, multibase, from)
      ensures verdict.NotListed? <==> attempts[|attempts| - 1].Answered? && !Lists(attempts[|attempts| - 1], multibase)
      // The key is listed when some key of the keystore, by its multibase or its id's fragment, is that one.
      ensures verdict.Listed? ==>
        && attempts[|attempts| - 1].listed.Some?
        && exists key :: key in attempts[|attempts| - 1].listed.value.keys
                         && (key.multibase == multibase || MultibaseOf(key.id) == multibase)
      ensures verdict.NotListed? && attempts[|attempts| - 1].listed.Some? ==>
        forall key :: key in attempts[|attempts| - 1].listed.value.keys ==>
          key.multibase != multibase && MultibaseOf(key.id) != multibase
      ensures verdict.Unverified? ==> |attempts| == |RETRY_DELAYS_MS| + 1
      ensures quiet ==>
        (verdict.Listed? <==> Located(keystores).Some? && ListsKey(Located(keystores).value, multibase))
      ensures quiet ==> !verdict.Unverified?
    {
      attempts := [];
      for n := 0 to |RETRY_DELAYS_MS| + 1
        invariant Moved() && failures == old(failures) + n
        invariant |attempts| == n && forall m :: 0 <= m < |attempts| ==> attempts[m].Threw?
        invariant quiet ==> n == 0
      {
        ghost var before := |ever| - 1;
        var attempt := AttemptListing();
        GenuineEarlier(attempt, before, from);
        attempts := attempts + [attempt];
        if attempt.Answered? { return if Lists(attempt, multibase) then Listed else NotListed, attempts; }
      }
      return Unverified, attempts;
    }

    /** The probe: a read of the stored map, or `None` when it threw. */
    method GetKeyMap() returns (read: Option<Option<KeyMap>>)
      requires Valid()
      modifies this`keyMap, this`keystores, this`returned, this`ever, this`probes, this`failures
      ensures Moved() && (read.Some? && read.value.Some? ==> read.value == keyMap)
      ensures failures == old(failures) + if read.Some? then 0 else 1
      ensures probes == if read.Some? then old(probes) + [read.value] else old(probes)
      ensures quiet ==> read == Some(keyMap)
    {
      var ok := Request();
      if !ok { return None; }
      var masked: bool := *;
      read := Some(if masked && !quiet then None else keyMap);
      probes := probes + [read.value];
    }

    /** The keystore listed last holds a key that is this one, by its multibase or by its id's fragment. */
    ghost predicate Shown(attempts: seq<Attempt>, multibase: string) {
      && attempts != [] && attempts[|attempts| - 1].Answered? && attempts[|attempts| - 1].listed.Some?
      && exists key :: key in attempts[|attempts| - 1].listed.value.keys
                       && (key.multibase == multibase || MultibaseOf(key.id) == multibase)
    }

    ghost predicate Carries(keystore: Keystore, multibase: string) {
      exists key :: key in keystore.keys && (key.multibase == multibase || MultibaseOf(key.id) == multibase)
    }

    /** A run that succeeds hands back the stored binding. */
    ghost method HandBack(binding: Binding)
      requires Valid() && keyMap == Some(Authentication(binding))
      modifies this`returned
      ensures Valid() && returned == old(returned) + {binding}
    {
      returned := returned + {binding};
    }

    method AdoptBinding(binding: Binding, multibase: string, ghost from: int) returns (result: Result, ghost attempts: seq<Attempt>)
      requires Valid() && from <= |ever| - 1 && keyMap == Some(Authentication(binding))
      modifies this`keyMap, this`keystores, this`returned, this`ever, this`failures
      ensures Moved() && EndsAtFirstAnswer(attempts) && OnlyUnheard(old(failures), failures, result)
      ensures result.Provided? ==>
        result == Provided(binding, false) && binding in returned && Vouched(attempts, multibase, from)
        && Shown(attempts, multibase)
      ensures result.Provided? || result == Refused(KeyNotListed) || result == Refused(KeystoreUnlisted)
      ensures result == Refused(KeystoreUnlisted) ==> attempts != [] && attempts[|attempts| - 1].Threw?
      ensures result == Refused(KeyNotListed) ==> attempts != [] && attempts[|attempts| - 1].Answered? && !Shown(attempts, multibase)
      ensures quiet && (Located(keystores).None? || !Carries(Located(keystores).value, multibase)) ==>
        result == Refused(KeyNotListed)
      ensures quiet ==>
        (result.Provided? <==> Located(keystores).Some? && ListsKey(Located(keystores).value, multibase))
    {
      var verdict;
      verdict, attempts := VerifyServedKey(multibase, from);
      match verdict
      case NotListed => result := Refused(KeyNotListed);
      case Unverified => result := Refused(KeystoreUnlisted);
      case Listed =>
        HandBack(binding);
        result := Provided(binding, false);
    }

    /** A served map is adopted verified, or refused: never overwritten. */
    method Adopt(served: Option<KeyMap>, ghost from: int) returns (result: Result, ghost attempts: seq<Attempt>)
      requires Valid() && from <= |ever| - 1 && (served.Some? ==> keyMap == served)
      modifies this`keyMap, this`keystores, this`returned, this`ever, this`failures
      ensures Moved() && EndsAtFirstAnswer(attempts) && OnlyUnheard(old(failures), failures, result)
      ensures result.Provided? ==>
        && !result.written && keyMap == Some(Authentication(result.binding)) && result.binding in returned
        && Vouched(attempts, MultibaseOf(result.binding.vmId), from)
        && Shown(attempts, MultibaseOf(result.binding.vmId))
      ensures result == Refused(NoBinding) <==> served.None? || !served.value.Authentication?
      ensures quiet && served.Some? && served.value.Authentication?
              && (Located(keystores).None? || !Carries(Located(keystores).value, MultibaseOf(served.value.binding.vmId))) ==>
        result == Refused(KeyNotListed)
      ensures quiet ==>
        (result.Provided? <==>
          && served.Some? && served.value.Authentication? && Located(keystores).Some?
          && ListsKey(Located(keystores).value, MultibaseOf(served.value.binding.vmId)))
    {
      attempts := [];
      if served.None? || served.value.Other? { return Refused(NoBinding), attempts; }
      var binding := served.value.binding;
      result, attempts := AdoptBinding(binding, MultibaseOf(binding.vmId), from);
    }

    /**
      The binding's key was minted in a keystore of the session's own: `keystore` as it was found or created, and
      `held`, the same one later, both on the server since `from`.
     */
    ghost predicate MintedIn(binding: Binding, keystore: Keystore, held: Keystore, from: int)
      reads this`ever
    {
      && keystore.controller == BoundAs(keystore) && held.id == keystore.id
      && Stood(ever, from, keystore) && Stood(ever, from, held) && ListsKey(held, MultibaseOf(binding.vmId))
    }

    ghost predicate Minted(binding: Binding, from: int)
      reads this`ever
    {
      exists keystore, held :: MintedIn(binding, keystore, held, from)
    }

    /** Mints the authentication key; its alias makes the verification-method id carry its own multibase. */
    method GenerateAuthenticationKey(keystore: Keystore) returns (binding: Option<Binding>, ghost held: Keystore)
      requires Valid() && (quiet ==> keystore in keystores)
      modifies this`keyMap, this`keystores, this`returned, this`ever, this`made, this`failures
      ensures Valid() && (old(keyMap).Some? ==> keyMap == old(keyMap)) && old(returned) <= returned && old(ever) <= ever
      ensures binding.Some? ==>
        held.id == keystore.id && held in keystores && ListsKey(held, MultibaseOf(binding.value.vmId))
      ensures made == old(made) + if binding.Some? then 1 else 0
      ensures failures == old(failures) + if binding.Some? then 0 else 1
      ensures quiet ==> keyMap == old(keyMap) && binding.Some?
      ensures quiet && Located(old(keystores)) == Some(keystore) ==>
        Located(keystores).Some? && ListsKey(Located(keystores).value, MultibaseOf(binding.value.vmId))
    {
      held := keystore;
      var ok := Request();
      if !ok { return None, held; }
      var at := if keystore in keystores then Some(keystore) else ById(keystores, keystore.id);
      if at.None? {
        failures := failures + 1;
        return None, held;
      }
      var multibase, kmsKeyId: string := *, *;
      var key := Key(did + "#" + multibase, multibase);
      FragmentRead(did, multibase);
      if quiet && Located(keystores) == Some(keystore) { AddedIsLocated(keystores, keystore, key); }
      AddedIsThere(keystores, at.value, key);
      held := at.value.(keys := at.value.keys + [key]);
      assert key in held.keys;
      keystores, made := WithKey(keystores, at.value, key), made + 1;
      ever := ever + [keystores];
      binding := Some(Binding(key.id, kmsKeyId));
    }

    lemma AddedIsLocated(all: seq<Keystore>, keystore: Keystore, key: Key)
      requires Located(all) == Some(keystore)
      ensures Located(WithKey(all, keystore, key)) == Some(keystore.(keys := keystore.keys + [key]))
      ensures ListsKey(keystore.(keys := keystore.keys + [key]), key.multibase)
    {
      AddedIsFirst(all, keystore, key, controller);
      AddedIsFirst(all, keystore, key, keyAgent);
      assert key in (keystore.keys + [key]);
    }

    /** The create-if-absent write: `None` is the failed precondition. */
    method PutKeyMap(binding: Binding) returns (written: Option<bool>)
      requires Valid()
      modifies this`keyMap, this`keystores, this`returned, this`ever, this`failures
      ensures Valid() && (old(keyMap).Some? ==> keyMap == old(keyMap))
      ensures old(returned) <= returned && made == old(made) && old(ever) <= ever
      ensures written == Some(true) ==> keyMap == Some(Authentication(binding)) && binding in returned
      ensures written == Some(true) ==> old(keyMap).None?
      ensures written.None? ==> keyMap.Some?
      ensures failures == old(failures) + if written == Some(false) then 1 else 0
      ensures quiet ==> keystores == old(keystores)
      ensures quiet ==> if old(keyMap).Some? then written.None? else written == Some(true)
    {
      Others();
      var landed, answered: bool := *, *;
      failures := failures + if quiet || (landed && answered) then 0 else 1;
      if !quiet && !landed { return Some(false); }
      if keyMap.Some? { return if quiet || answered then None else Some(false); }
      keyMap := Some(Authentication(binding));
      if !quiet && !answered { return Some(false); }
      returned := returned + {binding};
      return Some(true);
    }

    /** Past the probe's miss: the keystore, the key and the write; `None` when another run's write was first. */
    method Provision(ghost from: int) returns (result: Option<Result>)
      requires Valid() && from <= |ever| - 1
      modifies this`keyMap, this`keystores, this`returned, this`ever, this`made, this`failures
      ensures Valid() && (old(keyMap).Some? ==> keyMap == old(keyMap)) && old(returned) <= returned && old(ever) <= ever
      ensures result.Some? && result.value.Provided? ==>
        && result.value.written && old(keyMap).None?
        && keyMap == Some(Authentication(result.value.binding)) && result.value.binding in returned
        && Minted(result.value.binding, from)
      ensures result.Some? && result.value.Refused? ==>
        match result.value.refusal
        case NoKeystore => controller != keyAgent && made == old(made)
        case KmsFailed => true
        case SpaceNotReady => made > old(made)
        case WriteFailed => made > old(made)
        case _ => false
      ensures if result.Some? then Unheard(old(failures), failures, result.value) else failures == old(failures)
      ensures quiet && old(keyMap).None? ==>
        && result.Some?
        && (result.value.Provided? <==> Located(old(keystores)).Some? || controller == keyAgent)
        && (result.value.Provided? ==>
              Located(keystores).Some? && ListsKey(Located(keystores).value, MultibaseOf(result.value.binding.vmId)))
    {
      var keystore, refusal := EnsureKeystore();
      if keystore.None? { return Some(Refused(refusal)); }
      ghost var found := ever;
      var binding;
      ghost var held;
      binding, held := GenerateAuthenticationKey(keystore.value);
      if binding.None? { return Some(Refused(KmsFailed)); }
      ghost var minted := ever;
      assert held in minted[|minted| - 1];
      var ok := Request();
      if !ok { return Some(Refused(SpaceNotReady)); }
      var written := PutKeyMap(binding.value);
      if written == Some(true) {
        StoodStays(found, ever, |old(ever)| - 1, from, keystore.value);
        StoodStays(minted, ever, |old(ever)| - 1, from, held);
        assert MintedIn(binding.value, keystore.value, held, from);
        return Some(Provided(binding.value, true));
      }
      if written == Some(false) { return Some(Refused(WriteFailed)); }
      return None;
    }

    /** A binding handed back is the stored one; it was minted in a keystore of this run's, or vouched for by one. */
    ghost predicate Grounded(result: Result, attempts: seq<Attempt>, from: int)
      reads this
    {
      && EndsAtFirstAnswer(attempts)
      && (result.Provided? ==>
            && keyMap == Some(Authentication(result.binding)) && result.binding in returned
            && if result.written then attempts == [] && Minted(result.binding, from)
               else Vouched(attempts, MultibaseOf(result.binding.vmId), from)
                    && Shown(attempts, MultibaseOf(result.binding.vmId)))
    }

    /** The arm without a map: provision, or adopt what another run stored first. */
    method ProvideOrAdopt(ghost from: int) returns (result: Result, ghost attempts: seq<Attempt>)
      requires Valid() && from <= |ever| - 1
      modifies this
      ensures Valid() && (old(keyMap).Some? ==> keyMap == old(keyMap)) && old(returned) <= returned && old(ever) <= ever
      ensures Grounded(result, attempts, from) && old(probes) <= probes && OnlyUnheard(old(failures), failures, result)
      ensures result.Provided? && result.written ==> old(keyMap).None?
      ensures quiet && old(keyMap).None? ==>
        && (result.Provided? <==> Located(old(keystores)).Some? || controller == keyAgent)
        && (result.Provided? ==>
              Located(keystores).Some? && ListsKey(Located(keystores).value, MultibaseOf(result.binding.vmId)))
    {
      attempts := [];
      var provided := Provision(from);
      if provided.Some? { return provided.value, attempts; }
      var probe := GetKeyMap();
      if probe.None? { return Refused(ProbeFailed), attempts; }
      result, attempts := Adopt(probe.value, from);
    }

    /**
      The whole stage. Whatever runs beside it, a run that succeeds hands back the stored binding, which it
      either wrote or found its own keystore to list.
     */
    method EnsureKmsAuthentication() returns (result: Result, ghost attempts: seq<Attempt>)
      requires Valid()
      modifies this
      ensures Valid() && (old(keyMap).Some? ==> keyMap == old(keyMap)) && old(returned) <= returned && old(ever) <= ever
      ensures Grounded(result, attempts, |old(ever)| - 1) && OnlyUnheard(old(failures), failures, result)
      ensures result.Provided? && result.written ==> old(keyMap).None?
      // A probe that finds a map creates nothing.
      ensures old(probes) <= probes
      ensures |probes| > |old(probes)| && probes[|old(probes)|].Some? ==> made == old(made)
      ensures made != old(made) || result.Provided? ==> |probes| > |old(probes)|
      ensures |probes| == |old(probes)| ==> result == Refused(ProbeFailed)
      // Undisturbed, a stored key that no key of the account's own keystore carries is refused.
      ensures quiet && old(keyMap).Some? && old(keyMap).value.Authentication?
              && (Located(old(keystores)).None?
                  || !Carries(Located(old(keystores)).value, MultibaseOf(old(keyMap).value.binding.vmId))) ==>
        result == Refused(KeyNotListed)
      // Undisturbed, it ends with a binding the account's own keystore lists, so the next run adopts it.
      ensures quiet ==>
        (result.Provided? <==>
          if old(keyMap).None? then Located(old(keystores)).Some? || controller == keyAgent
          else old(keyMap).value.Authentication? && Located(old(keystores)).Some?
               && ListsKey(Located(old(keystores)).value, MultibaseOf(old(keyMap).value.binding.vmId)))
      ensures quiet && result.Provided? ==>
        Located(keystores).Some? && ListsKey(Located(keystores).value, MultibaseOf(result.binding.vmId))
    {
      attempts := [];
      var probe := GetKeyMap();
      if probe.None? { return Refused(ProbeFailed), attempts; }
      if probe.value.Some? {
        result, attempts := Adopt(probe.value, |old(ever)| - 1);
      } else {
        result, attempts := ProvideOrAdopt(|old(ever)| - 1);
      }
    }
  }
}
