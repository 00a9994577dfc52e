/**
  The session database: one keyed object store that hosts six logical maps, opened (and so created) by any
  operation on it, beside an existence probe that must not create it.
 */
module SessionStore {
  import opened Common

  /** A structured-cloneable value. */
  datatype Value =
    | Undefined | Null
    | Number(n: int)
    | Text(text: string)
    | Record(fields: map<string, Value>)

  datatype Family = KeyringCache | ClientKeys | WriterFirstSeen | AccountDidForSpace | UnlockMethods | PasskeySafety

  function Prefix(family: Family): string {
    match family
    case KeyringCache => "keyring"
    case ClientKeys => "client-keys"
    case WriterFirstSeen => "writer-first-seen"
    case AccountDidForSpace => "account-did/space"
    case UnlockMethods => "unlock-methods"
    case PasskeySafety => "passkey-safety"
  }

  function Key(family: Family, id: string): string {
    Prefix(family) + "/" + id
  }

  /** No id, slashes and prefixes of other families in it included, reaches another family's entry. */
  lemma KeysApart(f: Family, id: string, g: Family, other: string)
    ensures Key(f, id) == Key(g, other) <==> f == g && id == other
  {
    assert Key(f, id)[0] == Prefix(f)[0] && Key(g, other)[0] == Prefix(g)[0];
    if f == g {
      assert Key(f, id)[|Prefix(f)| + 1..] == id && Key(g, other)[|Prefix(g)| + 1..] == other;
    }
  }

  /** The families read as the separate maps they stand for. */
  type Maps = Family -> map<string, Value>

  datatype Operation =
    | Put(family: Family, id: string, value: Value)
    | Delete(family: Family, id: string)
    | RetireUnlock(id: string)

  function StoreStep(store: map<string, Value>, o: Operation): map<string, Value> {
    match o
    case Put(family, id, value) => store[Key(family, id) := value]
    case Delete(family, id) => store - {Key(family, id)}
    case RetireUnlock(id) => store - {Key(KeyringCache, id), Key(ClientKeys, id), Key(WriterFirstSeen, id)}
  }

  /** What an unlock method owns on a browser. */
  predicate OfUnlock(family: Family) {
    family.KeyringCache? || family.ClientKeys? || family.WriterFirstSeen?
  }

  function MapsStep(maps: Maps, o: Operation): Maps {
    match o
    case Put(family, id, value) => f => if f == family then maps(f)[id := value] else maps(f)
    case Delete(family, id) => f => if f == family then maps(f) - {id} else maps(f)
    case RetireUnlock(id) => f => if OfUnlock(f) then maps(f) - {id} else maps(f)
  }

  function StoreAfter(store: map<string, Value>, ops: seq<Operation>): map<string, Value> {
    if ops == [] then store else StoreStep(StoreAfter(store, ops[..|ops| - 1]), ops[|ops| - 1])
  }

  function MapsAfter(maps: Maps, ops: seq<Operation>): Maps {
    if ops == [] then maps else MapsStep(MapsAfter(maps, ops[..|ops| - 1]), ops[|ops| - 1])
  }

  ghost predicate HostsAt(store: map<string, Value>, maps: Maps, f: Family, id: string) {
    (Key(f, id) in store <==> id in maps(f)) && (id in maps(f) ==> store[Key(f, id)] == maps(f)[id])
  }

  ghost predicate Hosts(store: map<string, Value>, maps: Maps) {
    forall f: Family, id: string :: HostsAt(store, maps, f, id)
  }

  lemma StepHostsAt(store: map<string, Value>, maps: Maps, o: Operation, f: Family, id: string)
    requires HostsAt(store, maps, f, id)
    ensures HostsAt(StoreStep(store, o), MapsStep(maps, o), f, id)
  {
    match o
    case Put(family, other, _) => KeysApart(f, id, family, other);
    case Delete(family, other) => KeysApart(f, id, family, other);
    case RetireUnlock(other) =>
      KeysApart(f, id, KeyringCache, other);
      KeysApart(f, id, ClientKeys, other);
      KeysApart(f, id, WriterFirstSeen, other);
  }

  lemma StepHosts(store: map<string, Value>, maps: Maps, o: Operation)
    requires Hosts(store, maps)
    ensures Hosts(StoreStep(store, o), MapsStep(maps, o))
  {
    forall f: Family, id: string ensures HostsAt(StoreStep(store, o), MapsStep(maps, o), f, id) {
      StepHostsAt(store, maps, o, f, id);
    }
  }

  /** The one store refines six independent maps, for any operations on any ids. */
  lemma {:induction false} StoreRefinesMaps(store: map<string, Value>, maps: Maps, ops: seq<Operation>)
    requires Hosts(store, maps)
    ensures Hosts(StoreAfter(store, ops), MapsAfter(maps, ops))
  {
    if ops != [] {
      StoreRefinesMaps(store, maps, ops[..|ops| - 1]);
      StepHosts(StoreAfter(store, ops[..|ops| - 1]), MapsAfter(maps, ops[..|ops| - 1]), ops[|ops| - 1]);
    }
  }

  predicate Addresses(o: Operation, family: Family, id: string) {
    match o
    case Put(f, i, _) => f == family && i == id
    case Delete(f, i) => f == family && i == id
    case RetireUnlock(i) => OfUnlock(family) && i == id
  }

  /** The last operation on one entry, if any addressed it. */
  function LastOn(ops: seq<Operation>, family: Family, id: string): (last: Option<Operation>)
    ensures last.None? <==> forall o :: o in ops ==> !Addresses(o, family, id)
  {
    if ops == [] then None
    else
      assert ops == ops[..|ops| - 1] + [ops[|ops| - 1]];
      if Addresses(ops[|ops| - 1], family, id) then Some(ops[|ops| - 1]) else LastOn(ops[..|ops| - 1], family, id)
  }

  function Stored(store: map<string, Value>, family: Family, id: string): Option<Value> {
    if Key(family, id) in store then Some(store[Key(family, id)]) else None
  }

  lemma StepOn(store: map<string, Value>, o: Operation, family: Family, id: string)
    ensures Stored(StoreStep(store, o), family, id)
      == if !Addresses(o, family, id) then Stored(store, family, id) else if o.Put? then Some(o.value) else None
  {
    match o
    case Put(f, i, _) => KeysApart(family, id, f, i);
    case Delete(f, i) => KeysApart(family, id, f, i);
    case RetireUnlock(i) =>
      KeysApart(family, id, KeyringCache, i);
      KeysApart(family, id, ClientKeys, i);
      KeysApart(family, id, WriterFirstSeen, i);
  }

  /** What stands under an entry is what the last operation on it left there, whatever went on at other entries. */
  lemma {:induction false} LastOperationDecides(store: map<string, Value>, ops: seq<Operation>, family: Family, id: string)
    ensures Stored(StoreAfter(store, ops), family, id)
      == match LastOn(ops, family, id)
         case None => Stored(store, family, id)
         case Some(Put(_, _, value)) => Some(value)
         case Some(_) => None
  {
    if ops != [] {
      var before := ops[..|ops| - 1];
      LastOperationDecides(store, before, family, id);
      StepOn(StoreAfter(store, before), ops[|ops| - 1], family, id);
    }
  }

  /** A member of a stored value; anything but a record has none. */
  function Member(v: Value, name: string): Value {
    if v.Record? && name in v.fields then v.fields[name] else Undefined
  }

  datatype CachedKeyring = CachedKeyring(record: Value, cachedAt: Option<int>)

  function StampedKeyring(record: Value, now: int): Value {
    Record(map["record" := record, "cachedAt" := Number(now)])
  }

  /** How a stored keyring entry is read; one that carries no stamp is a legacy bare record. */
  function ReadKeyring(stored: Value): CachedKeyring {
    if !Member(stored, "record").Undefined? && Member(stored, "cachedAt").Number? then
      CachedKeyring(Member(stored, "record"), Some(Member(stored, "cachedAt").n))
    else CachedKeyring(stored, None)
  }

  /** A stored keyring is stamped exactly when it holds a record and a numeric stamp; any other is a legacy bare record. */
  lemma KeyringReads(stored: Value)
    ensures var read := ReadKeyring(stored);
            if stored.Record? && "record" in stored.fields && !stored.fields["record"].Undefined?
               && "cachedAt" in stored.fields && stored.fields["cachedAt"].Number?
            then read == CachedKeyring(stored.fields["record"], Some(stored.fields["cachedAt"].n))
            else read == CachedKeyring(stored, None)
  {
  }

  /** A cached keyring reads back exactly when there was a record to cache. */
  lemma KeyringRoundTrip(record: Value, now: int)
    ensures ReadKeyring(StampedKeyring(record, now)) == CachedKeyring(record, Some(now)) <==> !record.Undefined?
    ensures record.Undefined? ==> ReadKeyring(StampedKeyring(record, now)) == CachedKeyring(StampedKeyring(record, now), None)
  {
    var stored := StampedKeyring(record, now);
    assert Member(stored, "record") == record && Member(stored, "cachedAt") == Number(now);
  }

  /** A cached keyring is read back for as long as nothing addresses its own entry. */
  lemma KeyringSurvives(store: map<string, Value>, ops: seq<Operation>, spaceId: string, record: Value, now: int)
    requires !record.Undefined? && forall o :: o in ops ==> !Addresses(o, KeyringCache, spaceId)
    ensures var saved := StoreStep(store, Put(KeyringCache, spaceId, StampedKeyring(record, now)));
            var stored := Stored(StoreAfter(saved, ops), KeyringCache, spaceId);
            stored.Some? && ReadKeyring(stored.value) == CachedKeyring(record, Some(now))
  {
    var saved := StoreStep(store, Put(KeyringCache, spaceId, StampedKeyring(record, now)));
    LastOperationDecides(saved, ops, KeyringCache, spaceId);
    KeyringRoundTrip(record, now);
  }

  function StampedDid(accountDid: string, now: int): Value {
    Record(map["accountDid" := Text(accountDid), "savedAt" := Number(now)])
  }

  function ReadDid(stored: Value): Option<string> {
    var accountDid := Member(stored, "accountDid");
    if accountDid.Text? && accountDid.text != "" then Some(accountDid.text) else None
  }

  /** A stored account DID is read exactly when it is a text that is not empty. */
  lemma DidReads(stored: Value, did: string)
    ensures ReadDid(stored) == Some(did) <==>
      did != "" && stored.Record? && "accountDid" in stored.fields && stored.fields["accountDid"] == Text(did)
  {
  }

  lemma AccountDidRoundTrip(accountDid: string, now: int)
    ensures ReadDid(StampedDid(accountDid, now)) == if accountDid == "" then None else Some(accountDid)
  {
    assert Member(StampedDid(accountDid, now), "accountDid") == Text(accountDid);
  }

  /** One browser's session database; `None` where it does not exist. */
  class SessionDatabase {
    const reliable: bool            // no request of the store's fails
    const factory: bool             // this runtime has an IndexedDB at all
    const enumerates: bool          // the engine lists its databases
    var db: Option<map<string, Value>>

    constructor (reliable: bool, factory: bool, enumerates: bool, db: Option<map<string, Value>>)
      ensures this.db == db && this.factory == factory && this.enumerates == enumerates && this.reliable == reliable
    {
      this.reliable, this.factory, this.enumerates, this.db := reliable, factory, enumerates, db;
    }

    /** The entries, none when there is no database. */
    function Entries(): map<string, Value>
      reads this
    {
      if db.Some? then db.value else map[]
    }

    /** A versioned open: it creates the database where there is none. */
    method OpenSessionDb() returns (ok: bool)
      modifies this`db
      ensures Entries() == old(Entries()) && (ok ==> db.Some?) && (old(db).Some? ==> db == old(db))
      ensures !ok ==> db == old(db)
      ensures reliable ==> ok
    {
      ok := *;
      if reliable { ok := true; }
      if ok && db.None? { db := Some(map[]); }
    }

    method Save(family: Family, id: string, value: Value) returns (ok: bool)
      modifies this`db
      ensures Entries() == if ok then StoreStep(old(Entries()), Put(family, id, value)) else old(Entries())
      ensures ok ==> db == Some((if old(db).Some? then old(db).value else map[])[Key(family, id) := value])
      ensures !ok && old(db).Some? ==> db == old(db)
      ensures reliable ==> ok
    {
      ok := OpenSessionDb();
      if !ok { return; }
      var stored: bool := *;
      ok := reliable || stored;
      if ok { db := Some(db.value[Key(family, id) := value]); }
    }

    /** `Some(Null)` is a miss: an absent entry, or one that holds nothing. */
    method Load(family: Family, id: string) returns (found: Option<Value>)
      modifies this`db
      ensures Entries() == old(Entries()) && (old(db).Some? ==> db == old(db))
      ensures found.Some? ==>
        var key := Key(family, id);
        found.value == if old(db).Some? && key in old(db).value && !old(db).value[key].Undefined? then old(db).value[key] else Null
      ensures reliable ==> found.Some?
    {
      var ok := OpenSessionDb();
      if !ok { return None; }
      var read: bool := *;
      if !read && !reliable { return None; }
      var key := Key(family, id);
      return Some(if key in db.value && !db.value[key].Undefined? then db.value[key] else Null);
    }

    method Remove(family: Family, id: string) returns (ok: bool)
      modifies this`db
      ensures Entries() == if ok then StoreStep(old(Entries()), Delete(family, id)) else old(Entries())
      ensures ok && old(db).Some? ==> db == Some(old(db).value - {Key(family, id)})
      ensures !ok && old(db).Some? ==> db == old(db)
      ensures ok ==> db.Some?
      ensures reliable ==> ok
    {
      ok := OpenSessionDb();
      if !ok { return; }
      var removed: bool := *;
      ok := reliable || removed;
      if ok { db := Some(db.value - {Key(family, id)}); }
    }

    /**
      The existence probe; `None` when it failed. Where the engine does not list its databases, a versionless
      open answers, whose upgrade of an absent database is aborted again.
     */
    method SessionDatabaseExists() returns (present: Option<bool>)
      modifies this`db
      ensures db == old(db)
      ensures present.Some? ==> present.value == db.Some?
      ensures reliable ==> present.Some?
    {
      var failed: bool := *;
      if failed && !reliable { return None; }
      if enumerates { return Some(db.Some?); }
      var absent := false;
      if db.None? {
        db := Some(map[]);
        absent := true;
        db := None;
      }
      return Some(!absent);
    }

    /** Whether this browser remembers an unlock method; asking leaves no trace. */
    method HasClientKeyRecord(spaceId: string) returns (has: Option<bool>)
      modifies this`db
      ensures db == old(db)
      ensures has.Some? ==>
        has.value == (Key(ClientKeys, spaceId) in Entries()
                      && !Entries()[Key(ClientKeys, spaceId)].Undefined? && !Entries()[Key(ClientKeys, spaceId)].Null?)
      ensures reliable ==> has.Some?
    {
      var there := SessionDatabaseExists();
      if there.None? { return None; }
      if !there.value { return Some(false); }
      var found := Load(ClientKeys, spaceId);
      if found.None? { return None; }
      return Some(!found.value.Null?);
    }

    /**
      Everything one unlock method leaves on a browser. The database is created only where it was absent and
      the probe could not say so, in which case the deletion goes ahead on purpose.
     */
    method DeleteUnlockLocalState(spaceId: string) returns (ok: bool, ghost probed: bool)
      modifies this`db
      ensures ok && factory ==> Entries() == StoreStep(old(Entries()), RetireUnlock(spaceId))
      ensures ok && factory ==>
        Entries() == old(Entries()) - {Key(KeyringCache, spaceId), Key(ClientKeys, spaceId), Key(WriterFirstSeen, spaceId)}
      ensures ok && factory && old(db).Some? ==>
        db == Some(old(db).value - {Key(KeyringCache, spaceId), Key(ClientKeys, spaceId), Key(WriterFirstSeen, spaceId)})
      ensures !factory ==> ok && db == old(db)
      ensures forall key :: key in Entries() ==> key in old(Entries()) && Entries()[key] == old(Entries())[key]
      ensures old(db).None? && db.Some? ==> !probed
      ensures old(db).None? && factory && ok ==> (db.Some? <==> !probed)
      ensures reliable ==> ok && probed
    {
      ok, probed := true, true;
      if !factory { return; }
      var there := SessionDatabaseExists();
      probed := there.Some?;
      if there == Some(false) {
        assert Entries() == StoreStep(old(Entries()), RetireUnlock(spaceId));
        return;
      }
      ghost var before := Entries();
      ok := Remove(KeyringCache, spaceId);
      if !ok { return; }
      ok := Remove(ClientKeys, spaceId);
      if !ok { return; }
      ok := Remove(WriterFirstSeen, spaceId);
      assert ok ==> Entries() == StoreStep(before, RetireUnlock(spaceId));
    }

    method SaveKeyringCache(spaceId: string, record: Value, now: int) returns (ok: bool)
      modifies this`db
      ensures Entries() ==
        if ok then StoreStep(old(Entries()), Put(KeyringCache, spaceId, StampedKeyring(record, now))) else old(Entries())
      ensures reliable ==> ok
    {
      ok := Save(KeyringCache, spaceId, StampedKeyring(record, now));
    }

    /** `Some(None)` is a miss. */
    method LoadKeyringCache(spaceId: string) returns (found: Option<Option<CachedKeyring>>)
      modifies this`db
      ensures Entries() == old(Entries())
      ensures found.Some? ==>
        var key := Key(KeyringCache, spaceId);
        found.value == if key in Entries() && !Entries()[key].Undefined? && !Entries()[key].Null?
                       then Some(ReadKeyring(Entries()[key])) else None
      ensures reliable ==> found.Some?
    {
      var stored := Load(KeyringCache, spaceId);
      if stored.None? { return None; }
      if stored.value.Null? { return Some(None); }
      return Some(Some(ReadKeyring(stored.value)));
    }
  }
}
