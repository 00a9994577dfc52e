/**
  The storage server as the account-deletion walk meets it. Every answer is nondeterministic within what
  the walk may rely on: a 2xx to a DELETE is true, a deleted Space never returns, a 404 may mask an
  authorization refusal except toward a Space's own controller, and any response may be lost after its
  effect landed. Other parties may delete Spaces between two requests.
 */
module SpaceServer {
  import opened Common

  type SpaceId = string

  datatype Authority = Controller | Delegated

  /** `Acknowledged` is a 2xx, `NotFound` a 404, `Lost` any thrown failure. */
  datatype Answer = Acknowledged | NotFound | Lost

  datatype Reading = Found | Missing | Unreadable

  datatype RegistryReading = Listed(methods: seq<Method>) | Empty | StaleSeal | RegistryFailed

  datatype SecretCheck = Verified | Wrong | Unverifiable

  /** One Space a `#DelegatedClients` value of the account log names, and whether this server hosts it. */
  datatype AnnexRef = AnnexRef(spaceId: SpaceId, here: bool)

  /**
    One registry entry. `refusal` is the pre-flight's verdict on its management capability for a DELETE,
    `probeRefused` whether a GET child cannot be minted from it. `recorded` is a passphrase entry whose unlock
    record the coverage pass reads: it holds a management capability a reader can be minted from, and the key
    its record is sealed to.
   */
  datatype Method = Method(spaceId: SpaceId, passkey: bool, refusal: Option<string>, probeRefused: bool, recorded: bool)

  /** Every record the coverage pass reads is still there to be read. */
  predicate Covered(methods: seq<Method>, live: set<SpaceId>) {
    forall m :: m in methods && m.recorded ==> m.spaceId in live
  }

  /** They all were, at some point. */
  ghost predicate WasCovered(methods: seq<Method>, states: set<set<SpaceId>>) {
    exists live :: live in states && Covered(methods, live)
  }

  /** How the pass over this browser's own replicas ended. */
  datatype ReplicaWipe = AllDropped | SomeUnverified | SomeFailed

  /** One thing the walk was told, and by whom: a request's own answer, or a local check's. */
  datatype Reply =
    | SecretChecked(check: SecretCheck)
    | Assertion(given: bool)
    | Renewal(installed: bool)
    | RegistryRead(registry: RegistryReading)
    | LogVerified(reading: Reading)
    | LogHead(answers: bool)
    | CoverageChecked(methods: seq<Method>, settled: bool)
    | NamedByNothing(count: nat)
    | Probing(space: SpaceId, reading: Reading)
    | Lapsed(entry: Method)
    | ReplicasWiped(wipe: ReplicaWipe)

  datatype Session = Session(
    browserLocal: bool,         // a remembered session; otherwise a transient one
    passkey: bool,              // unlocked by a passkey; otherwise by a passphrase
    promoted: bool,             // the account pointer names a did:webvh
    renewable: bool,            // holds every member the delegation renewal needs
    secretRight: bool,          // the secret given is this account's
    ladderSealed: bool,         // its unlock record seals a ladder seed
    anchored: bool,             // the account document lists that seed's ladder VM
    annexHistory: seq<AnnexRef>,
    sibling: Option<SpaceId>,   // the record's own annex target, when on this server
    pointedAnnex: SpaceId,      // where a transient visit's delegation lives
    methods: seq<Method>)

  /** What the walk did that cannot be taken back, with whether the account was alive when it was sent. */
  datatype Effect =
    | DeleteSpace(space: SpaceId, accountLive: bool, answer: Answer)
    | DropUnlockState(accountLive: bool)
    | WipeLocal(accountLive: bool)

  /** Every way one DELETE may come out, whoever sent it. */
  predicate DeleteAllowed(before: set<SpaceId>, after: set<SpaceId>, space: SpaceId, auth: Authority, answer: Answer) {
    && after <= before
    && (answer.Acknowledged? ==> space !in after)
    && (answer.NotFound? && auth.Controller? ==> space !in after)
  }

  /** The account log is world-readable: a 404 is absence, anything else counts as an answer. */
  predicate LogAllowed(live: set<SpaceId>, account: SpaceId, answers: bool) {
    !answers ==> account !in live
  }

  class Server {
    const session: Session
    const account: SpaceId
    const acting: SpaceId     // the acting credential's own unlock Space
    const healthy: bool       // no failure, no masking, nobody else deleting
    var live: set<SpaceId>
    ghost const initial: set<SpaceId>
    ghost var states: set<set<SpaceId>>  // every value `live` ever took
    ghost var sent: seq<Effect>
    ghost var heard: set<Reply>          // every answer so far
    ghost var prior: set<Reply>          // those had when the first effect went out

    /** Spaces only disappear, and no state has the account alive behind a vanished acting unlock Space. */
    ghost predicate Valid()
      reads this
    {
      && live in states && account != acting
      && (forall s :: s in states ==> live <= s <= initial)
      && (forall s :: s in states && account in s && acting in initial ==> acting in s)
    }

    /** Nothing this run sent; the rest of the world may have moved. */
    twostate predicate Quiet()
      reads this
    {
      && Valid()
      && sent == old(sent) && prior == old(prior)
      && old(states) <= states && old(heard) <= heard
      && live <= old(live)
      && (healthy ==> live == old(live))
    }

    constructor (session: Session, account: SpaceId, acting: SpaceId, healthy: bool, live: set<SpaceId>)
      requires account != acting
      ensures Valid() && this.live == live == initial && states == {live} && sent == [] && heard == {}
      ensures this.session == session && this.account == account && this.acting == acting && this.healthy == healthy
    {
      this.session, this.account, this.acting, this.healthy := session, account, acting, healthy;
      this.live, initial, states, sent, heard, prior := live, live, {live}, [], {}, {};
    }

    /** Other parties' deletions, which leave the acting unlock Space alone while the account lives. */
    method Others()
      requires Valid()
      modifies this`live, this`states
      ensures Quiet()
    {
      if !healthy {
        var gone: set<SpaceId> := *;
        if account in live - gone { gone := gone - {acting}; }
        live := live - gone;
        states := states + {live};
      }
    }

    method Delete(space: SpaceId, auth: Authority) returns (answer: Answer)
      requires Valid()
      modifies this`live, this`states, this`sent, this`prior
      ensures sent == old(sent) + [DeleteSpace(space, account in old(live), answer)]
      ensures prior == if old(sent) == [] then heard else old(prior)
      ensures DeleteAllowed(old(live), live, space, auth, answer)
      ensures old(states) <= states
      ensures space != acting || account !in old(live) ==> Valid()
      ensures healthy ==> live == old(live) - {space} && answer == if space in old(live) then Acknowledged else NotFound
    {
      ghost var before := account in live;
      Others();
      if healthy {
        answer := if space in live then Acknowledged else NotFound;
        live, states := live - {space}, states + {live - {space}};
      } else {
        answer := *;
        var landed: bool := *;
        if landed {
          live, states := live - {space}, states + {live - {space}};
        } else if space in live && (answer.Acknowledged? || (answer.NotFound? && auth.Controller?)) {
          answer := Lost;
        }
      }
      if sent == [] { prior := heard; }
      sent := sent + [DeleteSpace(space, before, answer)];
    }

    method Probe(space: SpaceId, auth: Authority) returns (reading: Reading)
      requires Valid()
      modifies this`live, this`states, this`heard
      ensures Quiet() && heard == old(heard) + {Probing(space, reading)}
      ensures reading.Missing? && auth.Controller? ==> space !in live
      ensures healthy ==> reading == if space in live then Found else Missing
    {
      Others();
      reading := *;
      if healthy {
        reading := if space in live then Found else Missing;
      } else if space in live && auth.Controller? && reading.Missing? {
        reading := Unreadable;
      }
      heard := heard + {Probing(space, reading)};
    }

    /** The HEAD on the account log; an unreachable host counts as answering. */
    method LogAnswers() returns (answers: bool)
      requires Valid()
      modifies this`live, this`states, this`heard
      ensures Quiet() && LogAllowed(live, account, answers) && heard == old(heard) + {LogHead(answers)}
      ensures healthy ==> answers == (account in live)
    {
      Others();
      answers := *;
      if healthy || account in live { answers := account in live; }
      heard := heard + {LogHead(answers)};
    }

    /** The full verification of the account log; `Missing` is its 404. */
    method VerifyLog() returns (reading: Reading)
      requires Valid()
      modifies this`live, this`states, this`heard
      ensures Quiet() && heard == old(heard) + {LogVerified(reading)}
      ensures reading.Missing? ==> account !in live
      ensures healthy ==> reading == if account in live then Found else Missing
    {
      Others();
      reading := *;
      if healthy {
        reading := if account in live then Found else Missing;
      } else if account in live && reading.Missing? {
        reading := Unreadable;
      }
      heard := heard + {LogVerified(reading)};
    }

    /** Whether a registry read can succeed: a transient visit rides a delegation its annex Space anchors. */
    predicate RegistryReachable()
      reads this`live
    {
      account in live && (session.browserLocal || session.pointedAnnex in live)
    }

    method ReadRegistry() returns (reading: RegistryReading)
      requires Valid()
      modifies this`live, this`states, this`heard
      ensures Quiet() && heard == old(heard) + {RegistryRead(reading)}
      ensures reading.Listed? ==> reading.methods == session.methods
      ensures healthy ==> reading == if RegistryReachable() then Listed(session.methods) else Empty
    {
      Others();
      if healthy {
        reading := if RegistryReachable() then Listed(session.methods) else Empty;
      } else {
        reading := *;
        if reading.Listed? { reading := Listed(session.methods); }
      }
      heard := heard + {RegistryRead(reading)};
    }

    /** The generation-delegation renewal; false when it installed nothing. */
    method RenewDelegation() returns (renewed: bool)
      requires Valid()
      modifies this`live, this`states, this`heard
      ensures Quiet() && heard == old(heard) + {Renewal(renewed)}
      ensures healthy && session.renewable ==> renewed == (session.pointedAnnex in live)
    {
      Others();
      renewed := *;
      if healthy && session.renewable { renewed := session.pointedAnnex in live; }
      heard := heard + {Renewal(renewed)};
    }

    /** The passkey re-assertion; false when the user dismissed it. */
    method AssertPasskey() returns (given: bool)
      requires Valid()
      modifies this`live, this`states, this`heard
      ensures Quiet() && heard == old(heard) + {Assertion(given)}
      ensures healthy ==> given
    {
      Others();
      given := *;
      if healthy { given := true; }
      heard := heard + {Assertion(given)};
    }

    /** The unlock record is read at the acting unlock Space; nothing there reads as a wrong secret. */
    method VerifySecret() returns (verified: SecretCheck)
      requires Valid()
      modifies this`live, this`states, this`heard
      ensures Quiet() && heard == old(heard) + {SecretChecked(verified)}
      ensures verified.Verified? ==> session.secretRight
      ensures healthy ==> verified == if session.secretRight && acting in live then Verified else Wrong
    {
      Others();
      verified := *;
      if verified.Verified? && !session.secretRight { verified := Wrong; }
      if healthy { verified := if session.secretRight && acting in live then Verified else Wrong; }
      heard := heard + {SecretChecked(verified)};
    }

    /**
      The two registry coverage detectors: how many unlock Spaces nothing names, or a read that failed. The
      first reads every recorded entry's unlock record and settles nothing without it.
     */
    method Coverage(registry: seq<Method>) returns (unnamed: Option<nat>)
      requires Valid()
      modifies this`live, this`states, this`heard
      ensures Quiet()
      ensures heard == old(heard) + {CoverageChecked(registry, unnamed.Some?)}
                       + if unnamed.Some? then {NamedByNothing(unnamed.value)} else {}
      ensures unnamed.Some? ==> Covered(registry, old(live)) && WasCovered(registry, states)
      ensures healthy ==> (unnamed.Some? <==> Covered(registry, live))
    {
      Others();
      var count: nat := *;
      var settled: bool := *;
      unnamed := if (settled || healthy) && Covered(registry, live) then Some(count) else None;
      heard := heard + {CoverageChecked(registry, unnamed.Some?)};
      if unnamed.Some? { heard := heard + {NamedByNothing(unnamed.value)}; }
    }

    /** The management capability read once more, just before its DELETE: whether it is past its own expiry. */
    method CapabilityLapsed(entry: Method) returns (lapsed: bool)
      requires Valid()
      modifies this`live, this`states, this`heard
      ensures Quiet() && heard == old(heard) + if lapsed then {Lapsed(entry)} else {}
      ensures healthy ==> !lapsed
    {
      Others();
      lapsed := *;
      if healthy { lapsed := false; }
      if lapsed { heard := heard + {Lapsed(entry)}; }
    }

    /** The local replicas of every client of the account, on this browser. */
    method WipeReplicas() returns (wipe: ReplicaWipe)
      modifies this`heard
      ensures heard == old(heard) + {ReplicasWiped(wipe)}
    {
      wipe := *;
      heard := heard + {ReplicasWiped(wipe)};
    }

    ghost method Record(effect: Effect)
      requires Valid()
      modifies this`sent, this`prior
      ensures sent == old(sent) + [effect] && prior == if old(sent) == [] then heard else old(prior)
    {
      if sent == [] { prior := heard; }
      sent := sent + [effect];
    }
  }
}
