# freewallet: ceremonies, caches and orders, verified

Freewallet's account ceremonies are ordered runs of durable writes against a server that may fail, lose a
response after its effect landed, or mask a refused authorization as a 404. This project models the hardest of
them, and a few of the repository's denser algorithms, in Dafny, and proves what their comments promise:
that a run torn anywhere leaves an account that is usable and repairable, that reports are true, that
concurrent parties cannot undo each other, and that fast forms mean what their plain forms mean. Run
`dafny verify dfyconfig.toml` in this directory.

How it is modelled:

- Code that updates state step by step is a class whose methods change its fields. Every request to the server
  is a method whose body chooses freely within a contract: whether it lands, what it answers, and what other
  sessions do before it. A flag (`healthy`, `quiet` or `reliable`) switches those choices off, which is how
  "against a healthy server with nobody else writing" is said.
- A crash between any two writes is covered by a ghost record of every state a run passes through (the live
  Spaces of a deletion; the document, roster and records of a passphrase change), and of every effect it sends:
  a claim about all of those is a claim about every place a run can stop. What a run may rely on is recorded
  likewise: what its requests were answered, and, for the deletion, what had been heard when the first DELETE
  went out. Those claims need no healthy server.
- A theorem that speaks through a specification function has beside it a law that says what that function means,
  in the session's, the server's or the entry's own fields: `AnnexIdsRead`, `OthersInOrder`, `NamesWhatStands`,
  `ReKeyed`, `Shown`, `LeavesAreReached` and others.
- Interleaved code with awaits (`RegistryCache`, `AsyncLoad`) and the shared connections directory
  (`GrantRevocation`) are state machines with one event per uninterrupted stretch; the theorems range over all
  event sequences, and the class methods are proved to make exactly those steps.

The files:

- `SpaceServer.dfy`, `AccountDeletion.dfy`: the deletion walk, from authentication to the local wipe.
- `PassphraseChange.dfy`: the passphrase change on an account with a server, enrolled and ladder branches.
- `GrantRevocation.dfy`: revocation, restore and decline beside consents and renewals.
- `RegistryCache.dfy`: the issuer-registry client's two expiring caches.
- `BackupExport.dfy`, `KeyAgreement.dfy`: the fail-whole export and the create-if-absent key binding.
- `SearchValues.dfy`, `ContactRevisions.dfy`, `AsyncLoad.dfy`, `SessionStore.dfy`, `GrantGrouping.dfy`: the
  explicit-stack walk, the revision order, the load hook's run ids, the session database and the grant rows.

Where a promise does not hold as worded, the code was followed and the exact condition proved:

- Deletion does not converge from a state in which the registry names one live Space twice, or names a Space
  the walk also deletes as an annex: the second DELETE's 404 reads as a masked refusal
  (`AccountDeletion.Converges`, `RepeatedEntryRefuses`). A passkey session cannot resume past the pivot. And
  while the account lives, a run is refused wherever the registry records an entry whose Space is gone, since
  the coverage pass must read its record: a walk torn between its siblings and the pivot can leave such a state
  (`TornCoverageStaysLost`), though not on an account whose only recorded entry is the acting one's
  (`OwnRecordCovers`). `EveryTornStateConverges` is the exact condition.
- A passphrase change leaves the old credential standing unnamed exactly when its entry names its key but no
  update key. It leaves no usable passphrase exactly on the ladder branch when the entry read at the start
  already names the new unlock Space and names the old credential in full, key and update key, the shape an
  earlier change leaves whose retirement failed at its document edit. With no update key in that entry the new
  record is deleted all the same, but the old passphrase still opens the account (`AStrandedRetry`,
  `AnUnretiredRetry`). The comment that the last registry write drops the establishment marker fails for the
  same shape, when the retirement fails again.
- The contact comparator is transitive exactly when no unparseable stamp lies between two parseable ones whose
  instants order them the other way.
- `loading` ends exactly when the last run to settle carries the page's generation; a stale reload breaks it.
- A backup holds one archive per unlock Space exactly when the registry names none twice.
- Retiring an unlock method creates the session database exactly where it was absent and the probe failed.

What is assumed of the code that is not modelled, each taken from the comments at its call site:

- Deletion: the coverage pass reads the record of each entry it can mint a reader for, and takes a missing
  record for one it cannot read; against a healthy server nothing else stops it. A secret is verified only if
  it is the account's own. A 2xx to a DELETE is true, a deleted Space never returns, the world-readable account
  log answers 404 only when the account Space is gone, a Space's own controller is never masked. Other parties
  may delete any Space, but not the acting credential's unlock Space while the account lives. The ids of the
  account, annex and unlock Spaces are told apart by kind.
- Passphrase change: two different passphrases derive different keys and unlock Spaces; other sessions edit
  only the registry; a retirement removes the credential from the document before it touches the roster.
- Revocation: a consent merges its grants, un-retires the entry and clears its decline marker in one write; a
  renewal writes only to an unretired entry with a channel; a retirement is a compare-and-swap that re-reads
  the entry. Any number of other parties do these things at any time; those that retire do it by the same
  protocol, with handled grants that are dead when the retirement is sent.
- Key agreement: `keys.json` is only ever created, never overwritten.

## Model

| member | source | states |
|---|---|---|
| `AccountDeletion.DeletionWalk.Run` | src/session/accountSettings.ts:2026-2934 | over every mix of masked 404s, lost answers and failures: nothing is sent before the run is authenticated and has discovered, from answers it had by then, every Space it will address (`Informed`, `AllNamed`); a run that is refused, cancelled or given a wrong passphrase before that sent nothing; the account Space's DELETE goes out only after every annex Space and every sibling whose capability was not found dead was sent a DELETE, and every DELETE sent was answered, none with a 404 over a Space its probe had found; no step that destroys the way back in (the acting unlock Space's DELETE, its local state, the local wipe) is taken while the account lives; the run ends deleted or deleted-unverified exactly when the account is known gone; a `deleted` report is true; past the pivot each annex, sibling, account and acting Space is reported once, in walk order; a deletion of a standing account reports every Space of the log's history on this server, the recorded sibling, every registry entry, the account and the acting Space, and every foreign history Space as unreachable (`ToldOfAll`); on a healthy server the run gets through exactly from the states `Converges` names, and leaves none of those Spaces standing but an entry reported unreachable (`NothingLeft`) |
| `AccountDeletion.Grade404` | src/session/accountSettings.ts:1878-1892 | a 404 passes as a deletion only where discovery found the Space absent and the account is known gone; it is a masked refusal exactly where discovery found it present |
| `AccountDeletion.PivotVerdict` | src/session/accountSettings.ts:2784-2828 | the run goes past the account Space only on a 2xx or once its log stopped answering |
| `AccountDeletion.FailedDoesNotMeanAlive` | src/session/accountSettings.ts:1851-1860 | `failed` may be returned over a dead account: the DELETE landed, its answer was lost, and an unreachable log counts as answering |
| `AccountDeletion.DeletionWalk.Pivot` | src/session/accountSettings.ts:2701-2829 | one account DELETE; its outcome is the verdict on the answer, on what the re-probe of a lost one read and on whether the log answered; the account is gone exactly when the run goes on |
| `AccountDeletion.DeletionWalk.EveryTornStateConverges` | src/session/accountSettings.ts:2281-2330 | for a remembered passphrase session, a healthy run gets through from a state an earlier run passed through before its acting unlock Space was gone, unless the registry names one live Space twice, exactly if the coverage pass can read every record it must, or no longer needs to because the account is gone |
| `AccountDeletion.TornStateConverges` | src/session/accountSettings.ts:2627-2697 | the same for any smaller set of live Spaces, whoever deleted the rest |
| `AccountDeletion.TornCoverageStaysLost` | src/session/accountSettings.ts:2395-2409 | where it fails: a walk torn between its sibling stage and the pivot, one of the cleared siblings holding a record the coverage pass reads; no later state gets through while the account lives |
| `AccountDeletion.OwnRecordCovers` | src/session/credentialCoverage.ts:123-174 | the ordinary account, whose only recorded entry is the acting credential's own, is always covered |
| `AccountDeletion.RepeatedEntryRefuses` | src/session/accountSettings.ts:2678-2686 | where it fails: two registry entries at one Space, the second of which reads as a masked refusal |
| `AccountDeletion.WhoCannotResume` | src/session/accountSettings.ts:2134-2206 | after the pivot exactly the passkey sessions cannot resume; a transient session whose annex Space is gone cannot start |
| `AccountDeletion.DeletionWalk.Authenticate` | src/session/accountSettings.ts:2172-2235 | on any server it passes only with the right secret, verified, and for a passkey against its own registry entry and a given assertion; a wrong secret, a cancelled ceremony and an unreadable registry end it each for its own reason; exactly when it passes on a healthy server |
| `AccountDeletion.DeletionWalk.LoadRegistry` | src/session/accountSettings.ts:2098-2143 | one read per run, behind the renewal; an empty read on a promoted account counts as unreadable |
| `AccountDeletion.DeletionWalk.RenewVisitDelegation` | src/session/accountSettings.ts:2152-2170 | at most one renewal, which only a transient promoted session makes and only a renewable one may fail on |
| `AccountDeletion.DeletionWalk.VerifyAccountLog` | src/session/accountSettings.ts:2281-2332 | the already-gone arm is taken only when the account Space is gone; any other failed read refuses |
| `AccountDeletion.DeletionWalk.LadderGate` | src/session/accountSettings.ts:2340-2369 | a transient session passes only with its own anchored ladder VM and, where it can be renewed, a delegation whose renewal was installed; which refusal each miss gives |
| `AccountDeletion.DeletionWalk.NameAnnexSpaces` | src/session/accountSettings.ts:2431-2470 | the annex Spaces named: a promoted account's history Spaces on this server and the recorded sibling, those and no others, each once; every foreign one reported unreachable, in order |
| `AccountDeletion.AnnexIdsRead` | src/session/accountSettings.ts:2431-2470 | an annex Space is named exactly if the account is promoted and its log's history has that Space on this server or the record's sibling is it |
| `AccountDeletion.HostedElsewhereReads` | src/session/accountSettings.ts:2440-2453 | the foreign Spaces reported are exactly the history's Spaces on another server, in the history's order |
| `AccountDeletion.OthersInOrder` | src/session/accountSettings.ts:2496-2547 | the siblings taken up are exactly the registry entries whose Space is not the acting one, in the registry's order |
| `AccountDeletion.DeletionWalk.DiscoverRegistry` | src/session/accountSettings.ts:2334-2430 | on any server it passes only with the ladder VM standing, the registry read, and for a promoted account the log verified and the coverage pass settled over records that were all there in some state |
| `AccountDeletion.DeletionWalk.Discover` | src/session/accountSettings.ts:2254-2547 | nothing is deleted by discovery; on any server it passes only with the account log missing, or with registry, ladder VM and coverage surveyed and every annex Space and every registry entry but the acting one probed, in order, each recorded as its probe answered; exactly when a healthy one lets it pass |
| `AccountDeletion.DeletionWalk.DeleteGraded` | src/session/accountSettings.ts:2561-2614 | one DELETE; on any server it passes exactly when it was answered and not with a 404 over a Space discovery found present, and then it is reported `deleted` only on a 2xx |
| `AccountDeletion.DeletionWalk.DeleteAnnexSpaces` | src/session/accountSettings.ts:2572-2614 | each annex Space is reported once, in order; the stage passes only with every one of them sent a DELETE that resolved, and refuses only after one that was lost or that a 404 contradicts |
| `AccountDeletion.DeletionWalk.DeleteSibling` | src/session/accountSettings.ts:2627-2693 | a sibling is reported unreachable and not addressed exactly when its capability was found dead, at the pre-flight or just before its DELETE; any other is passed exactly as its one DELETE is |
| `AccountDeletion.DeletionWalk.DeleteSiblings` | src/session/accountSettings.ts:2627-2697 | each sibling is reported once in order; on any server the stage passes only with every one of them sent a DELETE that resolved or its capability found dead, and refuses only on a lost or contradicted DELETE; on a healthy one exactly when an entry's Space was already cleared by this walk |
| `AccountDeletion.DeletionWalk.DeleteOwnedSpaces` | src/session/accountSettings.ts:2561-2829 | the annex, sibling and account stages: the account's DELETE is sent only with every Space before it settled, and a run that stops before it stopped on one that was not |
| `AccountDeletion.DeletionWalk.DeleteActing` | src/session/accountSettings.ts:2848-2894 | the acting Space is reported once: as deleted exactly on a 2xx or on a 404 over a Space discovery found absent, as unreachable exactly when its last DELETE had no answer, never otherwise while it lives; one DELETE, and exactly one more when the first had no answer |
| `AccountDeletion.DeletionWalk.WipeLocalState` | src/session/accountSettings.ts:2904-2934 | past the pivot the wipe ends `deleted` exactly when every local replica was dropped and the registry had been read, and deleted-unverified otherwise; it is narrowed exactly when the registry went unread |
| `SpaceServer.Server.Delete` | src/session/accountSettings.ts:1904-1948 | the server's contract toward a DELETE: a 2xx is true, a Space's own controller is never answered a masked 404, a deleted Space stays deleted |
| `SpaceServer.Server.VerifySecret` | src/session/accountSettings.ts:2210-2235 | a secret is verified only if it is the account's own; a missing record reads as a wrong one |
| `SpaceServer.Server.Probe` | src/session/accountSettings.ts:1766-1828 | only a 404 is absence, and it proves absence only to the Space's own controller |
| `SpaceServer.Server.LogAnswers` | src/session/accountSettings.ts:1830-1861 | the world-readable log: a 404 is real absence, and a failed fetch counts as an answer |
| `SpaceServer.Server.Coverage` | src/session/credentialCoverage.ts:123-174 | the coverage pass settles only with every record it must read in place, and on a healthy server exactly then |
| `SpaceServer.Server.CapabilityLapsed` | src/session/unlockMethods.ts:1771-1830 | the capability's own expiry, read again before its DELETE |
| `PassphraseChange.Change.Run` | src/session/accountSettings.ts:296-850 | a usable passphrase is kept in every state passed through unless the ladder branch retires, over an entry already at the new Space, a credential that entry names in full, as the guards read it; for a healthy changed run that is the exact condition; the Space the branch deletes was sent its DELETE, and is gone when the outcome says so; the ceremony's own registry writes are at most the marker and the record; a pre-flight refusal wrote nothing; a refused renewal puts seed and unlock method back; a registry write that landed records the entry's own members whole after a retirement that failed at its document edit, the old credential with its update key after one that was not tried, and the new credential otherwise (`NamesWhatStands`), so that what still stands is named unless its entry recorded no update key, and the next change can retire it; `rotated` means out of document and roster; on a healthy server, exactly which runs change the passphrase and whether the new one is usable afterwards |
| `PassphraseChange.Account.AWayIn` | src/session/accountSettings.ts:254-262 | what a usable passphrase kept in every state means: in each of them one of the two has its document entry, its roster wrap and its record, if the old one did at the start |
| `PassphraseChange.AnUnnamedCredential` | src/session/accountSettings.ts:644-737 | the failing input: an entry naming the old key but no update key is skipped by the retirement and overwritten, so a standing credential loses its name |
| `PassphraseChange.AStrandedRetry` | src/session/accountSettings.ts:739-778 | the failing input: with both credentials standing and the entry already moved to the new Space by an earlier change, a ladder-branch retry retires the old one and deletes the new one's record, and no passphrase opens the account |
| `PassphraseChange.AnUnretiredRetry` | src/session/accountSettings.ts:644-778 | the other side of the condition: with no update key in that entry the retirement is skipped, and the old passphrase still opens the account |
| `PassphraseChange.Change.Guard` | src/session/accountSettings.ts:321-432 | the five guards write nothing, and exactly when a healthy run passes them; on any server each refusal comes from its own guard |
| `PassphraseChange.Change.Mark` | src/session/accountSettings.ts:434-497 | the enrolled branch's marker write, a compare-and-swap on the entry as it then stands; on any server the session leaves either the registry that stood or the marked one, and on the ladder branch the former; an undisturbed one leaves the entry marked with the new credential |
| `PassphraseChange.MarkerKeepsEntry` | src/session/accountSettings.ts:460-487 | the marker write never costs an entry its Space or its members |
| `PassphraseChange.MarkerDeclines` | src/session/accountSettings.ts:460-487 | the marker write declines exactly where there is no registry or its entry names another key than the outgoing one; it keeps every other method in place |
| `PassphraseChange.Change.Establish` | src/session/standingUnlock.ts:413-564 | record, wrap and document entry in each branch's order, in every state it passes through; the ladder branch publishes only past its built delegation; on success the new credential opens the account, on failure the old one is untouched |
| `PassphraseChange.Change.TearDown` | src/session/accountSettings.ts:559-568 | the enrolled branch deletes the old Space only once the new credential opens the account; its DELETE is sent, and the Space is gone if the answer says so; it goes on only with the local state dropped |
| `PassphraseChange.Change.Renew` | src/session/accountSettings.ts:603-639 | a renewal that did not install restores the live session before it refuses |
| `PassphraseChange.Change.RotateOff` | src/session/credentialRotation.ts:233-264 | the retirement claims its ladder VM and prepares before the document edit, which is reported landed only by its own answer; `rotated` means out of document and roster with epochs minted and adopted, `skipped` that none were minted |
| `PassphraseChange.Change.Retire` | src/session/accountSettings.ts:640-737 | `unretired` exactly for a bare entry whose credential the document lists or could not be read for; a credential left in the document is unretired, failed at the edit, or recorded without an update key |
| `PassphraseChange.Change.DeleteEntrySpace` | src/session/accountSettings.ts:739-778 | the ladder branch sends a DELETE for the Space the entry names, which is gone if the answer says so; it leaves the new credential usable exactly unless the entry names the new Space |
| `PassphraseChange.Change.Record` | src/session/accountSettings.ts:779-830 | the last write, always attempted: which credential's members it records, update key included, and when it mints a registry |
| `PassphraseChange.ANamedCredentialIsRetired` | src/session/accountSettings.ts:779-795 | the second run: over an entry that names a standing credential in full, as a failed retirement records it, the next undisturbed change takes that credential out of the document |
| `PassphraseChange.RecordedReads` | src/session/accountSettings.ts:1052-1089 | the entry read back after the last write; it drops the establishment marker exactly unless the entry already sat at the new Space naming the credential restated |
| `PassphraseChange.RecordDeclines` | src/session/accountSettings.ts:1052-1089 | the last write declines exactly where there is no registry and it may not mint one |
| `PassphraseChange.UpsertReads` | src/session/unlockMethods.ts:1955-2028 | an upsert reads back as the entry it wrote, and every other unlock method keeps its place |
| `PassphraseChange.OtherMethodsRead` | src/session/unlockMethods.ts:2022-2027 | the methods an upsert keeps are exactly those that are not the passphrase one, in order |
| `PassphraseChange.Account.DocumentStateOfOutgoing` | src/session/accountSettings.ts:962-995 | what the document read may answer; a failed read is unknown, not absence |
| `GrantRevocation.LiveGrantStaysRecorded` | src/stores/storageManager.ts:5381-5413 | over every interleaving of revocations, consents, renewals and restores in which each retirement is sent only with handled grants that are dead, a live recorded grant is never lost from the record, although the compare-and-swap checks the entry alone |
| `GrantRevocation.AnUntruthfulRetirementLosesAGrant` | src/stores/storageManager.ts:5398-5413 | the rule is needed: a retirement sent with a live handled grant goes through, and the grant is lost |
| `GrantRevocation.RetiredOnlyWhenDead` | src/lib/connectedApps.ts:993-1011 | an entry becomes retired only at a retirement, in a state where every sound grant on it is dead |
| `GrantRevocation.LateGrantBlocksRetirement` | src/lib/connectedApps.ts:957-965 | a grant a consent merged after a revocation's read blocks its retirement for as long as it lives |
| `GrantRevocation.OnlyConsentUnretires` | src/session/agentReconnect.ts:411-435 | no restore, renewal or decline ever un-retires an entry |
| `GrantRevocation.ConsentOpens` | src/lib/walletRequest/respond.ts:379-438 | a consent merges its grants, opens the channel, un-retires the entry, clears its marker and mints the app's key |
| `GrantRevocation.RestoreAndRenewalAdd` | src/session/agentReconnect.ts:402-435 | a restore and a renewal add their grants and take none, and neither touches a retired entry |
| `GrantRevocation.WithdrawalsTake` | src/stores/storageManager.ts:5362-5413 | a cleared channel, a decline and a retirement change only what they withdraw; a retirement with an unhandled sound grant changes nothing |
| `GrantRevocation.OthersUntouched` | src/stores/storageManager.ts:5338-5361 | no event changes the entry of another party |
| `GrantRevocation.RevokingOnlyTakes` | src/lib/connectedApps.ts:834-1145 | a revoking write only takes, and from its own party alone: no admission, no grant, no capability and no other party's entry comes of it, and it un-retires nothing |
| `GrantRevocation.ServerWritesRead` | src/lib/connectedApps.ts:834-1011 | an escrow, a rotation, a revocation and a key's deletion each change just what they name |
| `GrantRevocation.OnlyEscrowAdmits` | src/lib/connectedApps.ts:834-872 | nothing but a consent's escrow admits a party to a collection |
| `GrantRevocation.DeadStaysDead` | src/stores/storageManager.ts:4880-4890 | no interleaving revives a capability |
| `GrantRevocation.ClosedChannelTakesNoRenewal` | src/lib/connectedApps.ts:1029-1036 | with its channel cleared a party gains no grant until a consent or a restore |
| `GrantRevocation.Connections.RevokeRead` | src/lib/connectedApps.ts:993-1011 | success, whoever writes meanwhile: every sound grant read is dead, each collection to re-key was at some point of the run without the party, the app's key was dropped, the retirement is the last write and the entry is empty and retired; every write is a revoking one, and its retirement keeps the rule above; undisturbed it succeeds from any partial state |
| `GrantRevocation.Connections.RevokeApp` | src/lib/connectedApps.ts:908-1026 | an app's revocation; one with no entry is refused before any write, on an answered read; success means, with others writing too, that the entry read is settled: its grants dead, every private collection a sound grant targets or the app generated re-keyed, its key deleted, its retirement the last write; failed or not, the keys came first and nothing of what was read was passed over; undisturbed the app is no recipient of any of those collections afterwards, and nothing else changed |
| `GrantRevocation.Connections.RevokeAgent` | src/lib/connectedApps.ts:1056-1105 | an agent's revocation; its first write clears the channel; success means the entry read afterwards is settled in the same sense, and failed or not it is worked through in the same order; undisturbed it always completes |
| `GrantRevocation.Connections.RetireParty` | src/lib/connectedApps.ts:1122-1145 | a wallet client's or a forgotten party's retirement; success means the entry read is settled, with the server stages run exactly when it held sound grants, in the same order |
| `GrantRevocation.Connections.RotateThenRevoke` | src/lib/connectedApps.ts:834-872 | success means every grant dead and every collection seen without the party; the keys come first: before the last rotation no capability is revoked but a rotated collection's own; whatever a rotation did, no private collection and no grant is passed over |
| `GrantRevocation.Connections.RotateRecipients` | src/stores/storageManager.ts:5161-5302 | success means every private collection that the grants target or that the party generated was at some point of the run without the party; whichever of them fail, every private collection the grants target is taken up; a capability it revokes is one of a collection already rotated |
| `GrantRevocation.Connections.RevokeGrants` | src/stores/storageManager.ts:4898-4929 | success only over dead grants; what the rotation already revoked is not POSTed again, and every other grant is dead or its revocation was sent, failures among them or not |
| `GrantRevocation.Connections.RetireEntry` | src/stores/storageManager.ts:5398-5413 | the compare-and-swap over its own fresh read: it throws on a sound grant outside the handled ones and writes nothing for an absent entry |
| `GrantRevocation.Connections.RestoreAgents` | src/session/agentReconnect.ts:285-448 | one outcome per agent in order; every write is a record that leaves a retired entry alone, and none precedes an answered listing; a restored agent has one; undisturbed, exactly which agents are restored and why the others are not |
| `GrantRevocation.Connections.RecordRestored` | src/session/agentReconnect.ts:402-435 | a record that finds the entry retired changes nothing; one that took effect left the grants recorded, the channel open and the decline marker cleared |
| `GrantRevocation.Connections.DeclineAgents` | src/session/agentReconnect.ts:208-241 | every agent is reported once, declined or failed; a declined one has its marker; once any is declined, every marker was sent; nothing is written before the directory was read |
| `RegistryCache.StalenessBound` | src/lib/registryManager.ts:372-449 | for any schedule, a lookup called at t is answered only from reads that began after t minus two lifetimes, through memo hits, joined reads and retries |
| `RegistryCache.BoundIsTight` | src/lib/registryManager.ts:54-59 | a schedule that reaches the bound: one lifetime would be too strong a claim |
| `RegistryCache.SlotsAreClean` | src/lib/registryManager.ts:405-410 | once its callbacks have run a slot holds no failure: a memo came from the fetched list with no registry unchecked, a body was ok and parseable |
| `RegistryCache.ClearSeparates` | src/lib/registryManager.ts:355-359 | no lookup called after a clear is answered from a run begun before it |
| `RegistryCache.LateRejectionIsGuarded` | src/lib/registryManager.ts:104-117 | a late rejection takes out its own slot and no other |
| `RegistryCache.StepKeepsInv` | src/lib/registryManager.ts:129-158 | what every stretch of the code keeps, among it that at most one list load ever succeeds |
| `RegistryCache.Evict` | src/lib/registryManager.ts:111-115 | the identity-guarded eviction |
| `RegistryCache.RegistryManager.LoadRegistries` | src/lib/registryManager.ts:129-158 | concurrent loads share one promise; a new one is begun, and stored, exactly when none is held |
| `RegistryCache.FailedLoadIsRetried` | src/lib/registryManager.ts:120-158 | over every schedule, once the callback of a failed list load has run no slot holds it, and the next lookup awaits a load that has not failed |
| `RegistryCache.RegistryManager.LoadRejected` | src/lib/registryManager.ts:151-155 | the callback of a rejected list load clears the slot exactly if it still holds that load |
| `RegistryCache.LateLoadRejectionIsGuarded` | src/lib/registryManager.ts:151-155 | an old load's late rejection leaves a newer load in its slot |
| `RegistryCache.CleanResultsAreKept` | src/lib/registryManager.ts:405-449 | a settled lookup's memo stays exactly when it ran on the fetched list with no registry unchecked; else its own slot is emptied, and no other |
| `RegistryCache.RegistryManager.LookupDid` | src/lib/registryManager.ts:426-449 | a lookup up to its first await |
| `RegistryCache.RegistryManager.EnsureRegistries` | src/lib/registryManager.ts:168-179 | the list a lookup runs on; the fallback is never cached |
| `RegistryCache.RegistryManager.CachedBodyResponse` | src/lib/registryManager.ts:257-290 | a body request up to its first await: a join, or a read whose slot is filled at once |
| `RegistryCache.RegistryManager.BodySettled` | src/lib/registryManager.ts:269-298 | a failed join fetches for itself |
| `RegistryCache.RegistryManager.ReadRejected` | src/lib/registryManager.ts:104-117 | the callback of a rejected read |
| `RegistryCache.RegistryManager.RunLookupEnds` | src/lib/registryManager.ts:405-410 | when a result is worth memoizing |
| `RegistryCache.RegistryManager.LookupSettled` | src/lib/registryManager.ts:434-448 | the callbacks of a settled lookup |
| `RegistryCache.RegistryManager.ClearRegistryLookupCaches` | src/lib/registryManager.ts:355-359 | logout clears both caches and keeps the list |
| `BackupExport.BackupRun.Run` | src/session/backupExport.ts:924-1116 | whoever edits the registry meanwhile: a bundle holds the account Space, the annex Space the pre-flight resolved and one archive per entry of the listing, each as its own Space's export was answered; the new credential's entry was written, then the listing and the settle read each saw a registry that stood during the run, in that order, and name the same Spaces, the new credential's among them; its account archive carries the pinned head; a pre-flight refusal wrote nothing; undisturbed, exactly when there is a bundle |
| `BackupExport.BackupRun.Pack` | src/session/backupExport.ts:998-1152 | listing, archives and settle read, over the registry's whole history |
| `BackupExport.OneArchiveEach` | src/session/backupExport.ts:1017-1032 | each unlock Space has exactly one archive if and only if the registry names no Space twice |
| `BackupExport.ListingInOrder` | src/session/backupExport.ts:1017-1032 | a bundle's archives in the listing's order: account, annex where there is one, then the registry's entries as they stand in it |
| `BackupExport.BackupRun.Preflight` | src/session/backupExport.ts:544-577 | exactly the sessions and registries that pass, checked before any write: a ladder session's delegation allows POST, a pointed-at annex generation admits the session's rung, every entry is exportable; each refusal has its own reason |
| `BackupExport.BackupRun.ListSpaces` | src/session/backupExport.ts:998-1038 | the listing is the registry that stood at its read, and holds the credential just established |
| `BackupExport.BackupRun.SettledRegistry` | src/session/backupExport.ts:1128-1152 | the settle read is of the registry that then stood, and passes exactly when its set of Spaces is the listed one |
| `BackupExport.BackupRun.RefuseForkedAccountArchive` | src/session/backupExport.ts:678-711 | an archive passes only if its account log holds the pinned head, and no pin checks nothing |
| `BackupExport.ArchivedAccountLog` | src/session/backupExport.ts:626-658 | the first account log of an archive, if it has one |
| `BackupExport.VersionsRead` | src/session/backupExport.ts:645-652 | the versions of a log's lines; a line that does not parse fails the read |
| `BackupExport.ZcapAllowsVerb` | src/session/backupExport.ts:334-348 | no stated action, or an empty list, delegates every action |
| `KeyAgreement.Servers.EnsureKmsAuthentication` | src/lib/kms.ts:474-576 | under any concurrent establishments a run that succeeds returns the stored binding, so all of them agree; one it wrote has its key in a keystore of the session's own, found or created and standing during the run; one it did not write has, in such a keystore's listing, a key whose multibase or whose id's fragment is the binding's; a probe that finds a map creates nothing; a refusal that reports a failed request had one, and a run that wrote had none; undisturbed, exactly when it succeeds, with a binding the next run adopts, and a stored key that no key of the account's keystore carries is refused as not listed |
| `KeyAgreement.Servers.GetKeyMap` | src/lib/kms.ts:474-492 | the probe: what it found stood in the Space, and it is recorded |
| `KeyAgreement.Servers.VerifyServedKey` | src/lib/kms.ts:494-538 | at most three lookups, ending at the first answered one; the key counts as listed exactly when that one found, on the server at that moment, a keystore of the session's own with a key whose multibase or whose id's fragment is that one; only three transport failures leave the map unverified |
| `KeyAgreement.Servers.Adopt` | src/lib/kms.ts:540-547 | a served map is adopted only with its key among those such a lookup listed, or refused, never overwritten; no binding, an unlisted key and an unread keystore are told apart |
| `KeyAgreement.Servers.EnsureKeystore` | src/lib/kms.ts:234-277 | a keystore is created only under the session's own did:key; a promoted account is refused an orphan |
| `KeyAgreement.Servers.LookupKeystore` | src/lib/kms.ts:127-162 | the keystore found stood on the server at the lookup, bound to the identity it was found as |
| `KeyAgreement.Servers.GenerateAuthenticationKey` | src/lib/kms.ts:375-392 | on any server the minted key stands in the keystore it was minted in, listed under the multibase its binding's id carries |
| `KeyAgreement.FragmentRead` | src/lib/kms.ts:382-391 | the multibase is read back from the verification-method id |
| `KeyAgreement.Servers.PutKeyMap` | src/lib/kms.ts:558-575 | create-if-absent: a stored map is never replaced |
| `SearchValues.FlattenSearchValues` | src/lib/searchValues.ts:15-48 | the explicit-stack walk ends on every tree and returns the reverse of the left-to-right leaves |
| `SearchValues.Visit` | src/lib/searchValues.ts:24-46 | one pop moves leaves from the stack to the output and shrinks the stack's total size |
| `SearchValues.ExcludingIsPruning` | src/lib/searchValues.ts:26-43 | the leaves are those of the tree with excluded subtrees, null and undefined removed |
| `SearchValues.LeavesAreReached` | src/lib/searchValues.ts:26-45 | a text is among the leaves exactly if some path of array positions and included keys leads to it |
| `SearchValues.LeavesInOrder` | src/lib/searchValues.ts:33-45 | the leaves of an array or object are those of its parts, one after another, less the excluded keys |
| `SearchValues.PushEntries` | src/lib/searchValues.ts:40-44 | an object pushes its included values in order |
| `SearchValues.PushItems` | src/lib/searchValues.ts:33-38 | an array pushes its items in order |
| `ContactRevisions.TransitiveIffNotStraddled` | src/lib/contactRevisions.ts:28-52 | the comparator is transitive on a set exactly when no unparseable stamp lies between two parseable ones whose instants order them the other way |
| `ContactRevisions.SortedAlike` | src/lib/contactRevisions.ts:10-14 | where it is transitive, any two sorted arrangements have the same stamps and writers |
| `ContactRevisions.UniformIsTransitive` | src/lib/contactRevisions.ts:32-40 | it is transitive where all stamps parse or none does |
| `ContactRevisions.MissingStampsAreHarmless` | src/lib/contactRevisions.ts:32-33 | missing stamps beside parseable ones do no harm |
| `ContactRevisions.AMixedTripleGoesRound` | src/lib/contactRevisions.ts:34-45 | three stamps no order can be made of |
| `ContactRevisions.CompareReads` | src/lib/contactRevisions.ts:46-51 | equal exactly for equal stamp and writer, and antisymmetric |
| `ContactRevisions.LessReads` | src/lib/contactRevisions.ts:41-51 | the string order is decided at the first character that differs, a proper prefix first |
| `ContactRevisions.NewestFirst` | src/lib/contactRevisions.ts:28-52 | a revision comes first exactly by the later instant, else by the greater stamp, else by the greater writer; a missing member counts as empty |
| `ContactRevisions.PermutedKeys` | src/lib/contactRevisions.ts:28-31 | a permutation of revisions has the same keys |
| `AsyncLoad.LatestWins` | src/hooks/useAsyncLoad.ts:73-101 | the counter refines the plain reading that only the latest started, uncancelled run may write |
| `AsyncLoad.WritersGoUp` | src/hooks/useAsyncLoad.ts:74-82 | the ids of the runs that write only go up |
| `AsyncLoad.SupersededNeverWrites` | src/hooks/useAsyncLoad.ts:94-99 | a superseded run never writes again |
| `AsyncLoad.LastRunEndsLoading` | src/hooks/useAsyncLoad.ts:88-117 | once the last started run settles, `loading` is off exactly when it carried the current generation, and the page shows its data, or its error beside the earlier data |
| `AsyncLoad.LoadingFlipsOn` | src/hooks/useAsyncLoad.ts:55-62 | a render under a new generation is loading at once, and keeps what is shown |
| `AsyncLoad.StaleReloadLeavesLoading` | src/hooks/useAsyncLoad.ts:110-117 | a reload of an old generation leaves `loading` on with every run ended |
| `AsyncLoad.AsyncLoader.Start` | src/hooks/useAsyncLoad.ts:73-75 | a run takes a fresh id |
| `AsyncLoad.AsyncLoader.CancelRun` | src/hooks/useAsyncLoad.ts:95-99 | a cancel supersedes only its own run |
| `AsyncLoad.AsyncLoader.Finish` | src/hooks/useAsyncLoad.ts:76-93 | what a settled run writes |
| `SessionStore.StoreRefinesMaps` | src/lib/sessionKey.ts:111-146 | the one store behaves as six independent maps under any operations on any ids |
| `SessionStore.LastOperationDecides` | src/lib/sessionKey.ts:111-146 | what stands under an entry is what the last operation on it left, whatever went on at other entries |
| `SessionStore.KeysApart` | src/lib/sessionKey.ts:119-120 | no id reaches another family's entry |
| `SessionStore.SessionDatabase.SessionDatabaseExists` | src/lib/sessionKey.ts:613-652 | the probe answers truly and never creates the database |
| `SessionStore.SessionDatabase.HasClientKeyRecord` | src/lib/sessionKey.ts:266-277 | asking leaves no trace, and the answer is exact |
| `SessionStore.SessionDatabase.DeleteUnlockLocalState` | src/lib/sessionKey.ts:361-381 | exactly the method's three entries go; the database is created exactly where it was absent and the probe failed |
| `SessionStore.KeyringRoundTrip` | src/lib/sessionKey.ts:169-211 | a cached keyring reads back exactly when there was a record to cache |
| `SessionStore.KeyringReads` | src/lib/sessionKey.ts:195-211 | a stored value reads as a stamped entry exactly when it has a record and a numeric stamp, and whole as a legacy record otherwise |
| `SessionStore.KeyringSurvives` | src/lib/sessionKey.ts:153-223 | a cached keyring is read back after any operations that do not address its own entry, other methods' retirements among them |
| `SessionStore.AccountDidRoundTrip` | src/lib/sessionKey.ts:407-445 | a saved account DID reads back unless it is empty |
| `SessionStore.DidReads` | src/lib/sessionKey.ts:426-445 | what reads back as an account DID: the stored non-empty string and nothing else |
| `SessionStore.SessionDatabase.LoadKeyringCache` | src/lib/sessionKey.ts:195-211 | a miss, a stamped entry or a legacy one |
| `SessionStore.SessionDatabase.Save` | src/lib/sessionKey.ts:123-129 | a save changes one key |
| `SessionStore.SessionDatabase.Load` | src/lib/sessionKey.ts:130-137 | a load changes no entry; nothing stored reads as null |
| `GrantGrouping.GroupNewestFirst` | src/lib/connectedApps.ts:324-358 | every grant appears exactly once, as its scope's current row or in that row's earlier ones; one row per scope; both levels newest first |
| `GrantGrouping.SortIsStable` | src/lib/connectedApps.ts:331-357 | grants of one consent time keep their order through the sort |
| `GrantGrouping.GroupEarlier` | src/lib/connectedApps.ts:335-348 | one pass collects each scope's superseded grants |
| `GrantGrouping.RowsConserve` | src/lib/connectedApps.ts:349-357 | the rows of all scopes show every grant, each once |

## Left out

- SpaceServer.Server.Others: does not let another party delete the acting credential's unlock Space while the account lives, because a second walk under another unlock method does exactly that, and then no order of this walk's own steps could keep the way back in.
- AccountDeletion.DeletionWalk.Run: does not model the guest and no-server arms, which own no Space, nor the pass over every client's local replica, of which only the outcome is kept.
- AccountDeletion.DeletionWalk.Discover: does not say which unlock Spaces the two coverage detectors report, only when they settle; a detector that does not refuses the run.
- PassphraseChange.Change.Run: does not model the arm without a server, the management capability, the creation date or the key-derivation version of an entry.
- PassphraseChange.Change.Mark: is not followed through the repair a later login makes of a torn change; what is said is that the marker is written before the establishment begins and costs the entry nothing.
- PassphraseChange.Change.RotateOff: does not model the collections' new epochs and the annex strike, which belong to the rotation cascade.
- GrantRevocation.Connections.RevokeRead: does not claim that no collection lists the party when it succeeds, because a consent may escrow it again in between; it claims that each was without it at some point of the run.
- GrantRevocation.Connections.RotateRecipients: does not run the collections' rotations at once but one after another, with other parties in between; the outcomes are the same.
- GrantRevocation.Connections.RestoreAgents: does not model the inbox pass that follows it, which turns a restored outcome whose push failed into a failure.
- RegistryCache.StalenessBound: does not cover the registries list, which has no lifetime.
- BackupExport.BackupRun.Run: does not model the packing and encryption of the bundle, nor the stream's progress and cancellation.
- AsyncLoad.LatestWins: does not model React's batching: a state write is taken to happen at once.
- SessionStore.SessionDatabase.HasClientKeyRecord: does not model another tab deleting the database between the probe and the read.
- GrantGrouping.GroupNewestFirst: does not model the collation of consent times, which is taken as a number, nor the other members of a displayed grant.
- Cryptography, key derivation, WebAuthn and capability signing: keys, capabilities and records are opaque identifiers.
- HTTP, IndexedDB and timers: a request is a nondeterministic outcome, the database a finite map, the clock a number that only grows.
- The packages under `@interop`, the storage manager's other operations, the login-time repairs and the mender registry: only the contracts named above.
- User interface, pages, translations, logging, stage events and progress callbacks: they hold no property of this kind.
- The password scorer: overlapping loads for different locales can return the wrong locale's scorer, so its claim does not hold as written.
- The transport proxy, preferences, quotas, byte formatting and import helpers: they would only add easy members.
