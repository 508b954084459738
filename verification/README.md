# EarnProof contracts: a verified model

This project models the three Soroban contracts of EarnProof as one ledger state machine and proves what holds over
every run of it. It also models the two pieces of test tooling whose correctness the repository relies on: the emergency
rule model that the contracts must follow, and the ledger-snapshot printer with its fixture format.

`dafny verify dfyconfig.toml` checks everything.

## How it is built

| files | what they hold |
|---|---|
| `Shared`, `Upgrade` | records, errors, events, lifetime rules; the upgrade governance that all three contracts carry, once |
| `ProtocolConfig`, `IssuerRegistry`, `ProofRegistry` | per contract: the state, a pure `Exec`, and a class whose methods write storage in the order the source does and are proved equal to `Exec` |
| `Ledger` | the world (any number of deployed contracts, a clock), invocations, runs; `At(steps, k)` is the world after `k` steps |
| `IssuerLaws`, `ProofLaws`, `ConfigLaws`, `UpgradeLaws`, `Replay`, `StorageLaws` | theorems over all runs |
| `Latest`, `Settings`, `IssuerHistory`, `ProofHistory`, `Replies`, `Announcements` | what every setting, record, reply and event is after any run, told from the calls that were made |
| `Aging`, `Entries`, `Lifetimes` | the lifetime rule, what each step does to each persistent entry, and which access patterns keep an entry live |
| `Emergency` | the five-flag model, the deployment, the simulation theorem |
| `Text`, `Sorting`, `Render`, `RenderLaws`, `Snapshot`, `SnapshotLaws`, `SnapshotReader` | the snapshot printer, readers for its lines and for whole bodies, and the round trips |
| `Fixtures`, `FixtureLaws`, `SnapshotFixtures` | the fixture parser, the guarded writer, their inverse theorem, and the whole way from scenario to file and back |

`Exec` returns the state the body left behind, partial writes included, together with the reply: a value, an error, or a
trap (a panic or a failed authorisation). `Ledger.Apply` commits that state only when the reply is a value. This keeps
apart what the code guarantees by itself and what it owes to the host's rollback.

Automatic induction is switched off on every lemma where Dafny would apply it, so each inductive argument is written out.

## Assumptions about the host

- `require_auth(a)` passes exactly when `a` is in the authorising set of the invocation.
- An invocation that returns an error or traps is rolled back completely.
- `extend_ttl` acts when the remaining life is at or below the threshold; an entry with 0 ledgers left is still live
  (tests/ttl/src/lib.rs:46-49, tests/ttl/src/expiry.rs:3-16). A new entry, and an archived one that is read, gets
  4,096 - 1 ledgers (docs/storage-ttl.md:109, tests/ttl/src/harness.rs:34).
- An upgrade leaves the code as it is, as in the test build (contracts/issuer-registry/src/lib.rs:394-396).
- Time and ledger number never decrease. Timestamps are unbounded naturals; `u32` values are bounded, and the one
  checked addition on them is modelled with its overflow.

## Where code and documentation disagree

The model follows the code in each case.

- docs/storage-ttl.md:152-157 asks operators to touch entries "at least once per 450,000 ledgers". That is not enough: a
  touch that comes early does nothing. `Lifetimes.SafeCadence` shows that the largest safe gap is 50,001 ledgers, and
  `Aging.LateVisitsSuffice` that gaps of 450,000 to 500,000 ledgers, none shorter, are safe too.
- docs/storage-ttl.md:70 and :162 and the comment at tests/ttl/src/expiry.rs:148-149 say that `is_active_address` extends
  the reverse index. It extends only the issuer record; see `Lifetimes.PollingNeverRenewsTheIndex`.
- tests/ledger-snapshots/src/render.rs:13-18 calls the alias substitution bidirectional. `Aliases::insert` accepts any
  alias for any address, so this is up to the caller; see `RenderLaws.PrintingIsInjectiveIffAliasesAreDistinct`.
- tests/emergency/src/sequences.rs:130-133 promises a fresh discriminator per step. The byte `0x40 + step` reaches the
  fixture's own `0xD1` at step 145; see `Emergency.HarnessReachIs145`.

## Model

| member | source | states |
|---|---|---|
| `Upgrade.UpgradableContract.ApproveUpgrade` | contracts/protocol-config/src/lib.rs:212-233 | administrator only; refuses a version that is not higher; otherwise records the entry and publishes the event |
| `Upgrade.UpgradableContract.RevokeUpgrade` | contracts/protocol-config/src/lib.rs:237-250 | administrator only; drops the entry, present or not, and publishes |
| `Upgrade.UpgradableContract.UpgradeContract` | contracts/protocol-config/src/lib.rs:270-310 | administrator only; consumes a listed, higher entry, installs its version and publishes; traps otherwise |
| `ProtocolConfig.ProtocolConfigContract.Initialize` | contracts/protocol-config/src/lib.rs:84-102 | the whole new state and reply, every refusal included |
| `ProtocolConfig.ProtocolConfigContract.SetAdmin` | contracts/protocol-config/src/lib.rs:111-119 | the whole new state and reply, with the write that precedes a counter overflow |
| `ProtocolConfig.ProtocolConfigContract.Pause` | contracts/protocol-config/src/lib.rs:128-135 | the same for pausing |
| `ProtocolConfig.ProtocolConfigContract.Unpause` | contracts/protocol-config/src/lib.rs:137-144 | the same for unpausing |
| `ProtocolConfig.ProtocolConfigContract.ApproveSchemaVersion` | contracts/protocol-config/src/lib.rs:146-157 | the same for approving a schema, with the lifetime of its entry |
| `ProtocolConfig.ProtocolConfigContract.DeprecateSchemaVersion` | contracts/protocol-config/src/lib.rs:159-170 | the same for deprecating a schema |
| `ProtocolConfig.ProtocolConfigContract.IsSchemaVersionApproved` | contracts/protocol-config/src/lib.rs:172-187 | the answer, and that only the lifetime of an existing entry moves |
| `ProtocolConfig.ProtocolConfigContract.BumpConfigVersion` | contracts/protocol-config/src/lib.rs:328-337 | adds one, or refuses at the u32 maximum and changes nothing |
| `IssuerRegistry.IssuerRegistryContract.Initialize` | contracts/issuer-registry/src/lib.rs:109-122 | the whole new state and reply |
| `IssuerRegistry.IssuerRegistryContract.RegisterIssuer` | contracts/issuer-registry/src/lib.rs:131-176 | record, index entry, both lifetimes, event, and every refusal in its order |
| `IssuerRegistry.IssuerRegistryContract.UpdateIssuer` | contracts/issuer-registry/src/lib.rs:178-210 | only metadata and time of a non-revoked record move |
| `IssuerRegistry.IssuerRegistryContract.SetStatus` | contracts/issuer-registry/src/lib.rs:428-471 | status and time move, except away from Revoked |
| `IssuerRegistry.IssuerRegistryContract.RotateIssuerAddress` | contracts/issuer-registry/src/lib.rs:224-274 | the old index entry goes, the new one appears, the record follows; every refusal in its order |
| `IssuerRegistry.IssuerRegistryContract.GetIssuer` | contracts/issuer-registry/src/lib.rs:276-285 | the record, extending its entry |
| `IssuerRegistry.IssuerRegistryContract.IsActiveIssuer` | contracts/issuer-registry/src/lib.rs:287-292 | the answer, extending the record's entry |
| `IssuerRegistry.IssuerRegistryContract.IsActiveAddress` | contracts/issuer-registry/src/lib.rs:294-304 | the answer, extending the record's entry and not the index entry |
| `IssuerRegistry.IssuerRegistryContract.GetIssuerByAddress` | contracts/issuer-registry/src/lib.rs:501-518 | the record or one of two errors, extending the index entry and not the record's |
| `ProofRegistry.ProofRegistryContract.Initialize` | contracts/proof-registry/src/lib.rs:66-91 | stores two references that differ from each other and from the contract itself, or refuses |
| `ProofRegistry.ProofRegistryContract.RegisterProof` | contracts/proof-registry/src/lib.rs:93-160 | the effect on all three contracts and the reply, for every order of failing checks |
| `ProofRegistry.ProofRegistryContract.SetRevoked` | contracts/proof-registry/src/lib.rs:361-385 | revokes once, with the consent of the stored issuer or of the administrator |
| `ProofRegistry.ProofRegistryContract.GetProof` | contracts/proof-registry/src/lib.rs:170-179 | the record, extending its entry |
| `ProofRegistry.ProofRegistryContract.IsValidProof` | contracts/proof-registry/src/lib.rs:181-189 | Active and not past its term; a missing proof is invalid |
| `ProofRegistry.ProofRegistryContract.IsRevoked` | contracts/proof-registry/src/lib.rs:191-196 | Revoked; a missing proof is not |
| `Ledger.EachContractMovesAlone` | contracts/proof-registry/src/lib.rs:122-138 | a step changes a contract only by one successful call of that contract's own code: the step's target, or one of the two reads of a registration |
| `Ledger.RegistrationIsGated` | contracts/proof-registry/src/lib.rs:101-160 | registration succeeds if and only if the local checks pass, the config is unpaused and approves the schema, the address is indexed to an Active issuer and the id is new; it then adds exactly that record |
| `ProofLaws.EveryProofHasOneLegitimateOrigin` | contracts/proof-registry/src/lib.rs:93-160 | in every run, each stored proof was written by exactly one earlier registration, at its creation time, with its issuer's consent, under an unpaused config with that schema approved, while exactly one issuer, an Active one, held the address |
| `ProofLaws.NoSecondRegistration` | contracts/proof-registry/src/lib.rs:140-143 | an id registered once is never registered again at that registry |
| `ProofLaws.RegistrationStoresItsArguments` | contracts/proof-registry/src/lib.rs:145-159 | the stored record holds id, commitment, issuer, schema and term as given, each in its own field, is Active, created now, with revoked_at 0; every other record is unchanged |
| `ProofLaws.RegistryIsWellKept` | contracts/proof-registry/src/lib.rs:66-160 | in every reachable state: schema at least 1, term after creation, status and revocation time agree, references distinct, no proof issued by the registry or its references, and proofs only where an administrator is set |
| `ProofLaws.RegistryKeepsItsProofs` | contracts/proof-registry/src/lib.rs:361-385 | administrator, references and every field of every proof are immutable, except for one move from Active to Revoked |
| `ProofLaws.RevokedMeansRevocation` | contracts/proof-registry/src/lib.rs:361-385 | a proof is revoked if and only if a successful revocation happened since its registration |
| `ProofLaws.ValidityIsDecidedByTermAndRevocation` | contracts/proof-registry/src/lib.rs:181-189 | a registered proof is valid if and only if its term has not passed and nobody has revoked it, whatever happens to config and issuers |
| `ProofLaws.ValidityIsOneStretch` | contracts/proof-registry/src/lib.rs:181-189 | a proof is valid from registration on, and once it is not, never again |
| `ProofLaws.RevokersNeverChange` | contracts/proof-registry/src/lib.rs:361-385 | for the whole life of a proof, across issuer rotations and config admin changes, exactly the original issuer address and the registry's administrator can revoke it |
| `ProofHistory.RevocationIsRecorded` | contracts/proof-registry/src/lib.rs:376-384 | a revocation marks an Active proof Revoked with the current time and changes nothing else |
| `ProofHistory.StoredProofTellsItsStory` | contracts/proof-registry/src/lib.rs:93-160 | at any later point the record holds the arguments and time of its registration, is Revoked if and only if a revocation happened since, and carries that step's time |
| `ProofHistory.RegisteredProofAnswers` | contracts/proof-registry/src/lib.rs:170-196 | the replies at any later point: get_proof tells that story, is_valid_proof is true if and only if the term has not passed and no revocation happened, is_revoked if and only if one did |
| `ProofHistory.UnknownProofAnswers` | contracts/proof-registry/src/lib.rs:170-196 | an id that no step registered is not found, not valid and not revoked |
| `IssuerLaws.IndexAndRecordsAreInverse` | contracts/issuer-registry/src/lib.rs:131-274 | in every reachable state the address index and the records are inverse bijections |
| `IssuerLaws.EveryCallKeepsInverse` | contracts/issuer-registry/src/lib.rs:224-274 | every call keeps that, rotation included |
| `IssuerLaws.LookupsEqualScans` | contracts/issuer-registry/src/lib.rs:294-304 | the indexed lookups equal a scan of all records, an address has at most one holder, and get_issuer_by_address never fails with IssuerNotFound |
| `IssuerLaws.RevocationIsTerminal` | contracts/issuer-registry/src/lib.rs:443-445 | after revocation only updated_at of the record can change, and the address stays bound to it |
| `IssuerLaws.RevokedAddressIsBarredForever` | contracts/proof-registry/src/lib.rs:133-138 | from then on no registration in that address's name succeeds at any registry referring to that issuer registry |
| `IssuerHistory.MetadataIsLatest` | contracts/issuer-registry/src/lib.rs:178-210 | after any run an issuer's metadata is the argument of the last successful registration or update of it |
| `IssuerHistory.AddressIsLatest` | contracts/issuer-registry/src/lib.rs:224-274 | its address is the argument of the last registration or rotation |
| `IssuerHistory.StatusIsLatest` | contracts/issuer-registry/src/lib.rs:428-471 | its status is the last one set, Active to begin with |
| `IssuerHistory.CreationIsRegistration` | contracts/issuer-registry/src/lib.rs:151-159 | its created_at is the time of its registration |
| `IssuerHistory.UpdateIsLatestChange` | contracts/issuer-registry/src/lib.rs:447-450 | its updated_at is the time of the last registration, update, status change or rotation |
| `Replies.RegisterReplies` | contracts/issuer-registry/src/lib.rs:131-149 | at any point of any run: the reply of register_issuer, every refusal in its order, with `taken` meaning that some record holds the address |
| `Replies.RotateReplies` | contracts/issuer-registry/src/lib.rs:224-250 | the same for rotate_issuer_address |
| `Replies.IssuerReplies` | contracts/issuer-registry/src/lib.rs:178-292 | the same for initialize, update_issuer, the status calls, get_issuer and is_active_issuer |
| `ConfigLaws.CounterCountsMutations` | contracts/protocol-config/src/lib.rs:111-170 | ConfigVersion is 1 plus the number of successful mutations since initialization |
| `ConfigLaws.SpentCounterFreezesConfig` | contracts/protocol-config/src/lib.rs:328-337 | once the counter is at the u32 maximum, admin, pause flag and schema approvals never change again |
| `Settings.AdminIsLatestAppointed` | contracts/protocol-config/src/lib.rs:84-119 | after any run a contract's administrator is the one named by its last successful initialization or set_admin |
| `Settings.PauseIsLatest` | contracts/protocol-config/src/lib.rs:121-144 | a config is paused if and only if its last pause or unpause was a pause |
| `Settings.ApprovalIsLatest` | contracts/protocol-config/src/lib.rs:146-187 | a schema is approved if and only if its last approval or deprecation was an approval |
| `Settings.DeprecationClosesSchema` | contracts/proof-registry/src/lib.rs:129-131 | between the deprecation of a schema and its next approval no registration under it succeeds at any registry that refers to the config |
| `Settings.PauseClosesRegistration` | contracts/proof-registry/src/lib.rs:124-127 | between a pause and the next unpause no registration succeeds there at all |
| `Settings.ReferencesAreThoseOfInitialization` | contracts/proof-registry/src/lib.rs:79-85 | a proof registry refers to the two contracts named at its initialization, each in its place |
| `Replies.ConfigReplies` | contracts/protocol-config/src/lib.rs:84-187 | the reply of every config call: the checks in order, the error of each, the trap of the spent counter, the schema answer |
| `Replies.RegistrationReplies` | contracts/proof-registry/src/lib.rs:101-143 | at any point of any run: the reply of register_proof, twelve checks in order with their errors, stated of the ledger and by scanning the issuers |
| `Replies.RegistryReplies` | contracts/proof-registry/src/lib.rs:361-378 | the replies of initialize and of both revocations; the missing-administrator case does not occur |
| `Replies.PrincipalsAreStrkeys` | packages/shared/src/lib.rs:35-64 | a principal is a text of 56 characters of the base32 alphabet other than the strkey of the all-zero key |
| `Announcements.LogIsWhatHappened` | contracts/protocol-config/src/lib.rs:84-310 | the event log of every contract is, in order, the event of each successful call that changes something, with its fields taken from the call, the clock and the state before |
| `Announcements.EveryStepAnnounces` | contracts/issuer-registry/src/lib.rs:168-208 | per step: exactly which event is published, and by which contract; none by reads, by proof registrations or by revocations |
| `Replay.ConfigLogRebuildsState` | contracts/protocol-config/src/lib.rs:84-310 | folding the event log gives back admin, pause flag, schemas, both versions and the allowlist, after any run |
| `Replay.IssuerLogRebuildsState` | contracts/issuer-registry/src/lib.rs:131-274 | folding the event log gives back every record with its timestamps, the whole index and the allowlist |
| `UpgradeLaws.UpgradeAppliesLatestApproval` | contracts/issuer-registry/src/lib.rs:320-410 | an upgrade installs exactly the version of the latest approval of that hash that nothing has replaced, revoked or consumed, and it raises the version |
| `UpgradeLaws.ApprovalIsSpentOnce` | contracts/proof-registry/src/lib.rs:287-323 | upgrades and the approvals they use match one to one |
| `UpgradeLaws.UpgradesAreBoundedByVersion` | contracts/protocol-config/src/lib.rs:270-310 | a run has at most ContractVersion - 1 upgrades of a contract |
| `UpgradeLaws.StaleEntryNeedsNewApproval` | contracts/protocol-config/src/lib.rs:280-283 | an entry at or below the current version is never installed without a new approval |
| `UpgradeLaws.VersionNeverFalls` | contracts/protocol-config/src/lib.rs:297-300 | ContractVersion is monotone over every run |
| `Settings.VersionIsLatestInstalled` | contracts/protocol-config/src/lib.rs:96-98 | ContractVersion is 0, then 1 from initialization on, then the version approved for the last hash applied |
| `Settings.AllowlistIsLatestApproval` | contracts/protocol-config/src/lib.rs:222-243 | the allowlist holds for each hash exactly the version of its last approval, unless revoked or applied since |
| `Replies.GovernanceReplies` | contracts/protocol-config/src/lib.rs:212-283 | exactly when an approval, a revocation and an upgrade go through, in all three contracts |
| `StorageLaws.EveryChangeIsAuthorised` | contracts/proof-registry/src/lib.rs:361-374 | a stored value changes only by a call to its own contract with the consent of the party in charge in the state before |
| `StorageLaws.RegistrationReadsThreeContracts` | contracts/proof-registry/src/lib.rs:101-143 | the reply of a registration depends on the time and on the values of three contracts only |
| `StorageLaws.ErrorsWriteNothing` | contracts/proof-registry/src/lib.rs:101-143 | without rollback, every call that returns an error leaves all values and events of all contracts unchanged |
| `StorageLaws.ErrorsAgeOnlyWhatWasRead` | contracts/proof-registry/src/lib.rs:122-143 | without rollback, such a call moves no lifetimes but those of the schema entry, the index entry and the issuer record it has read |
| `StorageLaws.OnlyTheSpentCounterTrapsAfterAWrite` | contracts/protocol-config/src/lib.rs:131-132 | a trap follows a write only in a config mutation at the counter's maximum, and with rollback the world is unchanged |
| `StorageLaws.SpentCounterTrapsAfterTheFlagIsSet` | contracts/protocol-config/src/lib.rs:128-135 | that case exists: the pause flag is set before the trap |
| `Entries.EveryStepAgesEveryEntry` | contracts/issuer-registry/src/lib.rs:276-304 | any step on the ledger gives a new entry the full term, renews an entry it touches only near its end, and otherwise leaves a live entry's live-until ledger alone; only index entries are ever removed |
| `Entries.ReadingRestores` | docs/storage-ttl.md:109-109 | an archived entry that is read without being extended comes back with 4,095 ledgers, and a live one is left alone |
| `Lifetimes.EntryLivesByTheRule` | packages/shared/src/lib.rs:12-15 | in every run, an entry of any kind (schema, issuer record, index, proof) is live from its creation on if and only if the gaps between the steps that touch it survive the lifetime rule; time, other calls and other contracts do not matter |
| `Lifetimes.VisitedProofStaysLive` | contracts/proof-registry/src/lib.rs:393-397 | in every run a registered proof's entry starts with 500,000 ledgers and lives at least 50,001 ledgers beyond the last call that reads or writes it |
| `Lifetimes.VisitedRecordStaysLive` | contracts/issuer-registry/src/lib.rs:483-487 | in every run an issuer's record does the same, a touch being an update, a status change, a rotation, a read, or a poll of any address that leads to it at the time, by `is_active_address` or `register_proof` |
| `Lifetimes.SafeCadence` | packages/shared/src/lib.rs:12-15 | for every entry just created in any run: no continuation whose gaps stay within `bound` ever lets it be archived, if and only if `bound` is at most 50,001 |
| `Lifetimes.OneLongGapIsEnough` | packages/shared/src/lib.rs:12-15 | a continuation with a single gap of 50,002 ledgers, all others shorter, loses the entry |
| `Aging.LateVisitsSuffice` | docs/storage-ttl.md:157-157 | gaps between 450,000 and 500,000 ledgers are safe |
| `Lifetimes.UntouchedEntryRunsOut` | contracts/issuer-registry/src/lib.rs:489-495 | in every run, a live entry that no step touches keeps its live-until ledger and is archived exactly when the ledger passes it; for an index entry a touch is a registration, a rotation to it, or get_issuer_by_address |
| `Lifetimes.PollingRenewsTheRecord` | contracts/issuer-registry/src/lib.rs:276-304 | in every run in which an issuer holds an address, its record outlives the last poll of that address by 50,001 ledgers, whatever else is called |
| `Lifetimes.PollingNeverRenewsTheIndex` | contracts/issuer-registry/src/lib.rs:294-304 | in every run that uses a registry only through polls, of any addresses and from any proof registries, each index entry serves exactly the term it had |
| `Lifetimes.PollingKeepsTheRecordAndLosesTheIndex` | contracts/issuer-registry/src/lib.rs:294-304 | from the registration of an issuer on, polls at most 50,001 ledgers apart keep the record live for ever, while the index entry is archived after exactly 500,000 ledgers |
| `Emergency.Model.Apply` | tests/emergency/src/sequences.rs:77-125 | acceptance and next flags for each operation; a rejected one changes nothing |
| `Emergency.OneStepFollowsModel` | tests/emergency/src/sequences.rs:134-166 | the contracts agree with the rules on one operation if and only if the counter has room, the successor is valid and the id is fresh |
| `Emergency.ContractsFollowModelExactlyWhenTractable` | tests/emergency/src/sequences.rs:196-220 | acceptance and observed state agree at every step of a sequence of any length if and only if that holds along it |
| `Emergency.Replay` | tests/emergency/src/sequences.rs:196-220 | the replay loop passes if and only if the sequence is tractable; its state assertion never fails by itself |
| `Emergency.FreshSequencesAreTractable` | tests/emergency/src/sequences.rs:128-133 | fresh ids, valid successors and room for the config operations are enough, at any length |
| `Emergency.SetUpIsDeployed` | tests/emergency/src/harness.rs:34-78 | every step of the harness's deployment goes through and leaves the state the rules start from |
| `Emergency.HarnessSequencesFollowModel` | tests/emergency/src/sequences.rs:187-220 | from that deployment every sequence of up to 145 operations with the harness's own ids agrees with the rules |
| `Emergency.HarnessIdsCollideAtStep145` | tests/emergency/src/sequences.rs:152-163 | on that deployment, after 145 harmless operations the contracts reject a registration that the rules accept |
| `Emergency.HarnessReachIs145` | tests/emergency/src/sequences.rs:134-220 | contracts and rules agree on all harness sequences of a given length if and only if that length is at most 145 |
| `Render.Aliases.Insert` | tests/ledger-snapshots/src/render.rs:40-45 | appends, so an address keeps its first alias |
| `Render.Aliases.Find` | tests/ledger-snapshots/src/render.rs:47-52 | the first alias entered for the address |
| `Render.HexText` | tests/ledger-snapshots/src/render.rs:158-164 | two lower-case digits per byte |
| `RenderLaws.HexBack` | tests/ledger-snapshots/src/render.rs:158-164 | hex text can be read back |
| `RenderLaws.ValueBack` | tests/ledger-snapshots/src/render.rs:98-140 | a reader recovers any value, however nested, from its text and stops exactly at its end |
| `RenderLaws.PrintingIsInjectiveIffAliasesAreDistinct` | tests/ledger-snapshots/src/render.rs:98-156 | with delimiter-free aliases, different values print differently if and only if no two addresses share an alias |
| `Sorting.SortIsCanonical` | tests/ledger-snapshots/src/snapshot.rs:73-73 | sorted lines are equal if and only if the bags of lines are |
| `Snapshot.RenderBody` | tests/ledger-snapshots/src/snapshot.rs:37-94 | the loops build the ledger, storage, event and verdict sections in order |
| `SnapshotLaws.StorageLineBack` | tests/ledger-snapshots/src/snapshot.rs:65-69 | a storage line gives back contract, durability class, key and value |
| `SnapshotLaws.EventLineBack` | tests/ledger-snapshots/src/render.rs:72-88 | an event line gives back the contract, the topics and the data |
| `SnapshotLaws.StorageSectionIsFaithful` | tests/ledger-snapshots/src/snapshot.rs:50-77 | two storage sections are equal if and only if the entries are, in whatever order the host listed them |
| `SnapshotLaws.BodyIsFaithful` | tests/ledger-snapshots/src/snapshot.rs:37-94 | two bodies are equal if and only if ledger position, storage entries, events in order and verdicts are |
| `SnapshotReader.BodyBack` | tests/ledger-snapshots/src/snapshot.rs:37-94 | a reader for whole bodies gives back sequence and timestamp, the bag of storage entries, the events and the verdicts |
| `SnapshotReader.VerdictLineSays` | tests/ledger-snapshots/src/snapshot.rs:88-91 | a verdict line is the call, followed by ` = true` if and only if the verdict holds and by ` = false` otherwise |
| `SnapshotReader.BodyOpens` | tests/ledger-snapshots/src/snapshot.rs:44-50 | the ledger lines stand first, each number under its own label |
| `SnapshotReader.StorageLineSays` | tests/ledger-snapshots/src/snapshot.rs:53-69 | the words and separators of a storage line, for each durability class |
| `SnapshotReader.EventLineSays` | tests/ledger-snapshots/src/render.rs:72-88 | the words and separators of an event line, the two failure markers included |
| `SnapshotReader.FixtureLeaves` | tests/ledger-snapshots/src/render.rs:98-111 | the tags of leaf values, character by character |
| `Fixtures.Parse` | tests/ledger-snapshots/src/snapshot.rs:147-185 | the parsing loop computes the line-by-line specification, every panic included |
| `Fixtures.RegenerateFixtures` | tests/ledger-snapshots/src/regenerate.rs:22-48 | the writing loop computes its specification, files written before a panic included |
| `FixtureLaws.ParseInvertsWrite` | tests/ledger-snapshots/src/regenerate.rs:36-47 | parsing a written fixture gives back every field if and only if the body does not end in a newline and has no carriage return before a newline or at its end; lines starting with "# " and blank lines are no exception |
| `FixtureLaws.ParseOfContents` | tests/ledger-snapshots/src/snapshot.rs:147-185 | whatever the body, the four header fields come back, and exactly which body does |
| `FixtureLaws.BodyOpensAt` | tests/ledger-snapshots/src/snapshot.rs:169-175 | the first line that is no header opens the body; it is dropped if and only if it is all white space, and every later line is kept |
| `FixtureLaws.HeaderLineRule` | tests/ledger-snapshots/src/snapshot.rs:157-168 | a header line sets its field, last one wins; a missing colon, an unknown key or a bad revision is a panic |
| `FixtureLaws.LargeRevisionIsRefused` | tests/ledger-snapshots/src/snapshot.rs:162-162 | a decimal revision parses if and only if it fits a u32 |
| `FixtureLaws.ContentsSay` | tests/ledger-snapshots/src/regenerate.rs:41-44 | the four header lines in order, a blank line, the body and a newline |
| `FixtureLaws.ReasonRule` | tests/ledger-snapshots/src/regenerate.rs:25-34 | an ASCII reason is accepted if and only if it has at least 20 characters and no newline |
| `FixtureLaws.DigestIsHexOfHash` | tests/ledger-snapshots/src/snapshot.rs:136-145 | the digest is the hash, in hex, of the body with its line ends normalised |
| `FixtureLaws.RevisionCountsRegenerations` | tests/ledger-snapshots/src/regenerate.rs:36-56 | n regenerations succeed if and only if the reasons are acceptable and the revision has room, and then raise it by exactly n |
| `FixtureLaws.RegenerationBumpsEveryFixture` | tests/ledger-snapshots/src/regenerate.rs:36-48 | one run raises the revision of every scenario by one and touches no other file; it completes if and only if every existing fixture is readable and has room |
| `SnapshotFixtures.RegeneratedFixtureReads` | tests/ledger-snapshots/src/regenerate.rs:36-47 | parsing a regenerated fixture gives the next revision, the trimmed reason, the rendered body without its last newlines and the digest of exactly that body, if and only if no carriage return in it stands before a newline or at its end |
| `SnapshotFixtures.FixturesAgreeExactlyWhenScenariosDo` | tests/ledger-snapshots/src/snapshot.rs:37-185 | two regenerated fixtures carry the same body if and only if the scenarios agree on ledger position, storage entries, events and verdicts |

## Left out

- Plain readers (`get_admin`, `get_config_version`, `get_contract_version`, `is_paused`, `is_upgrade_allowed`,
  `get_issuer_registry`, `get_protocol_config`): each returns one stored field.
- Lifetimes of the instance entries: only persistent entries have live-until ledgers here.
- The host's maximum lifetime, which would cap an extension.
- Contracts of other kinds at the two addresses a proof registry refers to: calling them is treated as a trap.
- WASM swaps that change behaviour: an upgrade here changes the version and the allowlist only.
- Upgrade.UpgradableContract.UpgradeContract: the three contracts carry this code in identical form; it is given as methods once, and as part of each contract's `Exec`.
- IssuerRegistry.IssuerRegistryContract.SetStatus: the three status events are one event with the status as a field.
- Replay.IssuerLogRebuildsState: the admin and the initial version are not part of the rebuilt state, because issuer-registry publishes no event when it is initialized.
- Emergency.Replay: `observe` reads through calls that extend lifetimes; the model reads the values and leaves lifetimes alone, which no reply depends on.
- Sorting.SortIsCanonical: the in-place sort of the line vector is a function on sequences; the standard library's algorithm is not modelled.
- RenderLaws.ValueBack: covers the variants that `scval_text` supports, with integers of any size; unsupported variants, symbols outside their alphabet and addresses without an alias print as failure markers and are not read back.
- Snapshot.RenderBody: takes the storage entries as input; how the test host lists them (`entries`) is not modelled.
- Fixtures.RegenerateFixtures: the hash function is a parameter, files are a map, and the rendering of a scenario is an arbitrary function.
- Strkey checksums: an address is its text, and validity is the length, alphabet and zero-key test of the shared crate.
- Error codes as numbers, the error catalog and the table of storage namespaces: finite tables.
- TypeScript bindings, deployment and CI scripts, fuzz targets, budget tests.
