# Clack, verified

A Dafny model of the state machines and the arithmetic that Clack's guarantees rest on, with proofs
over every input, every run and every interleaving. `dafny verify dfyconfig.toml` checks all of it.

Every SQL transaction is one atomic step on maps. Clock samples are parameters; where the order of
samples and locks matters, the sample taken before a lock is a parameter of its own. A machine may
stop between any two commits. The network, the operators and the transport are arbitrary: whatever
they may decide is a parameter of the step, and the theorems hold for all of it.

**Federation authority** (`federation_authority.py`). `AuthorityState` has the tables and one
specification function for each transaction; the class `FederationAuthority.Authority` updates the
tables in place, with the source's loops, and is proved equal to those functions. `AuthorityRuns`
interleaves all transactions, with `action` split at its transport call (the lock stays held, the
process may crash there). `AuthoritySafety`, `AuthorityHistory`, `AuthorityTheorems`,
`AuthorityConservation` and `AuthorityLineage` hold the proofs; `AuthorityGrants` and `AuthorityMessages`
tell every step again row by row, without the functions of the specification.

**Adapters** (`federation_adapter.py`, `federation_e2ee_v2.py`). `AdapterProtocol` runs any number of
threads, each between two commits of `send`, `reconcile` or `receive`, over a shared authority and
beside every other user of it, who may reserve and act on the same messages. `FederationAdapter.AdapterV2`
is the sender and the reconciler as an object.

**Relay consent and mail** (`relay.py`). `ConsentState` has the ceremony and the mailbox together,
because revocation spans both; `RelayServer.Server` is the handlers over mutable tables. `ConsentSteps`
tells each transaction field by field.

**Key registration over two stores** (`relay.py`). Every statement of the database and every call on
the config file may succeed, raise before or after it landed, or be where the machine stops; operators
may edit the config before any read. `KeyRegistrar.Registrar` is the handler, the fail-stop latch and
the start-up rebuild.

**Client publication** (`relay-cli.py`). `PublicationSteps` has every operation as a function of the
files, the journal and a budget of system calls, so a stop can fall after each call; an operator may put
any file at a canonical name below every check, between any two checks and between runs.
`PublicationCalls` tells the calls and what a finished run leaves, `PublicationTheorems` is about the client
alone, `PublicationOperators` about the operator's files, and `ClientPublication.Client` is the client as an object.

**Forwarding between two relays** (`relay.py`). `ForwardingState` has a source outbox, a network that
loses, delays and duplicates, and a destination mailbox. Claims are held over other transactions, which
may sweep or reuse ids meanwhile. `Forwarder.Source` is the source's side; `ForwardingSteps` tells each
step field by field.

**CNS projection** (`federation_cns.py`). High-water rows and the sequence row, with the class
`CnsStore.Projection`; loads that overlap check and commit separately.

**Curve arithmetic** (`ed25519.py`). `FieldArithmetic`, `EdwardsCurve` and `EdwardsArithmetic` prove
that the extended-coordinate formulas are the affine curve law, including that the law's denominators
never vanish and that it stays on the curve. The coefficient d is a parameter: nothing uses its value
except that it is not a square. `EdwardsSignature` is signing and verifying on bytes.

**Encryption** (`e2ee.py`). `X25519` has the ladder; `MontgomeryCurve` and `MontgomeryLadder` prove that
its arithmetic is the chord and tangent law of the curve and of its twist, and `ScalarMultiples` that the
function on bytes multiplies points. `ChaCha20`, `Poly1305`, `Base64` and `Envelopes` are the rest;
`ChaChaSteps` tells the block word by word and `Clamping` every mask on a secret bit by bit.

## What does not hold

These would be natural to expect and are false of the code; each has a lemma that shows it and, where
there is one, the exact condition under which the expectation is met.

- A poll samples its clock before it takes the lock. After a revoke it still returns mail that the
  revoke killed, exactly when that sample is older than the revoke's (`PollAfterRevokeExactly`). The
  comment at `relay.py:5945-5970` says that no new fetch can.
- A new ceremony does not always invalidate the old id: a ceremony that lapsed and is renewed keeps its
  generation (`LapsedCeremonyKeepsItsId`); generations rise exactly on a revoke or when a pending
  ceremony is superseded (`GenerationRisesExactly`).
- Key registration is all-or-nothing except when the commit lands and then claims a constraint
  violation, or when the replace lands and raises and the look that follows raises too
  (`AllOrNothing`, `FalseViolationPartsTheStores`, `BlindnessPartsTheStores`).
- `delivered` does not imply stored if the row is swept under its own attempt and its id sent again
  with other content (`CrossedDeliveryIsFalse`; exactly when: `DeliveredExactly` for one attempt,
  `AlwaysStoredExactly` for whole runs). `rejected` does not imply not stored (`RejectedMayBeStored`);
  while it is not stored, it can still come to be if and only if a request with it has been on the wire
  (`RejectedStoredExactly`). `expired` is not final (`ExpiredMayReturn`); an expired row can move again if
  and only if an attempt or a held claim names its id (`ExpiredMovesExactly`).
- Two CNS loads that both check before either commits can roll the sequence back
  (`InterleavedLoadsCanRollBack`), or leave a higher sequence with a row of lower generation and another
  owner (`HigherSequenceCanRollBackARow`). History is monotone exactly when every check still holds at its
  commit (`CommitAfterCheckExactly`, `OverlappingLoadsExactly`). A snapshot may list one identity under
  two peer names (`IdentityMayBeListedTwice`); it does exactly if two neighbours share one
  (`IdentitiesDifferExactly`). Two identities under one peer name still resolve
  (`SharedNamesStillResolve`), although `resolve_route` is documented to demand one.
- An operator's file swapped in during a client publication does not always return. One met by a
  publishing exchange does (`SwappedFileComesBack`); one met by a call that undoes an exchange ends at the
  stage name, and comes back exactly if the candidate is then canonical (`DisplacedFileReturnsExactly`),
  which it is not after a rollback (`RollbackReturnsExactly`, `RollbackStrandsTheKey`). None is ever
  unlinked unless it has journalled contents (`NothingForeignIsUnlinked`).
- A client stopped between creating a stage file and its last write leaves a torn one, which every later
  run refuses (`OneStopTearsForGood`); recovery finishes exactly when no stop did that
  (`RecoversUnlessTorn`).
- A retried v2 send beside a reservation skips the gate, and with it the comparison of the caller's topic
  and reply id to the signed ones (`RetryTakesAnyContext`, exactly when: `OuterContextExactly`). The
  reconciler always sends the signed ones (`ReconcileSendsSignedContext`).
- A reservation alone does not prove that the gate ran: another user of the authority may have made it
  (`ForeignReservationProvesNothing`). Beside a journal row it does, whoever made it
  (`ReservationProvesGate`).

## Model

| member | source | states |
|---|---|---|
| AuthoritySafety.EdgeKeepsInv | federation_authority.py:332-382 | moving a grant to its next generation carries exactly the live bindings along and keeps every live reservation at its grant's generation |
| AuthoritySafety.HandoffExactly | federation_authority.py:786-945 | a transport call is made if and only if the grant is OK, untombstoned and verified less than the cap ago, no NDR exists, the outbox row (if any) is at this grant and generation, and the reservation is this grant's, in `reserved` or `retry`, or new under a free id |
| AuthorityRuns.RunKeepsInv | federation_authority.py:332-1559 | in every state reachable by any interleaving and any crashes, a live reservation is at its grant's generation (one behind if revoked), `sent` agrees between reservation and outbox, and a live outbox row equals its reservation's state or is held |
| AuthorityRuns.StepIsLawful | federation_authority.py:568-1017 | the only lifecycle moves of a message and the one transaction that makes each; nothing terminal, stale, tombstoned or NDR-resolved is changed by any transaction |
| AuthorityTheorems.HandoffNeedsBinding | federation_authority.py:786-945 | in every reachable world a handoff has an open grant verified less than the cap ago, no NDR, an outbox row at its generation and the message's own reservation, made under an OK grant at that generation; and the call in progress names exactly that reservation |
| AuthorityTheorems.StaleAuthorityStaysStale | federation_authority.py:332-380 | once an outbox row is behind its grant, no run levels it, changes its grant or generation, or makes a transport call for the message |
| AuthorityTheorems.TerminalStageIsFinal | federation_authority.py:731-756 | after a recorded `sent` or `released` the stage never changes and no call follows |
| AuthorityTheorems.NdrIsFinal | federation_authority.py:1201-1219 | an NDR is never changed, replaced or removed, and no transport call for its message follows it |
| AuthorityTheorems.RevocationIsFinal | federation_authority.py:1252-1341 | a grant row that is REVOKED or carries a tombstone never changes again and dispatches nothing |
| AuthorityTheorems.AttemptsCountCalls | federation_authority.py:786-1017 | over any run `attempt_count` grows by exactly the number of transport calls of the message |
| AuthorityTheorems.RetryWasScheduled | federation_authority.py:698-728 | between `failed-unknown` and a dispatchable stage lies a `schedule_retry` that moved the message to `retry` |
| AuthorityTheorems.CallsAreSeparated | federation_authority.py:663-728 | between two transport calls of one message, the first became `failed-unknown` and later a retry was explicitly scheduled |
| AuthorityConservation.CapConserves | federation_authority.py:1344-1397 | a cap leaves no queued or held row of the grant, gives every message that had one exactly one NDR, leaves none of them live on that grant and touches no other grant |
| AuthorityConservation.RevokeConserves | federation_authority.py:1252-1341 | a committed batch consumes its nonce, revokes each of its grants one generation up with the reason and no other, leaves no queued or held row of them, and gives every message that had one exactly one NDR, of a revoked grant it was under, at that generation |
| AuthorityGrants.GrantsMoveExactly | federation_authority.py:385-1559 | after any transaction every grant row is what its old row and the request say: suspended if OK, capped if its last verification is as long ago as the limit, revoked by a batch that names only live grants under a new nonce, reopened by evidence that holds; else unchanged |
| AuthorityGrants.CapClosesExactly | federation_authority.py:1400-1420 | at a sample as late as the cap an OK or SUSPECT, untombstoned grant becomes CAPPED one generation up, and before it nothing changes |
| AuthorityGrants.FenceCloses | federation_authority.py:786-800 | a fence at such a sample does the same and hands nothing off |
| AuthorityGrants.HandoffsAreFresh | federation_authority.py:786-945 | in every run each transport call comes less than the cap after the last verification of its grant: the watermark at the start or the newest accepted evidence |
| AuthorityGrants.RevocationExactly | federation_authority.py:1252-1341 | a batch commits if and only if it names each grant once, none revoked, under a nonce never seen; then it revokes each of them with the reason and no other, and otherwise nothing changes |
| AuthorityGrants.RevokedNeverHandsOff | federation_authority.py:1252-1341 | after a committed batch no run hands anything off under any of its grants |
| AuthorityGrants.OnlyEvidenceReopens | federation_authority.py:1466-1559 | a grant that is not OK hands nothing off until a recheck, on authentic, unused evidence about exactly its row and newer than its watermark |
| AuthorityGrants.EvidenceIsSpent | federation_authority.py:1466-1559 | evidence that was accepted is refused in every later run |
| AuthorityGrants.EdgeMovesExactly | federation_authority.py:332-382 | an edge moves the live reservations of its generation, and exactly the outbox rows that mirror one or belong to a hold with a lineage |
| AuthorityGrants.EdgeMovesLineages | federation_authority.py:342-380 | it moves the held row and the hold of such a lineage, and nothing else |
| AuthorityMessages.StagesMoveExactly | federation_authority.py:568-1017 | the stage of every message after any step, from the rows before it: no step moves one in any other way or fails to |
| AuthorityMessages.OutcomeIsRecorded | federation_authority.py:950-1017 | acceptance is `sent`, a parsed rejection `released`, anything else `failed-unknown`, in reservation and outbox of the called message alone, and acceptance ends its hold |
| AuthorityMessages.AnswerIsStage | federation_authority.py:786-945 | at an open grant within its cap the fence answers a message bound to it by the stage of its reservation |
| AuthorityMessages.OpenRefusalExactly | federation_authority.py:856-926 | at an open grant a refused message is held if and only if the reservation it names, or has, is unknown, released or another's; `already sent` and failure have their exact conditions |
| AuthorityMessages.ClosedRefusalExactly | federation_authority.py:810-854 | at a closed grant it is held if and only if its outbox row is backed and its reservation is live, of the grant as it is, and the one named |
| AuthorityMessages.CapReleasesExactly | federation_authority.py:1344-1397 | a cap releases the outbox row of exactly the messages that wait under the grant with a live reservation and a row at its generation |
| AuthorityMessages.NothingIsLost | federation_authority.py:475-1397 | over any run a queued or held message is pending, has its NDR, or was sent, unless the client resolved it |
| AuthorityMessages.RowsAreBound | federation_authority.py:475-631 | queued, held and reserved rows are bound to the grant as it is; a message has one reservation, at a grant that is open |
| AuthorityMessages.CapReplyExactly | federation_authority.py:1423-1463 | when an operator's cap is refused, not due, or done, and the messages it then names |
| AuthorityMessages.SuspensionReply | federation_authority.py:385-436 | a change of state is done only if it suspends an open grant or changes nothing |
| AuthorityMessages.ReserveReplyExactly | federation_authority.py:568-631 | a reservation is denied at a grant that is not open and fails where its id is taken |
| AuthorityMessages.LifecycleReplies | federation_authority.py:663-756 | a caller is told the stage that the reservation has afterwards |
| AuthorityMessages.ResolutionDequeues | federation_authority.py:517-530 | a resolved message leaves the queue, and nothing else does |
| AuthorityLineage.SuspendedHoldStartsLineage | federation_authority.py:533-553 | a message held by the fence while its grant is SUSPECT has outbox, held and lineage rows at the grant's generation |
| AuthorityLineage.LineageSurvives | federation_authority.py:342-380 | those three rows stay at the grant's current generation through any run that neither caps, revokes nor releases them |
| AuthorityLineage.LineageDispatches | federation_authority.py:810-854 | at an OK, untombstoned grant verified less than the cap ago the fence dispatches such a message if and only if it has no reservation and the caller names none, or one in `reserved` or `retry` that the caller names or leaves open; past the cap it does not |
| FederationAuthority.Authority.Configure | federation_authority.py:48-118 | a store with approved grants only satisfies the invariant |
| FederationAuthority.AdvancedByLoop | federation_authority.py:332-382 | the source's sequence of updates and its loop over held rows equal the one simultaneous carrying of live bindings |
| FederationAuthority.Authority.AdvanceLiveGeneration | federation_authority.py:332-382 | the in-place loops give exactly the carried store |
| FederationAuthority.Authority.SetGrant | federation_authority.py:385-436 | the whole new store and reply, with the invariant kept |
| FederationAuthority.Authority.QueueMessage | federation_authority.py:475-493 | the whole new store and reply, with the invariant kept |
| FederationAuthority.Authority.MarkHeld | federation_authority.py:496-514 | the whole new store and reply, with the invariant kept |
| FederationAuthority.Authority.ResolveQueued | federation_authority.py:517-530 | only the queued row goes |
| FederationAuthority.Authority.HoldWithConnection | federation_authority.py:533-553 | outbox and held row are bound to the given generation and an older lineage goes |
| FederationAuthority.Authority.ReserveDispatch | federation_authority.py:568-631 | the one reservation of a message, adopted by its lineage; a taken id rolls back |
| FederationAuthority.Authority.ReconcileInflight | federation_authority.py:663-695 | `inflight` becomes `failed-unknown` in reservation and mirroring outbox row |
| FederationAuthority.Authority.ScheduleRetry | federation_authority.py:698-728 | `failed-unknown` becomes `retry` in both |
| FederationAuthority.Authority.ReleaseReservation | federation_authority.py:731-756 | the reservation is released unless sent; the outbox stays |
| FederationAuthority.Authority.ActionFence | federation_authority.py:786-945 | the fence's verdict and store for every grant, reservation and cap state, including the rollback of a reservation it made itself |
| FederationAuthority.Authority.RecordOutcome | federation_authority.py:950-1017 | one of three outcomes is recorded in reservation and outbox, keeping their agreement |
| FederationAuthority.Authority.Action | federation_authority.py:759-1024 | fence, transport and record in one |
| FederationAuthority.Authority.EmitNdr | federation_authority.py:1201-1219 | a record is written only where there is none |
| FederationAuthority.Authority.CommitRevokeBatch | federation_authority.py:1252-1341 | the whole new store and reply of a batch, by loops over grants and rows |
| FederationAuthority.Authority.ApplyCapTransition | federation_authority.py:1344-1397 | the whole new store of a cap and exactly the messages whose NDR it wrote |
| FederationAuthority.Authority.EnforceCapInTransaction | federation_authority.py:1400-1420 | caps exactly when due |
| FederationAuthority.Authority.ApplyPartitionCap | federation_authority.py:1423-1463 | the whole new store and reply of the operator's cap |
| FederationAuthority.Authority.VerifiedRecheck | federation_authority.py:1466-1559 | reopening by unused, matching, newer evidence only; otherwise nothing changes |
| AdapterProtocol.MovesKeepInv | federation_e2ee_v2.py:288-561 | the adapter invariant holds over every interleaving of threads, crashes, and any transactions of other users of the authority |
| AdapterProtocol.OnePayloadPerId | federation_e2ee_v2.py:324-398 | all transport calls of an id by adapters carry the grant and bytes of its journal row, and v2 bytes passed the gate |
| AdapterProtocol.ReservationProvesGate | federation_e2ee_v2.py:324-380 | a reservation beside a journal row implies that the CNS gate passed on exactly those bytes, and there is such a row, of the same grant, unless another user of the authority made the reservation |
| AdapterProtocol.ForeignReservationProvesNothing | federation_e2ee_v2.py:324-341 | a reservation made by another user, with nothing journalled or gated under its id |
| AdapterProtocol.JournalIsForever | federation_adapter.py:244-259 | a journal row never changes |
| AdapterProtocol.AckedIsStored | federation_adapter.py:313-390 | whatever was acknowledged to the relay is in the inbox for ever, byte for byte |
| AdapterProtocol.AcceptanceNeedsOpenGrant | federation_e2ee_v2.py:487-506 | a delivery is persisted only under an OK, untombstoned grant verified less than the cap ago, and a v2 one only after its gate |
| AdapterProtocol.WireExactly | federation_e2ee_v2.py:356-395 | a call leaves exactly when an acting sender comes to a fence that hands off, with the bytes journalled under its id, after their gate |
| AdapterProtocol.AcksExactly | federation_e2ee_v2.py:487-520 | an acknowledgement leaves exactly when a receiver comes to it after its delivery is in the inbox, byte for byte |
| FederationAdapter.AdapterV2.JournalPayload | federation_adapter.py:244-258 | the stored row wins; different bytes are refused |
| FederationAdapter.AdapterV2.SendV2 | federation_e2ee_v2.py:288-398 | one send is the corresponding run of the interleaved protocol, so its theorems apply, with the verdict of the fence; anything but a v2 envelope is refused |
| FederationAdapter.SendDispatchesExactly | federation_e2ee_v2.py:288-398 | a send reaches the transport if and only if it is v2, no other bytes are journalled under its id, the gate passes on the signed context or a reservation stands beside the row, and the fence hands off |
| FederationAdapter.AdapterV2.SelectRows | federation_e2ee_v2.py:522-530 | the rows of the query with the reservations joined to them, in the order of the table |
| FederationAdapter.RowsAreSelected | federation_e2ee_v2.py:522-530 | the query yields a journal row if and only if it has no NDR, no terminal outbox row and no terminal reservation of its own grant |
| FederationAdapter.PassedOverIsFinal | federation_e2ee_v2.py:522-530 | no call of any adapter in any later run carries a journalled message that the query passes over |
| FederationAdapter.ReconcileDispatchesExactly | federation_e2ee_v2.py:531-561 | a resumed v2 row reaches the transport if and only if the query selects it, its grant is open within its cap at the generation of its outbox row and is that of its reservation, and without a reservation it passes the gate under a fresh id |
| FederationAdapter.ReconcileSendsSignedContext | federation_e2ee_v2.py:539-561 | every call of a pass carries a selected row's journalled bytes, and the topic and reply id they sign |
| FederationAdapter.AdapterV2.ReconcileRow | federation_e2ee_v2.py:531-561 | the row's lifecycle is resumed and it is sent again with its own grant, bytes and signed context; the whole new state and verdict |
| FederationAdapter.AdapterV2.Reconcile | federation_e2ee_v2.py:522-561 | the selected rows in turn, up to the first that raises: the whole new state and the verdicts |
| FederationAdapter.OuterContextExactly | federation_e2ee_v2.py:342-398 | a call carries the caller's topic and reply id; these passed the gate if and only if no reservation stood beside the journal row, and then they are the signed ones |
| FederationAdapter.RetryTakesAnyContext | federation_e2ee_v2.py:342-398 | a retry beside a reservation takes any topic and reply id to the wire |
| ConsentSafety.UpgradedKeepsInv | relay.py:5437-5495 | a redeem over an active pair sets only the slot that the issuer owns |
| ConsentRuns.RunKeepsInv | relay.py:4868-6043 | the consent invariant holds over every interleaving of all ceremony and mail steps |
| ConsentTheorems.SlotsBelongToTheirOwners | relay.py:5580-5602 | `enc_capable` is the AND of the slots, and a set slot was said by its owner about this pair at its generation: in an accept, an advertisement, or a link minted capable that this pair then redeemed |
| ConsentTheorems.ActivationNeedsBothConsents | relay.py:5682-5704 | a row becomes active only by the recorded redeemer's accept, at the current generation, of an unlapsed pending made over the other party's link, which must itself still be good if it was a public request or a short invitation |
| ConsentTheorems.PendingWasRedeemed | relay.py:5319-5603 | the recorded redeemer of a pending row itself redeemed the recorded link |
| ConsentTheorems.GenerationsNeverFall | relay.py:6002-6018 | over any run no pair generation decreases |
| ConsentTheorems.GenerationRisesExactly | relay.py:5380-5384 | it rises if and only if the pair is revoked or its pending ceremony superseded |
| ConsentTheorems.OldIdsNeverAccept | relay.py:5682-5704 | an id issued before a revoke or replacement changes nothing, ever after |
| ConsentTheorems.LapsedCeremonyKeepsItsId | relay.py:5513-5602 | a lapsed and renewed ceremony is still accepted by its old id |
| ConsentTheorems.RevokedLinkNeverReturns | relay.py:6002-6018 | a pair that revoked is never pending or active over that link again |
| ConsentTheorems.LinksAreLimited | relay.py:5319-5551 | uses never exceed the maximum, a claim and a revocation are for good |
| ConsentTheorems.ClaimIsExclusive | relay.py:5327-5355 | a claimed short link refuses every other identity for ever |
| ConsentTheorems.RevocationKillsMail | relay.py:6018-6035 | after a revoke no poll sampled at or after it returns pair mail from before it, whatever happens in between |
| ConsentTheorems.PollAfterRevokeExactly | relay.py:2534-2543 | a live message of the pair is still returned after the revoke if and only if the poll sampled its clock before the revoke |
| ConsentTheorems.ActiveNeedsFreshConsent | relay.py:5319-5603 | a revoked pair becomes active only if a later redeem over a link of the other party made a pending row and a later accept by its redeemer activated that very row, at a generation above the one that the revoke ended |
| ConsentTheorems.NoSendWithoutFreshConsent | relay.py:4092-4183 | after a revoke no local send in either direction, for any id, body or lane, is taken or puts anything into the mailbox until such a redeem and accept took effect |
| ConsentTheorems.TakenExactly | relay.py:4092-4183 | a local send is taken if and only if its id is new to both lanes, both names are enrolled, the pair's row is active and not over at the in-lock clock, and fewer than 500 live messages wait |
| ConsentTheorems.RefusedExactly | relay.py:4105-4159 | when it is a duplicate, a collision or without consent; and then nothing changes |
| ConsentTheorems.DeliveredExactly | relay.py:6356-6436 | a linked relay's delivery is taken if and only if the recipient is enrolled, the sender is not, the id is new and there is room |
| ConsentTheorems.MailWasPosted | relay.py:4092-4183 | every message in the mailbox of any run was sent under its pair's consent at that moment, or delivered by a linked relay, with the sender, recipient, body and time it has |
| ConsentSteps.MintExactly | relay.py:4920-5065 | a link is minted if and only if uses, lifetime and target are in bounds and fewer than ten are live; every field of it |
| ConsentSteps.RevokeLinkExactly | relay.py:4868-4892 | a link is revoked if and only if its minter or an operator asks |
| ConsentSteps.RevokedLinkIsDead | relay.py:5319-5551 | once revoked, no later step of any run uses or claims a link or begins a ceremony over it |
| ConsentSteps.EnrolByLinkExactly | relay.py:4470-4495 | enrolment spends exactly a live link that is neither a public request nor short |
| ConsentSteps.EnrolExactly | relay.py:2280-2300 | a new name is enrolled for a new identity only |
| ConsentState.PairIsOrdered | relay.py:492-500 | a pair names both identities, the lesser first |
| ConsentSteps.RedeemBeginsExactly | relay.py:5319-5603 | a redeem begins a ceremony if and only if it fits a live link that the pair has not revoked and the pair is vacant; every field of the new row; otherwise no more than encryption slots change |
| ConsentSteps.RedeemSucceedsExactly | relay.py:5071-5608 | it succeeds if and only if it begins one or repeats what there is |
| ConsentSteps.RedeemSpendsExactly | relay.py:5327-5551 | a ceremony costs one use, a short link is bound to its claimant, and no other link changes |
| ConsentSteps.AcceptExactly | relay.py:5643-5828 | an accept activates exactly a current ceremony of this redeemer, and on an active row sets no more than the redeemer's own slot |
| ConsentSteps.AdvertiseExactly | relay.py:5830-5943 | an advertisement sets its own party's slot of an active row of that generation, and nothing else |
| ConsentSteps.UpgradeExactly | relay.py:5437-5495 | a capable link shown to an active pair sets its issuer's slot, if the row's class says whose it is |
| ConsentSteps.RevokeExactly | relay.py:5945-6043 | a revoke by an enrolled name of a pair ends its row one generation up, kills its link and all its live mail; every field |
| ConsentSteps.SweepRetiresExactly | relay.py:1905-1925 | a sweep retires exactly the rows whose ceremony or lifetime is over, at their generation |
| ConsentSteps.SweepRemovesExactly | relay.py:1835-1872 | a sweep removes exactly the mail that retention ends and the overflow of dead letters |
| ConsentSteps.CollectExactly | relay.py:3678-3699 | a collection counts the poll for the recipient's own live mail and keeps the first time |
| ConsentSteps.PollExactly | relay.py:2534-2543 | a poll returns exactly the recipient's own unacknowledged, unexpired mail |
| ConsentTheorems.AckTouches | relay.py:4000-4016 | an acknowledgement sets exactly the named, still unacknowledged messages of its recipient |
| ConsentTheorems.MailIsDeliveredAtLeastOnce | relay.py:1835-1872 | an accepted message is in every poll of its recipient, unchanged, until ack, revoke or TTL, through any sweeps and collections |
| ConsentTheorems.QueuesStayBounded | relay.py:4152-4159 | live unacknowledged mail per recipient and open links per minter stay within their caps, in every reachable state |
| RelayServer.Server.Mint | relay.py:4920-5065 | the new link or refusal, and the whole new state |
| RelayServer.Server.RevokeLink | relay.py:4868-4892 | only the minter or an operator revokes a link |
| RelayServer.Server.Redeem | relay.py:5071-5608 | claim, use count, idempotent answer, upgrade, replacement or new ceremony, in place, with all rolled back on refusal |
| RelayServer.Server.Accept | relay.py:5643-5828 | activation or a repeated accept, and the whole new state |
| RelayServer.Server.Advertise | relay.py:5830-5943 | the caller's own slot and the recomputed capability |
| RelayServer.Server.Revoke | relay.py:5945-6043 | row, link memory and mail of the pair in one transaction |
| RelayServer.Server.Send | relay.py:4092-4183 | the answer and the stored message of a local send |
| RelayServer.Server.Deliver | relay.py:6356-6436 | the answer and the stored message of an attested delivery, denied for a recipient that is not local or a sender that is |
| RelayServer.Server.Fetch | relay.py:2534-2543 | exactly the recipient's unexpired, unacknowledged messages |
| RelayServer.Server.Collect | relay.py:3678-3699 | collection counts and never retires |
| RelayServer.Server.Ack | relay.py:4000-4016 | the loop equals the specification of acknowledgement |
| ConsentSafety.SweepKeepsTheNewest | relay.py:1859-1872 | a sweep leaves exactly the newest dead letters, within their limit |
| ConsentTheorems.SweepAlwaysCan | relay.py:1865-1872 | the overflow that a sweep drops can always be singled out |
| RelayServer.Server.Sweep | relay.py:1835-1925 | mail, dead letter and handshake retention, in place |
| RegistrationTheorems.RestoringUndoesRekeying | relay.py:2655-2690 | compensation gives back exactly the key and the nonce set of before |
| RegistrationTheorems.PublishIs | relay.py:349-384 | what each verdict of the config publication says about the file |
| RegistrationTheorems.PublishExactly | relay.py:349-384 | the verdict of the config publication for every fault and every edit |
| RegistrationTheorems.UndoExactly | relay.py:2655-2690 | the undo applies if and only if the row holds the new key or has the old one back; anything else latches |
| RegistrationTheorems.AnnouncementReplies | relay.py:2755-2822 | what each verdict is answered with |
| RegistrationTheorems.FaultReplies | relay.py:2718-2755 | a statement that raised is a conflict if a constraint did it and a failure of the store otherwise |
| RegistrationTheorems.CalmExactly | relay.py:2693-2822 | an undisturbed request is answered by the file, the nonce, the nonce store, the key and the row, in that order, and both stores are written if and only if it registers; every field |
| RegistrationTheorems.AllOrNothing | relay.py:2693-2822 | under every fault pattern: all new, or latched, or (if and only if neither misjudgement happened) all old |
| RegistrationTheorems.FalseViolationPartsTheStores | relay.py:2748-2752 | a commit that landed and claimed a violation answers `identity_in_use` with new database and old file |
| RegistrationTheorems.BlindnessPartsTheStores | relay.py:349-384 | the misjudged publication answers `persist_failed` with old database and new file |
| RegistrationTheorems.StopsLeave | relay.py:2718-2822 | what a stop at any point can leave in both stores |
| RegistrationTheorems.RestartAgrees | relay.py:1791-1811 | after a stop anywhere no update of the rebuild meets a key that another row holds, every managed row then has the config's key or none, keys are unique, and the new key is there if and only if the config that the restart reads names it; a config other than the old one was written by the registration |
| KeyRegistrar.Registrar.Publish | relay.py:349-384 | compare, replace, fsync and the judgement of their failures |
| KeyRegistrar.Registrar.Compensate | relay.py:2655-2690 | undo in a fresh transaction, or latch |
| KeyRegistrar.Registrar.RegisterKey | relay.py:2693-2822 | the handler equals its specification, and the three outcomes of AllOrNothing |
| KeyRegistrar.Registrar.Restart | relay.py:1791-1811 | the start-up loop rebuilds every managed row, in any order, without meeting a key that another row still holds |
| PublicationTheorems.KeyOnlyUnderTarget | relay-cli.py:3476-3503 | from the `publishing` journal on and through any stops, the candidate key is canonical only while the target config is |
| PublicationTheorems.BaselinesSurvive | relay-cli.py:3260-3386 | through any stops every baseline is at its canonical or its stage name until `published` is durable |
| PublicationCalls.DoneMeansInPlace | relay-cli.py:3476-3513 | wherever the client stops and whatever operators put at the canonical names, a run that records the end, drops the journal or succeeds leaves the accepted config and key at both names |
| PublicationCalls.ExchangeExactly | relay-cli.py:1574-1576 | an exchange swaps two taken names for one call and is refused otherwise |
| PublicationCalls.MoveExactly | relay-cli.py:1578-1595 | a move goes to a free name only, and touches no other |
| PublicationCalls.RollbackExactly | relay-cli.py:3389-3432 | a transition is undone only while its candidate is canonical, by the call that reverses it, and reported unless both names are back |
| PublicationTheorems.RecoversFromStops | relay-cli.py:3476-3503 | however often and wherever the client stops, its files stay recoverable, only its own files are unlinked, and the next run that lives long enough finishes with no residue |
| PublicationTheorems.PrepareIs | relay-cli.py:3169-3216 | preparing succeeds, or stops with everything as ready as before, or stops having torn a stage file, and exactly which stop does which |
| PublicationTheorems.RecoversUnlessTorn | relay-cli.py:3111-3152 | from the accepted key on and through any stops, recovery finishes if and only if no stop cut a stage file short |
| PublicationTheorems.OneStopTearsForGood | relay-cli.py:3111-3116 | a concrete stop after which every later run refuses |
| PublicationTheorems.AdoptingRecovers | relay-cli.py:3219-3257 | an operator who restores the bytes of either baseline, or of both, under new inodes makes the publication recoverable again |
| PublicationOperators.TransitionReturnsExactly | relay-cli.py:3344-3375 | a file met by the publishing call is canonical again unless the client stops in between, and a file met by the call that undoes the exchange takes its place at the stage name |
| PublicationOperators.PutBackReturnsExactly | relay-cli.py:3301-3326 | the same for a file that an earlier stop displaced |
| PublicationOperators.SwappedFileComesBack | relay-cli.py:3260-3386 | a file swapped in at an exchange, in a run that may stop anywhere, before any further runs that may stop anywhere: nothing is unlinked, nothing is published over it, and the first run that makes a call leaves it at its canonical name |
| PublicationOperators.DisplacedFileReturnsExactly | relay-cli.py:3301-3343 | a foreign file at a stage name returns in the next run that makes a call if and only if the candidate exchanged for it is canonical; otherwise every run refuses and changes nothing |
| PublicationOperators.RollbackReturnsExactly | relay-cli.py:3412-3432 | a key met by the rollback is canonical afterwards if and only if the client stopped before the call |
| PublicationOperators.DriftTakesKeyBack | relay-cli.py:3489-3499 | a config that drifts after the key transition is left alone, nothing is unlinked, and the key is taken back unless the rollback met a file |
| PublicationOperators.RollbackStrandsTheKey | relay-cli.py:3489-3499 | a key met by the rollback stays at the stage name in every later run, whatever is done about the config |
| PublicationOperators.NothingForeignIsUnlinked | relay-cli.py:3435-3441 | under any stops and whatever operators put at the canonical names at any moment, only files with one of the four journalled contents are ever unlinked |
| ClientPublication.Client.ExchangeNames | relay-cli.py:1574-1576 | the atomic exchange of two names, or nothing |
| ClientPublication.Client.Move | relay-cli.py:1578-1595 | the atomic move to a free name, or nothing |
| ClientPublication.Client.TransitionArtifact | relay-cli.py:3260-3386 | the whole new state of one transition, and a success is attested on both names |
| ClientPublication.Client.RollbackTransition | relay-cli.py:3389-3432 | the whole new state of an undoing |
| ClientPublication.Client.StageArtifact | relay-cli.py:3111-3152 | the stage file created, reused, refused or torn, by the calls that were left |
| ClientPublication.Client.PreparePublication | relay-cli.py:3169-3216 | staging, attestation of both baselines and the recorded tokens |
| ClientPublication.Client.AdoptRestored | relay-cli.py:3219-3257 | the tokens of restored baselines, or no change |
| ClientPublication.Client.CleanUp | relay-cli.py:3435-3457 | both stages and then the journal are dropped |
| ClientPublication.Client.PublishKeyUnderConfig | relay-cli.py:3489-3500 | the key transition between two attestations of the config, with the rollback |
| ClientPublication.Client.PublishAccepted | relay-cli.py:3476-3503 | the whole publication under any hands, unlinking journalled contents only |
| ClientPublication.Client.ResumeRegistration | relay-cli.py:3506-3513 | one run from whatever phase an earlier one left |
| ClientPublication.Client.RecoverFromStops | relay-cli.py:3584-3594 | after any number of stops anywhere one undisturbed run reaches target config and candidate key with no residue |
| ForwardingTheorems.RunKeepsInv | relay.py:1451-1597 | the claim, wire and row invariants hold over every interleaving and every network behaviour |
| ForwardingSteps.EnqueueExactly | relay.py:6140-6226 | a send to another home is enqueued, a duplicate or a collision, exactly when; every field of its row |
| ForwardingSteps.ClaimExactly | relay.py:1553-1582 | the forwarder claims any distinct rows that are open, due and not over, exactly as they are, when it holds none; whatever is over expires |
| ForwardingSteps.StartExactly | relay.py:1451-1475 | a claimed row is attempted if and only if it is not over, and expires otherwise |
| ForwardingSteps.PostExactly | relay.py:1476-1500 | a request carries what its attempt claimed, under a nonce of its own, once |
| ForwardingSteps.OutcomeExactly | relay.py:1406-1550 | the row after every outcome, and no other row changes |
| ForwardingSteps.BackoffIs | relay.py:1269-1270 | ten seconds, doubling, and five minutes from the sixth failure on |
| ForwardingSteps.FailedIsDueAgain | relay.py:1501-1582 | a row that failed to be delivered can be claimed again five minutes later at the latest, as long as it is not over |
| ForwardingSteps.SweepExactly | relay.py:1885-1900 | a sweep expires exactly the open rows that are over and removes the others a week after they were sent |
| ForwardingSteps.DeliverExactly | relay.py:6391-6436 | the destination stores exactly an admitted request of a new id with room, and accepts exactly what it has stored |
| ForwardingTheorems.DeliveredWasStored | relay.py:1424-1550 | `delivered` implies that the destination stored the same id, sender, payload and version, in every run in which no row is pruned under its attempt and its id reused |
| ForwardingTheorems.DeliveredExactly | relay.py:1406-1421 | a row marked delivered was stored if and only if it still has the content that the attempt claimed, or its own content had been stored under the id before |
| ForwardingTheorems.AlwaysStoredExactly | relay.py:1406-1550 | all along a run every delivered row is stored if and only if no attempt proves another content than its row has by then, unstored |
| ForwardingTheorems.IdleSweepsNeverCross | relay.py:1885-1900 | that never happens when sweeps run only while no claim is held |
| ForwardingTheorems.CrossedDeliveryIsFalse | relay.py:1406-1421 | a concrete run in which it does, marking content delivered that never left |
| ForwardingTheorems.FinalRowsNeverMove | relay.py:1406-1421 | delivered, rejected and failed rows never move again under one forwarder |
| ForwardingTheorems.RetainedMailIsStable | relay.py:6391-6436 | the destination keeps one row per id and redelivery changes nothing while it is retained |
| ForwardingTheorems.RejectedMayBeStored | relay.py:1451-1550 | a lost response followed by a refused retry leaves a rejected row that was stored |
| ForwardingTheorems.RejectedStoredExactly | relay.py:1451-1550 | a rejected row's content that is not stored can come to be, without being sent again, if and only if a request with it has been on the wire |
| ForwardingTheorems.ExpiredMayReturn | relay.py:1885-1900 | a concrete run in which an expired row is queued again |
| ForwardingTheorems.ExpiredMovesExactly | relay.py:1553-1597 | an expired row can move again in some run if and only if an attempt or a held claim names its id |
| Forwarder.PassSettlesClaims | relay.py:1553-1597 | a pass touches only the ids it claimed and leaves none inflight |
| Forwarder.ForwardPendingIsRun | relay.py:1553-1597 | the forwarder's pass is a run of the interleaved protocol, whatever the network and the destination do during each attempt |
| Forwarder.Source.Send | relay.py:6064-6226 | enqueued, duplicate, collision or refused, with nothing changed unless enqueued |
| Forwarder.Source.Attempt | relay.py:1451-1550 | the mark that each outcome leaves, with attempts and next time |
| Forwarder.Source.ForwardPending | relay.py:1553-1597 | the forwarder's pass in place: the claimed rows are attempted in order, each at its own clock sample, all others only expire |
| Forwarder.Source.Sweep | relay.py:1885-1900 | expiry and pruning of outbox rows |
| CnsTheorems.OrderedListsDoNotRepeat | federation_cns.py:256-270 | strictly ordered neighbours make all (identity, peer) pairs distinct |
| Ordering.LeqIsByCodePoint | federation_cns.py:256-270 | the order of names is by code point: a prefix first, otherwise the lesser character at the first difference |
| CnsTheorems.IdentityMayBeListedTwice | federation_cns.py:256-270 | the order does not exclude one identity under two peers |
| CnsTheorems.IdentitiesDifferExactly | federation_cns.py:256-270 | all identities of an ordered list differ if and only if no two neighbours share one |
| CnsTheorems.InsertedRow | federation_cns.py:446-463 | the row of an identity after the projection's inserts |
| CnsTheorems.HistoryIsMonotone | federation_cns.py:392-476 | over any loads, sequence and generations never fall, owners never change, not even across disabling, and equal numbers mean equal values |
| CnsTheorems.EqualSequenceIsEqualBytes | federation_cns.py:405-413 | an equal sequence is a replay if and only if content and signature are those accepted before |
| CnsTheorems.AcceptedExactly | federation_cns.py:400-457 | a snapshot is accepted if and only if its sequence is higher than any before and each route is new, unchanged, or of a later generation under the same owner |
| CnsTheorems.FirstRefusalDecides | federation_cns.py:425-457 | the first route that does not carry its identity forward decides, as a step back, a rewriting or a change of hands |
| CnsTheorems.SequenceDecides | federation_cns.py:400-409 | when a snapshot is refused for its sequence, replayed or rewritten |
| CnsTheorems.ActiveAreTheListed | federation_cns.py:464-471 | after an accepted load exactly the listed identities are active |
| CnsTheorems.RefusedLoadsChangeNothing | federation_cns.py:479-500 | a load changes the tables if and only if it is authentic, issued at most five minutes ahead, over for less than five minutes, valid for a week at most, higher, and carries every identity forward; then it records exactly its bytes |
| CnsTheorems.CommitAfterCheckExactly | federation_cns.py:443-473 | on whatever the tables have become since its check, a commit moves sequence, generations and owners forward if and only if the check would still accept the rows that it writes |
| CnsTheorems.OverlappingLoadsExactly | federation_cns.py:392-476 | over any interleaving of commits and the two reads of each check, no step takes anything back if and only if every check still holds at its commit, which it does where no other commit falls between |
| CnsTheorems.UndisturbedLoadIsLoad | federation_cns.py:392-476 | the two reads and the commit of a load, with nothing between, are the whole load |
| CnsTheorems.HigherSequenceCanRollBackARow | federation_cns.py:443-473 | a concrete run whose sequence rises while a row's generation falls and its owner changes |
| CnsTheorems.InterleavedLoadsCanRollBack | federation_cns.py:443-473 | two loads that check before either commits can end on the lower sequence |
| CnsTheorems.ResolveExactly | federation_cns.py:503-583 | without a hint a name resolves if and only if an active identity goes by it; an answer is the route of one and agrees with the hint in peer, prime relay and endpoint; and where one identity goes by the name it resolves if and only if the hint agrees |
| CnsTheorems.SharedNamesStillResolve | federation_cns.py:503-583 | two active identities under one name do not make it ambiguous |
| CnsStore.Projection.CheckRoutes | federation_cns.py:432-457 | the loop finds the verdict of the first offending route |
| CnsStore.Projection.Project | federation_cns.py:392-476 | the verdict and, only if accepted, the committed tables |
| CnsStore.Projection.Ingest | federation_cns.py:479-500 | one whole load, moving history forward |
| EdwardsCurve.ConstantsAreRight | ed25519.py:48-50 | d is -121665/121666 and I is a root of -1 |
| EdwardsCurve.Complete | ed25519.py:90-101 | the affine law's denominators never vanish on the curve |
| EdwardsCurve.SumOnCurve | ed25519.py:90-101 | the affine law stays on the curve |
| EdwardsArithmetic.AddRefines | ed25519.py:90-101 | the addition formulas keep XY = ZT and represent the affine sum |
| EdwardsArithmetic.DoubleRefines | ed25519.py:104-114 | the doubling formulas represent the sum of a point with itself |
| EdwardsArithmetic.TimesAdds | ed25519.py:117-133 | the (m + n)-fold sum is the sum of the m-fold and the n-fold |
| EdwardsArithmetic.ScalarMult | ed25519.py:117-133 | double-and-add returns the e-fold sum for every e, of any length |
| EdwardsArithmetic.PointEqDecides | ed25519.py:82-87 | cross-multiplied comparison decides equality of the points |
| EdwardsArithmetic.ToAffineInverts | ed25519.py:72-79 | one inversion gives the represented point back |
| EdwardsArithmetic.BaseIsOnCurve | ed25519.py:131-133 | the base point is on the curve, with y = 4/5 and even x |
| EdwardsArithmetic.ScalarsReduce | ed25519.py:170-177 | scalars may be reduced modulo the order of the point |
| EdwardsArithmetic.SignatureSatisfiesEquation | ed25519.py:170-177 | what the signer computes satisfies the verifier's equation for every hash and nonce |
| EdwardsArithmetic.CheckEquation | ed25519.py:201-215 | the verifier accepts if and only if the affine equation holds |
| EdwardsSignature.CandidateRoot | ed25519.py:53-60 | the (q + 3) / 8-th power of a square is a root of it or of its opposite |
| EdwardsSignature.PointRoundTrip | ed25519.py:147-198 | every point of the curve is decoded from its 32 bytes |
| EdwardsSignature.ConstantsAreSound | ed25519.py:34-50 | the constants of Ed25519 meet what is required of a scheme |
| EdwardsSignature.SignaturesVerify | ed25519.py:170-215 | what the signer sends is accepted, for every message, seed and hash |
| EdwardsSignature.Sign | ed25519.py:170-177 | the signature by double-and-add and one inversion per point, with the bytes of SignatureIs, which is accepted |
| EdwardsSignature.SignatureIs | ed25519.py:170-177 | the point sent is the multiple of the base by the 64-byte hash of the second half of the seed's hash and the message; the number sent is that nonce plus the secret times the hash of point, key and message, modulo the order |
| EdwardsSignature.KeyIs | ed25519.py:147-167 | a key is the y of the secret's multiple of the base, with the parity of its x in the top bit |
| Clamping.SecretBits | ed25519.py:160-163 | bit for bit, the secret is the hash of the seed in bits 3 to 253, with bit 254 set and every other clear |
| Clamping.LargePowers | ed25519.py:34-50 | the literals of the moduli and masks as powers of two |
| EdwardsSignature.Verify | ed25519.py:201-215 | acceptance if and only if lengths fit, both points decode and the affine equation holds |
| X25519.LadderReachesMultiple | e2ee.py:70-109 | the ladder over the bits of k ends at the k-th multiple, for any family that doubling and differential addition respect |
| MontgomeryLadder.DoubleRefines | e2ee.py:92-103 | the doubling of a rung is the tangent law on the curve |
| MontgomeryLadder.AddRefines | e2ee.py:92-101 | the differential addition is the chord law for points that differ by the base point, infinite and opposite ones included |
| MontgomeryLadder.LadderRespectsMultiples | e2ee.py:85-107 | the multiples of a point of the curve, or of its twist, are such a family |
| ScalarMultiples.ClampedFits | e2ee.py:74-79 | the ladder's 255 bits hold every clamped scalar |
| ScalarMultiples.CoordinateMultiplies | e2ee.py:70-109 | the function on bytes takes the coordinate of any point to the coordinate of its multiple, zero and infinity included |
| ScalarMultiples.ScalarsCommute | e2ee.py:286-334 | two private scalars applied to the base point commute |
| X25519.DelayedLadder | e2ee.py:80-108 | the delayed-swap loop returns what the textbook ladder returns (section 5 of RFC 7748) |
| X25519.ComputeScalarmult | e2ee.py:70-109 | the bytes in and out of the whole function |
| Clamping.ScalarBits | e2ee.py:70-79 | bit for bit, the clamped scalar is the given one in bits 3 to 253, with bit 254 set and every other clear |
| Poly1305.HornerIsPolynomial | e2ee.py:231-245 | Horner's scheme is the polynomial of the coefficients |
| Poly1305.Accumulate | e2ee.py:231-245 | the loop's accumulator is the message polynomial modulo 2^130 - 5 (section 2.5 of RFC 8439) |
| Poly1305.Mac | e2ee.py:231-245 | the tag bytes, whose number TagIsRight gives as the polynomial plus s |
| Poly1305.TagIsRight | e2ee.py:231-245 | a tag is the authenticator's if and only if its number is the blocks' polynomial at r, mod 2^130 - 5, plus s, mod 2^128 |
| Poly1305.CoefficientsAre | e2ee.py:236-243 | the coefficients are the blocks of sixteen bytes, little-endian, each with a one bit above its last byte, and all below the modulus |
| Poly1305.CoefficientsAreInjective | e2ee.py:236-243 | different messages have different polynomials |
| Clamping.MultiplierBits | e2ee.py:232-234 | bit for bit, r is the first half of the key without the top four bits of every word and the low two of every word but the first |
| ChaCha20.QuarterRoundIsInvertible | e2ee.py:182-195 | no two inputs of a quarter round share an output |
| ChaChaSteps.RotationWraps | e2ee.py:178-179 | a rotation brings in at the bottom what it shifts out at the top |
| ChaChaSteps.XorBits | e2ee.py:182-195 | the exclusive or is bit by bit |
| ChaChaSteps.InitialIs | e2ee.py:198-204 | where the constants, the key, the counter and the nonce stand in the state |
| ChaChaSteps.LayersDetermine | e2ee.py:205-213 | the eight quarter rounds in place are two parallel layers, over the columns and over the diagonals |
| ChaChaSteps.BlockIs | e2ee.py:198-215 | ten double rounds, and every word added to what it was, in little-endian bytes |
| ChaChaSteps.StreamIs | e2ee.py:218-228 | byte i meets byte i mod 64 of block number counter + i / 64, modulo 2^32 |
| ChaCha20.XoredTwice | e2ee.py:218-228 | applying the stream twice gives the data back, at any length |
| ChaCha20.ComputeBlock | e2ee.py:198-215 | the in-place rounds give the block of the specification (section 2.3 of RFC 8439) |
| ChaCha20.XorStream | e2ee.py:218-228 | the chunked loop masks every byte with the keystream byte at its place |
| Base64.RoundTrip | e2ee.py:55-64 | decoding an encoding gives the bytes back |
| Base64.EncodedBits | e2ee.py:55-57 | three bytes are four symbols of six bits from the top, one byte two symbols, two bytes three |
| Base64.AlphabetIs | e2ee.py:55-57 | the order of the symbols, and the two signs of the address-safe alphabet |
| Envelopes.MacDataIsInjective | e2ee.py:248-258 | different (aad, ciphertext) pairs never give the same authenticated bytes (section 2.8 of RFC 8439) |
| Envelopes.MacDataIs | e2ee.py:248-258 | the authenticated bytes are the data and the ciphertext, each padded to sixteen, and both lengths |
| Envelopes.AcceptedExactly | e2ee.py:265-277 | a ciphertext is accepted if and only if the tag is the polynomial authenticator of exactly these data and bytes under the first half of block 0 |
| Envelopes.DecryptedBytes | e2ee.py:265-277 | and then every byte is the ciphertext's under the keystream from block 1 on |
| Envelopes.ForgeryPinsMultiplier | e2ee.py:265-277 | one tag accepted for two pairs of data and ciphertext makes the secret multiplier a root of one of seven equations between two different polynomials |
| Envelopes.AeadEncrypt | e2ee.py:252-258 | ciphertext and tag, accepted by AcceptedExactly's test, which decrypt to the plaintext |
| Envelopes.EnvelopeRoundTrip | e2ee.py:286-334 | every sealed envelope is well-formed and opens to its plaintext, and only a zero secret or an empty name keeps one from being sealed |
| Envelopes.SealedFields | e2ee.py:286-312 | what stands in each field of a sealed envelope |
| Envelopes.NineIsBase | e2ee.py:286-312 | the base point has coordinate nine |
| Envelopes.OpenedExactly | e2ee.py:315-334 | an envelope opens only if it is well-formed, built for this key, its secret not zero and both peers named, and then as its fields do under the key derived from secret and names |
| Envelopes.OpeningIsAuthenticated | e2ee.py:315-334 | the fields of a well-formed envelope decrypt under a key if and only if its tag is the polynomial authenticator of its ciphertext |
| Envelopes.LadderEnvelopeRoundTrip | e2ee.py:286-334 | the round trip with the ladder as the multiplication, assuming nothing but the field and the group axioms |

## Left out

Federation:

- Timestamps, detail texts and signature bytes of NDRs and reservations; random ids are parameters, and a collision is the error path.
- Parsing and signatures of recheck evidence, which are the predicate `authentic`.
- What a direct `action` of another user carries on the wire: its effect on the authority is modelled, its transport is its own. Each method of `AdapterV2` runs undisturbed; interleavings are in `AdapterProtocol`.
- Receiving as an object: `receive` is modelled in `AdapterProtocol` only, where its threads interleave with everything else.
- The canonicaliser of envelopes, which is not part of this model: a payload is already in canonical form, and its signed topic and reply id are a field of it.
- AuthorityLineage.LineageSurvives: says nothing about a run that marks the message held or reserves it under another grant.

Relay:

- Rate limits, enrolment with a redeem, token rotation, proofs of key, notifications and webhooks; tier caps at mint.
- Which of several dead letters of the same age a sweep drops first: the proofs hold for any order among them.
- A revocation of a pair at generation 2^63 - 1, which SQLite would make a floating-point number; replacement refuses it, as modelled.
- Removal of unconfigured peers at start-up, and every table the registration does not touch.
- Signature, CNS and grant checks on a forwarded message, which are the predicate `admits`; the response signature is an acceptance that only the destination can create.
- ForwardingTheorems.DeliveredWasStored: one direction only, because a crossed row may carry content that the destination got in another way; AlwaysStoredExactly has both.

Client:

- Journal contents other than the publication, temporary files behind an atomic journal write, and renames that a power loss undoes before their directory is synced.
- Operators who remove a canonical file or write at a stage name.
- The status request, the request phases before acceptance, quarantine, and the Windows path.

CNS:

- JSON parsing, field formats and signatures, which are the parameter `authentic`; the digest is the content itself.

Cryptography:

- The primality of q (the predicate `Field`), that d is not a square, the order of the base point, the associativity of the affine law and the group axioms of the Montgomery law (the predicate `Group`) are hypotheses where they are needed.
- Key generation, and the screening of weak and non-canonical public keys.
- HKDF, the hash and the key id are functions with the right lengths. Conversion of Ed25519 keys to X25519 keys is left out; the round trip takes the recipient's scalar.
- Base64.RoundTrip: says nothing about the decoder's leniency on strings that no encoder produces.
- X25519.Scalarmult: follows the code, which reduces all 256 bits of u; section 5 of RFC 7748 masks the top bit first.
- Envelopes of version 2 and their contexts.
