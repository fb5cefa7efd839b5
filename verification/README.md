# Appspine, modelled and proved in Dafny

A model of the parts of the Appspine packages whose guarantees range over all runs or all inputs, with proofs of those
guarantees. `dafny verify dfyconfig.toml` checks everything; nothing of the original is executed.

The files follow the program:

- **Outbox delivery.** `DeliveryProtocol` is the delivery table as a state machine: every guarded update, claim and
  administrator action is one atomic step, and workers act on what they remember. `DeliveryInvariants` proves what holds
  in every run, `DeliveryProgress` how often a due delivery is passed over,
  and `DeliveryStarvation` when that can go on for ever. `Dispatcher` is the service itself, a class whose methods are proved to do what runs of protocol steps do.
  `Receipt` is the receiving side: concurrent transactions under a unique key, one statement at a time.
- **Integration contracts.** `Json`, `Canonical`, `JsonParser` and `CanonicalRoundTrip` are the canonical printer and its
  inverse. `Schema` says which values a schema accepts, `Keywords` what each keyword asks, `Validator` is the validator, `DefinitionWalk` the check of schema
  graphs, `DefinitionTree` what it finds on objects that hold a schema, and `References` which reference tables validation
  can follow to an end. `Compatibility` says what the compatibility checker reports, `CompatibilityChecker` is the checker,
  `CompatibilityReport` proves what a report says and which changes break nothing,
  `CompatibilitySoundness` proves it sound against the validator for the changes it looks at, `CompatibilityGaps` shows that
  none of those conditions can be dropped, `CompatibilityProfiles` compares the profiles, and `LooseEquality` says which
  values the checker can tell apart.
  `Text` and `Ipv6` read addresses and decide which are blocked.
- **Identity linking.** `Identity` interleaves the reads and transactions of any number of logins and the deletion of
  accounts; `IdentityInvariants` proves what holds in every run, `IdentityClaims` what unverified, incomplete or inactive
  claims and accounts never lead to, and `IdentityWitnesses` holds the runs in which more fails.
- **Plugin tooling.** `Diff` (longest common subsequence and rendering), `DependencySort` (a priority topological sort),
  `DependencyOrder` (what its order means) and `Permissions` (the permission reconciler).
- **Mirrors.** `Mirror` holds the handler of change events and the reconciliation pass, `MirrorRaces` handlers that
  interleave.
- **Timed controllers.** `RateLimits`, `Throttle`, `EventLogs` (with the modules `DelegatedLog` and `ClientLog`) and
  `Polling`.

Protocols are state machines over events; a run is any sequence of enabled events, so a statement about runs covers every
interleaving. Objects that change in place are classes whose methods are tied to functions on their contents, and the
properties are proved of those functions. Clocks are monotone inputs; lease, user and request ids are fresh values.

## Main results

- Delivery: `DeliveryInvariants.DeliveryBudget`, `DeliveryInvariants.CompletionGuardIsSound` and
  `DeliveryStarvation.StarvesIffABatchIsOpen` for any number of workers, and
  `Dispatcher.DomainEventDispatcher.ProcessDelivery` for what becomes of one delivery; `Receipt.EffectsMatchReceipts`,
  `Receipt.OneFirstDelivery` and `Receipt.RepetitionReturnsIffAgreed` for the receiving side.
- Contracts: `CanonicalRoundTrip.CanonicalIsFaithful`, `Validator.SchemaValidator.Validate` with
  `References.SafeIffNoRestartingCycle` and `Keywords.KeywordsAreIndependent`,
  `CompatibilityReport.BreaksNothingIffRelaxes`, `CompatibilitySoundness.CompatibilityIsSound` with the lemmas of
  `CompatibilityGaps`, and `LooseEquality.LooseEqualityIsRightIffFlat`.
- Addresses: `Ipv6.SpecialAddressesAreBlocked` and `Ipv6.DecisionIsRightIff`.
- Identity: `IdentityInvariants.OneUserForGood`, `IdentityInvariants.NoOrphans`,
  `IdentityInvariants.LivingMappingIsLostIff` and `IdentityClaims.UnverifiedOnlyReturnsWhatWasMapped`.
- Tooling: `DependencySort.SortWithDependencies` with `DependencyOrder.GreedyIffConstraintsAndRanks` and
  `DependencySort.PermutedInputsEndAlike`, `Diff.KeepingLcsIsShortest`,
  and `Permissions.ReconcilePermissions` with `Permissions.SecondPlanIsIdle`.
- Mirrors: `Mirror.RightIffNothingResurrected` and `MirrorRaces.LosesNewerIffOvertaken`.
- Timed controllers: `Polling.OverlapsIffForces`, `RateLimits.AtMostTwiceTheLimit`, `DelegatedLog.NothingIsLost`.

## What turned out not to hold

The code is modelled as it is. Where a promise fails, a lemma gives the failing family and, where the failure has a
boundary, another says exactly when the promise is kept:

- `attempts <= maxAttempts` after an administrator's retry: `DeliveryInvariants.RetryOverrunsIffExhausted`.
- a due delivery being claimed in the end: a batch of open rows before it, deferred whenever they are claimed, keeps it
  waiting for ever, and anything less never does: `DeliveryStarvation.StarvesIffABatchIsOpen`.
- `linkedFromLegacyEmail` meaning "this login created the mapping": `IdentityInvariants.LegacyFlagIsRightIffUnmapped` and
  `IdentityWitnesses.LegacyFlagCanBeWrong`; a mapping being for good once accounts are deleted:
  `IdentityInvariants.LivingMappingIsLostIff`, `IdentityInvariants.NoOrphans` and `IdentityWitnesses.OrphanedByOverlap`.
- the compatibility checker's comparison of nested values: `LooseEquality.LooseEqualityIsRightIffFlat`; changes it does not
  look at, among them a relaxed alternative of `oneOf`: the lemmas of `CompatibilityGaps`, and
  `CompatibilitySoundness.CompatibilityIsSound` for when its silence can be relied on.
- reading an IPv6 literal with both a dotted quad and a zone id: `Ipv6.QuadWithZoneIsReadIffZero`. Such a text is valid to
  the platform's own test, and the quad is then read as one group. What follows is only that some public addresses are
  refused: `Ipv6.SpecialAddressesAreBlocked`, `Ipv6.DecisionIsRightIff` and `Ipv6.PublicAddressRefusedForItsZone`.
- a plain refresh never running beside another request: `Polling.OverlapsIffForces`, `Polling.PlainStepIssuesBesideForced` and
  `Polling.PlainStepMayIssueBeside`.
- a mirror never going back to an older row: `MirrorRaces.LosesNewerIffOvertaken` and `MirrorRaces.OlderChangeMayStay`.
- a desired permission being active after its plan: `Permissions.DesiredIsActiveIff`.
- confluence of mirrors under deletes: `Mirror.RightIffNothingResurrected`.
- the two-windows bound of the rate limiter is 2 * limit - 1, not 2 * limit: `RateLimits.AtMostTwiceTheLimit` and
  `RateLimits.TwiceTheLimitIsReached`; "twenty lines a minute" is therefore twenty per window
  (`DelegatedLog.AtMostTwentyPerWindow`, `ClientLog.AtMostTwentyPerWindow`) and up to 39 in a minute.

## Model

Theorems first, then the operations proved against the functions they are about.

| member | source | states |
|---|---|---|
| DeliveryInvariants.RunKeepsInv | packages/domain-events/src/domain-event-dispatcher.service.ts:120-287 | the invariant of the delivery table, its leases, its workers' memories and its counters holds in every state of every run of any number of workers, reclaimers and administrators |
| DeliveryInvariants.CompletionGuardIsSound | packages/domain-events/src/domain-event-dispatcher.service.ts:269-287 | in every reachable state a row is PROCESSING exactly when `lockedBy`, and exactly when `lockedAt`, is set; at most one claimed snapshot still passes the guard, and its `attempts` are the row's, so the absolute write loses no update |
| DeliveryInvariants.DeliveryBudget | packages/domain-events/src/domain-event-dispatcher.service.ts:156-287 | claims = attempts + deferrals + exits that add no attempt + 1 while PROCESSING; claims, handler starts and the attempts of a waiting row are bounded by max(maxAttempts, 1) + administrator retries (claims also by deferrals) |
| DeliveryInvariants.FinalForever | packages/domain-events/src/domain-event-dispatcher.service.ts:269-287 | a PROCESSED or IGNORED row is never written again, whatever follows |
| DeliveryInvariants.LostLeaseStaysLost | packages/domain-events/src/domain-event-dispatcher.service.ts:269-287 | once a snapshot has lost its lease no later run gives it back, and its completion changes nothing |
| DeliveryInvariants.ReclaimsCommute | packages/domain-events/src/domain-event-dispatcher.service.ts:120-154 | the two reclaim updates may run in either order, and together leave the same rows |
| DeliveryInvariants.RowChangesAreBounded | packages/domain-events/src/domain-event-dispatcher.service.ts:120-287 | in any run, however long, a row changes at most twice per allowed claim, once per administrator retry and once more |
| DeliveryInvariants.BackoffIsMonotone | packages/domain-events/src/domain-event-dispatcher.service.ts:289-294 | the delay stays between 0 and the cap and never shrinks as attempts accumulate, with or without a requested delay |
| DeliveryInvariants.BackoffIsHeld | packages/domain-events/src/domain-event-dispatcher.service.ts:156-191 | a row waiting for its next attempt is not claimed before that time |
| DeliveryInvariants.LimitHolds | packages/domain-events/src/domain-event-dispatcher.service.ts:254-267 | without administrator retries `attempts` never passes the limit, and a waiting row is below it |
| DeliveryInvariants.RetryOverrunsIffExhausted | packages/domain-events/src/admin/domain-events-admin.service.ts:158-166 | a retry does not reset `attempts`: the limit can be overrun afterwards if and only if the dead letter had used it up or gone past it |
| DeliveryProgress.PassingOverIsBounded | packages/domain-events/src/domain-event-dispatcher.service.ts:156-191 | in every run a due delivery is passed over by at most one claim for every full batch of rows that stood, or came to stand, before it |
| DeliveryProgress.ClaimedInTurn | packages/domain-events/src/domain-event-dispatcher.service.ts:156-191 | so if no row comes to stand before it, it is passed over at most (rows before it) / batchSize times |
| DeliveryStarvation.StarvesIffABatchIsOpen | packages/domain-events/src/domain-event-dispatcher.service.ts:156-219 | for every batch size and every state with the invariant: a pending delivery can be passed over by claims any number of times, and indeed at all, if and only if the other rows of no later sequence that are neither PROCESSED nor IGNORED make a full batch |
| DeliveryStarvation.NeverPassedOver | packages/domain-events/src/domain-event-dispatcher.service.ts:156-191 | with fewer such rows no claim of any run that finds the delivery due and unlocked leaves it out, whatever is deferred, fails, is reclaimed or is retried |
| Dispatcher.CompletionSettles | packages/domain-events/src/domain-event-dispatcher.service.ts:193-294 | a row whose lease held ends PROCESSED exactly if the handler ran and returned, IGNORED exactly without a handler or on the ignored error, DEAD_LETTER exactly on the terminal error or the last allowed failure, and PENDING otherwise: after a disabled binding with its attempts unchanged and no next time, after a failure with one attempt more and the next time at now plus the capped delay; it is unlocked in every case |
| Dispatcher.StaleRowsAreGivenUp | packages/domain-events/src/domain-event-dispatcher.service.ts:120-154 | the two reclaims together count one more attempt for every row locked before the cut-off, unlock it, and leave it DEAD_LETTER if that was the last one and PENDING otherwise; other rows stay |
| Dispatcher.HolderRemembers | packages/domain-events/src/domain-event-dispatcher.service.ts:193-287 | a worker whose lease holds remembers the attempts the row has |
| Receipt.RunKeepsInv | packages/domain-events/src/receipt.ts:39-112 | the invariant of receipts, open transactions and calls, under every interleaving |
| Receipt.EffectsMatchReceipts | packages/domain-events/src/receipt.ts:39-82 | the committed runs of `process` for a (sourceApp, eventId) number one if its receipt is committed and zero otherwise |
| Receipt.ReturnedReceiptsAgree | packages/domain-events/src/receipt.ts:93-112 | every normal return carries the committed receipt, which agrees with the envelope on digest and all five contract fields; it says `duplicate` exactly when the call's own `process` was not the one committed |
| Receipt.FailuresLeaveNothing | packages/domain-events/src/receipt.ts:48-73 | a call whose `process` failed, or that was refused, has left no effect, and no committed receipt is one it wrote |
| Receipt.OneWriter | packages/domain-events/src/receipt.ts:54-73 | every committed receipt was written by exactly one call, together with its one effect |
| Receipt.OneFirstDelivery | packages/domain-events/src/receipt.ts:71-80 | of all calls for one event at most one returns as the first delivery |
| Receipt.ReceiptsAreForGood | packages/domain-events/src/receipt.ts:54-73 | committed receipts and effects stay as they are |
| Receipt.LosersFindTheWinner | packages/domain-events/src/receipt.ts:74-81 | the loser of an insert race finds the winner's receipt, and returns it exactly when it agrees with its envelope |
| Receipt.ConflictNeverSurfaces | packages/domain-events/src/receipt.ts:77-79 | no call ever ends with the unique-key conflict: the rethrow after the second look is unreachable |
| Receipt.FirstDeliverySucceeds | packages/domain-events/src/receipt.ts:48-73 | a delivery without rival or error is processed once, leaves its receipt, and returns as the first |
| Receipt.RepetitionReturnsIffAgreed | packages/domain-events/src/receipt.ts:48-51 | in every run, a call that looks while a receipt is committed under its key returns that receipt as a duplicate once its commit is acknowledged, whatever other calls do meanwhile, if digest and contract agree with its envelope, and is refused there and then if not |
| Receipt.RefusalsAreRight | packages/domain-events/src/receipt.ts:39-112 | over every run: a call fails for its payload exactly if the digest does not fit, and none fails for a mismatch while the committed receipt agrees with its envelope |
| IdentityInvariants.RunKeepsInv | packages/oidc-auth/src/oidc-identity.service.ts:54-199 | the invariant of accounts, mappings, audit rows and logins, under every interleaving, account deletions included |
| IdentityInvariants.OneUserForGood | packages/oidc-auth/src/oidc-identity.service.ts:54-116 | in calm runs, in which no login clears a dangling mapping beside another login of the identity that has read one: all logins of an (issuer, subject) whose accounts live return the same user, to whom it stays mapped, however emails change |
| IdentityInvariants.NoOrphans | packages/oidc-auth/src/oidc-identity.service.ts:118-155 | in calm runs, deletions included, every living account that a login made keeps the mapping row it was made with |
| IdentityInvariants.WithoutDeletionsAllLive | packages/oidc-auth/src/oidc-identity.service.ts:54-199 | and in them every account that anything names lives |
| IdentityInvariants.LivingMappingIsLostIff | packages/oidc-auth/src/oidc-identity.service.ts:67-84 | over all runs: a login that found its account gone deletes the row it read if and only if no other login of the identity has deleted the mapping since; it takes the mapping from a living account if and only if one has and the identity has been mapped to a living account since, which is never the one it read |
| IdentityInvariants.RowStaysUntilDropped | packages/oidc-auth/src/oidc-identity.service.ts:67-84 | over any run a mapping row stays exactly until a login of its identity deletes it, and never comes back |
| IdentityInvariants.LegacyFlagIsRightIffUnmapped | packages/oidc-auth/src/oidc-identity.service.ts:157-199 | over calm runs: a login that reports `linkedFromLegacyEmail` for a living account wrote the mapping row if and only if its identity was still unmapped when its link transaction ran, and that was not rolled back |
| IdentityInvariants.EveryMappingIsAudited | packages/oidc-auth/src/oidc-identity.service.ts:134-186 | mapping rows and audit rows go together one for one: CREATE exactly for a row that came with an account, and no account came with two |
| IdentityInvariants.ReturnsAMappedUser | packages/oidc-auth/src/oidc-identity.service.ts:54-116 | a login returns only a user to whom its identity has been mapped |
| IdentityInvariants.ProvisionedByOne | packages/oidc-auth/src/oidc-identity.service.ts:99-115 | at most one login reports an account as provisioned |
| IdentityClaims.OnlyVerifiedEmailsMap | packages/oidc-auth/src/oidc-identity.service.ts:54-63 | over all runs: every mapping row ever written was written by a login whose email is verified, for its own issuer and subject, neither of them empty |
| IdentityClaims.UnverifiedOnlyReturnsWhatWasMapped | packages/oidc-auth/src/oidc-identity.service.ts:67-88 | a login without a verified email writes nothing, never looks for an account by email, and if it returns, it returns an account to which another login, with a verified email, had mapped its identity |
| IdentityClaims.MappedKeysAreComplete | packages/oidc-auth/src/oidc-identity.service.ts:54-63 | no identity is ever mapped with an empty issuer or subject |
| IdentityClaims.ClaimsAreRefusedRightly | packages/oidc-auth/src/oidc-identity.service.ts:54-88 | a login is refused for its issuer exactly if that holds nothing but white space, for its subject exactly if only that does, and for its email only if it is not verified |
| IdentityClaims.TrimmedIsEmptyIffUnusable | packages/oidc-auth/src/oidc-identity.service.ts:55-63 | a trimmed claim is empty exactly if the claim is absent or holds only white space |
| IdentityClaims.OnlyActiveAccountsAreLinked | packages/oidc-auth/src/oidc-identity.service.ts:90-97 | over every run: the writer of a row that links an account had found that very account under its own email, and active |
| IdentityClaims.LinkedWasFoundActive | packages/oidc-auth/src/oidc-identity.service.ts:90-114 | the same from any state, and for links still under way, after a lost race as well |
| IdentityClaims.MappedLoginReturns | packages/oidc-auth/src/oidc-identity.service.ts:65-79 | a mapped identity returns the account it is mapped to as long as that exists, whatever its email, and writes nothing |
| IdentityClaims.UnmappedLoginLinks | packages/oidc-auth/src/oidc-identity.service.ts:86-97 | an unmapped identity with the verified email of an account: refused if that is inactive, and else mapped to it, audited as UPDATE and reported as linked |
| IdentityClaims.NewLoginProvisions | packages/oidc-auth/src/oidc-identity.service.ts:99-116 | an unmapped identity with a verified email nobody has is given an account, a mapping and a CREATE record, and reported as provisioned |
| IdentityWitnesses.LegacyFlagCanBeWrong | packages/oidc-auth/src/oidc-identity.service.ts:187-198 | a run from the empty database after which one login says legacy-linked, although it wrote no row and the row says it was provisioned |
| IdentityWitnesses.OrphanedByOverlap | packages/oidc-auth/src/oidc-identity.service.ts:67-84 | a run from the empty database with one deletion after which an account that a login made, and that lives, has no mapping |
| Canonical.CanonicalIsSortedText | packages/integration-contracts/src/canonical.ts:21-45 | the canonical text is the text of the key-sorted value |
| CanonicalRoundTrip.ParseCanonical | packages/integration-contracts/src/canonical.ts:17-45 | parsing the canonical text gives the key-sorted value, for every well-formed value |
| CanonicalRoundTrip.CanonicalIsFaithful | packages/integration-contracts/src/canonical.ts:5-7 | equal canonical text if and only if structurally equal values |
| CanonicalRoundTrip.SameIffSortedEqual | packages/integration-contracts/src/canonical.ts:38-44 | structural equality is equality after sorting keys |
| CanonicalRoundTrip.CanonicalValueIsIdempotent | packages/integration-contracts/src/canonical.ts:17-19 | `canonicalJsonValue` applied twice is applied once |
| Keywords.ConditionChooses | packages/integration-contracts/src/schema.ts:224-228 | with nothing but `if`, `then` and `else`: a value that matches the condition is accepted exactly when `then` is absent or accepts it, and any other exactly when `else` is absent or accepts it |
| Keywords.EachBranchDecides | packages/integration-contracts/src/schema.ts:224-228 | with one branch that refuses everything and the other absent, matching decides, one way for `then` and the other for `else` |
| Keywords.KeywordsAreIndependent | packages/integration-contracts/src/schema.ts:198-255 | a schema without `$ref` accepts exactly what each of its keywords accepts on its own |
| Keywords.AllOfMeansAll | packages/integration-contracts/src/schema.ts:229-230 | `allOf` accepts what every one of its schemas accepts |
| Keywords.AnyOfMeansSome | packages/integration-contracts/src/schema.ts:231-232 | `anyOf` accepts what matches at least one |
| Keywords.OneOfMeansOne | packages/integration-contracts/src/schema.ts:233-237 | `oneOf` accepts what matches exactly one: the set of places that match has one element |
| Keywords.ConstMeansSame | packages/integration-contracts/src/schema.ts:238-239 | `const` accepts exactly the values that are structurally equal |
| Keywords.EnumMeansListed | packages/integration-contracts/src/schema.ts:240-241 | `enum` accepts exactly the values structurally equal to a listed one |
| Keywords.TypeMeansNamed | packages/integration-contracts/src/schema.ts:242-249 | `type` accepts exactly the values of the kind, or of one of the kinds, that it names |
| Keywords.TextBounds | packages/integration-contracts/src/schema.ts:257-286 | on strings length, pattern and format decide, an empty pattern and other formats asking for nothing; other values pass |
| Keywords.NumberBounds | packages/integration-contracts/src/schema.ts:312-322 | on numbers both inclusive bounds decide; other values pass |
| Keywords.ListBounds | packages/integration-contracts/src/schema.ts:324-354 | on arrays the number of items, their being structurally distinct, and the items themselves decide; other values pass |
| Keywords.RequiredMeansPresent | packages/integration-contracts/src/schema.ts:364-366 | `required` accepts exactly the objects that have all the keys, and everything that is no object |
| Keywords.FieldsAreJudged | packages/integration-contracts/src/schema.ts:367-393 | a field is judged by every declaration and every pattern that governs it, and by `additionalProperties` exactly if nothing else governs it |
| Keywords.DefinitionCheckMeans | packages/integration-contracts/src/schema.ts:95-196 | the checks on one schema object pass exactly if its types are types that values have, some number fits its lengths and some its item counts, its classification is a known one other than secret, and, where asked for, a leaf has one |
| References.SafeIffNoRestartingCycle | packages/integration-contracts/src/schema.ts:206-236 | the reference tables on which validation is shown to end are exactly those in which no chain of references leads back to itself through `anyOf`, `oneOf` or `if`, which start again with an empty reference stack |
| DefinitionTree.SilentIffDefinitionClean | packages/integration-contracts/src/schema.ts:88-196 | on objects that hold a schema, shared or not, every reachable object is without fault exactly when the definition is clean, keyword by keyword |
| CompatibilityReport.BreaksNothingIffRelaxes | packages/integration-contracts/src/compatibility.ts:22-182 | nothing breaking is reported if and only if the change only relaxes, here and in all compared parts: types, patterns and formats that both give are equal, bounds stay, widen or go, enum values stay and under the strict profile none comes, declared keys stay and none becomes required, nothing is closed |
| CompatibilityReport.UnchangedIsSilent | packages/integration-contracts/src/compatibility.ts:22-182 | a schema without repeated keys compared with itself gives an empty report, at every path and under every profile |
| CompatibilityReport.Reported | packages/integration-contracts/src/compatibility.ts:22-182 | the report is exact: it holds a finding if and only if what the finding says, with its path, rule, weight and severity, is true of two compared schemas |
| CompatibilitySoundness.CompatibilityIsSound | packages/integration-contracts/src/compatibility.ts:12-160 | for a covered change with no breaking finding, every value valid under the old schema is valid under the new one; one statement for the three profiles, with unchanged references, and with changed `oneOf` alternatives that are compatible both ways |
| CompatibilitySoundness.Sound | packages/integration-contracts/src/compatibility.ts:22-160 | the same at any path and reference stack, by induction over both schemas |
| CompatibilityProfiles.BreakingGrows | packages/integration-contracts/src/compatibility.ts:22-160 | breaking findings only grow from tolerant-reader to provider-compatible to strict |
| LooseEquality.LooseEqualityIsRightIffFlat | packages/integration-contracts/src/compatibility.ts:184-189 | the comparison of enum and const values tells a value from every other value if and only if no object stands strictly inside it |
| LooseEquality.ToldFromLosslessIffLossless | packages/integration-contracts/src/compatibility.ts:184-189 | and from every value that its own keys write out in full if and only if its own keys do so for it |
| CompatibilityGaps.WidenedOneOfIsMissed | packages/integration-contracts/src/compatibility.ts:134-159 | alternatives of a `oneOf` that are only relaxed are not reported, although a value that matched one now matches two |
| CompatibilityGaps.AddedKeywordsAreMissed | packages/integration-contracts/src/compatibility.ts:22-160 | any of the unjudged keywords added to an empty schema goes unreported, and the change is harmless exactly if the new schema refuses nothing |
| CompatibilityGaps.AddedValueKeywordsAreMissed | packages/integration-contracts/src/compatibility.ts:33-48 | an added `type`, `enum` or `const` is missed |
| CompatibilityGaps.AddedTextKeywordsAreMissed | packages/integration-contracts/src/compatibility.ts:49-56 | an added `pattern` or `format` is missed |
| CompatibilityGaps.AddedListKeywordsAreMissed | packages/integration-contracts/src/compatibility.ts:63-133 | an added `uniqueItems` or `items` is missed |
| CompatibilityGaps.AddedCompositionsAreMissed | packages/integration-contracts/src/compatibility.ts:134-159 | an added `anyOf`, `oneOf` or `allOf` is missed |
| CompatibilityGaps.AddedConditionsAreMissed | packages/integration-contracts/src/compatibility.ts:22-160 | an added `if` is missed |
| CompatibilityGaps.AddedReferencesAreMissed | packages/integration-contracts/src/compatibility.ts:22-160 | an added `$ref` is missed |
| CompatibilityGaps.DroppedReferencesAreMissed | packages/integration-contracts/src/compatibility.ts:22-160 | a `$ref` given up for other keywords is missed |
| CompatibilityGaps.AddedObjectKeywordsAreMissed | packages/integration-contracts/src/compatibility.ts:102-131 | a required key that nobody declares, a schema for additional properties and an added pattern are missed |
| CompatibilityGaps.NewPropertiesAreMissed | packages/integration-contracts/src/compatibility.ts:90-101 | a new optional property of an open object breaks nothing but the strict profile, whatever it asks of its value |
| CompatibilityGaps.RestrictionsAreMissed | packages/integration-contracts/src/compatibility.ts:125-131 | the tolerant profile passes a closed schema that a strict validator enforces |
| CompatibilityGaps.RemovedPropertiesAreMissed | packages/integration-contracts/src/compatibility.ts:70-80 | the tolerant profile passes a removed property that then falls under the additional ones |
| CompatibilityGaps.DroppedPatternsAreMissed | packages/integration-contracts/src/compatibility.ts:22-160 | a pattern dropped from a closed schema is missed |
| CompatibilityGaps.ChangedConstantsAreMissed | packages/integration-contracts/src/compatibility.ts:22-160 | a changed `const` is missed |
| CompatibilityGaps.NestedEnumIsMissed | packages/integration-contracts/src/compatibility.ts:37-48 | enum values that differ only below a nested key are exchanged without a finding |
| Diff.LcsBounds | packages/plugin-cli/src/plan.ts:129-141 | no common subsequence is longer than the table says |
| Diff.LcsReached | packages/plugin-cli/src/plan.ts:129-141 | some common subsequence is as long as the table says |
| Diff.KeepingLcsIsShortest | packages/plugin-cli/src/plan.ts:129-168 | no other script that turns `before` into `after` has fewer changes |
| Diff.SplitJoins | packages/plugin-cli/src/plan.ts:97-100 | splitting into lines and joining loses nothing |
| Diff.ChangesAreShown | packages/plugin-cli/src/plan.ts:104-125 | the signed lines below the header are the script's added and removed lines, each once and in order |
| Diff.RenderingShowsChanges | packages/plugin-cli/src/plan.ts:101-125 | of all lines of a rendering those with a sign are the header's one and then every changed line of that kind, in order |
| Diff.ShownExactly | packages/plugin-cli/src/plan.ts:104-122 | a line appears exactly when it is near a change |
| Diff.RenderingAt | packages/plugin-cli/src/plan.ts:111-125 | line by line: the k-th shown operation stands below the header, the operations before it and one `@@` for every gap, under its sign, with a `@@` before it exactly where operations were skipped |
| Diff.RenderingBegins | packages/plugin-cli/src/plan.ts:97-103 | a rendering names the file twice, as old and as new, and is empty exactly if nothing changed |
| DependencySort.SortWithDependencies | packages/plugin-cli/src/frontend-generator.ts:39-125 | for two or more items with distinct ids it fails if and only if the constraints are cyclic; otherwise it returns a permutation in which each position holds the (order, id)-least item all of whose predecessors stand before it |
| DependencySort.OrderOfInputIsIrrelevant | packages/plugin-cli/src/frontend-generator.ts:82-104 | the result does not depend on the order of the input |
| DependencySort.PermutedInputsEndAlike | packages/plugin-cli/src/frontend-generator.ts:39-125 | permuted inputs fail alike, and if they do not fail they are sorted alike |
| DependencyOrder.GreedyIffConstraintsAndRanks | packages/plugin-cli/src/frontend-generator.ts:39-117 | told by the fields of the items: a permutation is the greedy order if and only if every item stands before the one its `before` names and after the one its `after` names, and of two items the earlier has the smaller order, or the same and the smaller id, unless something that has to precede the later one does not precede the earlier one |
| DependencyOrder.UnconstrainedIsSorted | packages/plugin-cli/src/frontend-generator.ts:80-86 | without constraints the result is in ascending (order, id) |
| DependencySort.StuckMeansCyclic | packages/plugin-cli/src/frontend-generator.ts:106-123 | items that all wait for one another hold a cycle |
| DependencySort.CompleteMeansAcyclic | packages/plugin-cli/src/frontend-generator.ts:91-117 | if everything could be placed there is no cycle |
| Ipv6.ExpandInvertsSpelling | packages/integration-contracts/src/destination-policy.ts:105-133 | expansion inverts every spelling of section 2.2 of RFC 4291, with or without zone id, except a dotted quad before a zone id; a zone id that itself ends like a quad above 255 is rejected |
| Ipv6.QuadWithZoneIsReadIffZero | packages/integration-contracts/src/destination-policy.ts:108-120 | a dotted quad before a zone id is read as its address if and only if it is compressed and everything after the compressed run is zero |
| Ipv6.ExpandQuadWithZone | packages/integration-contracts/src/destination-policy.ts:108-132 | what such a spelling is read as instead |
| Ipv6.SpecialAddressesAreBlocked | packages/integration-contracts/src/destination-policy.ts:67-102 | no legal spelling, with or without quad and zone id, gets an address of the listed ranges through |
| Ipv6.DecisionOnEverySpelling | packages/integration-contracts/src/destination-policy.ts:67-133 | the decision on every legal spelling: blocked if the address lies in the ranges, and else only if the spelling is refused for its zone id |
| Ipv6.DecisionIsRightIff | packages/integration-contracts/src/destination-policy.ts:67-133 | the decision is membership in the ranges if and only if the address lies in them or the spelling is not refused for its zone id |
| Ipv6.PublicAddressRefusedForItsZone | packages/integration-contracts/src/destination-policy.ts:108-120 | an address outside the ranges whose spelling is refused |
| Ipv6.GroupTestIsMembership | packages/integration-contracts/src/destination-policy.ts:80-99 | the tests on groups are membership in the ranges |
| Ipv6.Ipv4TestIsMembership | packages/integration-contracts/src/destination-policy.ts:139-159 | for every 32-bit value the test is membership in the IPv4 ranges |
| Ipv6.Ipv4DecidedAlike | packages/integration-contracts/src/destination-policy.ts:67-82 | an IPv4 literal and every spelling of the same address mapped into IPv6, compressed or not, that is not refused for a zone id are decided alike |
| RateLimits.AtMostTwiceTheLimit | packages/oidc-delegation/src/observability/rate-limiter.ts:24-49 | in no half-open minute are more than 2 * limit - 1 calls for a key admitted |
| RateLimits.TwiceTheLimitIsReached | packages/oidc-delegation/src/observability/rate-limiter.ts:24-36 | that bound is reached for every limit |
| RateLimits.EvictionIsInvisible | packages/oidc-delegation/src/observability/rate-limiter.ts:42-49 | evictions, wherever they fall in a run, change no answer |
| RateLimits.RetryAfterIsLeast | packages/m2m-api-key/src/api-key-rate-limiter.ts:32-36 | 1 <= retryAfter <= 60, and a call that many seconds later is admitted while one any fewer whole seconds later is not |
| RateLimits.RetryIsAdmitted | packages/m2m-api-key/src/api-key-rate-limiter.ts:26-39 | the next call for the key, at least that much later, is admitted whatever other keys and evictions do in between |
| Throttle.ThresholdOpens | packages/oidc-delegation/src/observability/outbound-throttle.ts:48-56 | the failure that reaches the threshold, with no success since the count began, opens the circuit for the cooldown |
| Throttle.CooldownRefuses | packages/oidc-delegation/src/observability/outbound-throttle.ts:29-66 | after that failure and as long as no success is recorded, every check within the cooldown is refused and changes nothing |
| Throttle.StaysOpen | packages/oidc-delegation/src/observability/outbound-throttle.ts:48-66 | through the cooldown the circuit stays open and the policy's allowance is untouched |
| Throttle.CooldownEnds | packages/oidc-delegation/src/observability/outbound-throttle.ts:58-66 | after the cooldown the rate limit alone decides and counting starts afresh; without a check in between one more failure reopens at once |
| Throttle.OpenMeansThreshold | packages/oidc-delegation/src/observability/outbound-throttle.ts:48-56 | a circuit is open only after as many failures as the threshold |
| DelegatedLog.NothingIsLost | packages/oidc-auth/src/delegated/delegated-security-event-logger.ts:21-68 | over every run and for every source: rejections = single lines + sum of summaries + still suppressed |
| DelegatedLog.ShutdownAccountsForAll | packages/oidc-auth/src/delegated/delegated-security-event-logger.ts:43-68 | after shutdown the log accounts for every rejection |
| DelegatedLog.KeySplits | packages/oidc-auth/src/delegated/delegated-security-event-logger.ts:52-54 | splitting a key at its last colon gives back profile and category, whatever colons the profile holds |
| DelegatedLog.SinglesAreBounded | packages/oidc-auth/src/delegated/delegated-security-event-logger.ts:33-39 | in service, at most 39 single lines per source in any minute |
| DelegatedLog.AtMostTwentyPerWindow | packages/oidc-auth/src/delegated/delegated-security-event-logger.ts:21-41 | from one rejection to any later point, with no other window opened for the source in between, at most twenty single lines are added for it, in any run |
| DelegatedLog.LoggedAsAdmitted | packages/oidc-auth/src/delegated/delegated-security-event-logger.ts:21-41 | the logger writes single lines as a limiter of twenty a minute admits calls |
| ClientLog.NothingIsLost | packages/oidc-delegation/src/observability/security-event-log.ts:20-47 | over every run and for every category: rejections = single lines + sum of summaries + still suppressed; none suppressed after a flush |
| ClientLog.SinglesAreBounded | packages/oidc-delegation/src/observability/security-event-log.ts:20-26 | at most 39 single lines per category in any minute |
| ClientLog.AtMostTwentyPerWindow | packages/oidc-delegation/src/observability/security-event-log.ts:20-26 | the same for each category of the delegation client |
| Polling.RunKeepsInv | packages/notification/src/frontend/use-notification-polling.ts:10-70 | in every interleaving: `inFlight` is the newest request until it has settled, at most one timer runs and exactly while active and enabled, counts come in strictly increasing sequence |
| Polling.CallbacksAreForTheNewest | packages/notification/src/frontend/use-notification-polling.ts:20-34 | over every run the callbacks made are, in order, one for each answer that comes while its request is the last thing issued or stopped, and no others |
| Polling.OnlyTheNewestIsDelivered | packages/notification/src/frontend/use-notification-polling.ts:24-31 | a step makes a callback if and only if it answers the request whose issue is the last thing issued or stopped |
| Polling.RefreshIssuesIffSettled | packages/notification/src/frontend/use-notification-polling.ts:39-42 | a plain refresh issues if and only if active, visible and the newest request has settled |
| Polling.OverlapsIffForces | packages/notification/src/frontend/use-notification-polling.ts:39-67 | over all runs: two requests run side by side if and only if a refresh is forced over a request that has not settled |
| Polling.LeftBehindIffForced | packages/notification/src/frontend/use-notification-polling.ts:20-47 | in every reachable state a request that has not settled is older than the newest if and only if a refresh was forced over it |
| Polling.PlainStepIssuesBesideForced | packages/notification/src/frontend/use-notification-polling.ts:39-67 | every unsettled request that a step issues beside without being forced was forced over before |
| Polling.PlainStepMayIssueBeside | packages/notification/src/frontend/use-notification-polling.ts:39-47 | a run from a new controller after which a plain refresh does so |
| Polling.RestartIssuesIffSettled | packages/notification/src/frontend/use-notification-polling.ts:49-62 | a restart issues a request exactly when the newest one has settled, and otherwise waits for a reply that will be discarded |
| Mirror.GreatestChangeWins | packages/master-data-client/src/sync-handler.factory.ts:58-82 | when the greatest event of an id is a change the mirror ends with it, in whatever order and number events arrive |
| Mirror.ChangesAreConfluent | packages/master-data-client/src/sync-handler.factory.ts:58-82 | runs without deletes that deliver the same changes end alike |
| Mirror.PresentIffSurvives | packages/master-data-client/src/sync-handler.factory.ts:37-83 | a row is there if and only if some change is outranked by no delete arriving after it |
| Mirror.RightIffNothingResurrected | packages/master-data-client/src/sync-handler.factory.ts:38-52 | with deletes the mirror ends as the last writer by sequence number leaves it if and only if the greatest event is no delete or no change survives |
| Mirror.OutOfOrderDeleteResurrects | packages/master-data-client/src/sync-handler.factory.ts:38-52 | three events for which the order of arrival decides |
| Mirror.InOrderIsReplay | packages/master-data-client/src/sync-handler.factory.ts:37-83 | in sequence order, with repetitions, the handler is plain last-writer replay, deletes included |
| Mirror.LiveRowsOnlyRise | packages/master-data-client/src/sync-handler.factory.ts:58-82 | over any run without a deletion of it a row stays, and every change of it raises its sequence number |
| MirrorRaces.LosesNewerIffOvertaken | packages/master-data-client/src/sync-handler.factory.ts:38-82 | handlers interleaved: a write loses a newer row if and only if the last write to that row since the handler's own read was a newer change |
| MirrorRaces.UninterruptedIsHandled | packages/master-data-client/src/sync-handler.factory.ts:37-83 | a handler that nothing interrupts does what the atomic one does |
| MirrorRaces.OlderChangeMayStay | packages/master-data-client/src/sync-handler.factory.ts:58-82 | two handlers of an empty mirror after which the older change stays |
| Mirror.SeqIsTheGreater | packages/master-data-client/src/reconciliation/reconciliation.service.ts:108-121 | every sequence number ends as the greater of the two |
| Mirror.SecondPassIsIdle | packages/master-data-client/src/reconciliation/reconciliation.service.ts:96-148 | a second pass upserts, deletes and changes nothing |
| Permissions.OneOpPerDesired | packages/plugin-cli/src/permission-reconciler.ts:152-178 | each desired id gets the one op meant for it, and no op occurs twice |
| Permissions.OrderOfInputsIsIrrelevant | packages/plugin-cli/src/permission-reconciler.ts:187-189 | the plan is the same for any permutation of both inputs |
| Permissions.NothingIsDeleted | packages/plugin-cli/src/permission-reconciler.ts:10-14 | applying a plan deletes no record and renames none |
| Permissions.SecondPlanIsIdle | packages/plugin-cli/src/permission-reconciler.ts:74-199 | after a plan has been applied a second one meets no error and holds only no-ops and aliases |
| Permissions.DesiredIsActiveIff | packages/plugin-cli/src/permission-reconciler.ts:152-178 | after a plan a desired permission is active if and only if it is an alias, was absent, or was not retired: a retired one that is wanted again stays retired |
| Permissions.PlanIsExact | packages/plugin-cli/src/permission-reconciler.ts:152-185 | an op is in the plan exactly if the two states call for it, kind by kind: what it adds, renames from and to, aliases or retires |
| Permissions.DesiredBecomes | packages/plugin-cli/src/permission-reconciler.ts:152-178 | the record of a desired permission after its plan, field by field |
| Permissions.UndesiredBecomes | packages/plugin-cli/src/permission-reconciler.ts:180-185 | after its plan an id that is not desired is as it was if an alias replaces it or it was retired already, and retired otherwise; none appears |
| Permissions.PermissionIdIff | packages/plugin-cli/src/permission-reconciler.ts:29-30 | an id is well formed exactly if it is three parts of the given alphabet with colons between them |
| Dispatcher.DomainEventDispatcher.ReclaimStaleLocks | packages/domain-events/src/domain-event-dispatcher.service.ts:120-154 | does what the two reclaim events do: exactly the rows locked before the cut-off are given up, with one attempt more, dead-lettered if that was the last |
| Dispatcher.DomainEventDispatcher.ClaimDueDeliveries | packages/domain-events/src/domain-event-dispatcher.service.ts:156-191 | sets exactly the batch picked to PROCESSING under the new lease, nothing else in it, and returns each with the attempts it had, able to pass the guard |
| Dispatcher.DomainEventDispatcher.ProcessDelivery | packages/domain-events/src/domain-event-dispatcher.service.ts:193-252 | if the lease still held the row ends PROCESSED, IGNORED, DEAD_LETTER or PENDING, with the attempts and the next time that registry, kill switch and handler call for, and unlocked; if not nothing is written; the lease is gone in either case |
| Dispatcher.DomainEventDispatcher.MarkFailed | packages/domain-events/src/domain-event-dispatcher.service.ts:254-267 | the guarded failure update |
| Dispatcher.DomainEventDispatcher.CompleteDelivery | packages/domain-events/src/domain-event-dispatcher.service.ts:269-287 | writes exactly when row, status and lease still match; otherwise nothing |
| Dispatcher.DomainEventDispatcher.Tick | packages/domain-events/src/domain-event-dispatcher.service.ts:104-118 | does nothing while a tick is running; otherwise its whole effect is the two reclaims, one claim, and the events of processing each claimed delivery in turn, and none it claimed stays under its lease |
| Dispatcher.DomainEventDispatcher.UpdateDeadLetterDelivery | packages/domain-events/src/admin/domain-events-admin.service.ts:158-204 | not found, conflict or the updated row, exactly as the row was missing, not dead-lettered or dead-lettered; a retried dead letter is PENDING and due now with its attempts kept, an ignored one IGNORED |
| Validator.SchemaValidator.Validate | packages/integration-contracts/src/schema.ts:198-255 | for every reference table without a cycle through `anyOf`, `oneOf` or `if`, the validator terminates, and adds no issue exactly when the specification accepts the value |
| Validator.SchemaValidator.ValidateJsonSchema | packages/integration-contracts/src/schema.ts:54-64 | no issue exactly when the definition is clean and the value accepted |
| Validator.SchemaValidator.ValidateObject | packages/integration-contracts/src/schema.ts:356-394 | no issue exactly when required keys, properties, patterns and additional properties are as specified |
| Validator.SchemaValidator.ValidateArray | packages/integration-contracts/src/schema.ts:324-354 | no issue exactly when bounds, uniqueness and items are as specified |
| Validator.SchemaValidator.ValidateUnique | packages/integration-contracts/src/schema.ts:344-348 | the set of canonical texts shrinks exactly when two items are structurally equal |
| Validator.SchemaValidator.ValidateString | packages/integration-contracts/src/schema.ts:257-286 | no issue exactly when length, pattern and format hold |
| Validator.SchemaValidator.ValidateNumber | packages/integration-contracts/src/schema.ts:312-322 | no issue exactly when the bounds hold |
| Validator.SchemaValidator.ValidateWithoutIssues | packages/integration-contracts/src/schema.ts:396-402 | tells whether a separate validation, with the definition checked again, finds nothing |
| Validator.SchemaValidator.ValidateCondition | packages/integration-contracts/src/schema.ts:198-255 | `if` chooses between `then` and `else` |
| Validator.SchemaValidator.CountMatches | packages/integration-contracts/src/schema.ts:198-255 | counts the alternatives that match, for `anyOf` and `oneOf` |
| DefinitionTree.CheckDefinition | packages/integration-contracts/src/schema.ts:88-196 | the walk over the objects of a schema finds nothing exactly when the definition is clean |
| DefinitionWalk.ValidateSchemaDefinition | packages/integration-contracts/src/schema.ts:88-196 | terminates on shared and cyclic schema graphs, and is silent exactly when every reachable subschema is clean |
| CompatibilityChecker.CheckSchemaCompatibility | packages/integration-contracts/src/compatibility.ts:12-20 | the checker reports exactly the findings of the specification, with its `seen` set skipping only comparisons already reported, which are those that are true; none breaks exactly when the change only relaxes, and there is none at all for no change |
| CompatibilityChecker.Checker.CompareSchema | packages/integration-contracts/src/compatibility.ts:22-160 | adds exactly the findings of this comparison |
| CompatibilityChecker.Checker.CompareScalars | packages/integration-contracts/src/compatibility.ts:22-182 | adds exactly the findings on enum, pattern, format, bounds and uniqueness |
| CompatibilityChecker.Checker.CompareProperties | packages/integration-contracts/src/compatibility.ts:22-160 | adds exactly the findings below the declared properties |
| CompatibilityChecker.Checker.CompareRequired | packages/integration-contracts/src/compatibility.ts:22-160 | adds exactly the findings on required keys |
| Diff.FillTable | packages/plugin-cli/src/plan.ts:129-141 | every entry of the table is the greatest length of a common subsequence of the two suffixes |
| Diff.DiffLines | packages/plugin-cli/src/plan.ts:129-168 | same and removed lines rebuild `before`, same and added lines rebuild `after`, the kept lines number the table's first entry, and wherever lines are replaced those removed come before those added |
| Diff.RenderDiff | packages/plugin-cli/src/plan.ts:97-125 | the text renders a shortest script; nothing is shown for no change |
| Diff.RenderOps | packages/plugin-cli/src/plan.ts:101-125 | exactly the operations near a change are printed, with `@@` only where some were skipped |
| Diff.SelectContext | packages/plugin-cli/src/plan.ts:104-110 | the lines kept are those within the context of a change |
| DependencySort.Targets | packages/plugin-cli/src/frontend-generator.ts:46-70 | the targets are exactly the constraints between known items, kept as sets |
| DependencySort.Degrees | packages/plugin-cli/src/frontend-generator.ts:72-77 | the counts are the numbers of distinct predecessors |
| DependencySort.Release | packages/plugin-cli/src/frontend-generator.ts:95-106 | takes one from each target's count; exactly those that reach zero join the ready list, and the loop measure falls |
| RateLimits.RollingWindowRateLimiter.Create | packages/oidc-delegation/src/observability/rate-limiter.ts:16-21 | a limit that is not positive is refused |
| RateLimits.RollingWindowRateLimiter.TryConsume | packages/oidc-delegation/src/observability/rate-limiter.ts:24-36 | counts the call and answers as the specification does |
| RateLimits.RollingWindowRateLimiter.Evict | packages/oidc-delegation/src/observability/rate-limiter.ts:42-49 | drops exactly the buckets idle for two windows |
| RateLimits.ApiKeyRateLimiter.Check | packages/m2m-api-key/src/api-key-rate-limiter.ts:21-39 | admits or gives the seconds to wait, as specified, with 60 as the default limit |
| RateLimits.ApiKeyRateLimiter.Evict | packages/m2m-api-key/src/api-key-rate-limiter.ts:41-48 | drops exactly the buckets idle for two windows |
| Throttle.OutboundThrottle.CheckAndConsume | packages/oidc-delegation/src/observability/outbound-throttle.ts:29-42 | refuses while the circuit is open without consuming allowance, otherwise asks the limiter |
| Throttle.OutboundThrottle.RecordProviderFailure | packages/oidc-delegation/src/observability/outbound-throttle.ts:48-56 | counts the failure and opens the circuit at the threshold |
| Throttle.OutboundThrottle.RecordSuccess | packages/oidc-delegation/src/observability/outbound-throttle.ts:44-46 | forgets the circuit |
| Throttle.OutboundThrottle.IsCircuitOpen | packages/oidc-delegation/src/observability/outbound-throttle.ts:58-66 | tells whether the circuit is open and forgets one whose cooldown is over |
| DelegatedLog.DelegatedSecurityEventLogger.RecordRejection | packages/oidc-auth/src/delegated/delegated-security-event-logger.ts:21-41 | writes the summary of a finished window, then one line or one more suppressed |
| DelegatedLog.DelegatedSecurityEventLogger.FlushExpired | packages/oidc-auth/src/delegated/delegated-security-event-logger.ts:48-58 | writes out and drops exactly the expired buckets, losing no count |
| DelegatedLog.DelegatedSecurityEventLogger.FlushAll | packages/oidc-auth/src/delegated/delegated-security-event-logger.ts:60-68 | writes out every bucket and clears them |
| DelegatedLog.DelegatedSecurityEventLogger.OnModuleDestroy | packages/oidc-auth/src/delegated/delegated-security-event-logger.ts:43-46 | leaves nothing pending |
| ClientLog.SecurityEventLog.RecordRejection | packages/oidc-delegation/src/observability/security-event-log.ts:20-26 | one line if the limiter admits it, otherwise one more suppressed |
| ClientLog.SecurityEventLog.FlushSuppressed | packages/oidc-delegation/src/observability/security-event-log.ts:34-47 | writes out all that is suppressed and clears it |
| ClientLog.SecurityEventLog.Dispose | packages/oidc-delegation/src/observability/security-event-log.ts:28-32 | leaves nothing pending |
| Polling.NotificationPollingController.IssueRequest | packages/notification/src/frontend/use-notification-polling.ts:20-37 | issues the next request and makes it the one in flight |
| Polling.NotificationPollingController.RefreshNow | packages/notification/src/frontend/use-notification-polling.ts:39-42 | issues unless inactive, hidden or in flight |
| Polling.NotificationPollingController.ForceRefreshNow | packages/notification/src/frontend/use-notification-polling.ts:44-47 | issues whenever active |
| Polling.NotificationPollingController.StartPolling | packages/notification/src/frontend/use-notification-polling.ts:49-55 | activates once, refreshes and starts one timer unless disabled |
| Polling.NotificationPollingController.StopPolling | packages/notification/src/frontend/use-notification-polling.ts:57-62 | deactivates, makes replies stale and clears the timer |
| Polling.NotificationPollingController.ShowOrHide | packages/notification/src/frontend/use-notification-polling.ts:64-67 | refreshes on becoming visible |
| Polling.NotificationPollingController.OnResult | packages/notification/src/frontend/use-notification-polling.ts:24-28 | passes the count on unless stale |
| Polling.NotificationPollingController.OnFailure | packages/notification/src/frontend/use-notification-polling.ts:29-31 | passes the error on unless stale |
| Polling.NotificationPollingController.OnFinally | packages/notification/src/frontend/use-notification-polling.ts:32-34 | settles, and clears the request in flight if it is this one |
| Mirror.MirrorModel.Handle | packages/master-data-client/src/sync-handler.factory.ts:37-83 | the answer and the rows after one event, by its type, its number against the row's, and its payload: what is deleted, written, skipped, ignored or refused, and that no other row changes |
| Mirror.MirrorModel.ReconcileEntity | packages/master-data-client/src/reconciliation/reconciliation.service.ts:96-148 | for a non-empty source with distinct ids the mirror ends with exactly the source's ids, each with the newer row, and the counts are as they should be; an empty source changes nothing |
| Permissions.ReconcilePermissions | packages/plugin-cli/src/permission-reconciler.ts:74-199 | no plan if and only if there is an error; the diagnostics are exactly those there is reason for; a plan holds exactly the ops that the two states call for, in strict order of their keys |
| Permissions.CheckIds | packages/plugin-cli/src/permission-reconciler.ts:96-117 | reports exactly the malformed and the repeated ids |
| Permissions.CheckAliases | packages/plugin-cli/src/permission-reconciler.ts:121-141 | reports exactly the aliases to nothing and to themselves |

## Left out

Delivery and receipts:

- Handlers, the event registry and the kill switch are answers given from outside; one configuration is shared by all workers.
- `Dispatcher.DomainEventDispatcher.Tick`: is proved for a tick that runs alone; its interleavings with other workers are the runs of `DeliveryProtocol`.
- The timer, start and stop of the dispatcher, metrics, log lines and the administrator's catalogue and paging.
- The row lock of the claiming query is modelled as the set of rows it skips.
- `DeliveryStarvation.StarvesIffABatchIsOpen`: is about runs in which everything enqueued is of a later sequence, as event sequences are handed out in increasing order.
- Digests are an unspecified function of the payload. Receipts are never deleted, as in the source.
- An insert under a key that another open transaction holds waits for that transaction; isolation levels that would answer at once are not modelled.

Integration contracts:

- Numbers are integers: no fractions, exponents or negative zero. Strings are sequences of Unicode scalar values: no lone surrogates, and the parser reads no escaped surrogate pairs, fractions or exponents.
- Values that are not JSON (undefined, functions, dates, class instances), on which the printer throws, are not in the type.
- Keys inherited from `Object.prototype`, which the `in` operator would find.
- Regular expressions, URI and date-time formats are functions of the environment; an invalid pattern, which throws, is not modelled.
- References resolve through a finite table of the root. Tables with a cycle through `anyOf`, `oneOf` or `if` are excluded, because validation of one value can then call itself with the same arguments; `References.SafeIffNoRestartingCycle` says which tables remain.
- The remaining oddities of untyped schemas: an empty `type` string, a `required` that is no array.
- `Validator.SchemaValidator.Validate`: states when there is no issue, not the wording and order of the issues.
- `CompatibilitySoundness.CompatibilityIsSound`: covers changes within `Covered`, whose keywords the checker compares; references and what they resolve to are unchanged. It goes one way, because exact containment of schemas is not something a caller could check beforehand; `CompatibilityGaps` shows a missed change for every clause given up.
- Extraction of classified paths and the assertion wrapper around the validator.
- The IPv6 test for validity, brackets and lower-casing come before the modelled part; digits of either case are read. Numbers with a sign or a 0x prefix, which that test refuses, are not modelled. The choice of hosts, ports, protocols and the resolver are I/O.

Identity:

- `IdentityInvariants.OneUserForGood`: holds for calm runs, which include all runs without account deletions; what goes wrong in the others is `IdentityInvariants.LivingMappingIsLostIff`.
- Tokens are taken as verified; names, actor emails and the application name of audit rows; how the identity store compares emails.

Plugin tooling:

- Ids of sortable items are integers with their order; the locale's comparison of strings is assumed to be a strict total order. An empty id in `before` or `after`, which the code ignores, is an absent one.
- `DependencySort.SortWithDependencies`: says nothing about lists with repeated ids beyond terminating and the ids of the error.
- The rendering and applying of whole plans.
- `Permissions.SecondPlanIsIdle`: applying a plan is modelled after its description, since the adapter that does it is not part of the repository. The digest of a plan, the wording and order of diagnostics, and where the desired state is collected from.

Mirrors:

- `Mirror.MirrorModel.Handle`: is one atomic step; handlers that interleave are the runs of `MirrorRaces`. The time of synchronisation, the mapper, and events whose payload is missing are data of the event.
- `Mirror.MirrorModel.ReconcileEntity`: for a source with repeated ids only the ids and the counts of deletions are stated. The scheduler, fetching and the isolation of one entity's failure from another's.

Timed controllers:

- Timers fire as events; intervals and their lengths are not modelled. The wording of log lines and the latency fields.
- `DelegatedLog.SinglesAreBounded`: is about a logger in service; after shutdown the buckets are gone and a new rejection opens a new window.
- The React hook around the polling controller.
- Callbacks that call the controller back do so between the steps of the promise chain.
