# TinkerBot: a verified model

TinkerBot's control plane accepts verification results from CI runs, stores factory definitions, and shows work
orders; its GitHub Action prints what it finds. This project models the four places where that is intricate and
proves, for every input, every run or every reachable state, what they promise.

1. **Ingest of hosted assurance** (`apps/control-plane-worker/src/assurance-routes.ts`). Any number of requests,
   many of them carrying the same OIDC run token, interleave at every `await` over one string-keyed metadata table,
   and any of them may stop between two steps. `Ingest` is the step system: one step between two awaits, at most one
   call on the table in each, and a log of what is done to the outside. `IngestSafety` holds the inductive invariant,
   `IngestTheorems` the theorems over whole runs, `IngestRuns` and `IngestRetries` the runs that do happen,
   `IngestAnswers` and `IngestOutcomes` the answers and outcomes told from what was submitted,
   `IngestExamples` concrete worlds the runs begin in, `IngestStore` the refinement of the flat table to three separate
   structures, and `IngestHandler` the handlers as the code runs them, method by method against a table updated in
   place, proved equal to their steps in a row. `UntrustedSource`, `Receipts`, `Digests` and `MetadataKeys` hold
   the algorithms around the protocol; `Unicode` and `Percent` give UTF-8 (section 3 of RFC 3629) and
   `encodeURIComponent` (section 19.2.6 of ECMA-262) with their proofs.
2. **Text sanitising in the Action** (`action/run.ts`): `Sanitise` (redaction), `OneLine`, `WorkflowCommand`.
3. **The factory definition store** (`apps/control-plane-worker/src/factory-definition-store.ts`):
   `FactoryDefinitions` (what is accepted), `FactoryStore` (four ordered writes without a transaction as a step
   system), `FactorySafety` (what every interleaving keeps), `FactoryTakeover` (when ownership is raced), `FactoryService` (the class over its tables, and calls
   one after the other).
4. **Pure kernels of the control-plane UI** (`apps/control-plane/app.js`): `Routes` and `RouteReadings` (what is
   read in a location, and where an old one goes), `WorkOrders` and `WorkOrderReadings` (what a raw order is normalised
   to, field by field), `WorkOrderBoard`.

`Sequences` and `Json` hold what these share.

## How to read it

A JavaScript string is a sequence of UTF-16 code units. `Text` is that: a code unit outside the surrogate range is
the `char` of its value, and the surrogate `u` is the `char` 0x10000 + `u`, so ordinary literals are texts and lone
surrogates are covered. `None` stands for `undefined`, and for a `URIError` thrown by an encoding or decoding.

Services the code calls but does not define are fields of a record of functions (`Json.Runtime`,
`FactoryDefinitions.Compiler`, `WorkOrders.Runtime`); nothing is taken for granted of them beyond being functions,
except what `WorkOrders.Lawful` spells out about `String`, `Number` and `toLowerCase`. In particular no theorem
needs SHA-256 to be free of collisions: where a hash decides, the statement is about the hash. Identifiers drawn
with `crypto.randomUUID()` are fresh. Whatever else a step learns from outside (sessions, entitlements, expiry,
installations, work orders, the clock) is an argument of the step and so arbitrary.

## What the proofs found

- An assurance bundle lands on a run-token claim exactly when its organisation is called `run-token` and its
  repository is the hex hash of the token. Without such an organisation at most one request per token is ever in the
  effects (`AtMostOneEnters`); with one, two requests with one token get there, from a concrete initial state
  (`RunTokenOrganizationReopensClaims`, `TwoEnterWhereReopened`).
- `docs/security.md:17` promises an exact retry after a transport failure. Such a retry is answered as a replay and
  does nothing (`RetryIsReplayed`), and nothing else does either once the claiming request has stopped
  (`StoppedClaimantIsFinal`). So what has been done for the token after the retry is the whole plan exactly when the
  claiming request had itself been answered as ingested (`RetryCompletesExactly`). A request that stops between the
  claim and the bundle loses the submission, in a concrete run (`SubmissionLost`). The model follows the code.
- When the store inserts a claim but cannot report that it did, `putIfAbsent` answers false, which is meant to fail
  closed (`packages/hosted-integrations/src/d1-stores.ts:40-42`). The request then reads its own claim back, takes it
  for somebody else's and is answered as a replay, so that nothing of any run-token submission is ever stored
  (`FirstAnsweredAsReplay`, `UnreportedClaimsStoreNothing`).
- `constantTimeTextEqual` takes a lone surrogate and U+FFFD for equal. For well-shaped digests this cannot matter.
- Redaction is complete for bracket-free secrets exactly when none of them lies inside `REDACTED`. For one secret of any
  characters the condition is exact as well (`PassExactly`): it can return in four ways, because it lies inside the
  replacement, because the replacement lies inside it, because it begins as the replacement ends, or because it ends as
  the replacement begins and is found where it should be in its own front followed by itself. So `abc[` returns in
  `abcabc[`, while `[[[[`, which also touches the replacement, never does (`EndingExample`, `TouchingExample`).
  `oneLine` can additionally put a secret back together when the secret has a space in it and is otherwise a single line.
- A version number that is taken, or a stop after the first write, leaves a definition that
  `getLatestDefinition` reports although the factory row never names it (`OrphanDisagrees`).
- A call can end on the factory of another organisation, and overwrite its name, digest and automations, exactly when
  the factory is not there yet and two calls that pass every check contest it for different organisations
  (`TakeoverExactly`, `ContestedIsTaken`); such a call always is one that looked before the row existed
  (`TakeoverOnlyByRace`).
- The 2048-byte limit on paths never decides: 512 code units are at most 1536 bytes. The limit on a factory's name
  is checked on the trimmed name, while the store keeps the name as it came. Its two callers trim before they call
  (`apps/control-plane-worker/src/index.ts:444`, `packages/factory/src/warp.ts:437`).
- `routeInfo` reads `/app?...` as the root but the location it is moved to, `/?...`, as the marketing page.
- `normalizeDecision` accepts `constructor` and `__proto__`, which every object inherits. `normalizeOrder` is
  idempotent exactly when the risk is not a truthy value that converts to the empty string, such as `[]`.

## Model

| member | source | states |
|---|---|---|
| IngestTheorems.AtMostOneEnters | apps/control-plane-worker/src/assurance-routes.ts:173-218 | in every reachable state, whatever the interleaving and whoever stopped, at most one of the requests that carry a token is at, in or through the effects |
| IngestTheorems.TokenEventsArePrefix | apps/control-plane-worker/src/assurance-routes.ts:173-218 | everything logged for a token is a prefix of one single request's ordered plan: claim, bundle, audit, evidence, publication, routing, queue, claim again |
| IngestTheorems.RefusalsAddNothing | apps/control-plane-worker/src/assurance-routes.ts:147-187 | replays, conflicts, rejections and unavailable claims have logged nothing, or only the insertion of a claim that the store could not report |
| IngestTheorems.ClaimNeverChanges | apps/control-plane-worker/src/assurance-routes.ts:176-217 | from any reachable state on, the record under a claimed token's key is there for ever and is the same record, also through the final rewrite |
| IngestTheorems.StoppedClaimantIsFinal | apps/control-plane-worker/src/assurance-routes.ts:147-187 | once the claiming request has finished or stopped, no continuation of the run adds an event to its token |
| IngestRuns.RetryIsReplayed | apps/control-plane-worker/src/assurance-routes.ts:143-187 | when the token is claimed for its payload, any admissible, unhindered request that runs on its own is answered as a replay and leaves no row and no event |
| IngestRetries.RetryCompletesExactly | apps/control-plane-worker/src/assurance-routes.ts:147-218 | after an exact retry of a finished or stopped claimant, what has been done for the token is the claimant's claim and whole plan exactly when the claimant had been answered as ingested |
| IngestRetries.PlanDoneExactly | apps/control-plane-worker/src/assurance-routes.ts:173-218 | a run-token request has done its claim and its whole plan exactly when it was answered as ingested |
| IngestRetries.LostBetweenClaimAndBundle | apps/control-plane-worker/src/assurance-routes.ts:176-188 | a claimant that stops before the bundle, retried exactly: the retry is a replay and the claim is all that was ever done |
| IngestExamples.SubmissionLost | apps/control-plane-worker/src/assurance-routes.ts:119-188 | a concrete setting and initial state, with a bearer the route accepts, in which a submission is lost in this way |
| IngestTheorems.AcceptedAnswersAgree | apps/control-plane-worker/src/assurance-routes.ts:147-187 | a request answered as ingested or replayed carries the payload digest that its token is claimed with |
| IngestAnswers.AcceptedAnswersSay | apps/control-plane-worker/src/assurance-routes.ts:145-187 | a request answered as ingested or replayed finds, under the hash of its bearer, the hash of the canonical form of its own repository and bundle |
| IngestAnswers.ReusedTokenExactly | apps/control-plane-worker/src/assurance-routes.ts:145-187 | a token that another request has claimed, presented again: a conflict exactly when the two uses, repository and bundle if any, have different fingerprints; else, if nothing is wrong with it, a replay; in either case no row and no event |
| IngestAnswers.SamePayloadExactly | apps/control-plane-worker/src/assurance-routes.ts:146 | two submissions have one payload digest exactly when the canonical forms of repository and bundle, an absent bundle left out, have one hash |
| IngestAnswers.ClaimSays | apps/control-plane-worker/src/assurance-routes.ts:145-177 | where a claim stands and what it says: the payload hash, the run, the repository and the expiry of the request that inserted it |
| IngestAnswers.TurnedAway | apps/control-plane-worker/src/assurance-routes.ts:104-142 | a request that is not admitted or names no repository is rejected and leaves nothing behind, on every route |
| IngestAnswers.WrongRepositoryRejected | apps/control-plane-worker/src/assurance-routes.ts:143 | a run token presented for another repository than its own is rejected and leaves nothing behind |
| IngestAnswers.OutOfScopeRejected | apps/control-plane-worker/src/assurance-routes.ts:150-160 | a run token whose work order belongs elsewhere, or whose organisation lacks the entitlement, is rejected and leaves nothing behind |
| IngestAnswers.AuditsAttest | apps/control-plane-worker/src/assurance-routes.ts:189-233 | every audit entry in a run tells the action, the repository and the actor of the request that wrote it |
| IngestAnswers.BundlesLabelled | apps/control-plane-worker/src/assurance-routes.ts:154-188 | every stored bundle is labelled with its request's organisation - of the session, else the work order, else the installation, else oidc -, repository and run |
| IngestAnswers.VerdictsSpelled | apps/control-plane-worker/src/assurance-routes.ts:200-213 | the factory is told PASS exactly when the last receipt says so, or the first one where the last says nothing, and FAIL likewise |
| IngestAnswers.RepositoryExactly | apps/control-plane-worker/src/assurance-routes.ts:32-35 | a repository is named exactly by a text of 1 to 300 units without control characters, less the white space at its ends |
| IngestOutcomes.FirstUseExactly | apps/control-plane-worker/src/assurance-routes.ts:119-218 | the first use of a run token, run on its own: let through, covered by its token and in scope it leaves exactly its claim, bundle, audit entry, copy, publication, routing and queue message, in this order, and is ingested; otherwise it is rejected without a trace; where no key can be made the claim alone stays |
| IngestOutcomes.SessionExactly | apps/control-plane-worker/src/assurance-routes.ts:119-218 | an ingest in a session, if it brings an acceptable bundle, stores and shows it in the name of the session's organisation and user, without a claim; any other is rejected without a trace |
| IngestOutcomes.DeletionExactly | apps/control-plane-worker/src/assurance-routes.ts:221-235 | a deletion removes exactly the row of its organisation and repository and leaves an entry that says who did; without admission or repository nothing happens |
| IngestOutcomes.SummaryExactly | apps/control-plane-worker/src/assurance-routes.ts:103-117 | a summary answers with the row of its organisation and repository, or with none where there is none |
| IngestOutcomes.CoveredExactly | apps/control-plane-worker/src/assurance-routes.ts:140-169 | the checks of a run token pass exactly for the token's repository, an acceptable bundle and genuine receipts, all read off the request |
| IngestOutcomes.ClaimantsCovered | apps/control-plane-worker/src/assurance-routes.ts:140-178 | in every run, whoever claimed a token or was answered by its claim had sent an acceptable bundle whose receipts are genuine for the token's repository and commit |
| IngestOutcomes.RepositoryNamed | apps/control-plane-worker/src/assurance-routes.ts:32-35 | which field each route names its repository with, and what it is named |
| IngestTheorems.UnavailableNeedsAbsence | apps/control-plane-worker/src/assurance-routes.ts:176-182 | the 503 answer is given only over a store without insert-if-absent, and over such a store no run-token request has any effect |
| IngestRuns.AbsenceIsUnavailable | apps/control-plane-worker/src/assurance-routes.ts:176-180 | over a store without insert-if-absent every admissible, unhindered request with an unclaimed token that runs on its own gets the 503 answer and leaves nothing behind |
| IngestRuns.UnreportedClaimsStoreNothing | apps/control-plane-worker/src/assurance-routes.ts:176-183 | over a store that cannot report its insertions no run-token request ever has an effect beyond inserting the claim |
| IngestRuns.FirstAnsweredAsReplay | apps/control-plane-worker/src/assurance-routes.ts:176-183 | over a store that inserts without reporting it, the first admissible submission of an unclaimed token can be answered as a replay |
| IngestTheorems.OldClaimsShutTheDoor | apps/control-plane-worker/src/assurance-routes.ts:147-148 | a token claimed before the run started has no effect in it |
| IngestTheorems.ExactlyOneIngests | apps/control-plane-worker/src/assurance-routes.ts:145-218 | among any other requests, when the users of one unclaimed token, with whatever payloads, are all answered past the checks, exactly one of them is ingested, the others with its payload digest are told of a replay and those with another of a conflict |
| IngestRuns.AdmissibleExactlyOneIngests | apps/control-plane-worker/src/assurance-routes.ts:104-218 | the same from the inputs alone: the submissions would pass and the outside lets them through, and once all are answered exactly one is ingested and the others are replays or conflicts by payload |
| IngestAnswers.ExactlyOneUseIngests | apps/control-plane-worker/src/assurance-routes.ts:145-218 | the same split told from the submissions: replay or conflict by the fingerprint of repository and bundle |
| IngestAnswers.AdmissibleExactlyOneUseIngests | apps/control-plane-worker/src/assurance-routes.ts:104-218 | and that from the inputs alone |
| IngestRuns.WinsUndisturbed | apps/control-plane-worker/src/assurance-routes.ts:120-178 | from any state of a run, an admissible request that has just arrived and then runs undisturbed wins its token if nobody holds it |
| IngestTheorems.ClaimsArePassed | apps/control-plane-worker/src/assurance-routes.ts:143-178 | a claim added in a run belongs to a request whose repository and scope matched, whose bundle is acceptable and whose receipts are all genuine |
| IngestTheorems.RoutedVerdictsAreProven | apps/control-plane-worker/src/assurance-routes.ts:200-213 | every verdict routed or queued is the last submitted receipt's, failing that the first one's, each a receipt with matching digest, repository and commit, or is UNKNOWN |
| IngestTheorems.BundlesArePassed | apps/control-plane-worker/src/assurance-routes.ts:141-199 | whatever is stored, copied or published as a bundle is, unchanged, what its own request submitted for its own repository, and passed validation, scope and receipt checks |
| IngestRuns.RunTokenOrganizationReopensClaims | apps/control-plane-worker/src/assurance-routes.ts:90-92 | with an organisation called run-token there is a run at whose end two requests with the same token are in the effects |
| IngestExamples.TwoEnterWhereReopened | apps/control-plane-worker/src/assurance-routes.ts:90-218 | a concrete setting and initial state, with a bearer the route accepts, in which that run happens |
| IngestTheorems.RunsKeep | apps/control-plane-worker/src/assurance-routes.ts:94-236 | the invariant holds in every state of every run, and no claim is changed or lost on the way |
| IngestSafety.StepKeeps | apps/control-plane-worker/src/assurance-routes.ts:119-218 | one step of any request keeps its invariant and all claims, and logs exactly the next events of its plan |
| IngestSafety.PerformedIsPrefix | apps/control-plane-worker/src/assurance-routes.ts:176-217 | at every point a request has done its claim and a prefix of its plan, in order |
| IngestSafety.OthersUndisturbed | apps/control-plane-worker/src/assurance-routes.ts:147-187 | what one request knows about the table survives every change that keeps the claims |
| IngestSafety.StoppingUndoesNothing | apps/control-plane-worker/src/assurance-routes.ts:119-218 | a request that stops leaves its events as they are |
| Ingest.StepAdvances | apps/control-plane-worker/src/assurance-routes.ts:94-236 | each step keeps the request's route, leads to a point that fits it, and brings it nearer to an answer, so that every schedule ends |
| IngestStore.TableRefinesStructures | apps/control-plane-worker/src/assurance-routes.ts:90-92 | at every reachable state the one flat table stands for three independent maps - bundles, audit entries, claims - as the log makes them, also under writes of other subsystems |
| IngestStore.EveryTableRepresents | apps/control-plane-worker/src/assurance-routes.ts:90-189 | every table, whatever rows it holds, stands for some three structures |
| IngestStore.EventRefines | apps/control-plane-worker/src/assurance-routes.ts:177-233 | a write or deletion under one kind of key changes that structure at that address and nothing in the other two |
| IngestStore.ForeignRefines | apps/control-plane-worker/src/billing-routes.ts:55 | a write under a key that does not begin with `assurance:` touches none of the three structures |
| IngestStore.SummaryIsLastIngested | apps/control-plane-worker/src/assurance-routes.ts:103-117 | a summary answers with exactly the last bundle ingested for its organisation and repository and not deleted since |
| IngestHandler.HandleIngest | apps/control-plane-worker/src/assurance-routes.ts:119-219 | the ingest handler over the table it updates in place: final table, answer and effects are those of its steps run one after the other |
| IngestHandler.HandleDelete | apps/control-plane-worker/src/assurance-routes.ts:221-235 | the same for the deletion |
| IngestHandler.HandleSummary | apps/control-plane-worker/src/assurance-routes.ts:103-117 | the same for the summary, which leaves the table alone |
| IngestRuns.AloneIsARun | apps/control-plane-worker/src/assurance-routes.ts:94-236 | what a handler does on its own, after whatever happened before, is a run of the step system, so every theorem over runs holds of it: same table, same answer, same log |
| MetadataKeys.BundleKeyInjective | apps/control-plane-worker/src/assurance-routes.ts:90-92 | different organisation and repository pairs have different keys, whatever characters they hold |
| MetadataKeys.BundleKeyDefined | apps/control-plane-worker/src/assurance-routes.ts:90-92 | the key exists exactly when neither part holds a lone surrogate; otherwise encoding throws |
| MetadataKeys.BundleMeetsClaim | apps/control-plane-worker/src/assurance-routes.ts:90-145 | a bundle key equals a claim key exactly for the organisation run-token and the repository spelled like the token's hash |
| MetadataKeys.BundleMissesAudit | apps/control-plane-worker/src/assurance-routes.ts:90-189 | a bundle key is never an audit key, not even for an organisation called audit |
| MetadataKeys.ClaimMissesAudit | apps/control-plane-worker/src/assurance-routes.ts:145-189 | a claim key is never an audit key |
| MetadataKeys.AuditKeyInjective | apps/control-plane-worker/src/assurance-routes.ts:189 | audit keys of different entries differ although the organisation in them is not encoded |
| MetadataKeys.KeysSpelled | apps/control-plane-worker/src/assurance-routes.ts:90-189 | the three kinds of key, spelled out |
| MetadataKeys.BundleKeyOwn | apps/control-plane-worker/src/assurance-routes.ts:90-92 | no bundle key is a key of another subsystem |
| UntrustedSource.ScanExact | apps/control-plane-worker/src/assurance-routes.ts:37-47 | the scan says yes exactly when the depth plus the height exceeds 12 or the letters and digits of some reachable object key spell a forbidden word, up to case |
| UntrustedSource.ForbiddenExactly | apps/control-plane-worker/src/assurance-routes.ts:42-43 | a key is refused exactly when its ASCII letters and digits, in order, spell a forbidden word up to case |
| UntrustedSource.AcceptedSubtree | apps/control-plane-worker/src/assurance-routes.ts:37-47 | every part of an accepted value is accepted |
| UntrustedSource.ScanIgnoresPresentation | apps/control-plane-worker/src/assurance-routes.ts:41-43 | the order of siblings, repeated entries, leaf values, and the case and other characters of keys never change the outcome |
| UntrustedSource.NormalizedKeyIdempotent | apps/control-plane-worker/src/assurance-routes.ts:42 | normalising a key twice is normalising it once |
| Receipts.BundleAcceptedExactly | apps/control-plane-worker/src/assurance-routes.ts:49-57 | a bundle is accepted, unchanged, exactly when its schema is the supported one, all twelve fields are arrays, the scan finds nothing and its text is short enough |
| Receipts.VerifyHostedReceipt | apps/control-plane-worker/src/assurance-routes.ts:76-88 | a receipt is accepted exactly when, field by field, its schema and kind are the supported ones, its claimed digest denotes the hash of the rest of it, it names the repository up to case, and the commit if the token has a non-empty one; else the first failing check names the error |
| Json.WithoutExactly | apps/control-plane-worker/src/assurance-routes.ts:82 | what is hashed is the receipt with every field but its integrity block |
| Receipts.BoundExactly | apps/control-plane-worker/src/assurance-routes.ts:163-172 | receipts bind exactly when every one of them is genuine, and then the last one is bound |
| Receipts.BindReceipts | apps/control-plane-worker/src/assurance-routes.ts:163-172 | the loop over the receipts stops at the first failure and otherwise binds the last |
| Digests.ConstantTimeTextEqual | apps/control-plane-worker/src/assurance-routes.ts:63-70 | the loop that ors up exclusive-ors says equal exactly when the two octet sequences are equal |
| Digests.LoneSurrogateComparesEqual | apps/control-plane-worker/src/assurance-routes.ts:63-70 | two different strings, a lone surrogate and U+FFFD, compare as equal |
| Digests.DenotedHexDigest | apps/control-plane-worker/src/assurance-routes.ts:59-61 | hex text is two lower-case digits per octet and reading it gives the octets back |
| Digests.HexDigestDenoted | apps/control-plane-worker/src/assurance-routes.ts:59-61 | every run of lower-case hex pairs is the hex text of the octets it denotes |
| Digests.ClaimMatches | apps/control-plane-worker/src/assurance-routes.ts:80-84 | a well-shaped claimed digest compares equal to the computed one exactly when it denotes the same hash |
| Percent.DecodeEncoded | apps/control-plane-worker/src/assurance-routes.ts:91 | decodeURIComponent inverts encodeURIComponent on every string that can be encoded |
| Percent.EncodeDefined | apps/control-plane-worker/src/assurance-routes.ts:91 | encoding throws exactly on strings with a lone surrogate |
| Percent.UnreservedExactly | apps/control-plane-worker/src/assurance-routes.ts:91 | which 71 characters encoding leaves alone: the two alphabets, the digits and nine marks, one by one |
| Percent.EncodeClean | apps/control-plane-worker/src/assurance-routes.ts:91 | an encoded part consists of unreserved characters and percent signs, so it holds no colon, slash or question mark |
| Unicode.Utf8Length | apps/control-plane-worker/src/factory-definition-store.ts:45 | a string of n code units has between n and 3n UTF-8 octets, lone surrogates counted as U+FFFD |
| Unicode.Utf8Equal | apps/control-plane-worker/src/assurance-routes.ts:64-65 | two strings have the same octets exactly when they agree up to lone surrogates |
| Sanitise.RedactLeavesNoSecret | action/run.ts:26-30 | after all passes, in whatever order, no secret that cannot touch the replacement is left in any text |
| Sanitise.RedactsExactly | action/run.ts:26-30 | bracket-free secrets are hidden in every text exactly when none of them lies inside REDACTED |
| Sanitise.RedactIdempotent | action/run.ts:26-30 | redacting twice is redacting once, and redaction alters exactly the texts that hold a secret |
| Sanitise.Redact | action/run.ts:26-30 | the loop over the set secrets of at least four characters computes the passes in list order |
| Sanitise.RedactInOrder | action/run.ts:28 | the passes are made in the order of the list, each over the result of the one before |
| Sanitise.PassKeepsRest | action/run.ts:28 | a pass keeps everything between the occurrences and puts the replacement where they stood |
| Sanitise.Secrets | action/run.ts:28 | the secrets are exactly the set sources of at least four characters |
| Sanitise.JoinSplit | action/run.ts:28 | splitting at a secret loses nothing: joining the pieces with it gives the text back |
| Sanitise.SplitPieces | action/run.ts:28 | each piece of a split is a part of the text and holds no occurrence of the secret |
| Sanitise.PassCleans | action/run.ts:28 | a pass removes its own secret and recreates no other that was absent |
| Sanitise.PassExactly | action/run.ts:28 | for any secret, its pass leaves it out of every text exactly when it does not lie inside the replacement or around it, does not begin as the replacement ends, and does not end as it begins while being found first at its place after its own front |
| Sanitise.RedactsOneExactly | action/run.ts:26-30 | the same for redaction with one secret |
| Sanitise.EndingExample | action/run.ts:28 | `abcabc[` with the secret `abc[` is redacted to a text that still holds the secret |
| Sanitise.TouchingExample | action/run.ts:28 | a secret that overlaps the replacement's beginning and yet never returns |
| Sanitise.BracketedSecretReturns | action/run.ts:28 | a secret that begins as the replacement ends is recreated by its own pass where its remainder follows |
| OneLine.FlattenIsSingle | action/run.ts:36-38 | whatever goes in, the line has no CR, LF or TAB, no two adjacent white space characters and none at its ends |
| OneLine.OneLineKeepsWords | action/run.ts:36-38 | a printed line has the words of the redacted text, all of them and in their order |
| OneLine.OneLineIsSafe | action/run.ts:36-38 | a printed line holds none of the secrets that flattening cannot mend, and printing it again changes nothing |
| OneLine.OneLineLeaksExactly | action/run.ts:36-38 | a bracket-free secret can reach a printed line exactly when it lies inside REDACTED, or is itself a single line with a space in it |
| OneLine.CollapseCreatesNothing | action/run.ts:37 | collapsing runs of white space brings about no part without a space |
| WorkflowCommand.FivePassesAreOne | action/run.ts:32-34 | the five sequential replacements equal one simultaneous character-wise substitution |
| WorkflowCommand.EscapeIsSafeAndFaithful | action/run.ts:32-34 | the output has no raw CR, LF, colon or comma, every percent sign starts one of the five escapes, and reading the escapes gives the value back |
| FactoryDefinitions.ValidateExact | apps/control-plane-worker/src/factory-definition-store.ts:46-63 | the checks accept exactly the calls that meet every limit as stated, whose YAML parses, is repeated by its file if there is one, and with the files applied gives a valid definition; what is compiled is the digest and the automations of that definition |
| FactoryDefinitions.CompileExactly | apps/control-plane-worker/src/factory-definition-store.ts:57-64 | compiling succeeds exactly when the YAML parses, a file that states it agrees, the tree applies and the result is valid, and keeps the digest and automations of that result |
| FactoryDefinitions.ValidateNamesFirst | apps/control-plane-worker/src/factory-definition-store.ts:46-63 | a call is rejected with a complaint exactly when that complaint applies to it and none that the source checks before it does |
| FactoryDefinitions.TotalBytesConcat | apps/control-plane-worker/src/factory-definition-store.ts:55 | the total counts the octets of every file's contents once |
| FactoryDefinitions.AcceptedFilesAreSafe | apps/control-plane-worker/src/factory-definition-store.ts:51-55 | accepted files have distinct paths that never leave the root whichever slash separates them, and fit all limits |
| FactoryDefinitions.OctetLimitRedundant | apps/control-plane-worker/src/factory-definition-store.ts:52 | dropping the 2048-byte limit on paths accepts the same files |
| FactorySafety.RunsKeep | apps/control-plane-worker/src/factory-definition-store.ts:42-72 | under every interleaving and any stops no definition or version row is lost or changed, a factory's organisation never changes, and a digest once set never becomes null |
| FactorySafety.Reachable | apps/control-plane-worker/src/factory-definition-store.ts:64-71 | in every reachable state each version row names a definition row of its factory, digest and time, a factory's digest is null or that of one of its definitions, and a stored YAML file equals the stored YAML |
| FactorySafety.TakeoverOnlyByRace | apps/control-plane-worker/src/factory-definition-store.ts:48-70 | a call that ended on a factory of another organisation had found no factory row when it looked |
| FactoryTakeover.TakeoverExactly | apps/control-plane-worker/src/factory-definition-store.ts:46-71 | over any tables and for any arriving calls: some run ends with a given call returned on the factory of another organisation exactly when the factory was absent and another call, passing all checks, named it for a different organisation |
| FactoryTakeover.ContestedIsTaken | apps/control-plane-worker/src/factory-definition-store.ts:48-71 | if both such calls look before either writes, the row keeps the first one's organisation and gets the second one's name, and the second one's digest and automations if it has a definition |
| FactoryTakeover.TakenIsContested | apps/control-plane-worker/src/factory-definition-store.ts:48-71 | in every run, a call that returned on the factory of another organisation contested an absent factory with a call of that organisation |
| FactoryTakeover.TakeoverHappens | apps/control-plane-worker/src/factory-definition-store.ts:48-71 | two calls with nothing but a name, over empty tables, end with one organisation's factory renamed by another |
| FactoryStore.CompiledIsCoherent | apps/control-plane-worker/src/factory-definition-store.ts:57-66 | what is stored is within the limits and its `.tinkerbot/factory.yaml`, if any, equals its YAML |
| FactoryService.ServeExactly | apps/control-plane-worker/src/factory-definition-store.ts:42-72 | an uninterrupted call that is rejected changes nothing, one whose version number is taken leaves only its definition, any other makes all its writes |
| FactoryService.ServeSays | apps/control-plane-worker/src/factory-definition-store.ts:42-72 | the same told from the call: nothing for an unacceptable one; else rows with its YAML, its slash-normalised files, the digest and the automations of the definition these describe, and the factory's row with the new name |
| FactoryService.D1FactoryDefinitionStore.PutFactory | apps/control-plane-worker/src/factory-definition-store.ts:42-72 | the method over the class's tables has the final tables and the result of the steps of its call |
| FactoryService.D1FactoryDefinitionStore.GetFactory | apps/control-plane-worker/src/factory-definition-store.ts:37-40 | the factory's row exactly when there is one |
| FactoryService.D1FactoryDefinitionStore.GetLatestDefinition | apps/control-plane-worker/src/factory-definition-store.ts:74-85 | nothing exactly when the factory has no definition, else YAML, files and digest of a newest one |
| FactoryService.SequentialCallsAgree | apps/control-plane-worker/src/factory-definition-store.ts:46-85 | for calls one after the other with increasing times: every factory's digest is that of its newest definition, and a reader finds exactly the YAML and the slash-normalised files stored last |
| FactoryService.ServeAllKeeps | apps/control-plane-worker/src/factory-definition-store.ts:42-72 | the agreement of the tables that every interleaving keeps holds after any list of whole calls, rejected and half-done ones included |
| FactoryService.AgreesExactly | apps/control-plane-worker/src/factory-definition-store.ts:64-85 | for any times: a call that stores a definition leaves factory and newest definition in agreement exactly when no row that stays newest has another digest |
| FactoryService.WithoutYamlPreserves | apps/control-plane-worker/src/factory-definition-store.ts:57-71 | a call without YAML stores no definition and keeps agreement and disagreement as they were |
| FactoryService.OrphanDisagrees | apps/control-plane-worker/src/factory-definition-store.ts:66-70 | a call that ends after its first write leaves agreement exactly when the factory already had the same digest |
| FactoryService.StoredNameUnbounded | apps/control-plane-worker/src/factory-definition-store.ts:47-70 | for every length some longer name is accepted, and the call returns and leaves a factory row with just that name |
| FactoryService.NewestExists | apps/control-plane-worker/src/factory-definition-store.ts:75 | a factory with definitions has a newest one |
| Routes.FactoryHrefRead | apps/control-plane/app.js:77-90 | reading a printed factory location gives back its id - slashes, percent signs, question marks and all - its area and its entity; without an area, the dashboard and no entity |
| Routes.WorkspaceHrefRead | apps/control-plane/app.js:78-92 | reading a printed workspace location gives back its resource and entity, but an entity of factories is read as that factory |
| RouteReadings.SettingsRead | apps/control-plane/app.js:93 | every location under settings is read as its area, the profile if none is named |
| RouteReadings.FactoryRead | apps/control-plane/app.js:86-90 | every location under a factory is read as its area and entity, whatever follows |
| RouteReadings.FactoriesRead | apps/control-plane/app.js:91 | the location of the factories is read as their list |
| RouteReadings.ResourceRead | apps/control-plane/app.js:92 | every location under runs, environments, integrations or secrets is read as that page and its entity |
| RouteReadings.LoginRead | apps/control-plane/app.js:94 | every location under login is read as the login |
| RouteReadings.MarketingRead | apps/control-plane/app.js:95 | every other location is read as the marketing page of its first part |
| RouteReadings.RootRead | apps/control-plane/app.js:80-95 | the root is read as the root, with a query as the marketing home, and an empty path as the root |
| RouteReadings.RootAliasGoes | apps/control-plane/app.js:60 | /app and /app/overview go to the root and keep their query |
| RouteReadings.WorkAliasGoes | apps/control-plane/app.js:61-64 | /app/work and /app/work-orders go to the selected factory's work orders, with the order they name, and keep their query |
| RouteReadings.KeptAliasGoes | apps/control-plane/app.js:65-73 | aliases of factories, runs, environments, integrations, secrets and settings lose the /app and keep everything after it |
| RouteReadings.UsageAliasGoes | apps/control-plane/app.js:70-73 | /app/usage goes to /settings/usage |
| RouteReadings.UsageRead | apps/control-plane/app.js:93 | which is read as the usage area of the settings |
| RouteReadings.UnknownAliasStays | apps/control-plane/app.js:74 | any other alias stays where it is |
| Routes.CanonicalIdempotent | apps/control-plane/app.js:56-75 | canonicalising a canonical location changes nothing |
| Routes.AliasAgreesExactly | apps/control-plane/app.js:80-96 | an alias and the location it is moved to are read as the same route, alias flag aside, exactly when it is not the root alias with a query |
| Routes.SegmentsOfPrinted | apps/control-plane/app.js:29 | the segments of a printed path are the parts it was printed from, the empty ones left out |
| Sequences.JoinSplitOn | apps/control-plane/app.js:29-57 | splitting at a separator loses nothing: joining the pieces with it gives the text back |
| Sequences.SplitOnApart | apps/control-plane/app.js:29-57 | no piece of a split holds the separator |
| WorkOrders.NormalizeIdempotentExactly | apps/control-plane/app.js:156-169 | normalising a normalised order changes nothing exactly when the raw risk is not a truthy value that converts to the empty string |
| WorkOrders.LawfulRuntime | apps/control-plane/app.js:113-167 | the laws taken for granted of String, Number and toLowerCase can be met together |
| WorkOrders.EmptyListRisk | apps/control-plane/app.js:167 | an order whose risk is an empty list is changed by a second normalisation |
| WorkOrders.DecisionsStay | apps/control-plane/app.js:158-164 | the four decisions are decided again as they were, from graph, legacy review or fallback |
| WorkOrders.GroupStays | apps/control-plane/app.js:133-143 | a normalised group is normalised to itself given the same decisions |
| WorkOrders.ActorStays | apps/control-plane/app.js:127-131 | a normalised actor is normalised to itself whatever the fallback |
| WorkOrders.StageStays | apps/control-plane/app.js:116-124 | a normalised stage is normalised to itself |
| WorkOrders.DecisionStays | apps/control-plane/app.js:113 | a normalised decision is normalised to itself whatever the fallback |
| WorkOrders.LabelledExactly | apps/control-plane/app.js:12-18 | a decision has a label exactly when its key is not a name every object inherits |
| WorkOrders.AuthorizeExactly | apps/control-plane/app.js:145-169 | with default actions a release can be authorised exactly when a supplied decision awaits it or is on hold, or none is recognised, the order is unreleased, and its decided verification passed and review approved |
| WorkOrderReadings.AuthorizeFromRaw | apps/control-plane/app.js:145-169 | the same read off the raw order: its supplied release decision, its status, and what its verification and review come to |
| WorkOrderReadings.RevisedIsNotAuthorized | apps/control-plane/app.js:159-163 | an order whose graph assesses it for revision has changes requested and cannot be released by default |
| WorkOrderReadings.DecisionsExactly | apps/control-plane/app.js:158-164 | the four decisions of a normalised order: graph before order, assessment REVISE, NEEDS_HUMAN_REVIEW or CLEAR by its table before a decision, and each fallback |
| WorkOrderReadings.DecisionKeyExactly | apps/control-plane/app.js:113 | a text is read as a decision's key exactly when it spells it up to case, with dashes or white space for underscores |
| WorkOrderReadings.StageExactly | apps/control-plane/app.js:116-124 | which stage each raw stage name leads to |
| WorkOrderReadings.ActorExactly | apps/control-plane/app.js:127-131 | what each raw actor is normalised to |
| WorkOrderReadings.FieldsExactly | apps/control-plane/app.js:164-168 | where the id, factory, title, repository, actor and time of a normalised order come from, in order of preference |
| WorkOrderReadings.MeasuresExactly | apps/control-plane/app.js:167 | where its risk and its count of unknowns come from |
| WorkOrderReadings.GroupExactly | apps/control-plane/app.js:133-143 | the group is the first, in order of precedence, that the raw group or a decision speaks for |
| WorkOrderReadings.OrderGroup | apps/control-plane/app.js:133-169 | the group and the actions of a normalised order from the fields of the raw one |
| WorkOrders.DefaultOffers | apps/control-plane/app.js:145-154 | the default actions offer exactly what the order's state warrants |
| WorkOrders.FailedIsBlocked | apps/control-plane/app.js:133-143 | a failed or blocked verification puts the order among the blocked whatever group or release it claims |
| WorkOrders.NormalizedIsKnown | apps/control-plane/app.js:156-169 | the group and the stage of a normalised order are among the known ones |
| WorkOrderBoard.BuildOrder | apps/control-plane/app.js:156-169 | building the object and then assigning group and actions gives the normalised order |
| WorkOrderBoard.GroupOrders | apps/control-plane/app.js:193 | the loop fills every column with the orders of its group, in list order |
| WorkOrderBoard.ColumnExact | apps/control-plane/app.js:193 | a column holds exactly the orders of its group, each at its own index, in increasing index order |
| WorkOrderBoard.ColumnsPartition | apps/control-plane/app.js:193 | each order of a known group stands in exactly one column |
| WorkOrderBoard.UngroupedIsUnknown | apps/control-plane/app.js:193 | an order without a group stands in the unknown column |
| WorkOrderBoard.ReadyIsVerified | apps/control-plane/app.js:133-193 | no normalised order in the ready or released column has a failed or blocked verification |
| WorkOrderBoard.ProgressExact | apps/control-plane/app.js:194 | complete stages, then at most one current, then incomplete ones; one is current exactly when there are orders not all released, and it is the furthest stage any order is at |

## Left out

- HTTP, sessions, origin checks, entitlements and token expiry: whether they admit a request is an argument of its step.
- The write times of metadata rows, the `updated_at` columns, the source-upload marker and the key of the evidence copy.
- The two reads of a run and its work order (lines 151-152 and 206-208): each reads an arbitrary order of a known organisation.
- The text of rejections and the details of a routed verdict other than the work order and the verdict.
- Rows under `assurance:` keys that hold JSON `null` or text that is not JSON before the run begins: no route writes one.
- `canonicalize`, `JSON.stringify`, SHA-256 and lower-casing of repository names: functions of which nothing is assumed.
- `parseFactoryDefinition`, `applyFactoryTree`, `assertFactoryTreeIntegrity`, `validateFactoryDefinition` and `containsRawCredentials`: functions that accept or reject.
- The rows of `replaceAutomations`: one write of the definition's automations. `JSON.parse` is taken to invert `JSON.stringify` on stored files.
- Time stamps of definitions are integers: ISO texts of one format order as their times do.
- The billing routes: only that their keys do not begin with `assurance:`.
- The rest of the Action (processes, files, OIDC exchange, GitHub requests) and of the UI (templates, events, fetching).
- Browser normalisation of `.` and `..` segments, so a factory whose id is `..` is printed and read as if browsers left it alone.
- Fields of an order that the UI inherits from `Object.prototype`, and group names found there: both are taken as absent.
- `String`, `Number` and `toLowerCase` on arbitrary values: functions with the laws of `WorkOrders.Lawful`.
- Routes.FactoryHrefRead: the area is a word of unreserved characters, as all areas of the UI are; the code does not encode areas.
- OneLine.OneLineLeaksExactly: exact for one secret; for lists of secrets OneLineIsSafe gives the sufficient condition only, because one secret of a list can redact the text through which another would leak.
- Sanitise.RedactsExactly: exact for lists of bracket-free secrets, as PassExactly is for one secret of any characters; for lists with brackets RedactLeavesNoSecret gives a sufficient condition only, because one secret of a list can redact the text in which another would return.
