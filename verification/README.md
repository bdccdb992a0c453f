# Verified model of the agentic-workspace core

The core crate decides which instructions apply to a path, which recorded decisions are
current, which actions an agent is offered, and it carries out effects that must survive
crashes, retries and concurrent callers. This project models those parts in Dafny and proves
what they are for.

| file | what it models |
|---|---|
| `Glob.dfy` | path patterns: tokenizer, row-by-row matcher, token intersection, pattern overlap |
| `Lineage.dfy` | supersession of decision records: closure, cycle check, one head per scope |
| `Effects.dfy`, `EffectStore.dfy`, `EffectLaws.dfy` | effect attempts and results as create-new files, step by step and as whole calls, and what each call answers |
| `Machine.dfy` | one call left alone, as repeated steps |
| `Delegation.dfy`, `DelegationCalls.dfy` | launching a worker once and replaying its terminal outcome; what a call left alone answers, and runs after which it is never replayed |
| `IndependentPublication.dfy` | prepare, hard-link, commit for an independent owner's source |
| `ConfigWrite.dfy` | configuration writes and their recovery under a lock |
| `Enclave.dfy`, `Adoption.dfy`, `AdoptionTree.dfy` | enclave inventory and ordered multi-file publication |
| `Ordering.dfy`, `Decision.dfy`, `DecisionLaws.dfy`, `DecisionAdmission.dfy`, `DecisionMeaning.dfy` | the decision compiler, its laws, when it succeeds and what its answer means |
| `Capabilities.dfy` | normalisation of the capability contract |
| `Packet.dfy` | assignment packets, their integrity and their seal |
| `Dependency.dfy` | exact comparison of dependency observations |

## How the protocols are modelled

Files are a map from paths to a creator and a content; a file opened with create-new exists
at once but stays torn until a later step writes its content. One step of a call is one file
operation. Calls interleave freely, new ones arrive at any time, and a crash is a call that is
never scheduled again. A *run* is any sequence of such steps from a root without evidence
files, and the theorems hold at every position of every run. The environment assumption is
that nobody outside these calls edits or removes the evidence files; configuration sources,
by contrast, may be edited by anybody at any moment. Revalidation, decisions and the worker's
return are arbitrary inputs of a step. Publication in `Adoption.dfy` charges one unit of a budget
for each file operation, so "for every budget" means "at every crash point".

Digests stand for what they digest, that is, SHA-256 over canonical JSON is taken to be
injective; in `Packet.dfy` the two hash functions are parameters, and only the tamper theorem
assumes that they do not collide. A Dafny `char` is a Unicode scalar value, like a Rust one.

Three statements that look natural are not what the code does. Each has its exact condition and
a concrete failure:

- Overlap with a path read as a pattern is not matching that path. The two coincide for every
  pattern exactly when the path has only literal tokens (`Glob.OverlapIsMatching`). The pattern
  `?` overlaps `[a]` and does not match it (`Glob.OverlapIsNotMatching`), and a pattern free of
  metacharacters is no better: `a` overlaps `?` (`Glob.LiteralOverlapIsNotMatching`).
- A completely written terminal record is not always replayed: a torn completion or result file
  makes every later call refuse (`Delegation.TerminalReplays`). For every job that can be launched
  there are runs that end so (`DelegationCalls.TornResultIsReachable`,
  `DelegationCalls.TornCompletionIsReachable`).
- A recovery of a publication does not always finish: a temporary whose write was interrupted
  stops it for good (`Adoption.RecoveryCompletes`). A first publication that crashes right after
  opening its temporary ends there (`Adoption.StuckIsReachable`).

## Model

| member | source | states |
|---|---|---|
| Glob.TokenizeExact | src/core/src/instruction_applicability.rs:17-64 | the tokens of a pattern are the one and only parse of it by a declarative grammar of stars, single wildcards, bracket classes and literals, unclosed brackets included |
| Glob.Tokens | src/core/src/instruction_applicability.rs:17-64 | the index-driven scan produces exactly that parse |
| Glob.BracketMatches | src/core/src/instruction_applicability.rs:17-98 | `[` body `]` matches exactly the one-character texts that lie in one of the body's ranges or equal one of its single characters |
| Glob.NegatedBracketMatches | src/core/src/instruction_applicability.rs:17-98 | with `!` before the body it matches exactly the one-character texts that do neither |
| Glob.RangeMatches | src/core/src/instruction_applicability.rs:17-98 | `[a-b]` matches exactly one character from a to b, nothing when they are reversed, and `[!a-b]` exactly one outside |
| Glob.WildcardsMatch | src/core/src/instruction_applicability.rs:17-98 | `*` matches every text, and `?` exactly the texts of one character |
| Glob.UnclosedBracket | src/core/src/instruction_applicability.rs:17-64 | a bracket that nothing closes stands for itself before the rest of the pattern; a closing bracket right after it, or after its `!`, closes nothing |
| Glob.Matches | src/core/src/instruction_applicability.rs:66-88 | true exactly when the path can be cut into one fitting piece per token |
| Glob.NextRow | src/core/src/instruction_applicability.rs:72-86 | one row update turns membership of all prefixes for t tokens into membership for t + 1 |
| Glob.Intersect | src/core/src/instruction_applicability.rs:100-123 | testing range boundaries only is complete: true exactly when some character is accepted by both tokens, across the surrogate gap and for reversed, empty and negated ranges |
| Glob.SameInterval | src/core/src/instruction_applicability.rs:100-123 | a token accepts all or none of the characters between two neighbouring boundaries |
| Glob.PatternsOverlap | src/core/src/instruction_applicability.rs:127-155 | the worklist terminates and answers true exactly when some text is in both pattern languages |
| Glob.ClosedIsDead | src/core/src/instruction_applicability.rs:127-155 | a set of pair states closed under successors and without the final one contains no state with a common text |
| Glob.OverlapIsMatching | src/core/src/instruction_applicability.rs:66-155 | overlap with a path coincides with matching it, for every pattern, exactly when the path tokenizes to literals only |
| Glob.OverlapIsNotMatching | src/core/src/instruction_applicability.rs:66-155 | a concrete pattern and path that overlap without matching |
| Glob.LiteralPatternOverlap | src/core/src/instruction_applicability.rs:66-155 | a literal pattern overlaps a path exactly when the path, read as a pattern, matches the pattern's text, and matches only its own text |
| Glob.LiteralOverlapIsNotMatching | src/core/src/instruction_applicability.rs:66-155 | a pattern without metacharacters that overlaps a path it does not match |
| Lineage.Select | src/core/src/decision_source.rs:400-433 | the worklist yields the least set that holds the seeds and is closed under supersession, and fails exactly when that set leaves the archive |
| Lineage.SelectionIsComplete | src/core/src/continuity.rs:376-390 | a context selected from one archive never trips the completeness check of the projection |
| Lineage.Search.Visit | src/core/src/continuity.rs:392-410 | the recursive visit terminates, keeps the shared settled set sound, restores the active set, and fails only on a cycle |
| Lineage.CheckAcyclic | src/core/src/continuity.rs:392-414 | visiting all roots with a shared done set succeeds exactly for an acyclic relation |
| Lineage.MarkAncestry | src/core/src/continuity.rs:426-448 | marking the same-scope ancestry of one head keeps all marks sound, and fails only when two heads compete |
| Lineage.CheckHeads | src/core/src/continuity.rs:415-450 | passes exactly when no ancestor is reached by two heads of one scope |
| Lineage.HeadsAreUnique | src/core/src/continuity.rs:415-450 | that check is the same as: each record has in each of its scopes exactly one unreplaced head whose same-scope chain reaches it; diamonds are accepted |
| Lineage.Project | src/core/src/continuity.rs:330-450 | success exactly for admissible records (bounded, normal, distinct, closed, bound, acyclic, without competing heads), and then every scope of every record has one head |
| Effects.StepKeeps | src/core/src/attempt_store.rs:175-354 | every file operation of every call keeps what that call knows and touches only files it created |
| Effects.AtMostOneExecutes | src/core/src/attempt_store.rs:224-281 | over every run at most one call per logical effect is told to execute it |
| Effects.OneOutcome | src/core/src/attempt_store.rs:224-311 | all replays, commits and inspections of one effect, at any times of a run, return the same committed record |
| Effects.OutcomeBelongsToTheAttempt | src/core/src/attempt.rs:57-123 | every settled reply is the commit of the very record handed to the call that was told to execute |
| Effects.PlannedCustodyIsCommitted | src/core/src/attempt_store.rs:283-354 | the custody planned before publication is the custody the commit later returns |
| Effects.RunKeeps | src/core/src/attempt_store.rs:175-311 | along a run effect files only appear and complete, stay consistent, and replies once given stay given |
| Effects.AdmissionsAreCurrent | src/core/src/lib.rs:2148-2196 | over every run, a call told to execute asked for an invocation of the right kind that its decision lists as ready; one told to replay, or that the attempt is uncertain, asked for the retained invocation or a ready one, whose operation still has its retained, nonempty revision in the decision |
| EffectLaws.FirstAdmissionExactly | src/core/src/attempt_store.rs:224-281 | without custody a call left alone is told to execute and leaves the sealed attempt on file exactly when the invocation has the right kind and target, a key, is ready, and neither of its files exists; otherwise it fails and changes nothing |
| EffectLaws.RetainedAdmissionExactly | src/core/src/attempt_store.rs:224-281 | with custody it is answered by the retained record, as replay or uncertain, exactly when the custody is on file under its own names, its record is sound and the operation still means the same; no file changes |
| EffectLaws.CommitExactly | src/core/src/attempt_store.rs:283-313 | a commit writes the sealed result once, exactly when the attempt is on file, may take the outcome and has no result; with committed custody it only confirms that very result |
| EffectLaws.PrepareExactly | src/core/src/attempt_store.rs:315-354 | planning answers the custody a commit would return, exactly when the attempt may take the outcome and whatever result is on file or in custody is that one; no file changes |
| EffectLaws.InspectExactly | src/core/src/attempt_store.rs:357-375 | an inspection answers exactly when attempt and result are on file and the result is the commit of the attempt |
| EffectStore.Store.Create | src/core/src/attempt_store.rs:175-201 | create-new writes the whole record or changes nothing |
| EffectStore.Store.Admit | src/core/src/attempt_store.rs:224-281 | an uninterrupted admission ends in the reply and files of the step-by-step protocol |
| EffectStore.Store.Commit | src/core/src/attempt_store.rs:283-313 | an uninterrupted commit ends in the reply and files of the step-by-step protocol |
| EffectStore.Store.PrepareCommit | src/core/src/attempt_store.rs:315-354 | planning a commit changes no file and gives the protocol's reply |
| EffectStore.Store.InspectCommitted | src/core/src/attempt_store.rs:357-375 | inspection changes no file and gives the protocol's reply |
| Delegation.StepKeeps | src/core/src/native_delegation.rs:437-618 | every step of a call keeps what all carrier, terminal, result and completion files say about each other |
| Delegation.AtMostOneLaunch | src/core/src/native_delegation.rs:437-618 | over every run of calls, retries and crashes the worker of one effect is launched at most once |
| Delegation.TerminalReplays | src/core/src/native_delegation.rs:437-618 | after a completely written terminal a later undisturbed call replays exactly its outcome, unless the completion or result file is torn, when it refuses |
| Delegation.TerminalStateIsRecoverable | src/core/src/native_delegation.rs:437-618 | every reachable state with a complete terminal file is one from which the replay theorem applies |
| Delegation.LaunchIsRevalidated | src/core/src/native_delegation.rs:437-618 | over every run, a worker is launched only by a step whose revalidation succeeded, after its call was told to execute |
| Delegation.SuccessIsOnFile | src/core/src/native_delegation.rs:437-618 | a call that answers has that very outcome complete on file, in the terminal and in the result of its own attempt, and returns the custody that names both |
| DelegationCalls.FirstCallAnswers | src/core/src/native_delegation.rs:437-618 | without evidence on file, a call that is offered, revalidated and gets its worker's return answers exactly that return as an applied delegation-execution and leaves its five files complete and nothing else changed |
| DelegationCalls.FirstCallRefuses | src/core/src/native_delegation.rs:437-618 | without revalidation or without a return it refuses, with its attempt and run on file and no outcome |
| DelegationCalls.UnofferedCallRefuses | src/core/src/native_delegation.rs:437-618 | a call without a run file whose invocation is not ready, has the wrong kind or target or no key, or whose effect has any other file, refuses and changes nothing |
| DelegationCalls.ForeignRunRefuses | src/core/src/native_delegation.rs:437-618 | over a run file that is torn or names another invocation every call refuses and changes nothing |
| DelegationCalls.ForeignCompletionRefuses | src/core/src/native_delegation.rs:437-618 | so it does over a completion file that is torn, another invocation's or of another attempt |
| DelegationCalls.ForeignTerminalRefuses | src/core/src/native_delegation.rs:437-618 | and over a terminal file that is torn, of another attempt or does not name its future result |
| DelegationCalls.InterruptedRunRefuses | src/core/src/native_delegation.rs:437-618 | a run interrupted before its terminal file was complete is never taken up again, and nothing changes |
| DelegationCalls.UnrevalidatedRecoveryRefuses | src/core/src/native_delegation.rs:437-618 | a recovery that is not revalidated refuses and changes nothing |
| DelegationCalls.CompletedReplaysExactly | src/core/src/native_delegation.rs:437-618 | over a complete completion file a call replays its outcome exactly while the operation still has the revision it was admitted with, and changes nothing |
| DelegationCalls.TornResultIsReachable | src/core/src/native_delegation.rs:437-618 | for every job that can be launched some run leaves its result torn beside a complete terminal, and then every later call refuses |
| DelegationCalls.TornCompletionIsReachable | src/core/src/native_delegation.rs:437-618 | the same for a torn completion file |
| IndependentPublication.StepKeeps | src/core/src/native_independent_publication.rs:107-205 | every step keeps carriers, destinations, attempts and results consistent |
| IndependentPublication.CommitImpliesPublication | src/core/src/native_independent_publication.rs:107-205 | an effect has a result file only if its destination holds the exact carrier of the admitted invocation, then and ever after |
| IndependentPublication.SuccessIsPublished | src/core/src/native_independent_publication.rs:107-205 | a successful call has published and committed, and returns the custody its carrier announced |
| IndependentPublication.OnePublication | src/core/src/native_independent_publication.rs:107-205 | two successful calls that share a destination are for the same invocation |
| IndependentPublication.PreparedCarrierRecovers | src/core/src/native_independent_publication.rs:49-205 | once a carrier is prepared, an undisturbed call publishes and commits it exactly when no other invocation holds the destination and the result is not torn |
| IndependentPublication.FirstPublicationExactly | src/core/src/native_independent_publication.rs:107-205 | without carrier and publication, an undisturbed call publishes and commits the admitted value exactly when the invocation is ready and its effect was never attempted; otherwise it refuses and changes nothing |
| IndependentPublication.DestinationExactly | src/core/src/native_independent_publication.rs:17-33 | a destination is accepted exactly when it is a `.json` name without slash directly inside the owner's own module directory |
| IndependentPublication.PublicationIsRevalidated | src/core/src/native_independent_publication.rs:107-205 | over every run, a call about to link its carrier or to commit made, before, a step whose revalidation succeeded, and a commit also found the exact carrier at its destination |
| IndependentPublication.ForeignCarrierRefuses | src/core/src/native_independent_publication.rs:49-106 | a carrier found at the destination or prepared that is torn, is another invocation's or does not name its future result stops the call, and nothing changes |
| ConfigWrite.StepKeeps | src/core/src/native_config_write.rs:1086-1203 | every step of a write or a recovery keeps the evidence consistent and what its call knows |
| ConfigWrite.CommitImpliesPublication | src/core/src/native_config_write.rs:1086-1203 | a result file exists only if at that moment or earlier the source held exactly the admitted bytes |
| ConfigWrite.SuccessIsCommitted | src/core/src/native_config_write.rs:1086-1203 | a successful call has its result on file, returns the planned custody, and its source held the admitted bytes |
| ConfigWrite.WriteIsExact | src/core/src/native_config_write.rs:1132-1193 | a call changes no source but its own, to the admitted bytes, and only with attempt and marker on file and no result; admitted for an absent source it never replaces one that appeared |
| ConfigWrite.ConsumedWritePreservesSources | src/core/src/native_config_write.rs:1114-1130 | once an effect has a result no call for it changes any source again |
| ConfigWrite.RecoveryIsExact | src/core/src/native_config_write.rs:1086-1104 | an undisturbed recovery commits the interrupted write and itself exactly when it is ready and was never attempted, the source holds the admitted bytes and nothing was committed; it never touches a source |
| ConfigWrite.RetryIsExact | src/core/src/native_config_write.rs:1105-1203 | an undisturbed retry over a whole marker publishes and commits exactly when the marker is its own, the operation still has the revision it was admitted with, nothing was committed, no unfit temporary is in the way and the source is the one it was admitted for; otherwise no source changes |
| ConfigWrite.UnmarkedWriteIsExact | src/core/src/native_config_write.rs:1105-1203 | without a marker an undisturbed write publishes and commits exactly when its effect was never attempted and is offered, no temporary is in the way and the source is the one it was admitted for; a crash between attempt and marker makes every retry refuse |
| ConfigWrite.TornMarkerRefuses | src/core/src/native_config_write.rs:299-320 | over a torn marker every write and every recovery refuses and changes nothing |
| ConfigWrite.ForeignMarkerRefuses | src/core/src/native_config_write.rs:299-320 | a marker that is not the evidence of a write of this content to this source under this root, by an attempt on file, stops the call, and a missing one stops a recovery; nothing changes |
| ConfigWrite.WriteIsChecked | src/core/src/native_config_write.rs:1168-1187 | over every run, a call about to replace its source made, before, the step that revalidated and found the source as it was admitted for |
| ConfigWrite.RecoveryIsChecked | src/core/src/native_config_write.rs:1086-1100 | a recovery about to commit the interrupted write made, before, the step that revalidated and found the admitted bytes |
| ConfigWrite.CommitIsChecked | src/core/src/native_config_write.rs:1188-1203 | a call about to commit its own result made, before, the checked step after its publication, or has committed the write it recovers |
| ConfigWrite.CallIsRevalidated | src/core/src/native_config_write.rs:1036-1040 | whatever a call does, its first revalidation succeeded |
| Enclave.Validate | src/core/src/native_enclave.rs:118-148 | accepts exactly the well-formed declarations of which no two cover each other's path |
| Enclave.OneOwner | src/core/src/native_enclave.rs:113-148 | after validation every path has at most one covering declaration |
| Enclave.CoversText | src/core/src/native_enclave.rs:113-116 | on path texts: a row covers its own text and, as a subtree, every text that continues it after a slash |
| Enclave.WellFormedText | src/core/src/native_enclave.rs:118-141 | the well-formed rows, by their path text, scope, class, owner and lifetime |
| Enclave.Inventory.Walk | src/core/src/native_enclave.rs:211-279 | a walk that succeeds has visited everything visible from its start once, within count, depth and crowding, lists it and marks exactly the residue; it refuses only when one of those bounds is passed or an exact row names a visible directory |
| Enclave.TakeInventory | src/core/src/native_enclave.rs:201-301 | succeeds exactly for valid rows over an enclave that is absent or a directory, whose visible paths stay within count, depth and crowding and of which none is a directory an exact row names; the removals are then exactly the observed paths under the root that no row covers and that lead to no declared path, and the entries list the root, every subtree and every visible path, each with the one row that owns it, as residue or as a container |
| Enclave.ResidueIsClosed | src/core/src/native_enclave.rs:201-301 | whatever was observed below a removed directory is marked for removal too |
| Enclave.ResidueIsUnowned | src/core/src/native_enclave.rs:201-301 | nothing marked is covered by a row or lies above a declared path that exists |
| Enclave.ResidueExactly | src/core/src/native_enclave.rs:234-262 | an observed path is residue exactly when no tree that holds the same thing there could hold anything a row owns at or below it |
| Adoption.SortSorts | src/core/src/native_adoption.rs:861-874 | the publication order is a permutation of the updates sorted by identity rank and then depth |
| Adoption.ChildrenFirst | src/core/src/native_adoption.rs:863-874 | in that order everything inside a removed directory comes before it |
| Adoption.ReadyToRemove | src/core/src/native_enclave.rs:303-345 | at its turn a directory to be removed is empty and its ancestors are in place, in every reachable state, the new directories included |
| Adoption.ExactImages | src/core/src/native_adoption.rs:854-922 | after any crashes and recoveries every updated path holds its exact preimage or postimage, every other observed path is unchanged, whatever else is new is a directory above a published text, and the result is a tree |
| Adoption.TextBarrier | src/core/src/native_adoption.rs:883-890 | for every state and budget: publishing a text over a path that holds neither its preimage nor, in recovery, its postimage is refused with the state unchanged, and any change starts from the preimage |
| Adoption.ResidueBarrier | src/core/src/native_enclave.rs:303-345 | a path is removed only when it holds exactly the expected node, is empty and is reached through directories; otherwise nothing changes, and in a tree the call refuses unless a recovery finds the path gone |
| Adoption.BarrierHolds | src/core/src/native_adoption.rs:854-922 | for every state, order, budget and recovery: no path changes but from its exact preimage to its exact postimage, save that directories appear above a published text |
| Adoption.ForeignStopsPublication | src/core/src/native_adoption.rs:854-922 | a publication that starts with an updated text at neither of its images, or a first one with an observed residue that is not what was expected, fails |
| Adoption.IdentityBarrier | src/core/src/native_adoption.rs:854-922 | adopting, the identity file leaves its preimage only when all others have their postimage; removing, no path changes before the identity is gone |
| Adoption.RecoveryCompletes | src/core/src/native_adoption.rs:854-922 | from every such state recovery is admitted, and an uninterrupted one publishes every path exactly when no unpublished path has a torn temporary |
| Adoption.MakingAncestors | src/core/src/native_adoption.rs:892-893 | making the parents of a text grows the tree by directories above it only, all of them unless the call crashes |
| Adoption.StuckIsReachable | src/core/src/native_adoption.rs:894-907 | a publication interrupted right after opening its temporary, which no recovery completes |
| Adoption.RecoveryIsIdempotent | src/core/src/native_adoption.rs:854-922 | repeating the recovery of a finished publication changes nothing |
| Adoption.InventoryGivesPlan | src/core/src/native_enclave.rs:201-301 | the removals an inventory finds satisfy what the publication theorems ask of their updates |
| AdoptionTree.WorkTree.PublishText | src/core/src/native_adoption.rs:883-918 | publishing one text over the mutable tree ends, at every crash point, in the state the theorems speak about |
| AdoptionTree.WorkTree.CreateParents | src/core/src/native_adoption.rs:892-893 | so does making its missing parent directories, one at a time |
| AdoptionTree.WorkTree.Remove | src/core/src/native_enclave.rs:303-345 | so does removing one residue path |
| AdoptionTree.WorkTree.Publish | src/core/src/native_adoption.rs:854-922 | so does the whole publication loop |
| DecisionLaws.ReadyActionsCommute | src/core/src/lib.rs:2330-2359 | if operations change only their effect domains as a function of the domains they read and write, every order of the offered actions reaches the same state |
| DecisionLaws.IndependentCommute | src/core/src/lib.rs:2648-2677 | two operations with disjoint footprints commute on every state |
| DecisionLaws.OrderDoesNotMatter | src/core/src/lib.rs:2244-2305 | permuting the contributions changes neither whether compilation succeeds nor any part of its answer |
| DecisionLaws.RestrictionsOnlyRestrict | src/core/src/lib.rs:2307-2464 | more blockers, questions or blocked claims, from an owner already there or from a new one, never make an action available, allow a claim, or create or change terminal authority |
| DecisionLaws.ReadyExcludes | src/core/src/lib.rs:2307-2464 | offered actions exclude any task-wide blocker or question, composition blocker or decision request |
| DecisionAdmission.AnswerIsAuthorized | src/core/src/lib.rs:1022-1255 | every pending or offered action is declared by its owner within its effect ceiling, and allowed claims, restrictions and terminal authority come from owners entitled to them |
| DecisionAdmission.AdmitExactly | src/core/src/lib.rs:1022-1255 | a contribution is admitted exactly when it gives nothing, or its owner is declared and every action, claim, restriction and outcome in it is one the owner is entitled to |
| DecisionAdmission.CompileSucceedsExactly | src/core/src/lib.rs:2198-2260 | compilation succeeds exactly when the intended outcome's owner owns its claim, every contribution is entitled to what it gives, the public request has its one answer (and nobody responds without one), and no two current contributions share an owner |
| DecisionMeaning.ReadyExactly | src/core/src/lib.rs:2307-2359 | an action is offered exactly when it is current, no current restriction touches it, and no two different occurrences of such actions may interfere, a twice-listed action included |
| DecisionMeaning.IndependentExactly | src/core/src/lib.rs:2648-2677 | two actions interfere exactly when there is no contract, one of them is undeclared or has unknown reads, or some domain an effect of one belongs to is read by the other or belongs to an effect of the other; reading the same domain is no interference |
| DecisionMeaning.PrimaryExactly | src/core/src/lib.rs:2360-2480 | there is a primary action exactly when nothing is concluded and it is the only action that may be offered, contributed once |
| DecisionMeaning.CompositionExactly | src/core/src/lib.rs:2362-2412 | a composition blocker arises exactly from a conflict, or from several questions that hold up all work, and names exactly those actions or questions |
| DecisionMeaning.ListsExactly | src/core/src/lib.rs:2254-2305 | the answer lists the current owners once, and every current blocker, question and action as often as it is contributed |
| DecisionMeaning.ListsAreSorted | src/core/src/lib.rs:2254-2305 | owners, questions and actions come sorted by owner, then identity or operation, then consequence |
| DecisionMeaning.ClaimsExactly | src/core/src/lib.rs:2307-2330 | a claim is allowed exactly when a current owner allows it and none blocks it |
| DecisionMeaning.TerminalExactly | src/core/src/lib.rs:2679-2722 | there is terminal authority exactly when a current owner concludes the intended outcome at its own revision, without residue, restriction or a missing required claim |
| DecisionMeaning.RequestExactly | src/core/src/lib.rs:2362-2400 | a decision is requested exactly when nothing may be offered and it is the one question that holds up all work or, when none does, the one answer to the public request |
| DecisionMeaning.StatusExactly | src/core/src/lib.rs:2443-2464 | each status as a fact about the contributions: the intended outcome is concluded; it is not and something may be offered without conflict; a conflict, several questions or a blocker hold up all work; one question is to be decided; none of these |
| DecisionMeaning.ResolveExactly | src/core/src/lib.rs:2542-2633 | a request is resolved exactly when one contribution alone answers it, for its owner, revision and identity, with consequences of the kind it declares |
| Capabilities.NormalizeContract | src/core/src/lib.rs:779-1020 | succeeds exactly for a valid contract; the result holds every declaration and nothing else, and every effect an operation advertises has a domain of its owner |
| Capabilities.NamesHaveOneOwner | src/core/src/lib.rs:800-934 | in a valid contract no two owners share an owner name, domain, effect, operation or request kind |
| Capabilities.NormalizeOwners | src/core/src/lib.rs:800-945 | the ownership loop accepts exactly the owners that are sound and take no name twice, and records all of them |
| Capabilities.ResolvesAgrees | src/core/src/lib.rs:967-988 | the checks over the maps hold exactly when every declared operation reads known domains and claims only what its owner is granted |
| Capabilities.ValidExactly | src/core/src/lib.rs:779-1020 | a contract is valid exactly when every name of every kind is declared once among all owners, every effect is in a domain of its owner, every operation repeats nothing, advertises its owner's effects, reads declared domains and claims what its owner is granted, and every claim and grant names a declared owner, once, with well-formed scopes |
| Packet.Seal | src/core/src/assignment_packet.rs:64-94 | sealing fails only for a packet that is no object or keeps an unencodable number; the stabilisation check at its end never fails |
| Packet.SealIsItsIntegrity | src/core/src/assignment_packet.rs:35-94 | the integrity of a sealed packet is the hash it carries in all three places, and its worker context is the one computed from it |
| Packet.SealSettles | src/core/src/assignment_packet.rs:64-94 | sealing a sealed packet gives the same packet |
| Packet.BlankSealed | src/core/src/assignment_packet.rs:35-51 | the hash subject of a packet sealed with anything is the packet sealed with the empty text |
| Packet.AlteredPacketFails | src/core/src/assignment_packet.rs:35-63 | with collision-free hashes a packet that carries another's seal is intact exactly when it differs from it in the seal places only |
| Packet.LegacySealTells | src/core/src/assignment_packet.rs:48-58 | a packet that carries the older hash of some subject is intact exactly when that is its own subject, encodable or not |
| Packet.SealedPortable | src/core/src/assignment_packet.rs:64-94 | which parts of a packet decide whether its sealed form can be encoded |
| Packet.ContextTells | src/core/src/assignment_packet.rs:14-23 | the assignment, intent and proof a worker context tells, text by text: trimmed, empty for anything that is no text, with the fallbacks for revision and target |
| Packet.ContextGrants | src/core/src/assignment_packet.rs:14-23 | the scope, effects, stop conditions and authority it grants: lists and objects as the assignment has them, never proof authority and never a wider scope |
| Packet.ContextInputs | src/core/src/assignment_packet.rs:21-33 | its inputs: the required and read-first lists always, and the capsule, the requirements and the source work exactly when the assignment has them |
| Packet.TrimMeans | src/core/src/assignment_packet.rs:5-7 | trimming drops the leading and trailing white space and nothing else |
| Packet.SealedTerms | src/core/src/assignment_packet.rs:64-94 | the return contract of a sealed packet repeats the packet's assignment, revision, run and target beside the seal and keeps every other term |
| Packet.FieldsExactly | src/core/src/assignment_packet.rs:64-84 | the required fields of a sealed packet start with the given ones, name all three sealed fields and name nothing else |
| Packet.BlankKeeps | src/core/src/assignment_packet.rs:35-51 | taking the hash blanks the seal of the packet and of its return contract and keeps everything else outside the worker context |
| Packet.BlankContextKeeps | src/core/src/assignment_packet.rs:35-51 | and inside the worker context only the seal of its return contract |
| Dependency.Compare | src/core/src/dependency_binding.rs:206-268 | without an accepted basis unassessed; otherwise the last missing or unavailable observation decides, and without one the answer is current exactly for equal sequences, current observations, distinct identities and equal conclusions; the changed identities are listed in order |
| Dependency.ChangedDiffers | src/core/src/dependency_binding.rs:224-249 | an identity is listed as changed exactly when one of its observations is unconfirmed or it is no longer observed |

## Left out

- The protocols of `native_delegation.rs`, `native_independent_publication.rs` and `native_config_write.rs` are modelled as transition systems over values, not as classes: one step must be one file operation for crashes and interleavings to fall between any two.
- The whole decision compiler is a function on values; sorting in place is insertion sort on sequences, and the choice among several simultaneous errors is not stated.
- IndependentPublication.StepKeeps: does not model the destination lock, so the theorems hold for more interleavings than the code has.
- ConfigWrite.StepKeeps: does not model the deferral branch, the re-computation of the proposed bytes or the removal of a deferred continuation; they can only stop a call or leave a source alone.
- AdoptionTree.WorkTree.PublishText: does not read the path a second time just before replacing it, because nobody else edits it in the model.
- Lineage.Project: does not model provenance admissions, dependency currentness, reconciliation with durable owners or the consequences built from the heads; those are single-pass classifications.
- Capabilities.NormalizeContract: does not model the trimming of names, revisions, or the JSON schemas and result kinds that are carried along unchanged.
- Packet.Seal: does not model the bytes of canonical JSON; a number carries whether its encoding is settled.
- Glob.Matches: does not model Windows path normalisation or the validation of routes around it.
- Consequence identities are opaque texts in the decision model; that they are digests of their content is not used.
- Symbolic links, permissions and durability of writes; observed file systems are trees of directories, regular files and links.
- JSON Schema validation, TOML, YAML and JSON parsing, digest formatting, size limits and error messages.
- Instruction writing and maintainer logging publish by the same protocol and add nothing new; configuration views, claim review, activation and handoff are chains of field checks.
- Git, worker processes, environment variables and clocks appear only as arbitrary inputs of a step.
